/** `ORDER BY date DESC` over observation rows. Rows with equal dates keep
    their table order; SQL leaves that tie order open and no contract below
    relies on it. */
module DateOrder {
  import opened Text
  import opened Records

  /** Every row's date is at least the date of every row after it. */
  predicate DescendingByDate(rows: seq<Observation>) {
    forall i, j | 0 <= i < j < |rows| :: LexLe(rows[j].date, rows[i].date)
  }

  /** Puts `x` into a date-descending sequence, before the first row whose
      date is not greater than its own. */
  function InsertByDate(x: Observation, rows: seq<Observation>): (r: seq<Observation>)
    requires DescendingByDate(rows)
    ensures DescendingByDate(r)
    ensures multiset(r) == multiset(rows) + multiset{x}
    ensures |r| == |rows| + 1
    decreases |rows|
  {
    if |rows| == 0 then [x]
    else if LexLe(rows[0].date, x.date) then
      LexLeDescendingHead(x, rows);
      [x] + rows
    else
      var rest := InsertByDate(x, rows[1..]);
      LexLeTotal(rows[0].date, x.date);
      InsertKeepsHeadFirst(rows[0], x, rows[1..], rest);
      assert rows == [rows[0]] + rows[1..];
      [rows[0]] + rest
  }

  lemma LexLeDescendingHead(x: Observation, rows: seq<Observation>)
    requires DescendingByDate(rows) && |rows| > 0
    requires LexLe(rows[0].date, x.date)
    ensures DescendingByDate([x] + rows)
  {
    var r := [x] + rows;
    forall i, j | 0 <= i < j < |r|
      ensures LexLe(r[j].date, r[i].date)
    {
      if i == 0 {
        if j > 1 {
          LexLeTransitive(rows[j - 1].date, rows[0].date, x.date);
        }
      }
    }
  }

  lemma InsertKeepsHeadFirst(h: Observation, x: Observation, tail: seq<Observation>, rest: seq<Observation>)
    requires DescendingByDate([h] + tail)
    requires DescendingByDate(rest)
    requires LexLe(x.date, h.date)
    requires multiset(rest) == multiset(tail) + multiset{x}
    ensures DescendingByDate([h] + rest)
  {
    var r := [h] + rest;
    forall j | 1 <= j < |r|
      ensures LexLe(r[j].date, h.date)
    {
      var y := rest[j - 1];
      assert r[j] == y;
      assert y in multiset(rest);
      if y != x {
        assert y in multiset(tail);
        assert y in tail;
        var k :| 0 <= k < |tail| && tail[k] == y;
        assert ([h] + tail)[k + 1] == y;
        assert ([h] + tail)[0] == h;
      }
    }
    forall i, j | 0 <= i < j < |r|
      ensures LexLe(r[j].date, r[i].date)
    {
      if i > 0 {
        assert r[i] == rest[i - 1] && r[j] == rest[j - 1];
      }
    }
  }

  /** Insertion sort into date-descending order. */
  function SortByDateDesc(rows: seq<Observation>): (r: seq<Observation>)
    ensures DescendingByDate(r)
    ensures multiset(r) == multiset(rows)
    ensures |r| == |rows|
    decreases |rows|
  {
    if |rows| == 0 then []
    else
      assert rows == [rows[0]] + rows[1..];
      InsertByDate(rows[0], SortByDateDesc(rows[1..]))
  }
}
