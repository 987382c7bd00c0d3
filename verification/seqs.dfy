/** Sequence helpers: SQL `LIMIT` semantics and order-preserving selection. */
module Seqs {
  import opened Wrappers

  /** Number of rows a SQLite `LIMIT limit` keeps out of `n`: a negative limit
      means "no upper bound" in SQLite. */
  function LimitCount(limit: int, n: nat): nat {
    if limit < 0 || n <= limit then n else limit
  }

  /** The first rows of a result set under `LIMIT limit`. */
  function Take<T>(s: seq<T>, limit: int): (r: seq<T>)
    ensures |r| == LimitCount(limit, |s|)
    ensures r == s[..|r|]
  {
    if limit < 0 || |s| <= limit then s else s[..limit]
  }

  /** The present values of `xs`, in order. */
  function Somes<T>(xs: seq<Option<T>>): (r: seq<T>)
    ensures |r| <= |xs|
  {
    if |xs| == 0 then []
    else if xs[0].Some? then [xs[0].value] + Somes(xs[1..])
    else Somes(xs[1..])
  }

  /** The positions, counted from `base`, of the present values of `xs`, in
      increasing order. */
  function SomeIndicesFrom<T>(xs: seq<Option<T>>, base: nat): seq<nat>
    decreases |xs|
  {
    if |xs| == 0 then []
    else (if xs[0].Some? then [base] else []) + SomeIndicesFrom(xs[1..], base + 1)
  }

  /** The positions of the present values of `xs`, in increasing order. */
  function SomeIndices<T>(xs: seq<Option<T>>): seq<nat> {
    SomeIndicesFrom(xs, 0)
  }

  /** `idx` lists strictly increasing positions below `n`. */
  predicate IncreasingBelow(idx: seq<nat>, n: nat) {
    && (forall j | 0 <= j < |idx| :: idx[j] < n)
    && (forall j, k | 0 <= j < k < |idx| :: idx[j] < idx[k])
  }

  lemma {:induction false} SomeIndicesFromLength<T>(xs: seq<Option<T>>, base: nat)
    ensures |SomeIndicesFrom(xs, base)| == |Somes(xs)|
    decreases |xs|
  {
    if |xs| > 0 {
      SomeIndicesFromLength(xs[1..], base + 1);
    }
  }

  lemma {:induction false} SomeIndicesFromBounds<T>(xs: seq<Option<T>>, base: nat)
    ensures forall j | 0 <= j < |SomeIndicesFrom(xs, base)| ::
      base <= SomeIndicesFrom(xs, base)[j] < base + |xs|
    decreases |xs|
  {
    if |xs| > 0 {
      SomeIndicesFromBounds(xs[1..], base + 1);
    }
  }

  lemma {:induction false} SomeIndicesFromIncreasing<T>(xs: seq<Option<T>>, base: nat)
    ensures forall j, k | 0 <= j < k < |SomeIndicesFrom(xs, base)| ::
      SomeIndicesFrom(xs, base)[j] < SomeIndicesFrom(xs, base)[k]
    decreases |xs|
  {
    if |xs| > 0 {
      SomeIndicesFromIncreasing(xs[1..], base + 1);
      SomeIndicesFromBounds(xs[1..], base + 1);
    }
  }

  /** The `j`-th recorded position holds the `j`-th present value. */
  lemma {:induction false} SomeIndicesFromPickAt<T>(xs: seq<Option<T>>, base: nat, j: nat)
    requires j < |SomeIndicesFrom(xs, base)|
    ensures j < |Somes(xs)|
    ensures base <= SomeIndicesFrom(xs, base)[j] < base + |xs|
    ensures xs[SomeIndicesFrom(xs, base)[j] - base] == Some(Somes(xs)[j])
    decreases |xs|
  {
    SomeIndicesFromLength(xs, base);
    var tail := xs[1..];
    var ti := SomeIndicesFrom(tail, base + 1);
    if xs[0].Some? {
      assert SomeIndicesFrom(xs, base) == [base] + ti;
      assert Somes(xs) == [xs[0].value] + Somes(tail);
      if j > 0 {
        SomeIndicesFromPickAt(tail, base + 1, j - 1);
        assert xs[ti[j - 1] - base] == tail[ti[j - 1] - (base + 1)];
      }
    } else {
      assert SomeIndicesFrom(xs, base) == ti;
      SomeIndicesFromPickAt(tail, base + 1, j);
      assert xs[ti[j] - base] == tail[ti[j] - (base + 1)];
    }
  }

  lemma SomeIndicesFromPicks<T>(xs: seq<Option<T>>, base: nat)
    ensures |SomeIndicesFrom(xs, base)| == |Somes(xs)|
    ensures forall j | 0 <= j < |SomeIndicesFrom(xs, base)| ::
      base <= SomeIndicesFrom(xs, base)[j] < base + |xs|
      && xs[SomeIndicesFrom(xs, base)[j] - base] == Some(Somes(xs)[j])
  {
    SomeIndicesFromLength(xs, base);
    forall j | 0 <= j < |SomeIndicesFrom(xs, base)|
      ensures base <= SomeIndicesFrom(xs, base)[j] < base + |xs|
      && xs[SomeIndicesFrom(xs, base)[j] - base] == Some(Somes(xs)[j])
    {
      SomeIndicesFromPickAt(xs, base, j);
    }
  }

  lemma {:induction false} SomeIndicesFromMembership<T>(xs: seq<Option<T>>, base: nat)
    ensures forall i | 0 <= i < |xs| :: xs[i].Some? <==> (base + i) in SomeIndicesFrom(xs, base)
    decreases |xs|
  {
    if |xs| > 0 {
      var tail := xs[1..];
      SomeIndicesFromMembership(tail, base + 1);
      SomeIndicesFromBounds(tail, base + 1);
      var idx := SomeIndicesFrom(xs, base);
      assert idx == (if xs[0].Some? then [base] else []) + SomeIndicesFrom(tail, base + 1);
      forall i | 1 <= i < |xs|
        ensures xs[i].Some? <==> (base + i) in idx
      {
        assert xs[i] == tail[i - 1];
      }
    }
  }

  /** `Somes(xs)` is exactly the subsequence of `xs` at the positions
      `SomeIndices(xs)`: it keeps every present value, drops every absent one,
      and preserves their order. */
  lemma SomesIsOrderedSelection<T>(xs: seq<Option<T>>)
    ensures |SomeIndices(xs)| == |Somes(xs)|
    ensures IncreasingBelow(SomeIndices(xs), |xs|)
    ensures forall j | 0 <= j < |Somes(xs)| :: xs[SomeIndices(xs)[j]] == Some(Somes(xs)[j])
    ensures forall i | 0 <= i < |xs| :: xs[i].Some? <==> i in SomeIndices(xs)
  {
    SomeIndicesFromPicks(xs, 0);
    SomeIndicesFromIncreasing(xs, 0);
    SomeIndicesFromMembership(xs, 0);
  }

  /** Number of present values. */
  function CountSome<T>(xs: seq<Option<T>>): nat {
    if |xs| == 0 then 0 else (if xs[0].Some? then 1 else 0) + CountSome(xs[1..])
  }

  /** Every present value is kept: the selection's length is the number of
      present values, so nothing that succeeded is lost. */
  lemma {:induction false} SomesKeepsEveryPresent<T>(xs: seq<Option<T>>)
    ensures |Somes(xs)| == CountSome(xs)
    ensures (forall i | 0 <= i < |xs| :: xs[i].Some?) ==> Somes(xs) == seq(|xs|, i requires 0 <= i < |xs| => xs[i].value)
    decreases |xs|
  {
    if |xs| > 0 {
      SomesKeepsEveryPresent(xs[1..]);
    }
  }
}
