/** Counting the elements of a sequence that satisfy a predicate, and how the count
    moves when the sequence grows or one element is replaced. */
module Counting {

  function CountIf<T>(xs: seq<T>, p: T -> bool): (n: nat)
    ensures n <= |xs|
  {
    if |xs| == 0 then 0 else CountIf(xs[..|xs| - 1], p) + (if p(xs[|xs| - 1]) then 1 else 0)
  }

  lemma CountIfAppend<T>(xs: seq<T>, x: T, p: T -> bool)
    ensures CountIf(xs + [x], p) == CountIf(xs, p) + (if p(x) then 1 else 0)
  {
    assert (xs + [x])[..|xs|] == xs;
  }

  lemma {:induction false} CountIfConcat<T>(xs: seq<T>, ys: seq<T>, p: T -> bool)
    ensures CountIf(xs + ys, p) == CountIf(xs, p) + CountIf(ys, p)
    decreases |ys|
  {
    if |ys| == 0 {
      assert xs + ys == xs;
    } else {
      var zs := xs + ys;
      assert zs[..|zs| - 1] == xs + ys[..|ys| - 1];
      CountIfConcat(xs, ys[..|ys| - 1], p);
    }
  }

  lemma {:induction false} CountIfNone<T>(xs: seq<T>, p: T -> bool)
    requires forall i :: 0 <= i < |xs| ==> !p(xs[i])
    ensures CountIf(xs, p) == 0
    decreases |xs|
  {
    if |xs| > 0 {
      CountIfNone(xs[..|xs| - 1], p);
    }
  }

  lemma {:induction false} CountIfAll<T>(xs: seq<T>, p: T -> bool)
    requires forall i :: 0 <= i < |xs| ==> p(xs[i])
    ensures CountIf(xs, p) == |xs|
    decreases |xs|
  {
    if |xs| > 0 {
      CountIfAll(xs[..|xs| - 1], p);
    }
  }

  lemma {:induction false} CountIfUpdate<T>(xs: seq<T>, i: nat, x: T, p: T -> bool)
    requires i < |xs|
    ensures CountIf(xs[i := x], p) + (if p(xs[i]) then 1 else 0)
            == CountIf(xs, p) + (if p(x) then 1 else 0)
    decreases |xs|
  {
    var ys := xs[i := x];
    if i == |xs| - 1 {
      assert ys[..|ys| - 1] == xs[..|xs| - 1];
    } else {
      assert ys[..|ys| - 1] == xs[..|xs| - 1][i := x];
      CountIfUpdate(xs[..|xs| - 1], i, x, p);
    }
  }

  lemma {:induction false} CountIfPositive<T>(xs: seq<T>, i: nat, p: T -> bool)
    requires i < |xs| && p(xs[i])
    ensures CountIf(xs, p) >= 1
    decreases |xs|
  {
    if i < |xs| - 1 {
      CountIfPositive(xs[..|xs| - 1], i, p);
    }
  }

  /** If fewer elements satisfy p than q, and p implies q, some element satisfies q but not p. */
  lemma {:induction false} CountIfGap<T>(xs: seq<T>, p: T -> bool, q: T -> bool)
    requires forall i :: 0 <= i < |xs| ==> p(xs[i]) ==> q(xs[i])
    requires CountIf(xs, p) < CountIf(xs, q)
    ensures exists i :: 0 <= i < |xs| && q(xs[i]) && !p(xs[i])
    decreases |xs|
  {
    var n := |xs| - 1;
    if q(xs[n]) && !p(xs[n]) {
    } else {
      CountIfGap(xs[..n], p, q);
      var i :| 0 <= i < n && q(xs[..n][i]) && !p(xs[..n][i]);
      assert xs[i] == xs[..n][i];
    }
  }

  /** Counting a weaker predicate never gives less. */
  lemma {:induction false} CountIfMono<T>(xs: seq<T>, p: T -> bool, q: T -> bool)
    requires forall i :: 0 <= i < |xs| ==> p(xs[i]) ==> q(xs[i])
    ensures CountIf(xs, p) <= CountIf(xs, q)
    decreases |xs|
  {
    if |xs| > 0 {
      CountIfMono(xs[..|xs| - 1], p, q);
    }
  }

  lemma CountIfPair<T>(x: T, y: T, p: T -> bool)
    ensures CountIf([x, y], p) == (if p(x) then 1 else 0) + (if p(y) then 1 else 0)
  {
    assert [x, y][..1] == [x];
    assert [x][..0] == [];
  }
}
