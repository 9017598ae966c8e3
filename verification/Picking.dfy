/** Picking elements from a list, characterized without a loop: by counting. */
module Picking {
  import opened GoArith

  /** How many of the first n elements f picks. */
  function CountPicked<T, U>(f: T -> Option<U>, xs: seq<T>, n: nat): nat
    requires n <= |xs|
  {
    if n == 0 then 0 else CountPicked(f, xs, n - 1) + if f(xs[n - 1]).Some? then 1 else 0
  }

  /** ys is what f makes of the elements it picks, each at the place given by the number of picked ones before it. */
  ghost predicate Picks<T, U>(f: T -> Option<U>, xs: seq<T>, ys: seq<U>) {
    && |ys| == CountPicked(f, xs, |xs|)
    && forall i | 0 <= i < |xs| && f(xs[i]).Some? ::
      CountPicked(f, xs, i) < |ys| && ys[CountPicked(f, xs, i)] == f(xs[i]).value
  }

  lemma {:induction false} CountPickedAgrees<T, U>(f: T -> Option<U>, xs: seq<T>, ys: seq<T>, n: nat)
    requires n <= |xs| && n <= |ys| && xs[..n] == ys[..n]
    ensures CountPicked(f, xs, n) == CountPicked(f, ys, n)
  {
    if n > 0 {
      assert xs[..n][..n - 1] == xs[..n - 1] && ys[..n][..n - 1] == ys[..n - 1];
      assert xs[n - 1] == xs[..n][n - 1] && ys[n - 1] == ys[..n][n - 1];
      CountPickedAgrees(f, xs, ys, n - 1);
    }
  }

  lemma PicksNone<T, U>(f: T -> Option<U>)
    ensures Picks(f, [], [])
  {
  }

  /** Picked from two lists in turn. */
  lemma PicksConcat<T, U>(f: T -> Option<U>, xs: seq<T>, ys: seq<U>, us: seq<T>, vs: seq<U>)
    requires Picks(f, xs, ys) && Picks(f, us, vs)
    ensures Picks(f, xs + us, ys + vs)
  {
    CountPickedConcat(f, xs, us, |us|);
    forall i | 0 <= i < |xs + us| && f((xs + us)[i]).Some?
      ensures CountPicked(f, xs + us, i) < |ys + vs|
      ensures (ys + vs)[CountPicked(f, xs + us, i)] == f((xs + us)[i]).value
    {
      if i < |xs| {
        assert (xs + us)[..i] == xs[..i];
        CountPickedAgrees(f, xs + us, xs, i);
      } else {
        CountPickedConcat(f, xs, us, i - |xs|);
        assert (xs + us)[i] == us[i - |xs|];
      }
    }
  }

  lemma {:induction false} CountPickedConcat<T, U>(f: T -> Option<U>, xs: seq<T>, us: seq<T>, n: nat)
    requires n <= |us|
    ensures CountPicked(f, xs + us, |xs| + n) == CountPicked(f, xs, |xs|) + CountPicked(f, us, n)
  {
    if n == 0 {
      assert (xs + us)[..|xs|] == xs[..|xs|];
      CountPickedAgrees(f, xs + us, xs, |xs|);
    } else {
      CountPickedConcat(f, xs, us, n - 1);
      assert (xs + us)[|xs| + n - 1] == us[n - 1];
    }
  }

  lemma PicksOne<T, U>(f: T -> Option<U>, x: T)
    ensures Picks(f, [x], IfPicked(f, x))
  {
    assert CountPicked(f, [x], 0) == 0;
  }

  /** One more element: it comes last, if it is picked. */
  lemma PicksNext<T, U>(f: T -> Option<U>, xs: seq<T>, x: T, ys: seq<U>)
    requires Picks(f, xs, ys)
    ensures Picks(f, xs + [x], ys + IfPicked(f, x))
  {
    PicksOne(f, x);
    PicksConcat(f, xs, ys, [x], IfPicked(f, x));
  }

  lemma PicksLast<T, U>(f: T -> Option<U>, xs: seq<T>, ys: seq<U>)
    requires xs != [] && Picks(f, xs[..|xs| - 1], ys)
    ensures Picks(f, xs, ys + IfPicked(f, xs[|xs| - 1]))
  {
    PicksNext(f, xs[..|xs| - 1], xs[|xs| - 1], ys);
    assert xs == xs[..|xs| - 1] + [xs[|xs| - 1]];
  }

  /** The picked elements are all there is. */
  lemma {:induction false} PicksOnly<T, U>(f: T -> Option<U>, xs: seq<T>, ys: seq<U>, y: U)
    requires Picks(f, xs, ys) && y in ys
    ensures exists i :: 0 <= i < |xs| && f(xs[i]) == Some(y)
  {
    var k :| 0 <= k < |ys| && ys[k] == y;
    var i := PickedAt(f, xs, |xs|, k);
    assert f(xs[i]) == Some(y);
  }

  lemma {:induction false} CountPickedGrows<T, U>(f: T -> Option<U>, xs: seq<T>, m: nat, n: nat)
    requires m <= n <= |xs|
    ensures CountPicked(f, xs, m) <= CountPicked(f, xs, n)
  {
    if m < n {
      CountPickedGrows(f, xs, m, n - 1);
    }
  }

  lemma {:induction false} PickedAt<T, U>(f: T -> Option<U>, xs: seq<T>, n: nat, k: nat) returns (i: nat)
    requires n <= |xs| && k < CountPicked(f, xs, n)
    ensures i < n && f(xs[i]).Some? && CountPicked(f, xs, i) == k
  {
    if f(xs[n - 1]).Some? && k == CountPicked(f, xs, n - 1) {
      return n - 1;
    }
    i := PickedAt(f, xs, n - 1, k);
  }

  /** 0, 1, ..., n - 1. */
  function Positions(n: nat): seq<int> {
    seq(n, i => i)
  }

  /** What f makes of one element. */
  function IfPicked<T, U>(f: T -> Option<U>, x: T): seq<U> {
    if f(x).Some? then [f(x).value] else []
  }

  lemma PicksPosition<U>(f: int -> Option<U>, n: int, ys: seq<U>)
    requires 0 <= n && Picks(f, Positions(n), ys)
    ensures Picks(f, Positions(n + 1), ys + IfPicked(f, n))
  {
    PositionsNext(n);
    PicksNext(f, Positions(n), n, ys);
  }

  lemma PositionsNext(n: int)
    requires 0 <= n
    ensures Positions(n + 1) == Positions(n) + [n]
  {
  }
}
