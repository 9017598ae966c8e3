/** The greedy pairing of WSOL transfers with USDC transfers, and how good a matching it is. */
module SwapMatching {
  import opened GoArith
  import opened Chain
  import opened TokenAccounts

  datatype Transfer = Transfer(from: Address, to: Address, amount: uint64)

  /** Indices into a transfer list. */
  datatype Pair = Pair(left: nat, right: nat)

  /** The lookups of IsSwapTransfer find an account: otherwise the Go code dereferences nil. */
  predicate Resolvable(ts: seq<Transfer>, v: View) {
    forall i | 0 <= i < |ts| :: ts[i].from in v ==> ts[i].to in v
  }

  /** One side of the two transfers shares its owner: a route with several hops only matches on one side. */
  predicate IsSwap(usdc: Transfer, wsol: Transfer, v: View)
    requires usdc.from in v && usdc.to in v && wsol.from in v && wsol.to in v
  {
    v[usdc.from].owner == v[wsol.to].owner || v[usdc.to].owner == v[wsol.from].owner
  }

  /** What the inner loop asks of the transfers at i and j. */
  predicate Compatible(ts: seq<Transfer>, v: View, i: nat, j: nat)
    requires Resolvable(ts, v)
  {
    && i < |ts| && j < |ts|
    && ts[i].from in v && ts[j].from in v
    && v[ts[i].from].mint != v[ts[j].from].mint
    && if v[ts[i].from].mint == WSOL then IsSwap(ts[j], ts[i], v)
       else v[ts[i].from].mint == USDC && IsSwap(ts[i], ts[j], v)
  }

  datatype Pairing = Pairing(use: seq<bool>, pairs: seq<Pair>)

  /** The first free transfer at or after j that is compatible with i, or |ts|. */
  function Mate(ts: seq<Transfer>, v: View, use: seq<bool>, i: nat, j: nat): (r: nat)
    requires Resolvable(ts, v) && |use| == |ts| && j <= |ts|
    ensures j <= r <= |ts|
    ensures r < |ts| ==> !use[r] && Compatible(ts, v, i, r)
    ensures forall k | j <= k < r :: use[k] || !Compatible(ts, v, i, k)
    decreases |ts| - j
  {
    if j == |ts| || (!use[j] && Compatible(ts, v, i, j)) then j else Mate(ts, v, use, i, j + 1)
  }

  /** One round of the outer loop. */
  function Round(ts: seq<Transfer>, v: View, p: Pairing, i: nat): Pairing
    requires Resolvable(ts, v) && |p.use| == |ts| && i < |ts|
  {
    if p.use[i] then p
    else
      var j := Mate(ts, v, p.use, i, i + 1);
      if j == |ts| then p else Pairing(p.use[i := true][j := true], p.pairs + [Pair(i, j)])
  }

  /** The pairing after n rounds. */
  function PairUpTo(ts: seq<Transfer>, v: View, n: nat): (p: Pairing)
    requires Resolvable(ts, v) && n <= |ts|
    ensures |p.use| == |ts|
  {
    if n == 0 then Pairing(seq(|ts|, _ => false), []) else Round(ts, v, PairUpTo(ts, v, n - 1), n - 1)
  }

  /** Every pair passed the test of the inner loop. */
  ghost predicate AllCompatible(ts: seq<Transfer>, v: View, pairs: seq<Pair>)
    requires Resolvable(ts, v)
  {
    forall a | 0 <= a < |pairs| :: Compatible(ts, v, pairs[a].left, pairs[a].right)
  }

  lemma PairsAreCompatible(ts: seq<Transfer>, v: View, n: nat)
    requires Resolvable(ts, v) && n <= |ts|
    ensures AllCompatible(ts, v, PairUpTo(ts, v, n).pairs)
  {
  }

  /** The pairs that the code totals. */
  function GreedyPairs(ts: seq<Transfer>, v: View): (pairs: seq<Pair>)
    requires Resolvable(ts, v)
    ensures AllCompatible(ts, v, pairs)
  {
    PairsAreCompatible(ts, v, |ts|);
    PairUpTo(ts, v, |ts|).pairs
  }

  // ----- A valid, first-fit, maximal matching -----

  ghost predicate Member(p: Pair, i: nat) {
    p.left == i || p.right == i
  }

  ghost predicate Disjoint(pairs: seq<Pair>) {
    forall a, b, i: nat | 0 <= a < |pairs| && 0 <= b < |pairs| && Member(pairs[a], i) && Member(pairs[b], i) :: a == b
  }

  /** Transfer i is in one of the pairs. */
  ghost predicate Matched(pairs: seq<Pair>, i: nat) {
    exists a :: 0 <= a < |pairs| && Member(pairs[a], i)
  }

  /** When its turn came, the left transfer of pair a took the first compatible transfer after it that no
      earlier pair had taken. */
  ghost predicate TookFirst(ts: seq<Transfer>, v: View, pairs: seq<Pair>, a: nat)
    requires Resolvable(ts, v) && a < |pairs|
  {
    forall k | pairs[a].left < k < pairs[a].right && Compatible(ts, v, pairs[a].left, k) :: Matched(pairs[..a], k)
  }

  ghost predicate ValidMatching(ts: seq<Transfer>, v: View, pairs: seq<Pair>)
    requires Resolvable(ts, v)
  {
    && Disjoint(pairs)
    && (forall a | 0 <= a < |pairs| ::
      && pairs[a].left < pairs[a].right < |ts|
      && Compatible(ts, v, pairs[a].left, pairs[a].right)
      && TookFirst(ts, v, pairs, a))
    && forall a, b | 0 <= a < b < |pairs| :: pairs[a].left < pairs[b].left
  }

  /** The state of the loop after n rounds. */
  ghost predicate LoopState(ts: seq<Transfer>, v: View, p: Pairing, n: nat)
    requires Resolvable(ts, v) && n <= |ts|
  {
    && |p.use| == |ts|
    && ValidMatching(ts, v, p.pairs)
    && (forall a | 0 <= a < |p.pairs| :: p.pairs[a].left < n)
    && MarksMatched(p)
    && NothingLeft(ts, v, p.use, n)
  }

  /** The marks are those of the pairs. */
  ghost predicate MarksMatched(p: Pairing) {
    forall i: nat | i < |p.use| :: p.use[i] <==> Matched(p.pairs, i)
  }

  /** No transfer among the first n could still be paired with a later one. */
  ghost predicate NothingLeft(ts: seq<Transfer>, v: View, use: seq<bool>, n: nat)
    requires Resolvable(ts, v) && |use| == |ts|
  {
    forall i: nat, j | i < n && i < j < |ts| && Compatible(ts, v, i, j) :: use[i] || use[j]
  }

  lemma MatchedExtends(pairs: seq<Pair>, p: Pair, i: nat)
    ensures Matched(pairs + [p], i) <==> Matched(pairs, i) || Member(p, i)
  {
    var all := pairs + [p];
    if Matched(pairs, i) {
      var a :| 0 <= a < |pairs| && Member(pairs[a], i);
      assert Member(all[a], i);
    }
    if Member(p, i) {
      assert Member(all[|pairs|], i);
    }
  }

  lemma DisjointExtends(pairs: seq<Pair>, p: Pair)
    requires Disjoint(pairs) && !Matched(pairs, p.left) && !Matched(pairs, p.right)
    ensures Disjoint(pairs + [p])
  {
  }

  /** Appending a pair of free transfers, the second the mate of the first, keeps the matching valid. */
  lemma ValidExtends(ts: seq<Transfer>, v: View, p: Pairing, i: nat)
    requires Resolvable(ts, v) && i < |ts| && LoopState(ts, v, p, i) && !p.use[i]
    requires Mate(ts, v, p.use, i, i + 1) < |ts|
    ensures ValidMatching(ts, v, p.pairs + [Pair(i, Mate(ts, v, p.use, i, i + 1))])
  {
    var j := Mate(ts, v, p.use, i, i + 1);
    var all := p.pairs + [Pair(i, j)];
    DisjointExtends(p.pairs, Pair(i, j));
    forall a | 0 <= a < |all|
      ensures TookFirst(ts, v, all, a)
    {
      if a < |p.pairs| {
        assert all[..a] == p.pairs[..a];
        assert TookFirst(ts, v, p.pairs, a);
      } else {
        assert all[..a] == p.pairs;
      }
    }
  }

  /** After round i, no free transfer after i is compatible with i unless i is taken. */
  lemma RoundLeavesNothing(ts: seq<Transfer>, v: View, p: Pairing, i: nat, j: nat)
    requires Resolvable(ts, v) && i < j < |ts| && |p.use| == |ts| && Compatible(ts, v, i, j)
    ensures Round(ts, v, p, i).use[i] || Round(ts, v, p, i).use[j]
  {
  }

  lemma RoundUses(ts: seq<Transfer>, v: View, p: Pairing, i: nat, k: nat)
    requires Resolvable(ts, v) && i < |ts| && k < |ts| && LoopState(ts, v, p, i)
    ensures Round(ts, v, p, i).use[k] <==> Matched(Round(ts, v, p, i).pairs, k)
    ensures p.use[k] ==> Round(ts, v, p, i).use[k]
  {
    MatchedExtends(p.pairs, Pair(i, Mate(ts, v, p.use, i, i + 1)), k);
  }

  lemma RoundKeepsValid(ts: seq<Transfer>, v: View, p: Pairing, i: nat)
    requires Resolvable(ts, v) && i < |ts| && LoopState(ts, v, p, i)
    ensures
      var pairs := Round(ts, v, p, i).pairs;
      ValidMatching(ts, v, pairs) && forall a | 0 <= a < |pairs| :: pairs[a].left <= i
  {
    if Round(ts, v, p, i) != p {
      ValidExtends(ts, v, p, i);
    }
  }

  lemma RoundKeepsMarks(ts: seq<Transfer>, v: View, p: Pairing, i: nat)
    requires Resolvable(ts, v) && i < |ts| && LoopState(ts, v, p, i)
    ensures MarksMatched(Round(ts, v, p, i))
    ensures forall k | 0 <= k < |ts| && p.use[k] :: Round(ts, v, p, i).use[k]
  {
    forall k: nat | k < |ts|
      ensures Round(ts, v, p, i).use[k] <==> Matched(Round(ts, v, p, i).pairs, k)
    {
      RoundUses(ts, v, p, i, k);
    }
  }

  lemma RoundLeavesLess(ts: seq<Transfer>, v: View, use: seq<bool>, use': seq<bool>, i: nat)
    requires Resolvable(ts, v) && i < |ts| == |use| == |use'| && NothingLeft(ts, v, use, i)
    requires forall k | 0 <= k < |ts| && use[k] :: use'[k]
    requires forall j | i < j < |ts| && Compatible(ts, v, i, j) :: use'[i] || use'[j]
    ensures NothingLeft(ts, v, use', i + 1)
  {
  }

  lemma RoundKeepsState(ts: seq<Transfer>, v: View, p: Pairing, i: nat)
    requires Resolvable(ts, v) && i < |ts| && LoopState(ts, v, p, i)
    ensures LoopState(ts, v, Round(ts, v, p, i), i + 1)
  {
    var q := Round(ts, v, p, i);
    RoundKeepsValid(ts, v, p, i);
    RoundKeepsMarks(ts, v, p, i);
    forall j: nat | i < j < |ts| && Compatible(ts, v, i, j)
      ensures q.use[i] || q.use[j]
    {
      RoundLeavesNothing(ts, v, p, i, j);
    }
    RoundLeavesLess(ts, v, p.use, q.use, i);
  }

  lemma NextState(ts: seq<Transfer>, v: View, n: nat)
    requires Resolvable(ts, v) && n < |ts| && LoopState(ts, v, PairUpTo(ts, v, n), n)
    ensures LoopState(ts, v, PairUpTo(ts, v, n + 1), n + 1)
  {
    RoundKeepsState(ts, v, PairUpTo(ts, v, n), n);
  }

  lemma StartState(ts: seq<Transfer>, v: View)
    requires Resolvable(ts, v)
    ensures LoopState(ts, v, PairUpTo(ts, v, 0), 0)
  {
    assert forall i: nat :: !Matched([], i);
  }

  lemma {:induction false} LoopStateHolds(ts: seq<Transfer>, v: View, n: nat)
    requires Resolvable(ts, v) && n <= |ts|
    ensures LoopState(ts, v, PairUpTo(ts, v, n), n)
  {
    if n == 0 {
      StartState(ts, v);
    } else {
      LoopStateHolds(ts, v, n - 1);
      NextState(ts, v, n - 1);
    }
  }

  /** The pairs are disjoint and owner-compatible, each left transfer took its first free mate, and no compatible
      pair of transfers is left over. */
  lemma GreedyIsMaximal(ts: seq<Transfer>, v: View)
    requires Resolvable(ts, v)
    ensures ValidMatching(ts, v, GreedyPairs(ts, v))
    ensures forall i: nat, j | i < j < |ts| && Compatible(ts, v, i, j) ::
      Matched(GreedyPairs(ts, v), i) || Matched(GreedyPairs(ts, v), j)
  {
    LoopStateHolds(ts, v, |ts|);
  }

  // ----- At least half of any matching -----

  /** The pair (w, u) names a WSOL transfer and an owner-compatible USDC transfer. */
  ghost predicate SwapEdge(ts: seq<Transfer>, v: View, e: Pair)
    requires Resolvable(ts, v)
  {
    && e.left < |ts| && e.right < |ts|
    && ts[e.left].from in v && ts[e.right].from in v
    && v[ts[e.left].from].mint == WSOL && v[ts[e.right].from].mint == USDC
    && IsSwap(ts[e.right], ts[e.left], v)
  }

  /** Any way at all of matching WSOL transfers to owner-compatible USDC transfers. */
  ghost predicate SwapMatching(ts: seq<Transfer>, v: View, m: seq<Pair>)
    requires Resolvable(ts, v)
  {
    (forall a | 0 <= a < |m| :: SwapEdge(ts, v, m[a])) && Disjoint(m)
  }

  ghost function Vertices(pairs: seq<Pair>): set<nat> {
    if pairs == [] then {} else Vertices(pairs[..|pairs| - 1]) + {pairs[|pairs| - 1].left, pairs[|pairs| - 1].right}
  }

  lemma VerticesBound(pairs: seq<Pair>)
    ensures |Vertices(pairs)| <= 2 * |pairs|
  {
    if pairs != [] {
      VerticesBound(pairs[..|pairs| - 1]);
      var last := pairs[|pairs| - 1];
      assert |{last.left, last.right}| <= 2;
    }
  }

  lemma {:induction false} VerticesAreMatched(pairs: seq<Pair>, i: nat)
    ensures i in Vertices(pairs) <==> Matched(pairs, i)
  {
    if pairs != [] {
      var init, last := pairs[..|pairs| - 1], pairs[|pairs| - 1];
      assert pairs == init + [last];
      VerticesAreMatched(init, i);
      MatchedExtends(init, last, i);
    }
  }

  /** One vertex of each edge, chosen inside the set s. */
  ghost function Hit(m: seq<Pair>, s: set<nat>): set<nat> {
    if m == [] then {}
    else
      var e := m[|m| - 1];
      Hit(m[..|m| - 1], s) + {if e.left in s then e.left else e.right}
  }

  lemma {:induction false} HitsAreMatched(m: seq<Pair>, s: set<nat>, i: nat)
    requires i in Hit(m, s)
    ensures Matched(m, i)
  {
    var init, e := m[..|m| - 1], m[|m| - 1];
    assert m == init + [e];
    MatchedExtends(init, e, i);
    if i in Hit(init, s) {
      HitsAreMatched(init, s, i);
    }
  }

  lemma MatchedOnce(m: seq<Pair>, n: nat, i: nat)
    requires Disjoint(m) && n < |m| && Matched(m[..n], i)
    ensures !Member(m[n], i)
  {
    var a :| 0 <= a < n && Member(m[..n][a], i);
    assert Member(m[a], i);
  }

  /** Disjoint edges that all touch s need as many vertices of s as there are edges. */
  lemma {:induction false} HitCounts(m: seq<Pair>, s: set<nat>)
    requires Disjoint(m)
    requires forall a | 0 <= a < |m| :: m[a].left in s || m[a].right in s
    ensures |Hit(m, s)| == |m| && Hit(m, s) <= s
  {
    if m != [] {
      var n := |m| - 1;
      HitCounts(m[..n], s);
      forall i | i in Hit(m[..n], s)
        ensures !Member(m[n], i)
      {
        HitsAreMatched(m[..n], s, i);
        MatchedOnce(m, n, i);
      }
    }
  }

  /** The greedy pairing finds at least half as many pairs as any matching of the same transfers. */
  lemma GreedyIsHalfOptimal(ts: seq<Transfer>, v: View, m: seq<Pair>)
    requires Resolvable(ts, v) && SwapMatching(ts, v, m)
    ensures 2 * |GreedyPairs(ts, v)| >= |m|
  {
    var pairs := GreedyPairs(ts, v);
    var used := Vertices(pairs);
    GreedyIsMaximal(ts, v);
    forall a | 0 <= a < |m|
      ensures m[a].left in used || m[a].right in used
    {
      var (i, j) := if m[a].left < m[a].right then (m[a].left, m[a].right) else (m[a].right, m[a].left);
      assert SwapEdge(ts, v, m[a]);
      assert Compatible(ts, v, i, j);
      VerticesAreMatched(pairs, i);
      VerticesAreMatched(pairs, j);
    }
    HitCounts(m, used);
    SubsetSize(Hit(m, used), used);
    VerticesBound(pairs);
  }

  lemma SubsetSize(a: set<nat>, b: set<nat>)
    requires a <= b
    ensures |a| <= |b|
  {
    assert b == a + (b - a);
  }

  function Holder(owner: nat, address: nat, mint: Address): Account {
    Account(Other(owner), Other(address), mint, 0, 0, 0, false)
  }

  /** Owners: 1 receives WSOL and sends both USDC transfers; 2 sends the second WSOL and receives the first USDC. */
  function SharpHolders(): View {
    map[
      Other(10) := Holder(3, 10, WSOL), Other(11) := Holder(1, 11, WSOL),
      Other(20) := Holder(1, 20, USDC), Other(21) := Holder(2, 21, USDC), Other(22) := Holder(4, 22, USDC),
      Other(12) := Holder(2, 12, WSOL), Other(13) := Holder(5, 13, WSOL)]
  }

  function SharpTransfers(): seq<Transfer> {
    [
      Transfer(Other(10), Other(11), 1), Transfer(Other(20), Other(21), 1),
      Transfer(Other(20), Other(22), 1), Transfer(Other(12), Other(13), 1)]
  }

  lemma SharpEdges()
    ensures Resolvable(SharpTransfers(), SharpHolders())
    ensures SwapMatching(SharpTransfers(), SharpHolders(), [Pair(0, 2), Pair(3, 1)])
  {
  }

  lemma SharpCompatible()
    requires Resolvable(SharpTransfers(), SharpHolders())
    ensures Compatible(SharpTransfers(), SharpHolders(), 0, 1)
    ensures !Compatible(SharpTransfers(), SharpHolders(), 2, 3)
  {
  }

  /** Of four transfers the first takes the second, and the rest do not match. */
  lemma OnePairOfFour(ts: seq<Transfer>, v: View)
    requires |ts| == 4 && Resolvable(ts, v) && Compatible(ts, v, 0, 1) && !Compatible(ts, v, 2, 3)
    ensures GreedyPairs(ts, v) == [Pair(0, 1)]
  {
    var p1 := PairUpTo(ts, v, 1);
    assert Mate(ts, v, PairUpTo(ts, v, 0).use, 0, 1) == 1;
    assert p1 == Pairing([true, true, false, false], [Pair(0, 1)]);
    assert PairUpTo(ts, v, 2) == p1;
    assert Mate(ts, v, p1.use, 2, 3) == 4 && Mate(ts, v, p1.use, 3, 4) == 4;
    assert PairUpTo(ts, v, 3) == p1;
    assert PairUpTo(ts, v, 4) == p1;
  }

  /** Half is sharp: the first WSOL transfer takes the only USDC transfer that the second one could use. */
  lemma HalfIsSharp() returns (ts: seq<Transfer>, v: View, m: seq<Pair>)
    ensures Resolvable(ts, v) && SwapMatching(ts, v, m)
    ensures |m| == 2 && |GreedyPairs(ts, v)| == 1
  {
    ts, v, m := SharpTransfers(), SharpHolders(), [Pair(0, 2), Pair(3, 1)];
    SharpEdges();
    SharpCompatible();
    OnePairOfFour(ts, v);
  }
}
