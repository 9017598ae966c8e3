/** Who swaps: the pairs that are priced exchange coins between shared owners, and nothing else is paired. */
module SwapOwners {
  import opened Chain
  import opened TokenAccounts
  import opened SwapMatching
  import opened SwapPrice
  import opened SwapPriceProperties

  predicate Sends(owner: Address, t: Transfer, v: View) {
    t.from in v && v[t.from].owner == owner
  }

  predicate Receives(owner: Address, t: Transfer, v: View) {
    t.to in v && v[t.to].owner == owner
  }

  /** Somebody is on the sending side of one coin and on the receiving side of the other. */
  ghost predicate ShareOwner(usdc: Transfer, wsol: Transfer, v: View) {
    exists owner ::
      (Sends(owner, usdc, v) && Receives(owner, wsol, v)) || (Sends(owner, wsol, v) && Receives(owner, usdc, v))
  }

  lemma ShareOwnerIff(usdc: Transfer, wsol: Transfer, v: View)
    requires usdc.from in v && usdc.to in v && wsol.from in v && wsol.to in v
    ensures IsSwap(usdc, wsol, v) <==> ShareOwner(usdc, wsol, v)
  {
    if IsSwap(usdc, wsol, v) {
      assert Sends(v[usdc.from].owner, usdc, v) && Sends(v[wsol.from].owner, wsol, v);
    }
  }

  /** Transfer i moves WSOL, transfer j moves USDC, and they share an owner. */
  ghost predicate Swap(ts: seq<Transfer>, v: View, i: nat, j: nat)
    requires SwapLegs(ts, v)
  {
    && i < |ts| && j < |ts|
    && v[ts[i].from].mint == WSOL && v[ts[j].from].mint == USDC
    && ShareOwner(ts[j], ts[i], v)
  }

  /** The test of the inner loop, in whichever order the two transfers come. */
  lemma CompatibleIff(ts: seq<Transfer>, v: View, i: nat, j: nat)
    requires SwapLegs(ts, v)
    ensures Compatible(ts, v, i, j) <==> Swap(ts, v, i, j) || Swap(ts, v, j, i)
  {
    if i < |ts| && j < |ts| {
      ShareOwnerIff(ts[i], ts[j], v);
      ShareOwnerIff(ts[j], ts[i], v);
    }
  }

  /** Every pair that is totalled is a swap of its WSOL leg for its USDC leg. */
  lemma PairsAreSwaps(ts: seq<Transfer>, v: View, a: nat)
    requires SwapLegs(ts, v) && a < |GreedyPairs(ts, v)|
    ensures
      var p := GreedyPairs(ts, v)[a];
      Swap(ts, v, WsolLeg(ts, v, p), UsdcLeg(ts, v, p)) && SwapEdge(ts, v, Pair(WsolLeg(ts, v, p), UsdcLeg(ts, v, p)))
  {
    var p := GreedyPairs(ts, v)[a];
    CompatibleIff(ts, v, p.left, p.right);
    LegMints(ts, v, p);
    ShareOwnerIff(ts[UsdcLeg(ts, v, p)], ts[WsolLeg(ts, v, p)], v);
  }

  /** Of two transfers that swap, one is paired. */
  lemma SwapsArePaired(ts: seq<Transfer>, v: View, i: nat, j: nat)
    requires SwapLegs(ts, v) && Swap(ts, v, i, j)
    ensures Matched(GreedyPairs(ts, v), i) || Matched(GreedyPairs(ts, v), j)
  {
    CompatibleIff(ts, v, i, j);
    CompatibleIff(ts, v, j, i);
    GreedyIsMaximal(ts, v);
    assert i != j;
  }

  /** Transfers are paired exactly if some two of them swap, as a deposit of both coins by one owner does not. */
  lemma PairedIffSwap(ts: seq<Transfer>, v: View)
    requires SwapLegs(ts, v)
    ensures GreedyPairs(ts, v) != [] <==> exists i, j :: Swap(ts, v, i, j)
    ensures (forall i, j :: !Swap(ts, v, i, j)) ==> GroupPrice(ts, v) == 0.0
  {
    if i, j :| Swap(ts, v, i, j) {
      SwapsArePaired(ts, v, i, j);
    }
    if GreedyPairs(ts, v) != [] {
      PairsAreSwaps(ts, v, 0);
    }
  }

  lemma DepositIsNoSwap(ts: seq<Transfer>, v: View, depositor: Address, pool: Address, i: nat, j: nat)
    requires SwapLegs(ts, v) && depositor != pool
    requires forall i | 0 <= i < |ts| :: v[ts[i].from].owner == depositor && v[ts[i].to].owner == pool
    ensures !Swap(ts, v, i, j)
  {
  }

  /** A deposit of WSOL and USDC by one owner to accounts of another is not paired and has no price. */
  lemma DepositHasNoPrice(ts: seq<Transfer>, v: View, depositor: Address, pool: Address)
    requires SwapLegs(ts, v) && depositor != pool
    requires forall i | 0 <= i < |ts| :: v[ts[i].from].owner == depositor && v[ts[i].to].owner == pool
    ensures GreedyPairs(ts, v) == [] && GroupPrice(ts, v) == 0.0
  {
    if GreedyPairs(ts, v) != [] {
      var p := GreedyPairs(ts, v)[0];
      PairsAreSwaps(ts, v, 0);
      DepositIsNoSwap(ts, v, depositor, pool, WsolLeg(ts, v, p), UsdcLeg(ts, v, p));
    }
  }
}
