/** The price of one group of transfers: the ratio of the matched totals. */
module SwapPrice {
  import opened GoArith
  import opened Chain
  import opened TokenAccounts
  import opened SwapMatching

  /** The index that the code adds to usdcTotal. */
  function UsdcLeg(ts: seq<Transfer>, v: View, p: Pair): (i: nat)
    requires Resolvable(ts, v) && Compatible(ts, v, p.left, p.right)
    ensures i < |ts| && ts[i].from in v
  {
    if v[ts[p.left].from].mint == WSOL then p.right else p.left
  }

  /** The index that the code adds to usdgTotal. */
  function WsolLeg(ts: seq<Transfer>, v: View, p: Pair): (i: nat)
    requires Resolvable(ts, v) && Compatible(ts, v, p.left, p.right)
    ensures i < |ts| && ts[i].from in v
  {
    if v[ts[p.left].from].mint == WSOL then p.left else p.right
  }

  function SumUsdc(ts: seq<Transfer>, v: View, pairs: seq<Pair>): nat
    requires Resolvable(ts, v) && AllCompatible(ts, v, pairs)
  {
    if pairs == [] then 0
    else SumUsdc(ts, v, pairs[..|pairs| - 1]) + ts[UsdcLeg(ts, v, pairs[|pairs| - 1])].amount
  }

  function SumWsol(ts: seq<Transfer>, v: View, pairs: seq<Pair>): nat
    requires Resolvable(ts, v) && AllCompatible(ts, v, pairs)
  {
    if pairs == [] then 0
    else SumWsol(ts, v, pairs[..|pairs| - 1]) + ts[WsolLeg(ts, v, pairs[|pairs| - 1])].amount
  }

  /** The amount in whole coins, amount / 10^decimals (see UnitsIsQuotient). */
  function Units(amount: int, decimals: nat): real {
    if decimals == 0 then amount as real else Units(amount, decimals - 1) / 10.0
  }

  lemma UnitsTimesPow10(amount: int, decimals: nat)
    ensures Units(amount, decimals) * Pow10(decimals) == amount as real
  {
    if decimals > 0 {
      UnitsTimesPow10(amount, decimals - 1);
      ShiftsCancel(Units(amount, decimals - 1), Pow10(decimals - 1));
    }
  }

  lemma ShiftsCancel(q: real, p: real)
    ensures q / 10.0 * (10.0 * p) == q * p
  {
  }

  lemma ProductIsQuotient(q: real, p: real, x: real)
    requires p > 0.0 && q * p == x
    ensures q == x / p
  {
  }

  lemma UnitsIsQuotient(amount: int, decimals: nat)
    ensures Units(amount, decimals) == amount as real / Pow10(decimals)
  {
    UnitsTimesPow10(amount, decimals);
    ProductIsQuotient(Units(amount, decimals), Pow10(decimals), amount as real);
  }

  function Quotient(usdc: real, wsol: real): real {
    if wsol == 0.0 then 0.0 else usdc / wsol
  }

  /** The price of the totals, scaled with the decimals of the accounts that pair p moves from. */
  function PriceScaledBy(ts: seq<Transfer>, v: View, p: Pair): real
    requires Resolvable(ts, v) && Compatible(ts, v, p.left, p.right)
  {
    var pairs := GreedyPairs(ts, v);
    Quotient(Units(Wrap64(SumUsdc(ts, v, pairs)), v[ts[UsdcLeg(ts, v, p)].from].decimals),
             Units(Wrap64(SumWsol(ts, v, pairs)), v[ts[WsolLeg(ts, v, p)].from].decimals))
  }

  /** The code keeps the accounts of the last pair. */
  function GroupPrice(ts: seq<Transfer>, v: View): real
    requires Resolvable(ts, v)
  {
    var pairs := GreedyPairs(ts, v);
    if pairs == [] then 0.0 else PriceScaledBy(ts, v, pairs[|pairs| - 1])
  }

  // ----- The method -----

  function IsSwapTransfer(usdc: Transfer, wsol: Transfer, accounts: TokenAccountMap): (r: bool)
    requires usdc.from in accounts.entries && usdc.to in accounts.entries
    requires wsol.from in accounts.entries && wsol.to in accounts.entries
    reads accounts, accounts.entries.Values
    ensures r == IsSwap(usdc, wsol, accounts.View())
  {
    if accounts.entries[usdc.from].owner == accounts.entries[wsol.to].owner then true
    else if accounts.entries[usdc.to].owner == accounts.entries[wsol.from].owner then true
    else false
  }

  /** The four variables of the loop. */
  datatype Totals = Totals(usdc: uint64, wsol: uint64, usdcAccount: TokenAccount?, wsolAccount: TokenAccount?)

  /** Their values once the given pairs have been added. */
  ghost function TotalsOf(ts: seq<Transfer>, v: View, entries: map<Address, TokenAccount>, pairs: seq<Pair>): Totals
    requires Resolvable(ts, v) && AllCompatible(ts, v, pairs) && entries.Keys == v.Keys
  {
    if pairs == [] then Totals(0, 0, null, null)
    else WithPair(ts, v, entries, TotalsOf(ts, v, entries, pairs[..|pairs| - 1]), pairs[|pairs| - 1])
  }

  ghost function WithPair(ts: seq<Transfer>, v: View, entries: map<Address, TokenAccount>, t: Totals, p: Pair): Totals
    requires Resolvable(ts, v) && Compatible(ts, v, p.left, p.right) && entries.Keys == v.Keys
  {
    var (usdc, wsol) := (ts[UsdcLeg(ts, v, p)], ts[WsolLeg(ts, v, p)]);
    Totals(Wrap64(t.usdc + usdc.amount), Wrap64(t.wsol + wsol.amount), entries[usdc.from], entries[wsol.from])
  }

  lemma TotalsExtend(ts: seq<Transfer>, v: View, entries: map<Address, TokenAccount>, pairs: seq<Pair>, p: Pair)
    requires Resolvable(ts, v) && AllCompatible(ts, v, pairs) && entries.Keys == v.Keys
    requires Compatible(ts, v, p.left, p.right)
    ensures AllCompatible(ts, v, pairs + [p])
    ensures TotalsOf(ts, v, entries, pairs + [p]) == WithPair(ts, v, entries, TotalsOf(ts, v, entries, pairs), p)
  {
    assert (pairs + [p])[..|pairs|] == pairs;
  }

  lemma PairWraps(ts: seq<Transfer>, v: View, entries: map<Address, TokenAccount>, t: Totals, p: Pair,
                  usdc: nat, wsol: nat)
    requires Resolvable(ts, v) && Compatible(ts, v, p.left, p.right) && entries.Keys == v.Keys
    requires t.usdc == Wrap64(usdc) && t.wsol == Wrap64(wsol)
    ensures WithPair(ts, v, entries, t, p).usdc == Wrap64(usdc + ts[UsdcLeg(ts, v, p)].amount)
    ensures WithPair(ts, v, entries, t, p).wsol == Wrap64(wsol + ts[WsolLeg(ts, v, p)].amount)
  {
    WrapAdd(usdc, ts[UsdcLeg(ts, v, p)].amount);
    WrapAdd(wsol, ts[WsolLeg(ts, v, p)].amount);
  }

  /** Adding modulo 2^64 pair by pair gives the sums modulo 2^64; the kept accounts are those of the last pair. */
  lemma {:induction false} TotalsAreSums(ts: seq<Transfer>, v: View, entries: map<Address, TokenAccount>,
                                         pairs: seq<Pair>)
    requires Resolvable(ts, v) && AllCompatible(ts, v, pairs) && entries.Keys == v.Keys
    ensures TotalsOf(ts, v, entries, pairs).usdc == Wrap64(SumUsdc(ts, v, pairs))
    ensures TotalsOf(ts, v, entries, pairs).wsol == Wrap64(SumWsol(ts, v, pairs))
  {
    if pairs != [] {
      var init, last := pairs[..|pairs| - 1], pairs[|pairs| - 1];
      TotalsAreSums(ts, v, entries, init);
      PairWraps(ts, v, entries, TotalsOf(ts, v, entries, init), last, SumUsdc(ts, v, init), SumWsol(ts, v, init));
    }
  }

  /** The inner loop up to its break: the first free transfer after i that swaps with it. */
  method FindMate(allTransfer: seq<Transfer>, accounts: TokenAccountMap, use: array<bool>, i: nat, ghost v: View)
    returns (j: nat)
    requires v == accounts.View() && Resolvable(allTransfer, v)
    requires use.Length == |allTransfer| && i < |allTransfer| && allTransfer[i].from in accounts.entries
    ensures j == Mate(allTransfer, v, use[..], i, i + 1)
  {
    var fromTokenAccount := accounts.entries[allTransfer[i].from];
    assert fromTokenAccount.View() == v[allTransfer[i].from];
    j := i + 1;
    while j < |allTransfer|
      invariant i < j <= |allTransfer|
      invariant Mate(allTransfer, v, use[..], i, j) == Mate(allTransfer, v, use[..], i, i + 1)
    {
      if !use[j] && allTransfer[j].from in accounts.entries {
        var toTokenAccount := accounts.entries[allTransfer[j].from];
        assert toTokenAccount.View() == v[allTransfer[j].from];
        if fromTokenAccount.tokenMintAccountAddress == toTokenAccount.tokenMintAccountAddress {
        } else if fromTokenAccount.tokenMintAccountAddress == WSOL {
          if IsSwapTransfer(allTransfer[j], allTransfer[i], accounts) {
            return;
          }
        } else if fromTokenAccount.tokenMintAccountAddress == USDC {
          if IsSwapTransfer(allTransfer[i], allTransfer[j], accounts) {
            return;
          }
        }
      }
      j := j + 1;
    }
  }

  /** Adds one matched pair to the totals and keeps its accounts. */
  method AddPair(allTransfer: seq<Transfer>, accounts: TokenAccountMap, ghost v: View, i: nat, j: nat, t: Totals)
    returns (r: Totals)
    requires v == accounts.View() && Resolvable(allTransfer, v) && Compatible(allTransfer, v, i, j)
    ensures r == WithPair(allTransfer, v, accounts.entries, t, Pair(i, j))
  {
    if accounts.entries[allTransfer[i].from].tokenMintAccountAddress == WSOL {
      return Totals(Wrap64(t.usdc + allTransfer[j].amount), Wrap64(t.wsol + allTransfer[i].amount),
                    accounts.entries[allTransfer[j].from], accounts.entries[allTransfer[i].from]);
    } else {
      return Totals(Wrap64(t.usdc + allTransfer[i].amount), Wrap64(t.wsol + allTransfer[j].amount),
                    accounts.entries[allTransfer[i].from], accounts.entries[allTransfer[j].from]);
    }
  }

  method Mark(use: array<bool>, i: nat, j: nat, ghost accounts: TokenAccountMap, ghost v: View)
    requires i < use.Length && j < use.Length && accounts.View() == v
    modifies use
    ensures accounts.View() == v
    ensures use[..] == old(use[..])[i := true][j := true]
  {
    use[i] := true;
    use[j] := true;
  }

  /** What the outer loop does with transfer i and the transfer j found for it. */
  method TakePair(allTransfer: seq<Transfer>, accounts: TokenAccountMap, ghost v: View, use: array<bool>,
                  i: nat, j: nat, t: Totals, ghost pairs: seq<Pair>)
    returns (r: Totals)
    requires v == accounts.View() && Resolvable(allTransfer, v) && Compatible(allTransfer, v, i, j)
    requires use.Length == |allTransfer| && AllCompatible(allTransfer, v, pairs)
    requires t == TotalsOf(allTransfer, v, accounts.entries, pairs)
    modifies use
    ensures use[..] == old(use[..])[i := true][j := true] && v == accounts.View()
    ensures AllCompatible(allTransfer, v, pairs + [Pair(i, j)])
    ensures r == TotalsOf(allTransfer, v, accounts.entries, pairs + [Pair(i, j)])
  {
    r := AddPair(allTransfer, accounts, v, i, j, t);
    TotalsExtend(allTransfer, v, accounts.entries, pairs, Pair(i, j));
    Mark(use, i, j, accounts, v);
  }

  /** One iteration of the outer loop. */
  method PairFrom(allTransfer: seq<Transfer>, accounts: TokenAccountMap, ghost v: View, use: array<bool>, i: nat,
                  t: Totals, ghost p: Pairing, ghost q: Pairing)
    returns (r: Totals)
    requires v == accounts.View() && Resolvable(allTransfer, v) && i < |allTransfer| && |p.use| == |allTransfer|
    requires q == Round(allTransfer, v, p, i) && AllCompatible(allTransfer, v, p.pairs)
    requires use[..] == p.use && t == TotalsOf(allTransfer, v, accounts.entries, p.pairs)
    modifies use
    ensures use[..] == q.use && v == accounts.View()
    ensures AllCompatible(allTransfer, v, q.pairs) && r == TotalsOf(allTransfer, v, accounts.entries, q.pairs)
  {
    r := t;
    if !use[i] && allTransfer[i].from in accounts.entries {
      var j := FindMate(allTransfer, accounts, use, i, v);
      if j < |allTransfer| {
        r := TakePair(allTransfer, accounts, v, use, i, j, t, p.pairs);
      }
    }
  }

  method CalcPriceOnAllTransferBySwapGroup(allTransfer: seq<Transfer>, accounts: TokenAccountMap) returns (price: real)
    requires Resolvable(allTransfer, accounts.View())
    ensures price == GroupPrice(allTransfer, accounts.View())
  {
    var n := |allTransfer|;
    if n == 0 {
      return 0.0;
    }
    ghost var v, p := accounts.View(), PairUpTo(allTransfer, accounts.View(), 0);
    var t := Totals(0, 0, null, null);
    var use := new bool[n](_ => false);
    assert use[..] == p.use;
    for i := 0 to n
      invariant p == PairUpTo(allTransfer, v, i)
      invariant use[..] == p.use && accounts.View() == v
      invariant AllCompatible(allTransfer, v, p.pairs)
      invariant t == TotalsOf(allTransfer, v, accounts.entries, p.pairs)
    {
      ghost var q := Round(allTransfer, v, p, i);
      t := PairFrom(allTransfer, accounts, v, use, i, t, p, q);
      p := q;
    }
    TotalsAreSums(allTransfer, v, accounts.entries, p.pairs);
    if t.usdcAccount == null || t.wsolAccount == null {
      return 0.0;
    }
    UnitsIsQuotient(t.usdc, t.usdcAccount.tokenDecimal);
    UnitsIsQuotient(t.wsol, t.wsolAccount.tokenDecimal);
    var usdcUI := t.usdc as real / Pow10(t.usdcAccount.tokenDecimal);
    var usdgUI := t.wsol as real / Pow10(t.wsolAccount.tokenDecimal);
    if usdgUI == 0.0 {
      return 0.0;
    }
    return usdcUI / usdgUI;
  }
}
