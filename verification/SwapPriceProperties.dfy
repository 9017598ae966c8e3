/** What the price of a group means: conservation of amounts, when it is positive, and that it is a weighted mean
    of the ratios of its pairs. */
module SwapPriceProperties {
  import opened GoArith
  import opened Chain
  import opened TokenAccounts
  import opened SwapMatching
  import opened SwapPrice
  import opened TrimmedMean

  /** What the list-building loops let through: both ends known, one mint on both, and that mint WSOL or USDC. */
  predicate IsSwapLeg(t: Transfer, v: View) {
    && t.from in v && t.to in v
    && v[t.from].mint == v[t.to].mint
    && (v[t.from].mint == WSOL || v[t.from].mint == USDC)
  }

  predicate SwapLegs(ts: seq<Transfer>, v: View) {
    forall i | 0 <= i < |ts| :: IsSwapLeg(ts[i], v)
  }

  /** In a list of swap legs every pair has one leg of each mint. */
  lemma LegMints(ts: seq<Transfer>, v: View, p: Pair)
    requires SwapLegs(ts, v) && Compatible(ts, v, p.left, p.right)
    ensures v[ts[UsdcLeg(ts, v, p)].from].mint == USDC && v[ts[WsolLeg(ts, v, p)].from].mint == WSOL
  {
  }

  // ----- Conservation -----

  /** The amounts that the marked transfers among the first n move of one mint. */
  function Total(ts: seq<Transfer>, v: View, mint: Address, marks: seq<bool>, n: nat): nat
    requires SwapLegs(ts, v) && |marks| == |ts| && n <= |ts|
  {
    if n == 0 then 0
    else if marks[n - 1] && v[ts[n - 1].from].mint == mint then Total(ts, v, mint, marks, n - 1) + ts[n - 1].amount
    else Total(ts, v, mint, marks, n - 1)
  }

  function Unmarked(marks: seq<bool>): seq<bool> {
    seq(|marks|, i requires 0 <= i < |marks| => !marks[i])
  }

  function All(n: nat): seq<bool> {
    seq(n, _ => true)
  }

  lemma TotalSplits(ts: seq<Transfer>, v: View, mint: Address, marks: seq<bool>, n: nat)
    requires SwapLegs(ts, v) && |marks| == |ts| && n <= |ts|
    ensures Total(ts, v, mint, marks, n) + Total(ts, v, mint, Unmarked(marks), n) == Total(ts, v, mint, All(|ts|), n)
  {
  }

  lemma TotalOfNone(ts: seq<Transfer>, v: View, mint: Address, n: nat)
    requires SwapLegs(ts, v) && n <= |ts|
    ensures Total(ts, v, mint, seq(|ts|, _ => false), n) == 0
  {
    if n > 0 {
      TotalOfNone(ts, v, mint, n - 1);
    }
  }

  lemma {:induction false} TotalMarks(ts: seq<Transfer>, v: View, mint: Address, marks: seq<bool>, i: nat, n: nat)
    requires SwapLegs(ts, v) && |marks| == |ts| && i < |ts| && !marks[i] && n <= |ts|
    ensures Total(ts, v, mint, marks[i := true], n) ==
      Total(ts, v, mint, marks, n) + if i < n && v[ts[i].from].mint == mint then ts[i].amount else 0
  {
    if n > 0 {
      TotalMarks(ts, v, mint, marks, i, n - 1);
    }
  }

  /** One more pair adds its legs to the marked amounts. */
  lemma TotalOfPair(ts: seq<Transfer>, v: View, mint: Address, marks: seq<bool>, i: nat, j: nat)
    requires SwapLegs(ts, v) && |marks| == |ts| && i < j < |ts| && !marks[i] && !marks[j]
    ensures Total(ts, v, mint, marks[i := true][j := true], |ts|) ==
      Total(ts, v, mint, marks, |ts|) + AmountOf(ts, v, mint, i) + AmountOf(ts, v, mint, j)
  {
    TotalMarks(ts, v, mint, marks, i, |ts|);
    TotalMarks(ts, v, mint, marks[i := true], j, |ts|);
  }

  /** The totals of the pairs are the amounts of the marked transfers. */
  ghost predicate SumsMarked(ts: seq<Transfer>, v: View, p: Pairing)
    requires SwapLegs(ts, v) && |p.use| == |ts|
  {
    && AllCompatible(ts, v, p.pairs)
    && SumUsdc(ts, v, p.pairs) == Total(ts, v, USDC, p.use, |ts|)
    && SumWsol(ts, v, p.pairs) == Total(ts, v, WSOL, p.use, |ts|)
  }

  /** What transfer i moves of a mint. */
  function AmountOf(ts: seq<Transfer>, v: View, mint: Address, i: nat): nat
    requires SwapLegs(ts, v) && i < |ts|
  {
    if v[ts[i].from].mint == mint then ts[i].amount else 0
  }

  lemma LegAmounts(ts: seq<Transfer>, v: View, p: Pair)
    requires SwapLegs(ts, v) && Compatible(ts, v, p.left, p.right)
    ensures ts[UsdcLeg(ts, v, p)].amount == AmountOf(ts, v, USDC, p.left) + AmountOf(ts, v, USDC, p.right)
    ensures ts[WsolLeg(ts, v, p)].amount == AmountOf(ts, v, WSOL, p.left) + AmountOf(ts, v, WSOL, p.right)
  {
    LegMints(ts, v, p);
  }

  lemma SumsExtend(ts: seq<Transfer>, v: View, pairs: seq<Pair>, p: Pair)
    requires Resolvable(ts, v) && AllCompatible(ts, v, pairs) && Compatible(ts, v, p.left, p.right)
    ensures AllCompatible(ts, v, pairs + [p])
    ensures SumUsdc(ts, v, pairs + [p]) == SumUsdc(ts, v, pairs) + ts[UsdcLeg(ts, v, p)].amount
    ensures SumWsol(ts, v, pairs + [p]) == SumWsol(ts, v, pairs) + ts[WsolLeg(ts, v, p)].amount
  {
    assert (pairs + [p])[..|pairs|] == pairs;
  }

  lemma PairKeepsSums(ts: seq<Transfer>, v: View, p: Pairing, i: nat, j: nat)
    requires SwapLegs(ts, v) && |p.use| == |ts| && SumsMarked(ts, v, p)
    requires i < j < |ts| && !p.use[i] && !p.use[j] && Compatible(ts, v, i, j)
    ensures SumsMarked(ts, v, Pairing(p.use[i := true][j := true], p.pairs + [Pair(i, j)]))
  {
    SumsExtend(ts, v, p.pairs, Pair(i, j));
    LegAmounts(ts, v, Pair(i, j));
    TotalOfPair(ts, v, USDC, p.use, i, j);
    TotalOfPair(ts, v, WSOL, p.use, i, j);
  }

  lemma StartSums(ts: seq<Transfer>, v: View)
    requires SwapLegs(ts, v)
    ensures SumsMarked(ts, v, PairUpTo(ts, v, 0))
  {
    TotalOfNone(ts, v, USDC, |ts|);
    TotalOfNone(ts, v, WSOL, |ts|);
  }

  lemma NextSums(ts: seq<Transfer>, v: View, n: nat)
    requires SwapLegs(ts, v) && n < |ts| && SumsMarked(ts, v, PairUpTo(ts, v, n))
    ensures SumsMarked(ts, v, PairUpTo(ts, v, n + 1))
  {
    var p := PairUpTo(ts, v, n);
    var j := Mate(ts, v, p.use, n, n + 1);
    if !p.use[n] && j < |ts| {
      PairKeepsSums(ts, v, p, n, j);
    }
  }

  /** The running totals are the amounts of the transfers marked as used. */
  lemma {:induction false} SumsAreUsed(ts: seq<Transfer>, v: View, n: nat)
    requires SwapLegs(ts, v) && n <= |ts|
    ensures SumsMarked(ts, v, PairUpTo(ts, v, n))
  {
    if n == 0 {
      StartSums(ts, v);
    } else {
      SumsAreUsed(ts, v, n - 1);
      NextSums(ts, v, n - 1);
    }
  }

  /** Matched plus unmatched amounts are the amounts of the list, mint by mint. */
  lemma AmountsConserved(ts: seq<Transfer>, v: View)
    requires SwapLegs(ts, v)
    ensures
      var (pairs, left) := (GreedyPairs(ts, v), Unmarked(PairUpTo(ts, v, |ts|).use));
      && SumUsdc(ts, v, pairs) + Total(ts, v, USDC, left, |ts|) == Total(ts, v, USDC, All(|ts|), |ts|)
      && SumWsol(ts, v, pairs) + Total(ts, v, WSOL, left, |ts|) == Total(ts, v, WSOL, All(|ts|), |ts|)
  {
    SumsAreUsed(ts, v, |ts|);
    TotalSplits(ts, v, USDC, PairUpTo(ts, v, |ts|).use, |ts|);
    TotalSplits(ts, v, WSOL, PairUpTo(ts, v, |ts|).use, |ts|);
  }

  // ----- Sign and scale -----

  lemma UnitsSign(amount: nat, decimals: nat)
    ensures Units(amount, decimals) >= 0.0
    ensures Units(amount, decimals) == 0.0 <==> amount == 0
  {
  }

  lemma QuotientSign(usdc: real, wsol: real)
    requires usdc >= 0.0 && wsol >= 0.0
    ensures Quotient(usdc, wsol) >= 0.0
    ensures Quotient(usdc, wsol) > 0.0 <==> usdc > 0.0 && wsol > 0.0
  {
    if usdc > 0.0 && wsol > 0.0 {
      assert usdc / wsol > 0.0;
    }
  }

  /** The price is positive exactly when some pair matched and neither 64-bit total is zero. */
  lemma PricePositiveIff(ts: seq<Transfer>, v: View)
    requires Resolvable(ts, v)
    ensures GroupPrice(ts, v) >= 0.0
    ensures GroupPrice(ts, v) > 0.0 <==>
      && GreedyPairs(ts, v) != []
      && Wrap64(SumUsdc(ts, v, GreedyPairs(ts, v))) > 0 && Wrap64(SumWsol(ts, v, GreedyPairs(ts, v))) > 0
  {
    var pairs := GreedyPairs(ts, v);
    if pairs != [] {
      var last := pairs[|pairs| - 1];
      var (u, w) := (Wrap64(SumUsdc(ts, v, pairs)), Wrap64(SumWsol(ts, v, pairs)));
      var (du, dw) := (v[ts[UsdcLeg(ts, v, last)].from].decimals, v[ts[WsolLeg(ts, v, last)].from].decimals);
      UnitsSign(u, du);
      UnitsSign(w, dw);
      QuotientSign(Units(u, du), Units(w, dw));
    }
  }

  /** When accounts of one mint agree on their decimals, any pair could have supplied them. */
  lemma AnyPairScales(ts: seq<Transfer>, v: View, a: nat)
    requires SwapLegs(ts, v) && UniformDecimals(v) && a < |GreedyPairs(ts, v)|
    ensures PriceScaledBy(ts, v, GreedyPairs(ts, v)[a]) == GroupPrice(ts, v)
  {
    var pairs := GreedyPairs(ts, v);
    LegMints(ts, v, pairs[a]);
    LegMints(ts, v, pairs[|pairs| - 1]);
  }

  // ----- The weighted mean -----

  function PairUsdc(ts: seq<Transfer>, v: View, p: Pair): real
    requires Resolvable(ts, v) && Compatible(ts, v, p.left, p.right)
  {
    var t := ts[UsdcLeg(ts, v, p)];
    Units(t.amount, v[t.from].decimals)
  }

  function PairWsol(ts: seq<Transfer>, v: View, p: Pair): real
    requires Resolvable(ts, v) && Compatible(ts, v, p.left, p.right)
  {
    var t := ts[WsolLeg(ts, v, p)];
    Units(t.amount, v[t.from].decimals)
  }

  /** The exchange rate of the pair lies in [lo, hi]; for a pair that moves no WSOL this asks for no USDC either. */
  predicate RateWithin(ts: seq<Transfer>, v: View, p: Pair, lo: real, hi: real)
    requires Resolvable(ts, v) && Compatible(ts, v, p.left, p.right)
  {
    Between(PairUsdc(ts, v, p), PairWsol(ts, v, p), lo, hi)
  }

  predicate Between(usdc: real, wsol: real, lo: real, hi: real) {
    lo * wsol <= usdc <= hi * wsol
  }

  lemma UnitsAdd(a: int, b: int, decimals: nat)
    ensures Units(a + b, decimals) == Units(a, decimals) + Units(b, decimals)
  {
    if decimals > 0 {
      UnitsAdd(a, b, decimals - 1);
    }
  }

  function PairUsdcs(ts: seq<Transfer>, v: View, pairs: seq<Pair>): seq<real>
    requires Resolvable(ts, v) && AllCompatible(ts, v, pairs)
  {
    seq(|pairs|, i requires 0 <= i < |pairs| => PairUsdc(ts, v, pairs[i]))
  }

  function PairWsols(ts: seq<Transfer>, v: View, pairs: seq<Pair>): seq<real>
    requires Resolvable(ts, v) && AllCompatible(ts, v, pairs)
  {
    seq(|pairs|, i requires 0 <= i < |pairs| => PairWsol(ts, v, pairs[i]))
  }

  lemma {:induction false} UnitsOfUsdc(ts: seq<Transfer>, v: View, pairs: seq<Pair>, decimals: byte)
    requires SwapLegs(ts, v) && AllCompatible(ts, v, pairs)
    requires forall k | k in v && v[k].mint == USDC :: v[k].decimals == decimals
    ensures Units(SumUsdc(ts, v, pairs), decimals) == Sum(PairUsdcs(ts, v, pairs))
  {
    if pairs == [] {
      UnitsSign(0, decimals);
    } else {
      var n := |pairs| - 1;
      UnitsOfUsdc(ts, v, pairs[..n], decimals);
      LegMints(ts, v, pairs[n]);
      UnitsAdd(SumUsdc(ts, v, pairs[..n]), ts[UsdcLeg(ts, v, pairs[n])].amount, decimals);
      assert PairUsdcs(ts, v, pairs)[..n] == PairUsdcs(ts, v, pairs[..n]);
    }
  }

  lemma {:induction false} UnitsOfWsol(ts: seq<Transfer>, v: View, pairs: seq<Pair>, decimals: byte)
    requires SwapLegs(ts, v) && AllCompatible(ts, v, pairs)
    requires forall k | k in v && v[k].mint == WSOL :: v[k].decimals == decimals
    ensures Units(SumWsol(ts, v, pairs), decimals) == Sum(PairWsols(ts, v, pairs))
  {
    if pairs == [] {
      UnitsSign(0, decimals);
    } else {
      var n := |pairs| - 1;
      UnitsOfWsol(ts, v, pairs[..n], decimals);
      LegMints(ts, v, pairs[n]);
      UnitsAdd(SumWsol(ts, v, pairs[..n]), ts[WsolLeg(ts, v, pairs[n])].amount, decimals);
      assert PairWsols(ts, v, pairs)[..n] == PairWsols(ts, v, pairs[..n]);
    }
  }

  lemma BetweenAdds(u: real, w: real, x: real, y: real, lo: real, hi: real)
    requires Between(u, w, lo, hi) && Between(x, y, lo, hi)
    ensures Between(u + x, w + y, lo, hi)
  {
    assert lo * (w + y) == lo * w + lo * y;
    assert hi * (w + y) == hi * w + hi * y;
  }

  /** Sums keep the bounds of the quotients of their terms. */
  lemma {:induction false} SumsBetween(us: seq<real>, ws: seq<real>, lo: real, hi: real)
    requires |us| == |ws| && forall i | 0 <= i < |us| :: Between(us[i], ws[i], lo, hi)
    ensures Between(Sum(us), Sum(ws), lo, hi)
  {
    if us != [] {
      var n := |us| - 1;
      SumsBetween(us[..n], ws[..n], lo, hi);
      BetweenAdds(Sum(us[..n]), Sum(ws[..n]), us[n], ws[n], lo, hi);
    }
  }

  lemma QuotientBetween(usdc: real, wsol: real, lo: real, hi: real)
    requires wsol > 0.0 && Between(usdc, wsol, lo, hi)
    ensures lo <= Quotient(usdc, wsol) <= hi
  {
    var q := usdc / wsol;
    assert q * wsol == usdc;
    assert (q - lo) * wsol >= 0.0;
    assert (hi - q) * wsol >= 0.0;
  }

  /** The scale of the price is that of every account of the mint. */
  lemma ScaleOfLast(ts: seq<Transfer>, v: View)
    returns (usdcDecimals: byte, wsolDecimals: byte)
    requires SwapLegs(ts, v) && UniformDecimals(v) && GreedyPairs(ts, v) != []
    ensures forall k | k in v && v[k].mint == USDC :: v[k].decimals == usdcDecimals
    ensures forall k | k in v && v[k].mint == WSOL :: v[k].decimals == wsolDecimals
    ensures
      var pairs := GreedyPairs(ts, v);
      GroupPrice(ts, v) == Quotient(Units(Wrap64(SumUsdc(ts, v, pairs)), usdcDecimals),
                                    Units(Wrap64(SumWsol(ts, v, pairs)), wsolDecimals))
  {
    var last := GreedyPairs(ts, v)[|GreedyPairs(ts, v)| - 1];
    LegMints(ts, v, last);
    usdcDecimals := v[ts[UsdcLeg(ts, v, last)].from].decimals;
    wsolDecimals := v[ts[WsolLeg(ts, v, last)].from].decimals;
  }

  /** Without overflow the price is the quotient of the summed amounts of its pairs. */
  lemma PriceOfSums(ts: seq<Transfer>, v: View)
    requires SwapLegs(ts, v) && UniformDecimals(v)
    requires SumUsdc(ts, v, GreedyPairs(ts, v)) < 0x1_0000_0000_0000_0000
    requires SumWsol(ts, v, GreedyPairs(ts, v)) < 0x1_0000_0000_0000_0000
    ensures
      var pairs := GreedyPairs(ts, v);
      && GroupPrice(ts, v) == Quotient(Sum(PairUsdcs(ts, v, pairs)), Sum(PairWsols(ts, v, pairs)))
      && Sum(PairWsols(ts, v, pairs)) >= 0.0
  {
    var pairs := GreedyPairs(ts, v);
    if pairs != [] {
      var usdcDecimals, wsolDecimals := ScaleOfLast(ts, v);
      UnitsOfUsdc(ts, v, pairs, usdcDecimals);
      UnitsOfWsol(ts, v, pairs, wsolDecimals);
      UnitsSign(SumWsol(ts, v, pairs), wsolDecimals);
    }
  }

  /** A positive price lies in every interval that holds the rates of all its pairs, as long as neither total
      overflows 64 bits. */
  lemma PriceIsWeightedMean(ts: seq<Transfer>, v: View, lo: real, hi: real)
    requires SwapLegs(ts, v) && UniformDecimals(v) && GroupPrice(ts, v) > 0.0
    requires SumUsdc(ts, v, GreedyPairs(ts, v)) < 0x1_0000_0000_0000_0000
    requires SumWsol(ts, v, GreedyPairs(ts, v)) < 0x1_0000_0000_0000_0000
    requires forall a | 0 <= a < |GreedyPairs(ts, v)| :: RateWithin(ts, v, GreedyPairs(ts, v)[a], lo, hi)
    ensures lo <= GroupPrice(ts, v) <= hi
  {
    var pairs := GreedyPairs(ts, v);
    var (us, ws) := (PairUsdcs(ts, v, pairs), PairWsols(ts, v, pairs));
    PriceOfSums(ts, v);
    SumsBetween(us, ws, lo, hi);
    QuotientBetween(Sum(us), Sum(ws), lo, hi);
  }
}
