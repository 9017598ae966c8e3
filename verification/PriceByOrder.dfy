/** What the order of the decimals walks may change in the prices of a block. */
module PriceByOrder {
  import opened GoArith
  import opened Chain
  import opened TokenAccounts
  import opened AccountHistory
  import opened BlockOutcomes
  import opened SwapMatching
  import opened SwapPrice
  import opened SwapPriceProperties

  // ----- The matching ignores decimals -----

  lemma CompatibleSame(ts: seq<Transfer>, v: View, w: View, i: nat, j: nat)
    requires SameButDecimals(v, w) && Resolvable(ts, v)
    ensures Resolvable(ts, w) && (Compatible(ts, v, i, j) <==> Compatible(ts, w, i, j))
  {
    assert forall k | k in v :: w[k].mint == v[k].mint && w[k].owner == v[k].owner;
  }

  lemma {:induction false} MateSame(ts: seq<Transfer>, v: View, w: View, use: seq<bool>, i: nat, j: nat)
    requires SameButDecimals(v, w) && Resolvable(ts, v) && Resolvable(ts, w) && |use| == |ts| && j <= |ts|
    ensures Mate(ts, v, use, i, j) == Mate(ts, w, use, i, j)
    decreases |ts| - j
  {
    if j < |ts| {
      CompatibleSame(ts, v, w, i, j);
      MateSame(ts, v, w, use, i, j + 1);
    }
  }

  lemma RoundSame(ts: seq<Transfer>, v: View, w: View, p: Pairing, i: nat)
    requires SameButDecimals(v, w) && Resolvable(ts, v) && Resolvable(ts, w) && |p.use| == |ts| && i < |ts|
    ensures Round(ts, v, p, i) == Round(ts, w, p, i)
  {
    MateSame(ts, v, w, p.use, i, i + 1);
  }

  lemma {:induction false} PairsSame(ts: seq<Transfer>, v: View, w: View, n: nat)
    requires SameButDecimals(v, w) && Resolvable(ts, v) && Resolvable(ts, w) && n <= |ts|
    ensures PairUpTo(ts, v, n) == PairUpTo(ts, w, n)
  {
    if n > 0 {
      PairsSame(ts, v, w, n - 1);
      RoundSame(ts, v, w, PairUpTo(ts, v, n - 1), n - 1);
    }
  }

  lemma LegsSame(ts: seq<Transfer>, v: View, w: View, p: Pair)
    requires SameButDecimals(v, w) && Resolvable(ts, v) && Resolvable(ts, w) && Compatible(ts, v, p.left, p.right)
    ensures Compatible(ts, w, p.left, p.right)
    ensures UsdcLeg(ts, v, p) == UsdcLeg(ts, w, p) && WsolLeg(ts, v, p) == WsolLeg(ts, w, p)
  {
    CompatibleSame(ts, v, w, p.left, p.right);
    assert w[ts[p.left].from].mint == v[ts[p.left].from].mint;
  }

  lemma {:induction false} SumsSame(ts: seq<Transfer>, v: View, w: View, pairs: seq<Pair>)
    requires SameButDecimals(v, w) && Resolvable(ts, v) && Resolvable(ts, w)
    requires AllCompatible(ts, v, pairs) && AllCompatible(ts, w, pairs)
    ensures SumUsdc(ts, v, pairs) == SumUsdc(ts, w, pairs) && SumWsol(ts, v, pairs) == SumWsol(ts, w, pairs)
  {
    if pairs != [] {
      SumsSame(ts, v, w, pairs[..|pairs| - 1]);
      LegsSame(ts, v, w, pairs[|pairs| - 1]);
    }
  }

  /** Maps that are equal up to decimals give the same pairs and the same totals. */
  lemma MatchingSame(ts: seq<Transfer>, v: View, w: View)
    requires SameButDecimals(v, w) && Resolvable(ts, v)
    ensures Resolvable(ts, w) && GreedyPairs(ts, v) == GreedyPairs(ts, w)
    ensures SumUsdc(ts, v, GreedyPairs(ts, v)) == SumUsdc(ts, w, GreedyPairs(ts, w))
    ensures SumWsol(ts, v, GreedyPairs(ts, v)) == SumWsol(ts, w, GreedyPairs(ts, w))
  {
    CompatibleSame(ts, v, w, 0, 0);
    PairsSame(ts, v, w, |ts|);
    SumsSame(ts, v, w, GreedyPairs(ts, v));
  }

  // ----- The scale of a price -----

  /** Totals in raw units, and how many decimals they have. */
  function RatioAt(usdc: uint64, wsol: uint64, usdcDecimals: nat, wsolDecimals: nat): real {
    Quotient(Units(usdc, usdcDecimals), Units(wsol, wsolDecimals))
  }

  function UsdcTotal(ts: seq<Transfer>, v: View): uint64
    requires Resolvable(ts, v)
  {
    Wrap64(SumUsdc(ts, v, GreedyPairs(ts, v)))
  }

  function WsolTotal(ts: seq<Transfer>, v: View): uint64
    requires Resolvable(ts, v)
  {
    Wrap64(SumWsol(ts, v, GreedyPairs(ts, v)))
  }

  /** All accounts of the mint hold these decimals. */
  ghost predicate MintHas(v: View, mint: Address, d: byte) {
    forall k | k in v && v[k].mint == mint :: v[k].decimals == d
  }

  /** The price is the ratio of the 64-bit totals, with the decimals of the accounts that the last pair moves from. */
  lemma LastPairScales(ts: seq<Transfer>, v: View, last: Pair)
    requires Resolvable(ts, v) && GreedyPairs(ts, v) != [] && last == GreedyPairs(ts, v)[|GreedyPairs(ts, v)| - 1]
    ensures GroupPrice(ts, v) == RatioAt(UsdcTotal(ts, v), WsolTotal(ts, v), v[ts[UsdcLeg(ts, v, last)].from].decimals,
                                         v[ts[WsolLeg(ts, v, last)].from].decimals)
  {
  }

  lemma PriceIsRatio(ts: seq<Transfer>, v: View, usdcDecimals: byte, wsolDecimals: byte)
    requires SwapLegs(ts, v) && GreedyPairs(ts, v) != []
    requires MintHas(v, USDC, usdcDecimals) && MintHas(v, WSOL, wsolDecimals)
    ensures GroupPrice(ts, v) == RatioAt(UsdcTotal(ts, v), WsolTotal(ts, v), usdcDecimals, wsolDecimals)
  {
    LegMints(ts, v, GreedyPairs(ts, v)[|GreedyPairs(ts, v)| - 1]);
  }

  lemma ShiftDivisor(x: real, y: real)
    ensures Quotient(x, y / 10.0) == 10.0 * Quotient(x, y)
  {
    if y != 0.0 {
      assert y / 10.0 != 0.0;
      assert x / (y / 10.0) == 10.0 * (x / y);
    }
  }

  lemma ShiftDividend(x: real, y: real)
    ensures 10.0 * Quotient(x / 10.0, y) == Quotient(x, y)
  {
    if y != 0.0 {
      assert 10.0 * (x / 10.0 / y) == x / y;
    }
  }

  /** n more decimals for WSOL make a price 10^n times as large. */
  lemma {:induction false} WsolScale(usdc: uint64, wsol: uint64, usdcDecimals: nat, wsolDecimals: nat, n: nat)
    ensures RatioAt(usdc, wsol, usdcDecimals, wsolDecimals + n) ==
            Pow10(n) * RatioAt(usdc, wsol, usdcDecimals, wsolDecimals)
  {
    if n > 0 {
      WsolScale(usdc, wsol, usdcDecimals, wsolDecimals, n - 1);
      ShiftDivisor(Units(usdc, usdcDecimals), Units(wsol, wsolDecimals + n - 1));
      TenTimes(n, RatioAt(usdc, wsol, usdcDecimals, wsolDecimals));
    }
  }

  lemma TenTimes(n: nat, r: real)
    requires n > 0
    ensures Pow10(n) * r == 10.0 * (Pow10(n - 1) * r)
  {
  }

  /** n more decimals for USDC make it 10^n times as small. */
  lemma {:induction false} UsdcScale(usdc: uint64, wsol: uint64, usdcDecimals: nat, wsolDecimals: nat, n: nat)
    ensures Pow10(n) * RatioAt(usdc, wsol, usdcDecimals + n, wsolDecimals) ==
            RatioAt(usdc, wsol, usdcDecimals, wsolDecimals)
  {
    if n > 0 {
      UsdcScale(usdc, wsol, usdcDecimals, wsolDecimals, n - 1);
      ShiftDividend(Units(usdc, usdcDecimals + n - 1), Units(wsol, wsolDecimals));
      TenTimes(n, RatioAt(usdc, wsol, usdcDecimals + n, wsolDecimals));
      Swap(Pow10(n - 1), RatioAt(usdc, wsol, usdcDecimals + n, wsolDecimals));
    }
  }

  lemma Swap(p: real, r: real)
    ensures 10.0 * (p * r) == p * (10.0 * r)
  {
  }

  lemma GrowthIsStrict(n: nat, r: real)
    requires n > 0 && r > 0.0
    ensures Pow10(n) * r > r
  {
    assert Pow10(n) >= 10.0;
    assert (Pow10(n) - 1.0) * r > 0.0;
  }

  lemma RatioIsPositive(usdc: uint64, wsol: uint64, usdcDecimals: nat, wsolDecimals: nat)
    requires usdc > 0 && wsol > 0
    ensures RatioAt(usdc, wsol, usdcDecimals, wsolDecimals) > 0.0
  {
    UnitsSign(usdc, usdcDecimals);
    UnitsSign(wsol, wsolDecimals);
    QuotientSign(Units(usdc, usdcDecimals), Units(wsol, wsolDecimals));
  }

  /** More decimals for WSOL give a higher price, more for USDC a lower one. */
  lemma MoreWsolDecimals(usdc: uint64, wsol: uint64, usdcDecimals: nat, d: nat, e: nat)
    requires usdc > 0 && wsol > 0 && d < e
    ensures RatioAt(usdc, wsol, usdcDecimals, d) < RatioAt(usdc, wsol, usdcDecimals, e)
  {
    WsolScale(usdc, wsol, usdcDecimals, d, e - d);
    RatioIsPositive(usdc, wsol, usdcDecimals, d);
    GrowthIsStrict(e - d, RatioAt(usdc, wsol, usdcDecimals, d));
  }

  lemma MoreUsdcDecimals(usdc: uint64, wsol: uint64, d: nat, e: nat, wsolDecimals: nat)
    requires usdc > 0 && wsol > 0 && d < e
    ensures RatioAt(usdc, wsol, d, wsolDecimals) > RatioAt(usdc, wsol, e, wsolDecimals)
  {
    UsdcScale(usdc, wsol, d, wsolDecimals, e - d);
    RatioIsPositive(usdc, wsol, e, wsolDecimals);
    GrowthIsStrict(e - d, RatioAt(usdc, wsol, e, wsolDecimals));
  }

  /** Other decimals for one of the two mints, another price. */
  lemma RatiosDiffer(usdc: uint64, wsol: uint64, usdcDecimals: nat, wsolDecimals: nat, d: nat, e: nat)
    requires usdc > 0 && wsol > 0 && d != e
    ensures RatioAt(usdc, wsol, usdcDecimals, d) != RatioAt(usdc, wsol, usdcDecimals, e)
    ensures RatioAt(usdc, wsol, d, wsolDecimals) != RatioAt(usdc, wsol, e, wsolDecimals)
  {
    if d < e {
      MoreWsolDecimals(usdc, wsol, usdcDecimals, d, e);
      MoreUsdcDecimals(usdc, wsol, d, e, wsolDecimals);
    } else {
      MoreWsolDecimals(usdc, wsol, usdcDecimals, e, d);
      MoreUsdcDecimals(usdc, wsol, e, d, wsolDecimals);
    }
  }

  // ----- One list of transfers -----

  /** The list has a price, whatever the decimals (see PricePositiveIff). */
  predicate HasPrice(ts: seq<Transfer>, v: View) {
    SwapLegs(ts, v) && GreedyPairs(ts, v) != [] && UsdcTotal(ts, v) > 0 && WsolTotal(ts, v) > 0
  }

  lemma HasPriceSame(ts: seq<Transfer>, v: View, w: View)
    requires SameButDecimals(v, w)
    ensures SwapLegs(ts, v) <==> SwapLegs(ts, w)
    ensures HasPrice(ts, v) <==> HasPrice(ts, w)
    ensures HasPrice(ts, v) ==> UsdcTotal(ts, v) == UsdcTotal(ts, w) && WsolTotal(ts, v) == WsolTotal(ts, w)
  {
    assert forall k | k in v :: w[k].mint == v[k].mint;
    if SwapLegs(ts, v) {
      MatchingSame(ts, v, w);
    }
  }

  /** Equal accounts of WSOL and USDC, equal prices. */
  lemma GroupPriceSame(ts: seq<Transfer>, v: View, w: View)
    requires SwapLegs(ts, v) && SwapLegs(ts, w) && SameFor(v, w, WSOL) && SameFor(v, w, USDC)
    ensures GroupPrice(ts, v) == GroupPrice(ts, w)
  {
    MatchingSame(ts, v, w);
    var pairs := GreedyPairs(ts, v);
    if pairs != [] {
      LegMints(ts, v, pairs[|pairs| - 1]);
      LegsSame(ts, v, w, pairs[|pairs| - 1]);
    }
  }

  predicate Priceable(mint: Address) {
    mint == WSOL || mint == USDC
  }

  /** Maps that differ in the decimals of one of the two mints price a list differently. */
  lemma PricesDiffer(ts: seq<Transfer>, v: View, w: View, mint: Address, d: byte, e: byte)
    requires HasPrice(ts, v) && UniformDecimals(v) && Priceable(mint)
    requires DifferOnlyIn(v, w, mint)
    requires MintHas(v, mint, d) && MintHas(w, mint, e) && d != e
    ensures HasPrice(ts, w) && GroupPrice(ts, v) != GroupPrice(ts, w)
  {
    HasPriceSame(ts, v, w);
    var usdcDecimals, wsolDecimals := ScaleOfLast(ts, v);
    var (usdc, wsol) := (UsdcTotal(ts, v), WsolTotal(ts, v));
    OwnDecimals(ts, v, usdcDecimals, wsolDecimals, mint, d);
    PriceIsRatio(ts, v, usdcDecimals, wsolDecimals);
    if mint == WSOL {
      assert SameFor(v, w, USDC);
      PriceIsRatio(ts, w, usdcDecimals, e);
      RatiosDiffer(usdc, wsol, usdcDecimals, 0, d, e);
    } else {
      assert SameFor(v, w, WSOL);
      PriceIsRatio(ts, w, e, wsolDecimals);
      RatiosDiffer(usdc, wsol, 0, wsolDecimals, d, e);
    }
  }

  lemma OwnDecimals(ts: seq<Transfer>, v: View, usdcDecimals: byte, wsolDecimals: byte, mint: Address, d: byte)
    requires HasPrice(ts, v) && Priceable(mint)
    requires MintHas(v, USDC, usdcDecimals) && MintHas(v, WSOL, wsolDecimals) && MintHas(v, mint, d)
    ensures d == if mint == WSOL then wsolDecimals else usdcDecimals
  {
    LegMints(ts, v, GreedyPairs(ts, v)[0]);
  }

  lemma PassSameButDecimals(v: View, w: View)
    requires DecimalsPass(v, w)
    ensures SameButDecimals(v, w)
  {
  }

  lemma MixOfOne(v: View, mint: Address)
    ensures SameButDecimals(v, v) && Mix(v, v, mint) == v
  {
  }

  /** Where accounts of a mint hold different decimals, two outcomes of the pass differ in that mint only. */
  lemma TwoOutcomes(v: View, mint: Address, k: Address, j: Address) returns (w: View, x: View)
    requires k in v && j in v && v[k].mint == v[j].mint == mint
    ensures DecimalsPass(v, w) && DecimalsPass(v, x) && DifferOnlyIn(w, x, mint)
    ensures MintHas(w, mint, v[k].decimals) && MintHas(x, mint, v[j].decimals)
  {
    w := PassWith(v, mint, v[k].decimals);
    var y := PassWith(v, mint, v[j].decimals);
    PassSameButDecimals(v, w);
    PassSameButDecimals(v, y);
    MixOfOne(v, mint);
    x := Mix(w, y, mint);
    MixPass(v, w, v, y, mint);
    MixIsSame(w, y, mint);
  }

  /** A list that has a price has the same one for every walking order exactly if before the pass the accounts of
      WSOL agree on their decimals, and those of USDC as well. */
  lemma ListPriceIff(ts: seq<Transfer>, v: View)
    requires HasPrice(ts, v)
    ensures
      (forall w, x | DecimalsPass(v, w) && DecimalsPass(v, x) && Resolvable(ts, w) && Resolvable(ts, x) ::
        GroupPrice(ts, w) == GroupPrice(ts, x))
      <==> MintUniform(v, WSOL) && MintUniform(v, USDC)
  {
    if MintUniform(v, WSOL) && MintUniform(v, USDC) {
      forall w, x | DecimalsPass(v, w) && DecimalsPass(v, x)
        ensures Resolvable(ts, w) && Resolvable(ts, x) && GroupPrice(ts, w) == GroupPrice(ts, x)
      {
        PriceOfPass(ts, v, w);
        PriceOfPass(ts, v, x);
      }
    } else {
      var mint := if MintUniform(v, WSOL) then USDC else WSOL;
      var k, j :| k in v && j in v && v[k].mint == mint && v[j].mint == mint && v[k].decimals != v[j].decimals;
      var w, x := OrderMatters(ts, v, mint, k, j);
    }
  }

  lemma PriceOfPass(ts: seq<Transfer>, v: View, w: View)
    requires SwapLegs(ts, v) && MintUniform(v, WSOL) && MintUniform(v, USDC) && DecimalsPass(v, w)
    ensures Resolvable(ts, w) && GroupPrice(ts, w) == GroupPrice(ts, v)
  {
    PassSameFor(v, w, WSOL);
    PassSameFor(v, w, USDC);
    HasPriceSame(ts, v, w);
    GroupPriceSame(ts, v, w);
  }

  lemma OrderMatters(ts: seq<Transfer>, v: View, mint: Address, k: Address, j: Address) returns (w: View, x: View)
    requires HasPrice(ts, v) && Priceable(mint)
    requires k in v && j in v && v[k].mint == v[j].mint == mint && v[k].decimals != v[j].decimals
    ensures DecimalsPass(v, w) && DecimalsPass(v, x) && Resolvable(ts, w) && Resolvable(ts, x)
    ensures GroupPrice(ts, w) != GroupPrice(ts, x)
  {
    w, x := TwoOutcomes(v, mint, k, j);
    PassSameButDecimals(v, w);
    HasPriceSame(ts, v, w);
    PricesDiffer(ts, w, x, mint, v[k].decimals, v[j].decimals);
  }
}
