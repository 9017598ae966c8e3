/** What the price of a block means: it lies between the rates of the pairs matched anywhere in the block. */
module SolPriceProperties {
  import opened GoArith
  import opened Chain
  import opened TokenAccounts
  import opened SwapMatching
  import opened SwapPrice
  import opened SwapPriceProperties
  import opened TrimmedMean
  import opened TrimmedMeanProperties
  import opened AccountHistory
  import opened SolPrice

  /** The exchange rate of one matched pair, USDC per WSOL. */
  function Rate(ts: seq<Transfer>, v: View, p: Pair): real
    requires Resolvable(ts, v) && Compatible(ts, v, p.left, p.right)
  {
    Quotient(PairUsdc(ts, v, p), PairWsol(ts, v, p))
  }

  function GroupRates(ts: seq<Transfer>, v: View): seq<real>
    requires SwapLegs(ts, v)
  {
    var pairs := GreedyPairs(ts, v);
    seq(|pairs|, i requires 0 <= i < |pairs| => Rate(ts, v, pairs[i]))
  }

  function RateList(ts: seq<Transfer>, v: View): seq<real> {
    if SwapLegs(ts, v) && GroupPrice(ts, v) > 0.0 then GroupRates(ts, v) else []
  }

  function Rater(v: View): seq<Transfer> -> seq<real> {
    ts => RateList(ts, v)
  }

  /** The rates of the pairs behind the positive prices of a list of groups. */
  function PricedRates(groups: seq<seq<Transfer>>, v: View): seq<real> {
    FlatMap(Rater(v), groups)
  }

  function StepRates(): Applied -> seq<real> {
    (a: Applied) => if InRange(a.tx) && a.changed then PricedRates(Groups(a.tx, a.view), a.view) else []
  }

  /** The rates of all pairs matched in a block, in the groups that count. */
  ghost function BlockRates(txs: seq<Transaction>, views: seq<View>, changes: seq<bool>): seq<real>
    requires Aligned(txs, views, changes)
  {
    FlatMap(StepRates(), AppliedSteps(txs, views, changes))
  }

  /** What the mean needs of one priced group: its 64-bit totals do not overflow and every pair moves some WSOL. */
  predicate Sound(ts: seq<Transfer>, v: View)
    requires SwapLegs(ts, v)
  {
    var pairs := GreedyPairs(ts, v);
    && SumUsdc(ts, v, pairs) < 0x1_0000_0000_0000_0000 && SumWsol(ts, v, pairs) < 0x1_0000_0000_0000_0000
    && forall a | 0 <= a < |pairs| :: ts[WsolLeg(ts, v, pairs[a])].amount > 0
  }

  ghost predicate AllSound(groups: seq<seq<Transfer>>, v: View)
    requires AllSwapLegs(groups, v)
  {
    forall g | 0 <= g < |groups| && GroupPrice(groups[g], v) > 0.0 :: Sound(groups[g], v)
  }

  ghost predicate BlockSound(txs: seq<Transaction>, views: seq<View>, changes: seq<bool>)
    requires BlockRun(txs, views, changes)
  {
    forall t | 0 <= t < |txs| && changes[t] ::
      AllSwapLegs(Groups(txs[t], views[t + 1]), views[t + 1]) && AllSound(Groups(txs[t], views[t + 1]), views[t + 1])
  }

  ghost predicate AllWithin(s: seq<real>, lo: real, hi: real) {
    forall i | 0 <= i < |s| :: lo <= s[i] <= hi
  }

  lemma RateBetween(ts: seq<Transfer>, v: View, p: Pair, lo: real, hi: real)
    requires Resolvable(ts, v) && Compatible(ts, v, p.left, p.right)
    requires ts[WsolLeg(ts, v, p)].amount > 0 && lo <= Rate(ts, v, p) <= hi
    ensures RateWithin(ts, v, p, lo, hi)
  {
    var t := ts[WsolLeg(ts, v, p)];
    UnitsSign(t.amount, v[t.from].decimals);
    ProductBetween(PairUsdc(ts, v, p), PairWsol(ts, v, p), lo, hi);
  }

  lemma ProductBetween(u: real, w: real, lo: real, hi: real)
    requires w > 0.0 && lo <= Quotient(u, w) <= hi
    ensures Between(u, w, lo, hi)
  {
    var q := u / w;
    assert q * w == u;
    assert (q - lo) * w >= 0.0;
    assert (hi - q) * w >= 0.0;
  }

  /** A positive group price lies between the rates of its pairs. */
  lemma GroupPriceWithinRates(ts: seq<Transfer>, v: View, lo: real, hi: real)
    requires SwapLegs(ts, v) && UniformDecimals(v) && Sound(ts, v) && GroupPrice(ts, v) > 0.0
    requires AllWithin(GroupRates(ts, v), lo, hi)
    ensures lo <= GroupPrice(ts, v) <= hi && GroupRates(ts, v) != []
  {
    var pairs := GreedyPairs(ts, v);
    forall a | 0 <= a < |pairs|
      ensures RateWithin(ts, v, pairs[a], lo, hi)
    {
      assert GroupRates(ts, v)[a] == Rate(ts, v, pairs[a]);
      RateBetween(ts, v, pairs[a], lo, hi);
    }
    PriceIsWeightedMean(ts, v, lo, hi);
  }

  lemma AllWithinSplit(s: seq<real>, t: seq<real>, lo: real, hi: real)
    ensures AllWithin(s + t, lo, hi) <==> AllWithin(s, lo, hi) && AllWithin(t, lo, hi)
  {
    if AllWithin(s + t, lo, hi) {
      assert forall i | 0 <= i < |s| :: s[i] == (s + t)[i];
      assert forall i | 0 <= i < |t| :: t[i] == (s + t)[|s| + i];
    }
  }

  lemma {:induction false} FlatMapWithin<T>(price: T -> seq<real>, rate: T -> seq<real>, xs: seq<T>, lo: real, hi: real)
    requires forall i | 0 <= i < |xs| && AllWithin(rate(xs[i]), lo, hi) ::
      AllWithin(price(xs[i]), lo, hi) && (price(xs[i]) != [] ==> rate(xs[i]) != [])
    requires AllWithin(FlatMap(rate, xs), lo, hi)
    ensures AllWithin(FlatMap(price, xs), lo, hi)
    ensures FlatMap(price, xs) != [] ==> FlatMap(rate, xs) != []
  {
    if xs != [] {
      var n := |xs| - 1;
      AllWithinSplit(FlatMap(rate, xs[..n]), rate(xs[n]), lo, hi);
      FlatMapWithin(price, rate, xs[..n], lo, hi);
      AllWithinSplit(FlatMap(price, xs[..n]), price(xs[n]), lo, hi);
    }
  }

  /** One group's price, if it is positive, lies within any bounds of its rates. */
  lemma PriceWithinRates(ts: seq<Transfer>, v: View, lo: real, hi: real)
    requires SwapLegs(ts, v) && UniformDecimals(v) && (GroupPrice(ts, v) > 0.0 ==> Sound(ts, v))
    requires AllWithin(RateList(ts, v), lo, hi)
    ensures AllWithin(PositivePrice(ts, v), lo, hi)
    ensures PositivePrice(ts, v) != [] ==> RateList(ts, v) != []
  {
    if GroupPrice(ts, v) > 0.0 {
      GroupPriceWithinRates(ts, v, lo, hi);
    }
  }

  lemma PricesWithinRates(groups: seq<seq<Transfer>>, v: View, lo: real, hi: real)
    requires AllSwapLegs(groups, v) && UniformDecimals(v) && AllSound(groups, v)
    requires AllWithin(PricedRates(groups, v), lo, hi)
    ensures AllWithin(PositivePrices(groups, v), lo, hi)
    ensures PositivePrices(groups, v) != [] ==> PricedRates(groups, v) != []
  {
    forall g | 0 <= g < |groups| && AllWithin(Rater(v)(groups[g]), lo, hi)
      ensures AllWithin(Pricer(v)(groups[g]), lo, hi) && (Pricer(v)(groups[g]) != [] ==> Rater(v)(groups[g]) != [])
    {
      PriceWithinRates(groups[g], v, lo, hi);
    }
    FlatMapWithin(Pricer(v), Rater(v), groups, lo, hi);
  }

  ghost predicate StepSound(a: Applied) {
    && UniformDecimals(a.view)
    && (InRange(a.tx) && a.changed ==>
      AllSwapLegs(Groups(a.tx, a.view), a.view) && AllSound(Groups(a.tx, a.view), a.view))
  }

  /** One transaction's prices lie within any bounds of its rates. */
  lemma StepWithinRates(a: Applied, lo: real, hi: real)
    requires StepSound(a) && AllWithin(StepRates()(a), lo, hi)
    ensures AllWithin(StepPrices()(a), lo, hi)
    ensures StepPrices()(a) != [] ==> StepRates()(a) != []
  {
    if InRange(a.tx) && a.changed {
      PricesWithinRates(Groups(a.tx, a.view), a.view, lo, hi);
    }
  }

  lemma StepsWithinRates(steps: seq<Applied>, lo: real, hi: real)
    requires forall t | 0 <= t < |steps| :: StepSound(steps[t])
    requires AllWithin(FlatMap(StepRates(), steps), lo, hi)
    ensures AllWithin(FlatMap(StepPrices(), steps), lo, hi)
    ensures FlatMap(StepPrices(), steps) != [] ==> FlatMap(StepRates(), steps) != []
  {
    forall t | 0 <= t < |steps| && AllWithin(StepRates()(steps[t]), lo, hi)
      ensures AllWithin(StepPrices()(steps[t]), lo, hi)
      ensures StepPrices()(steps[t]) != [] ==> StepRates()(steps[t]) != []
    {
      StepWithinRates(steps[t], lo, hi);
    }
    FlatMapWithin(StepPrices(), StepRates(), steps, lo, hi);
  }

  lemma StepIsSound(txs: seq<Transaction>, views: seq<View>, changes: seq<bool>, t: nat)
    requires BlockRun(txs, views, changes) && BlockSound(txs, views, changes) && t < |txs|
    ensures StepSound(Applied(txs[t], views[t + 1], changes[t]))
  {
    DecimalsUniform(EventLists(txs), views, changes, t);
  }

  lemma StepsAreSound(txs: seq<Transaction>, views: seq<View>, changes: seq<bool>)
    requires BlockRun(txs, views, changes) && BlockSound(txs, views, changes)
    ensures
      var steps := AppliedSteps(txs, views, changes);
      forall t | 0 <= t < |steps| :: StepSound(steps[t])
  {
    var steps := AppliedSteps(txs, views, changes);
    forall t | 0 <= t < |steps|
      ensures StepSound(steps[t])
    {
      StepIsSound(txs, views, changes, t);
      assert steps[t] == Applied(txs[t], views[t + 1], changes[t]);
    }
  }

  lemma BlockPricesWithinRates(txs: seq<Transaction>, views: seq<View>, changes: seq<bool>, lo: real, hi: real)
    requires BlockRun(txs, views, changes) && BlockSound(txs, views, changes)
    requires AllWithin(BlockRates(txs, views, changes), lo, hi)
    ensures AllWithin(BlockPrices(txs, views, changes), lo, hi)
    ensures BlockPrices(txs, views, changes) != [] ==> BlockRates(txs, views, changes) != []
  {
    StepsAreSound(txs, views, changes);
    StepsWithinRates(AppliedSteps(txs, views, changes), lo, hi);
  }

  /** When a block prices at least one swap, the price that GetSolPrice returns lies between the lowest and the
      highest rate of the pairs matched in the block. */
  lemma BlockPriceBetweenRates(txs: seq<Transaction>, views: seq<View>, changes: seq<bool>,
                               rowPrice: real, nearPrice: Option<real>)
    requires BlockRun(txs, views, changes) && BlockSound(txs, views, changes)
    requires BlockPrices(txs, views, changes) != []
    ensures
      var rates := BlockRates(txs, views, changes);
      var price := SettledPrice(BlockPrices(txs, views, changes), rowPrice, nearPrice);
      rates != [] && Min(rates) <= price <= Max(rates) && price > 0.0
  {
    var prices, rates := BlockPrices(txs, views, changes), BlockRates(txs, views, changes);
    AggregateWithinRange(prices);
    BlockPricesAreFinite(txs, views, changes);
    if rates == [] {
      BlockPricesWithinRates(txs, views, changes, 0.0, 0.0);
    } else {
      BlockPricesWithinRates(txs, views, changes, Min(rates), Max(rates));
    }
    assert Min(prices) in prices && Max(prices) in prices;
  }
}
