/** When the prices of a whole block do not depend on the order of the decimals walks, read off its events. */
module BlockPriceByOrder {
  import opened GoArith
  import opened Chain
  import opened TokenAccounts
  import opened AccountHistory
  import opened BlockOutcomes
  import opened SwapMatching
  import opened SwapPrice
  import opened SwapPriceProperties
  import opened SolPrice
  import opened PriceByOrder

  // ----- The lists of a transaction ignore decimals -----

  lemma IsSwapLegSame(t: Transfer, v: View, w: View)
    requires SameButDecimals(v, w)
    ensures IsSwapLeg(t, v) <==> IsSwapLeg(t, w)
  {
    assert forall k | k in v :: w[k].mint == v[k].mint;
  }

  lemma {:induction false} TransfersSame(insts: seq<Instruction>, keys: seq<Address>, v: View, w: View)
    requires InstructionsInRange(insts, keys) && SameButDecimals(v, w)
    ensures TransfersOf(insts, keys, v) == TransfersOf(insts, keys, w)
  {
    if insts != [] {
      var n := |insts| - 1;
      TransfersSame(insts[..n], keys, v, w);
      if GetTransfer(keys, insts[n]).Some? {
        IsSwapLegSame(GetTransfer(keys, insts[n]).value, v, w);
      }
    }
  }

  lemma {:induction false} OuterGroupsSame(tx: Transaction, n: nat, v: View, w: View)
    requires InRange(tx) && n <= |tx.instructions| && SameButDecimals(v, w)
    ensures OuterGroups(tx, n, v) == OuterGroups(tx, n, w)
  {
    if n > 0 {
      OuterGroupsSame(tx, n - 1, v, w);
      InnerMapInRange(tx.inner, tx.keys);
      if n - 1 in InnerMap(tx.inner) {
        TransfersSame(InnerMap(tx.inner)[n - 1], tx.keys, v, w);
      }
    }
  }

  lemma {:induction false} WindowGroupsSame(insts: seq<Instruction>, keys: seq<Address>, n: nat, v: View, w: View)
    requires InstructionsInRange(insts, keys) && n <= |insts| && SameButDecimals(v, w)
    ensures WindowGroups(insts, keys, n, v) == WindowGroups(insts, keys, n, w)
  {
    if n > 0 {
      WindowGroupsSame(insts, keys, n - 1, v, w);
      if n + 2 <= |insts| {
        TransfersSame(insts[n..n + 2], keys, v, w);
      }
    }
  }

  lemma {:induction false} InnerGroupsSame(tx: Transaction, n: nat, v: View, w: View)
    requires InRange(tx) && n <= |tx.inner| && SameButDecimals(v, w)
    ensures InnerGroups(tx, n, v) == InnerGroups(tx, n, w)
  {
    if n > 0 {
      var insts := tx.inner[n - 1].instructions;
      InnerGroupsSame(tx, n - 1, v, w);
      WindowGroupsSame(insts, tx.keys, |insts|, v, w);
    }
  }

  lemma GroupsSame(tx: Transaction, v: View, w: View)
    requires InRange(tx) && SameButDecimals(v, w)
    ensures Groups(tx, v) == Groups(tx, w)
  {
    OuterGroupsSame(tx, |tx.instructions|, v, w);
    InnerGroupsSame(tx, |tx.inner|, v, w);
  }

  // ----- The prices of a transaction -----

  lemma PositiveIffHasPrice(ts: seq<Transfer>, v: View)
    ensures PositivePrice(ts, v) == if HasPrice(ts, v) then [GroupPrice(ts, v)] else []
  {
    if SwapLegs(ts, v) {
      PricePositiveIff(ts, v);
    }
  }

  /** One of the transaction's lists has a price. */
  ghost predicate SomeHasPrice(tx: Transaction, v: View)
    requires InRange(tx)
  {
    exists g :: 0 <= g < |Groups(tx, v)| && HasPrice(Groups(tx, v)[g], v)
  }

  lemma SomeHasPriceSame(tx: Transaction, v: View, w: View)
    requires InRange(tx) && SameButDecimals(v, w)
    ensures SomeHasPrice(tx, v) <==> SomeHasPrice(tx, w)
  {
    GroupsSame(tx, v, w);
    forall g | 0 <= g < |Groups(tx, v)|
      ensures HasPrice(Groups(tx, v)[g], v) <==> HasPrice(Groups(tx, w)[g], w)
    {
      HasPriceSame(Groups(tx, v)[g], v, w);
    }
  }

  lemma PositiveLengthSame(ts: seq<Transfer>, v: View, w: View)
    requires SameButDecimals(v, w)
    ensures |PositivePrice(ts, v)| == |PositivePrice(ts, w)|
  {
    PositiveIffHasPrice(ts, v);
    PositiveIffHasPrice(ts, w);
    HasPriceSame(ts, v, w);
  }

  /** The prices of the lists are equal exactly if they are list by list. */
  lemma PricesEqualIff(groups: seq<seq<Transfer>>, v: View, w: View)
    requires SameButDecimals(v, w)
    ensures |PositivePrices(groups, v)| == |PositivePrices(groups, w)|
    ensures PositivePrices(groups, v) == PositivePrices(groups, w) <==>
      forall g | 0 <= g < |groups| :: PositivePrice(groups[g], v) == PositivePrice(groups[g], w)
  {
    forall g | 0 <= g < |groups|
      ensures |Pricer(v)(groups[g])| == |Pricer(w)(groups[g])|
    {
      PositiveLengthSame(groups[g], v, w);
    }
    FlatMapEqualIff(Pricer(v), groups, Pricer(w), groups);
    assert forall g | 0 <= g < |groups| ::
      Pricer(v)(groups[g]) == PositivePrice(groups[g], v) && Pricer(w)(groups[g]) == PositivePrice(groups[g], w);
  }

  lemma StepLengthSame(tx: Transaction, v: View, w: View, changed: bool)
    requires SameButDecimals(v, w)
    ensures |PricesOfStep(tx, v, changed)| == |PricesOfStep(tx, w, changed)|
  {
    if InRange(tx) && changed {
      GroupsSame(tx, v, w);
      PricesEqualIff(Groups(tx, v), v, w);
    }
  }

  /** With equal accounts of WSOL and USDC, or without any price, a transaction's prices are the same. */
  lemma StepPricesSame(tx: Transaction, v: View, w: View, changed: bool)
    requires InRange(tx) && SameButDecimals(v, w)
    requires changed && SomeHasPrice(tx, v) ==> SameFor(v, w, WSOL) && SameFor(v, w, USDC)
    ensures PricesOfStep(tx, v, changed) == PricesOfStep(tx, w, changed)
  {
    if changed {
      GroupsSame(tx, v, w);
      var groups := Groups(tx, v);
      forall g | 0 <= g < |groups|
        ensures PositivePrice(groups[g], v) == PositivePrice(groups[g], w)
      {
        PositiveSame(groups[g], v, w, SomeHasPrice(tx, v));
      }
      PricesEqualIff(groups, v, w);
    }
  }

  lemma PositiveSame(ts: seq<Transfer>, v: View, w: View, some: bool)
    requires SameButDecimals(v, w) && (HasPrice(ts, v) ==> some)
    requires some ==> SameFor(v, w, WSOL) && SameFor(v, w, USDC)
    ensures PositivePrice(ts, v) == PositivePrice(ts, w)
  {
    PositiveIffHasPrice(ts, v);
    PositiveIffHasPrice(ts, w);
    HasPriceSame(ts, v, w);
    if HasPrice(ts, v) {
      GroupPriceSame(ts, v, w);
    }
  }

  /** Other decimals for WSOL or USDC give a transaction that has a price other prices. */
  lemma StepPricesDiffer(tx: Transaction, v: View, w: View, mint: Address, d: byte, e: byte)
    requires InRange(tx) && SomeHasPrice(tx, v) && UniformDecimals(v) && Priceable(mint)
    requires DifferOnlyIn(v, w, mint)
    requires MintHas(v, mint, d) && MintHas(w, mint, e) && d != e
    ensures PricesOfStep(tx, v, true) != PricesOfStep(tx, w, true)
  {
    GroupsSame(tx, v, w);
    var groups := Groups(tx, v);
    var g :| 0 <= g < |groups| && HasPrice(groups[g], v);
    PricesDiffer(groups[g], v, w, mint, d, e);
    PositiveIffHasPrice(groups[g], v);
    PositiveIffHasPrice(groups[g], w);
    PricesEqualIff(groups, v, w);
  }

  // ----- The prices of a block -----

  /** Transaction t of a block is priced: a change is reported, and one of its lists has a price. No decimals enter. */
  ghost predicate IsPriced(txs: seq<Transaction>, t: nat)
    requires AllInRange(txs) && t < |txs|
  {
    var lists := EventLists(txs);
    HasChange(PlainReplay(lists, t), lists[t]) && SomeHasPrice(txs[t], PlainReplay(lists, t + 1))
  }

  lemma IsPricedInRun(txs: seq<Transaction>, views: seq<View>, changes: seq<bool>, t: nat)
    requires BlockRun(txs, views, changes) && t < |txs|
    ensures IsPriced(txs, t) <==> changes[t] && SomeHasPrice(txs[t], views[t + 1])
  {
    ChangeOfReplay(EventLists(txs), views, changes, t);
    SomeHasPriceSame(txs[t], PlainReplay(EventLists(txs), t + 1), views[t + 1]);
  }

  lemma ChangeOfReplay(lists: seq<seq<Event>>, views: seq<View>, changes: seq<bool>, t: nat)
    requires FullReplay(lists, views, changes) && t < |lists|
    ensures changes[t] == HasChange(PlainReplay(lists, t), lists[t])
    ensures SameButDecimals(PlainReplay(lists, t + 1), views[t + 1])
  {
    FilledPrefix(lists, views, changes, |changes|, t);
    StepAt(lists, views, changes, t);
    RunIsReplay(lists, views, changes, t);
    RunIsReplay(lists, views, changes, t + 1);
    HasChangeSame(PlainReplay(lists, t), views[t], lists[t]);
  }

  lemma ChangesSame(lists: seq<seq<Event>>, views: seq<View>, changes: seq<bool>,
                    views': seq<View>, changes': seq<bool>, t: nat)
    requires FullReplay(lists, views, changes) && FullReplay(lists, views', changes') && t < |lists|
    ensures changes[t] == changes'[t]
  {
    RunsSameButDecimals(lists, views, changes, views', changes', t);
    StepAt(lists, views, changes, t);
    StepAt(lists, views', changes', t);
    HasChangeSame(views[t], views'[t], lists[t]);
  }

  /** Step by step two runs of a block differ in decimals only. */
  lemma StepsSame(txs: seq<Transaction>, views: seq<View>, changes: seq<bool>,
                  views': seq<View>, changes': seq<bool>, t: nat)
    requires BlockRun(txs, views, changes) && BlockRun(txs, views', changes') && t < |txs|
    ensures SameButDecimals(views[t + 1], views'[t + 1]) && changes[t] == changes'[t]
  {
    RunsSameButDecimals(EventLists(txs), views, changes, views', changes', t + 1);
    ChangesSame(EventLists(txs), views, changes, views', changes', t);
  }

  /** Steps of two runs that differ in decimals only. */
  ghost predicate Alike(a: Applied, b: Applied) {
    a.tx == b.tx && a.changed == b.changed && SameButDecimals(a.view, b.view)
  }

  ghost predicate SamePrices(a: Applied, b: Applied) {
    StepPrices()(a) == StepPrices()(b)
  }

  lemma AppliedEqualIff(xs: seq<Applied>, ys: seq<Applied>)
    requires |xs| == |ys| && forall t | 0 <= t < |xs| :: Alike(xs[t], ys[t])
    ensures FlatMap(StepPrices(), xs) == FlatMap(StepPrices(), ys) <==>
      forall t | 0 <= t < |xs| :: SamePrices(xs[t], ys[t])
  {
    forall t | 0 <= t < |xs|
      ensures |StepPrices()(xs[t])| == |StepPrices()(ys[t])|
    {
      assert Alike(xs[t], ys[t]);
      StepLengthSame(xs[t].tx, xs[t].view, ys[t].view, xs[t].changed);
    }
    FlatMapEqualIff(StepPrices(), xs, StepPrices(), ys);
  }

  /** The steps of a run, whose prices are those of the block. */
  lemma StepsOf(txs: seq<Transaction>, views: seq<View>, changes: seq<bool>) returns (xs: seq<Applied>)
    requires BlockRun(txs, views, changes)
    ensures |xs| == |txs| && forall t | 0 <= t < |xs| :: xs[t] == Applied(txs[t], views[t + 1], changes[t])
    ensures BlockPrices(txs, views, changes) == FlatMap(StepPrices(), xs)
  {
    xs := AppliedSteps(txs, views, changes);
  }

  /** The steps of two runs of a block, whose prices are equal exactly if they are step by step. */
  lemma StepsOfTwo(txs: seq<Transaction>, views: seq<View>, changes: seq<bool>,
                   views': seq<View>, changes': seq<bool>)
    returns (xs: seq<Applied>, ys: seq<Applied>)
    requires BlockRun(txs, views, changes) && BlockRun(txs, views', changes')
    ensures |xs| == |txs| && forall t | 0 <= t < |xs| :: xs[t] == Applied(txs[t], views[t + 1], changes[t])
    ensures |ys| == |txs| && forall t | 0 <= t < |ys| :: ys[t] == Applied(txs[t], views'[t + 1], changes'[t])
    ensures forall t | 0 <= t < |xs| :: Alike(xs[t], ys[t])
    ensures BlockPrices(txs, views, changes) == BlockPrices(txs, views', changes') <==>
      forall t | 0 <= t < |xs| :: SamePrices(xs[t], ys[t])
  {
    xs := StepsOf(txs, views, changes);
    ys := StepsOf(txs, views', changes');
    forall t | 0 <= t < |xs|
      ensures Alike(xs[t], ys[t])
    {
      StepsSame(txs, views, changes, views', changes', t);
    }
    AppliedEqualIff(xs, ys);
  }

  /** A step that leaves the accounts of WSOL and USDC the same, or has no price, has the same prices. */
  lemma AlikeStepPrices(a: Applied, b: Applied)
    requires Alike(a, b) && InRange(a.tx)
    requires a.changed && SomeHasPrice(a.tx, a.view) ==> SameFor(a.view, b.view, WSOL) && SameFor(a.view, b.view, USDC)
    ensures SamePrices(a, b)
  {
    StepPricesSame(a.tx, a.view, b.view, a.changed);
  }

  /** When the plain replay of a block never holds different decimals for WSOL, nor for USDC, all runs of the block
      have the same prices and settle on the same price, whatever happens to other mints. */
  lemma OneBlockPrice(txs: seq<Transaction>, views: seq<View>, changes: seq<bool>,
                      views': seq<View>, changes': seq<bool>, rowPrice: real, nearPrice: Option<real>)
    requires BlockRun(txs, views, changes) && BlockRun(txs, views', changes')
    requires NoMintConflict(EventLists(txs), WSOL, |txs|) && NoMintConflict(EventLists(txs), USDC, |txs|)
    ensures BlockPrices(txs, views, changes) == BlockPrices(txs, views', changes')
    ensures SettledPrice(BlockPrices(txs, views, changes), rowPrice, nearPrice) ==
            SettledPrice(BlockPrices(txs, views', changes'), rowPrice, nearPrice)
  {
    var xs, ys := StepsOfTwo(txs, views, changes, views', changes');
    forall t | 0 <= t < |xs|
      ensures SamePrices(xs[t], ys[t])
    {
      TrackBoth(EventLists(txs), views, changes, views', changes', t + 1);
      assert Alike(xs[t], ys[t]);
      AlikeStepPrices(xs[t], ys[t]);
    }
  }

  /** Without conflicts in the plain replay, two runs have the accounts of a mint in common. */
  lemma TrackSame(lists: seq<seq<Event>>, views: seq<View>, changes: seq<bool>,
                  views': seq<View>, changes': seq<bool>, mint: Address, t: nat)
    requires FullReplay(lists, views, changes) && FullReplay(lists, views', changes') && t <= |lists|
    requires NoMintConflict(lists, mint, |lists|)
    ensures SameFor(views[t], views'[t], mint)
  {
    TracksReplay(lists, views, changes, mint, t);
    TracksReplay(lists, views', changes', mint, t);
    SameAsThird(PlainReplay(lists, t), views[t], views'[t], mint);
  }

  lemma SameAsThird(u: View, v: View, w: View, mint: Address)
    requires SameFor(u, v, mint) && SameFor(u, w, mint)
    ensures SameFor(v, w, mint)
  {
    forall k | k in v
      ensures w[k] == v[k].(decimals := w[k].decimals) && (v[k].mint == mint ==> w[k] == v[k])
    {
      assert v[k] == u[k].(decimals := v[k].decimals) && w[k] == u[k].(decimals := w[k].decimals);
    }
  }

  lemma TrackBoth(lists: seq<seq<Event>>, views: seq<View>, changes: seq<bool>,
                  views': seq<View>, changes': seq<bool>, t: nat)
    requires FullReplay(lists, views, changes) && FullReplay(lists, views', changes') && t <= |lists|
    requires NoMintConflict(lists, WSOL, |lists|) && NoMintConflict(lists, USDC, |lists|)
    ensures SameFor(views[t], views'[t], WSOL) && SameFor(views[t], views'[t], USDC)
  {
    TrackSame(lists, views, changes, views', changes', WSOL, t);
    TrackSame(lists, views, changes, views', changes', USDC, t);
  }

  /** After t transactions the mint cannot have but one number of decimals. */
  ghost predicate OnlyOne(lists: seq<seq<Event>>, t: nat, mint: Address)
    requires t <= |lists|
  {
    forall d, e | MayHold(lists, t, mint, d) && MayHold(lists, t, mint, e) :: d == e
  }

  lemma OnlyOneSame(lists: seq<seq<Event>>, views: seq<View>, changes: seq<bool>,
                    views': seq<View>, changes': seq<bool>, t: nat, mint: Address)
    requires FullReplay(lists, views, changes) && FullReplay(lists, views', changes') && t <= |lists|
    requires OnlyOne(lists, t, mint)
    ensures SameFor(views[t], views'[t], mint)
  {
    RunsSameButDecimals(lists, views, changes, views', changes', t);
    forall k | k in views[t] && views[t][k].mint == mint
      ensures views'[t][k] == views[t][k]
    {
      var d := HoldsSome(lists, views, changes, t, mint);
      var e := HoldsSome(lists, views', changes', t, mint);
      assert views'[t][k] == views[t][k].(decimals := views'[t][k].decimals);
      HeldMayHold(lists, views, changes, t, mint, d);
      HeldMayHold(lists, views', changes', t, mint, e);
    }
  }

  lemma OnlyOneBoth(lists: seq<seq<Event>>, views: seq<View>, changes: seq<bool>,
                    views': seq<View>, changes': seq<bool>, t: nat)
    requires FullReplay(lists, views, changes) && FullReplay(lists, views', changes') && t <= |lists|
    requires OnlyOne(lists, t, WSOL) && OnlyOne(lists, t, USDC)
    ensures SameFor(views[t], views'[t], WSOL) && SameFor(views[t], views'[t], USDC)
  {
    OnlyOneSame(lists, views, changes, views', changes', t, WSOL);
    OnlyOneSame(lists, views, changes, views', changes', t, USDC);
  }

  lemma PricedAlike(txs: seq<Transaction>, views: seq<View>, changes: seq<bool>,
                    views': seq<View>, changes': seq<bool>, t: nat)
    requires BlockRun(txs, views, changes) && BlockRun(txs, views', changes') && t < |txs|
    requires IsPriced(txs, t) ==> OnlyOne(EventLists(txs), t + 1, WSOL) && OnlyOne(EventLists(txs), t + 1, USDC)
    ensures changes[t] && SomeHasPrice(txs[t], views[t + 1]) ==>
      SameFor(views[t + 1], views'[t + 1], WSOL) && SameFor(views[t + 1], views'[t + 1], USDC)
  {
    if changes[t] && SomeHasPrice(txs[t], views[t + 1]) {
      IsPricedInRun(txs, views, changes, t);
      OnlyOneBoth(EventLists(txs), views, changes, views', changes', t + 1);
    }
  }

  /** Two runs that differ, in one mint only, at a moment when the mint may have two numbers of decimals. */
  lemma RunsDiffering(lists: seq<seq<Event>>, t: nat, mint: Address, d: byte, e: byte)
    returns (views: seq<View>, changes: seq<bool>, mixed: seq<View>)
    requires t <= |lists| && MayHold(lists, t, mint, d) && MayHold(lists, t, mint, e)
    ensures FullReplay(lists, views, changes) && FullReplay(lists, mixed, changes)
    ensures DifferOnlyIn(views[t], mixed[t], mint)
    ensures MintHas(views[t], mint, d) && MintHas(mixed[t], mint, e)
  {
    views, changes := MayHoldRun(lists, t, mint, d);
    var views', changes' := MayHoldRun(lists, t, mint, e);
    mixed := MixRuns(lists, views, changes, views', changes', mint, |lists|);
    assert changes[..|lists|] == changes;
    MixSplits(views[t], views'[t], mint, e);
  }

  lemma MixSplits(v: View, w: View, mint: Address, e: byte)
    requires SameButDecimals(v, w) && MintHas(w, mint, e)
    ensures DifferOnlyIn(v, Mix(v, w, mint), mint) && MintHas(Mix(v, w, mint), mint, e)
  {
    MixIsSame(v, w, mint);
  }

  lemma StepsDiffer(a: Applied, b: Applied, mint: Address, d: byte, e: byte)
    requires a.tx == b.tx && a.changed && b.changed && InRange(a.tx) && SomeHasPrice(a.tx, a.view)
    requires UniformDecimals(a.view) && DifferOnlyIn(a.view, b.view, mint) && Priceable(mint)
    requires MintHas(a.view, mint, d) && MintHas(b.view, mint, e) && d != e
    ensures !SamePrices(a, b)
  {
    StepPricesDiffer(a.tx, a.view, b.view, mint, d, e);
  }

  lemma PricedInRun(txs: seq<Transaction>, views: seq<View>, changes: seq<bool>, t: nat)
    requires BlockRun(txs, views, changes) && t < |txs|
    ensures IsPriced(txs, t) ==> changes[t] && SomeHasPrice(txs[t], views[t + 1])
    ensures UniformDecimals(views[t + 1])
  {
    IsPricedInRun(txs, views, changes, t);
    DecimalsUniform(EventLists(txs), views, changes, t);
  }

  lemma BlockRunsDiffering(txs: seq<Transaction>, t: nat, mint: Address, d: byte, e: byte)
    returns (views: seq<View>, changes: seq<bool>, mixed: seq<View>)
    requires AllInRange(txs) && t <= |txs|
    requires MayHold(EventLists(txs), t, mint, d) && MayHold(EventLists(txs), t, mint, e)
    ensures BlockRun(txs, views, changes) && BlockRun(txs, mixed, changes)
    ensures DifferOnlyIn(views[t], mixed[t], mint) && MintHas(views[t], mint, d) && MintHas(mixed[t], mint, e)
  {
    views, changes, mixed := RunsDiffering(EventLists(txs), t, mint, d, e);
  }

  lemma PricesOfRunsDiffer(txs: seq<Transaction>, views: seq<View>, changes: seq<bool>, mixed: seq<View>, t: nat,
                           mint: Address, d: byte, e: byte)
    requires BlockRun(txs, views, changes) && BlockRun(txs, mixed, changes) && t < |txs|
    requires Priceable(mint) && DifferOnlyIn(views[t + 1], mixed[t + 1], mint)
    requires MintHas(views[t + 1], mint, d) && MintHas(mixed[t + 1], mint, e) && d != e
    ensures IsPriced(txs, t) ==> BlockPrices(txs, views, changes) != BlockPrices(txs, mixed, changes)
  {
    PricedInRun(txs, views, changes, t);
    if IsPriced(txs, t) {
      var xs, ys := StepsOfTwo(txs, views, changes, mixed, changes);
      StepsDiffer(xs[t], ys[t], mint, d, e);
    }
  }

  /** Where a priced transaction may see two numbers of decimals for WSOL or USDC, two runs have different prices. */
  lemma TwoBlockPrices(txs: seq<Transaction>, t: nat, mint: Address, d: byte, e: byte)
    returns (views: seq<View>, changes: seq<bool>, mixed: seq<View>)
    requires AllInRange(txs) && t < |txs| && Priceable(mint) && d != e
    requires MayHold(EventLists(txs), t + 1, mint, d) && MayHold(EventLists(txs), t + 1, mint, e)
    ensures BlockRun(txs, views, changes) && BlockRun(txs, mixed, changes)
    ensures IsPriced(txs, t) ==> BlockPrices(txs, views, changes) != BlockPrices(txs, mixed, changes)
  {
    views, changes, mixed := BlockRunsDiffering(txs, t + 1, mint, d, e);
    PricesOfRunsDiffer(txs, views, changes, mixed, t, mint, d, e);
  }

  lemma OneOfEach(txs: seq<Transaction>, views: seq<View>, changes: seq<bool>,
                  views': seq<View>, changes': seq<bool>)
    requires BlockRun(txs, views, changes) && BlockRun(txs, views', changes')
    requires forall t | 0 <= t < |txs| && IsPriced(txs, t) ::
      OnlyOne(EventLists(txs), t + 1, WSOL) && OnlyOne(EventLists(txs), t + 1, USDC)
    ensures BlockPrices(txs, views, changes) == BlockPrices(txs, views', changes')
  {
    var xs, ys := StepsOfTwo(txs, views, changes, views', changes');
    forall t | 0 <= t < |xs|
      ensures SamePrices(xs[t], ys[t])
    {
      PricedAlike(txs, views, changes, views', changes', t);
      assert Alike(xs[t], ys[t]);
      AlikeStepPrices(xs[t], ys[t]);
    }
  }

  /** All runs of a block have the same prices exactly if, after every priced transaction, WSOL cannot have but one
      number of decimals and neither can USDC. Which numbers they may have is computed from the block's events. */
  lemma BlockPricesIff(txs: seq<Transaction>)
    requires AllInRange(txs)
    ensures
      (forall views, changes, views', changes' | BlockRun(txs, views, changes) && BlockRun(txs, views', changes') ::
        BlockPrices(txs, views, changes) == BlockPrices(txs, views', changes'))
      <==>
      forall t | 0 <= t < |txs| && IsPriced(txs, t) ::
        OnlyOne(EventLists(txs), t + 1, WSOL) && OnlyOne(EventLists(txs), t + 1, USDC)
  {
    var lists := EventLists(txs);
    if forall t | 0 <= t < |txs| && IsPriced(txs, t) :: OnlyOne(lists, t + 1, WSOL) && OnlyOne(lists, t + 1, USDC) {
      forall views, changes, views', changes' | BlockRun(txs, views, changes) && BlockRun(txs, views', changes')
        ensures BlockPrices(txs, views, changes) == BlockPrices(txs, views', changes')
      {
        OneOfEach(txs, views, changes, views', changes');
      }
    } else {
      var t :| 0 <= t < |txs| && IsPriced(txs, t) && !(OnlyOne(lists, t + 1, WSOL) && OnlyOne(lists, t + 1, USDC));
      var mint := if OnlyOne(lists, t + 1, WSOL) then USDC else WSOL;
      var d, e :| MayHold(lists, t + 1, mint, d) && MayHold(lists, t + 1, mint, e) && d != e;
      var views, changes, mixed := TwoBlockPrices(txs, t, mint, d, e);
    }
  }
}
