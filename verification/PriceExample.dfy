/** A block with two prices: an account initialized beside a swap may erase the decimals of WSOL. */
module PriceExample {
  import opened GoArith
  import opened Chain
  import opened TokenAccounts
  import opened AccountHistory
  import opened WalkOrder
  import opened BlockOutcomes
  import opened SwapMatching
  import opened SwapPrice
  import opened SwapPriceProperties
  import opened SolPrice
  import opened PriceByOrder
  import opened BlockPriceByOrder

  const SOL_ACCOUNT := Other(0)
  const USD_ACCOUNT := Other(1)
  const CREATED := Other(2)
  const TRADER := Other(3)
  const BILLION: real := 1000000000.0

  const KEYS := [SOL_ACCOUNT, USD_ACCOUNT, CREATED, TRADER, WSOL, TOKEN_PROGRAM, ORCA]

  function SwapLegsOfExample(): seq<Instruction> {
    [TransferInstruction(5, 0, 0, 3, 1), TransferInstruction(5, 1, 1, 3, 1)]
  }

  /** A swap of one unit of USDC for one of WSOL, beside the initialization of a second WSOL account. */
  function Example(): Transaction {
    Transaction(KEYS,
                [Instruction(6, [], [], Other(0)), Instruction(5, [2, 4, 3], [INITIALIZE_ACCOUNT], Other(0))],
                [InnerInstruction(0, SwapLegsOfExample())],
                [TokenBalance(1, USDC, TRADER, 6, 6)],
                [TokenBalance(1, USDC, TRADER, 5, 6), TokenBalance(0, WSOL, TRADER, 1, 9)],
                1, false, [])
  }

  /** The two transfers of the example. */
  function Legs(): seq<Transfer> {
    [Transfer(SOL_ACCOUNT, SOL_ACCOUNT, 1), Transfer(USD_ACCOUNT, USD_ACCOUNT, 1)]
  }

  /** A map in which the two transfers swap. */
  predicate Swappable(v: View) {
    && SOL_ACCOUNT in v && v[SOL_ACCOUNT].mint == WSOL && v[SOL_ACCOUNT].owner == TRADER
    && USD_ACCOUNT in v && v[USD_ACCOUNT].mint == USDC && v[USD_ACCOUNT].owner == TRADER
  }

  lemma LegsCompatible(v: View)
    requires Swappable(v)
    ensures SwapLegs(Legs(), v) && Compatible(Legs(), v, 0, 1)
  {
  }

  /** Two transfers that swap are paired. */
  lemma PairsTwo(ts: seq<Transfer>, v: View)
    requires |ts| == 2 && Resolvable(ts, v) && Compatible(ts, v, 0, 1)
    ensures GreedyPairs(ts, v) == [Pair(0, 1)]
  {
    var p0 := PairUpTo(ts, v, 0);
    assert Mate(ts, v, p0.use, 0, 1) == 1;
    var p1 := PairUpTo(ts, v, 1);
    assert p1 == Round(ts, v, p0, 0) == Pairing([true, true], [Pair(0, 1)]);
    assert PairUpTo(ts, v, 2) == Round(ts, v, p1, 1) == p1;
  }

  lemma SumsOfOne(ts: seq<Transfer>, v: View, p: Pair)
    requires Resolvable(ts, v) && Compatible(ts, v, p.left, p.right)
    ensures SumUsdc(ts, v, [p]) == ts[UsdcLeg(ts, v, p)].amount
    ensures SumWsol(ts, v, [p]) == ts[WsolLeg(ts, v, p)].amount
  {
    assert [p][..0] == [];
  }

  lemma LegsHavePrice(v: View)
    requires Swappable(v)
    ensures HasPrice(Legs(), v) && UsdcTotal(Legs(), v) == 1 && WsolTotal(Legs(), v) == 1
  {
    LegsCompatible(v);
    PairsTwo(Legs(), v);
    SumsOfOne(Legs(), v, Pair(0, 1));
  }

  lemma LegsInRange()
    ensures InstructionsInRange(SwapLegsOfExample(), KEYS)
  {
    TransferRoundTrip(KEYS, 5, 0, 0, 0, 3, 1, 0);
    TransferRoundTrip(KEYS, 5, 1, 1, 1, 3, 1, 0);
  }

  lemma LegsRead(v: View)
    requires Swappable(v)
    ensures InstructionsInRange(SwapLegsOfExample(), KEYS)
    ensures TransfersOf(SwapLegsOfExample(), KEYS, v) == Legs()
  {
    LegsInRange();
    var insts := SwapLegsOfExample();
    TransferRoundTrip(KEYS, 5, 0, 0, 0, 3, 1, 0);
    TransferRoundTrip(KEYS, 5, 1, 1, 1, 3, 1, 0);
    assert insts[..1] == [insts[0]] && insts[..1][..0] == [];
    assert TransfersOf([], KEYS, v) == [];
    assert TransfersOf(insts[..1], KEYS, v) == [Legs()[0]];
  }

  lemma ExampleInRange()
    ensures InRange(Example())
  {
    LegsInRange();
    OthersInRange();
  }

  lemma OthersInRange()
    ensures InstructionsInRange(Example().instructions, KEYS)
    ensures BalancesInRange(Example().preBalances, KEYS) && BalancesInRange(Example().postBalances, KEYS)
  {
  }

  lemma ExampleMap()
    ensures InnerMap(Example().inner) == map[0 := SwapLegsOfExample()]
  {
    assert Example().inner[..0] == [] && InnerMap([]) == map[];
  }

  lemma ExampleFirst(v: View)
    requires Swappable(v) && InRange(Example())
    ensures OuterGroup(Example(), 0, v) == [Legs()]
  {
    LegsRead(v);
    ExampleMap();
  }

  lemma ExampleOuter(v: View)
    requires Swappable(v) && InRange(Example())
    ensures OuterGroups(Example(), 2, v) == [Legs()]
  {
    var tx := Example();
    ExampleFirst(v);
    assert OuterGroup(tx, 1, v) == [];
    assert OuterGroups(tx, 2, v) == OuterGroups(tx, 0, v) + OuterGroup(tx, 0, v) + OuterGroup(tx, 1, v);
  }

  lemma NoWindows(insts: seq<Instruction>, v: View, n: nat)
    requires InstructionsInRange(insts, KEYS) && n <= |insts|
    requires forall i | 0 <= i < |insts| :: insts[i].program == 5
    ensures WindowGroups(insts, KEYS, n, v) == []
  {
  }

  /** Only the list under the DEX instruction is priced. */
  lemma ExampleGroups(v: View)
    requires Swappable(v) && InRange(Example())
    ensures Groups(Example(), v) == [Legs()]
  {
    var tx := Example();
    ExampleOuter(v);
    NoWindows(tx.inner[0].instructions, v, |tx.inner[0].instructions|);
    assert InnerGroups(tx, 0, v) == [] && InnerGroups(tx, 1, v) == [];
  }

  function ExampleEvents(): seq<Event> {
    [Pre(USD_ACCOUNT, TRADER, USDC, 6, 6), Post(USD_ACCOUNT, TRADER, USDC, 5, 6), Post(SOL_ACCOUNT, TRADER, WSOL, 1, 9),
     Init(CREATED, TRADER, WSOL)]
  }

  lemma ExampleOuterInits()
    requires InRange(Example())
    ensures InitEvents(Example().instructions, KEYS) == [Init(CREATED, TRADER, WSOL)]
  {
    var insts := Example().instructions;
    InitsOfTwo(insts, KEYS);
    assert InstructionEvents(insts[0], KEYS) == [];
    assert InstructionEvents(insts[1], KEYS) == [Init(CREATED, TRADER, WSOL)];
  }

  lemma ExampleInnerInits()
    requires InRange(Example())
    ensures InnerInitEvents(Example().inner, KEYS) == []
  {
    var inner, legs := Example().inner, SwapLegsOfExample();
    InitsOfTwo(legs, KEYS);
    assert InstructionEvents(legs[0], KEYS) == [] && InstructionEvents(legs[1], KEYS) == [];
    assert inner[..0] == [] && InnerInitEvents(inner, KEYS) == InnerInitEvents([], KEYS) + [] == [];
  }

  lemma ExampleReports()
    requires InRange(Example())
    ensures EventsOf(Example()) == ExampleEvents()
  {
    var tx, es := Example(), ExampleEvents();
    assert PreEvents(tx.preBalances, KEYS) == [es[0]];
    assert PostEvents(tx.postBalances, KEYS) == [es[1], es[2]];
    ExampleOuterInits();
    ExampleInnerInits();
  }

  lemma InitsOfTwo(insts: seq<Instruction>, keys: seq<Address>)
    requires |insts| == 2 && InstructionsInRange(insts, keys)
    ensures InitEvents(insts, keys) == InstructionEvents(insts[0], keys) + InstructionEvents(insts[1], keys)
  {
    assert insts[..1] == [insts[0]] && insts[..1][..0] == [];
    assert InitEvents([], keys) == [];
  }

  /** The map before the decimals pass. */
  function Unsettled(): View {
    map[USD_ACCOUNT := Account(TRADER, USD_ACCOUNT, USDC, 6, 6, 5, false),
        SOL_ACCOUNT := Account(TRADER, SOL_ACCOUNT, WSOL, 9, 0, 1, false),
        CREATED := Account(TRADER, CREATED, WSOL, 0, 0, 0, false)]
  }

  lemma FirstTwoApply()
    ensures ApplyAll(map[], ExampleEvents()[..2]) ==
            map[USD_ACCOUNT := Account(TRADER, USD_ACCOUNT, USDC, 6, 6, 5, false)]
    ensures HasChange(map[], ExampleEvents()[..2])
  {
    var es := ExampleEvents();
    TwoEvents(map[], es[0], es[1]);
    assert es[..2] == [es[0], es[1]];
  }

  lemma LastTwoApply()
    ensures ApplyAll(map[USD_ACCOUNT := Account(TRADER, USD_ACCOUNT, USDC, 6, 6, 5, false)], ExampleEvents()[2..]) ==
            Unsettled()
  {
    var es := ExampleEvents();
    TwoEvents(map[USD_ACCOUNT := Account(TRADER, USD_ACCOUNT, USDC, 6, 6, 5, false)], es[2], es[3]);
    assert es[2..] == [es[2], es[3]];
  }

  lemma ExampleApplies()
    ensures ApplyAll(map[], ExampleEvents()) == Unsettled() && HasChange(map[], ExampleEvents())
  {
    var es := ExampleEvents();
    FirstTwoApply();
    LastTwoApply();
    ApplyAllConcat(map[], es[..2], es[2..]);
    HasChangeExtends(map[], es[..2], es[2]);
    HasChangeExtends(map[], es[..2] + [es[2]], es[3]);
    assert es == es[..2] + es[2..] == es[..2] + [es[2]] + [es[3]];
  }

  /** A block of one transaction is one step. */
  lemma OneTransactionRuns(tx: Transaction, w: View, changed: bool)
    requires InRange(tx) && FillStep(map[], tx, w, changed)
    ensures BlockRun([tx], [map[], w], [changed])
  {
    var start: seq<View> := [map[]];
    assert Filled(EventLists([tx]), start, [], 0);
    BlockRunExtends([tx], start, [], w, changed);
    assert start + [w] == [map[], w] && [] + [changed] == [changed];
  }

  /** A block of this one transaction may end with any outcome of the pass. */
  lemma ExampleRuns(w: View)
    requires InRange(Example()) && DecimalsPass(Unsettled(), w)
    ensures BlockRun([Example()], [map[], w], [true])
  {
    ExampleReports();
    ExampleApplies();
    OneTransactionRuns(Example(), w, true);
  }

  lemma ExamplePrices(w: View)
    requires InRange(Example()) && Swappable(w)
    ensures BlockPrices([Example()], [map[], w], [true]) == PositivePrice(Legs(), w)
  {
    ExampleGroups(w);
    FlatMapOne(Pricer(w), Legs());
    FlatMapOne(StepPrices(), Applied(Example(), w, true));
    assert AppliedSteps([Example()], [map[], w], [true]) == [Applied(Example(), w, true)];
  }

  /** What the block settles on in a run that ends with this map. */
  ghost function Settled(w: View, rowPrice: real, nearPrice: Option<real>): real
    requires InRange(Example())
  {
    SettledPrice(BlockPrices([Example()], [map[], w], [true]), rowPrice, nearPrice)
  }

  lemma SettlesOnOne(price: real, rowPrice: real, nearPrice: Option<real>)
    requires price > 0.0
    ensures SettledPrice([price], rowPrice, nearPrice) == price
  {
  }

  lemma UnsettledSwaps()
    ensures Swappable(Unsettled()) && MintUniform(Unsettled(), USDC) && Unsettled()[USD_ACCOUNT].decimals == 6
    ensures HeldDecimals(Unsettled(), WSOL, 0) && HeldDecimals(Unsettled(), WSOL, 9)
  {
    assert Unsettled()[CREATED].mint == WSOL && Unsettled()[SOL_ACCOUNT].mint == WSOL;
  }

  lemma OutcomeSwaps(w: View)
    requires DecimalsPass(Unsettled(), w)
    ensures Swappable(w) && MintHas(w, USDC, 6)
  {
    UnsettledSwaps();
    PassSameFor(Unsettled(), w, USDC);
    assert forall k | k in w :: w[k] == Unsettled()[k].(decimals := w[k].decimals);
  }

  lemma PriceOfOutcome(w: View, decimals: byte)
    requires Swappable(w) && MintHas(w, USDC, 6) && MintHas(w, WSOL, decimals)
    ensures PositivePrice(Legs(), w) == [RatioAt(1, 1, 6, decimals)] && RatioAt(1, 1, 6, decimals) > 0.0
  {
    LegsHavePrice(w);
    PositiveIffHasPrice(Legs(), w);
    PriceIsRatio(Legs(), w, 6, decimals);
    RatioIsPositive(1, 1, 6, decimals);
  }

  /** A run of the block in which WSOL ends with decimals that one of its accounts held. */
  lemma ExampleSettles(decimals: byte, rowPrice: real, nearPrice: Option<real>) returns (w: View)
    requires InRange(Example()) && HeldDecimals(Unsettled(), WSOL, decimals)
    ensures BlockRun([Example()], [map[], w], [true])
    ensures Settled(w, rowPrice, nearPrice) == RatioAt(1, 1, 6, decimals) > 0.0
  {
    w := PassWith(Unsettled(), WSOL, decimals);
    OutcomeSwaps(w);
    ExampleRuns(w);
    PriceOfOutcome(w, decimals);
    ExamplePrices(w);
    SettlesOnOne(RatioAt(1, 1, 6, decimals), rowPrice, nearPrice);
  }

  lemma NineDecimals()
    ensures RatioAt(1, 1, 6, 9) == BILLION * RatioAt(1, 1, 6, 0)
  {
    WsolScale(1, 1, 6, 0, 9);
    assert Pow10(9) == BILLION;
  }

  /** The same block has two prices, a factor of 10^9 apart. */
  lemma PriceDependsOnOrder(rowPrice: real, nearPrice: Option<real>) returns (w: View, x: View)
    ensures InRange(Example())
    ensures BlockRun([Example()], [map[], w], [true]) && BlockRun([Example()], [map[], x], [true])
    ensures Settled(w, rowPrice, nearPrice) > 0.0
    ensures Settled(x, rowPrice, nearPrice) == BILLION * Settled(w, rowPrice, nearPrice)
  {
    ExampleInRange();
    UnsettledSwaps();
    w := ExampleSettles(0, rowPrice, nearPrice);
    x := ExampleSettles(9, rowPrice, nearPrice);
    NineDecimals();
  }
}
