/** What the pump prices mean: their sign, when the signed reading of the amounts matters, and whose events they come
    from. */
module PumpProperties {
  import opened GoArith
  import opened Picking
  import opened Chain
  import opened TokenAccounts
  import opened SwapPrice
  import opened EventCursor
  import opened PumpEvents

  // ----- The sign of a price -----

  lemma UnitsSignOf(amount: int, decimals: nat)
    ensures Units(amount, decimals) > 0.0 <==> amount > 0
    ensures Units(amount, decimals) < 0.0 <==> amount < 0
  {
  }

  lemma QuotientSignOf(x: real, y: real)
    ensures Quotient(x, y) > 0.0 <==> (x > 0.0 && y > 0.0) || (x < 0.0 && y < 0.0)
    ensures Quotient(x, y) < 0.0 <==> (x > 0.0 && y < 0.0) || (x < 0.0 && y > 0.0)
  {
    if y != 0.0 {
      QuotientTimes(x, y);
      ProductSign(Quotient(x, y), y);
    }
  }

  lemma ProductSign(q: real, y: real)
    requires y != 0.0
    ensures q > 0.0 <==> (q * y > 0.0 && y > 0.0) || (q * y < 0.0 && y < 0.0)
    ensures q < 0.0 <==> (q * y > 0.0 && y < 0.0) || (q * y < 0.0 && y > 0.0)
  {
    if q > 0.0 && y > 0.0 {
      assert q * y > 0.0;
    } else if q > 0.0 {
      assert q * -y > 0.0;
    } else if q < 0.0 && y > 0.0 {
      assert -q * y > 0.0;
    } else if q < 0.0 {
      assert -q * -y > 0.0;
    }
  }

  /** A token price is negative exactly if, read as signed numbers, one amount is negative and the other positive. */
  lemma PriceSign(e: PumpEvent, decimals: byte, solUsd: real)
    requires solUsd > 0.0
    ensures
      var (price, sol, tokens) := (EventPrice(e, decimals, solUsd), AsInt64(e.solAmount), AsInt64(e.tokenAmount));
      && (price > 0.0 <==> (sol > 0 && tokens > 0) || (sol < 0 && tokens < 0))
      && (price < 0.0 <==> (sol > 0 && tokens < 0) || (sol < 0 && tokens > 0))
  {
    var (sol, tokens) := (AsInt64(e.solAmount), AsInt64(e.tokenAmount));
    UnitsSignOf(sol, SOL_DECIMALS);
    UnitsSignOf(tokens, decimals);
    ScaledSign(Sol(sol), solUsd);
    QuotientSignOf(Sol(sol) * solUsd, Units(tokens, decimals));
  }

  lemma ScaledSign(x: real, c: real)
    requires c > 0.0
    ensures (x * c > 0.0 <==> x > 0.0) && (x * c < 0.0 <==> x < 0.0)
  {
    ProductSign(x, c);
  }

  // ----- Signed and unsigned amounts -----

  /** The price that the event's own unsigned amounts amount to. */
  function UnsignedPrice(e: PumpEvent, decimals: byte, solUsd: real): real {
    RawPrice(e.solAmount, e.tokenAmount, decimals, solUsd)
  }

  /** Both amounts fit in 63 bits. */
  predicate Fits(e: PumpEvent) {
    e.solAmount < 0x8000_0000_0000_0000 && e.tokenAmount < 0x8000_0000_0000_0000
  }

  /** The reading as signed numbers leaves the ratio of two amounts alone. */
  predicate RatioKept(sol: uint64, tokens: uint64) {
    AsInt64(sol) * tokens == sol * AsInt64(tokens)
  }

  lemma RatioKeptIff(e: PumpEvent)
    ensures RatioKept(e.solAmount, e.tokenAmount) <==>
      Fits(e) || e.solAmount == 0 || e.tokenAmount == 0 || e.solAmount == e.tokenAmount
  {
    WrappedProduct(e.solAmount, e.tokenAmount);
  }

  lemma WrappedProduct(s: int, t: int)
    ensures (s - 0x1_0000_0000_0000_0000) * t == s * t - 0x1_0000_0000_0000_0000 * t
    ensures s * (t - 0x1_0000_0000_0000_0000) == s * t - 0x1_0000_0000_0000_0000 * s
  {
  }

  lemma Reassociate(a: real, b: real, c: real)
    ensures a * (b * c) == a * b * c && a * b * c == a * c * b
  {
  }

  /** x and y are s and t in whole coins, pm and pn the powers of ten between them, and k the scale of the price. */
  lemma CrossScale(price: real, s: real, t: real, x: real, y: real, u: real, pm: real, pn: real, k: real)
    ensures price * y == x * u && k * pm == u * pn && x * pm == s && y * pn == t ==> price * t == s * k
  {
    Reassociate(price, y, pn);
    Reassociate(x, u, pn);
    Reassociate(x, k, pm);
  }

  lemma DivTimes(a: real, b: real) returns (k: real)
    requires a != 0.0 && b != 0.0
    ensures k * b == a && k != 0.0
  {
    k := a / b;
  }

  lemma CrossRatio(p: real, q: real, s: real, t: real, s': real, t': real, k: real)
    requires t != 0.0 && t' != 0.0 && k != 0.0
    ensures p * t == s * k && q * t' == s' * k ==> (p == q <==> s * t' == s' * t)
  {
    if p * t == s * k && q * t' == s' * k {
      assert (p - q) * (t * t') == p * t * t' - q * t' * t == (s * t' - s' * t) * k;
      NonZeroProduct(p - q, t * t');
      NonZeroProduct(s * t' - s' * t, k);
      NonZeroProduct(t, t');
    }
  }

  lemma NonZeroProduct(a: real, b: real)
    ensures a * b == 0.0 <==> a == 0.0 || b == 0.0
  {
  }

  lemma RealProducts(a: int, b: int, c: int, d: int)
    ensures a as real * b as real == c as real * d as real <==> a * b == c * d
  {
    assert a as real * b as real == (a * b) as real;
    assert c as real * d as real == (c * d) as real;
  }

  /** Two prices of the same scale are equal exactly if the ratios of their amounts are. */
  lemma SameScale(p: real, q: real, u: real, pm: real, pn: real,
                  s: real, t: real, x: real, y: real, s': real, t': real, x': real, y': real)
    requires u != 0.0 && pm != 0.0 && pn != 0.0 && t != 0.0 && t' != 0.0
    ensures p * y == x * u && x * pm == s && y * pn == t && q * y' == x' * u && x' * pm == s' && y' * pn == t' ==>
      (p == q <==> s * t' == s' * t)
  {
    NonZeroProduct(u, pn);
    var k := DivTimes(u * pn, pm);
    CrossScale(p, s, t, x, y, u, pm, pn, k);
    CrossScale(q, s', t', x', y', u, pm, pn, k);
    CrossRatio(p, q, s, t, s', t', k);
  }

  lemma RawPriceTimes(sol: int, tokens: int, decimals: byte, solUsd: real)
    requires tokens != 0
    ensures RawPrice(sol, tokens, decimals, solUsd) * Units(tokens, decimals) == Sol(sol) * solUsd
  {
    UnitsZero(tokens, decimals);
    QuotientTimes(Sol(sol) * solUsd, Units(tokens, decimals));
  }

  function SolScale(): (p: real)
    ensures p != 0.0
  {
    Pow10(SOL_DECIMALS)
  }

  lemma SolTimes(sol: int)
    ensures Sol(sol) * SolScale() == sol as real
  {
    UnitsTimesPow10(sol, SOL_DECIMALS);
  }

  lemma RawPricesEqual(s: int, t: int, s': int, t': int, decimals: byte, solUsd: real)
    requires t != 0 && t' != 0 && solUsd != 0.0
    ensures RawPrice(s, t, decimals, solUsd) == RawPrice(s', t', decimals, solUsd) <==> s * t' == s' * t
  {
    RawPriceTimes(s, t, decimals, solUsd);
    RawPriceTimes(s', t', decimals, solUsd);
    SolTimes(s);
    SolTimes(s');
    UnitsTimesPow10(t, decimals);
    UnitsTimesPow10(t', decimals);
    SameScale(RawPrice(s, t, decimals, solUsd), RawPrice(s', t', decimals, solUsd), solUsd, SolScale(), Pow10(decimals),
              s as real, t as real, Sol(s), Units(t, decimals), s' as real, t' as real, Sol(s'), Units(t', decimals));
    RealProducts(s, t', s', t);
  }

  /** Amounts of 2^63 and more are read as negative. The price is still that of the unsigned amounts exactly if both
      amounts are smaller, one of them is 0, or they are equal. */
  lemma SignedPriceIff(e: PumpEvent, decimals: byte, solUsd: real)
    requires solUsd != 0.0
    ensures EventPrice(e, decimals, solUsd) == UnsignedPrice(e, decimals, solUsd) <==>
      Fits(e) || e.solAmount == 0 || e.tokenAmount == 0 || e.solAmount == e.tokenAmount
  {
    var (s, t) := (AsInt64(e.solAmount), AsInt64(e.tokenAmount));
    RatioKeptIff(e);
    if t != 0 {
      RawPricesEqual(s, t, e.solAmount, e.tokenAmount, decimals, solUsd);
    } else {
      UnitsZero(0, decimals);
    }
  }

  /** One lamport for 2^63 raw tokens has a negative price. */
  lemma LargeAmountsGiveNegativePrices(solUsd: real, decimals: byte)
    requires solUsd > 0.0
    ensures EventPrice(PumpEvent(1, 0x8000_0000_0000_0000), decimals, solUsd) < 0.0
  {
    PriceSign(PumpEvent(1, 0x8000_0000_0000_0000), decimals, solUsd);
  }

  /** A SOL has 10^9 lamports. */
  lemma LamportsPerSol(lamports: int)
    ensures Sol(lamports) * 1000000000.0 == lamports as real
  {
    SolTimes(lamports);
    assert Pow10(9) == 1000000000.0;
  }

  /** The result turns the tokens of an event into its SOL, at the given price of a SOL; it is 0 without tokens or
      without an event. */
  ghost predicate IsPriceOf(r: Decoded, o: Outcome, solUsd: real) {
    match o
    case NoEvent => r == Price(0.0)
    case Panic => r == Panicked
    case Taken(e, decimals) =>
      && r.Price?
      && if AsInt64(e.tokenAmount) == 0 then r.value == 0.0
         else r.value * Units(AsInt64(e.tokenAmount), decimals) == Sol(AsInt64(e.solAmount)) * solUsd
  }

  lemma TokenPriceIs(solUsd: real, o: Outcome)
    ensures IsPriceOf(TokenPrice(solUsd, o), o, solUsd)
  {
    if o.Taken? {
      UnitsZero(AsInt64(o.event.tokenAmount), o.decimals);
      if AsInt64(o.event.tokenAmount) != 0 {
        RawPriceTimes(AsInt64(o.event.solAmount), AsInt64(o.event.tokenAmount), o.decimals, solUsd);
      }
    }
  }

  // ----- What reaches the cursor -----

  /** The first eight bytes are the tag of a purchase or of a sale. */
  predicate HasTradeTag(data: seq<byte>) {
    && |data| >= 8
    && (data[..8] == [0x66, 0x06, 0x3d, 0x12, 0x01, 0xda, 0xeb, 0xea] ||
        data[..8] == [0x33, 0xe6, 0x85, 0xa4, 0x01, 0x7f, 0x83, 0xad])
  }

  /** A purchase or sale whose account 5 is a known token account. */
  predicate NamesTokenAccount(inst: Instruction, keys: seq<Address>, v: View) {
    HasTradeTag(inst.data) && |inst.accounts| >= 6 && inst.accounts[5] < |keys| && keys[inst.accounts[5]] in v
  }

  /** It reaches the cursor exactly if account 3 names a key as well, and panics exactly if it does not. */
  lemma ReadingIff(inst: Instruction, keys: seq<Address>, v: View)
    ensures ReadingOf(Some(inst), keys, v) == Overruns <==>
      NamesTokenAccount(inst, keys, v) && inst.accounts[3] >= |keys|
    ensures forall d :: ReadingOf(Some(inst), keys, v) == Reads(d) <==>
      NamesTokenAccount(inst, keys, v) && inst.accounts[3] < |keys| && d == v[keys[inst.accounts[5]]].decimals
  {
    TagBytes(inst.data);
  }

  /** Of a transaction only the instructions of the pump program get that far. */
  lemma ReadingsIff(p: Transaction, v: View, i: nat)
    requires ProgramsInRange(p) && i < |p.instructions|
    ensures Readings(p, v)[i] ==
      if p.keys[p.instructions[i].program] != PUMP then Rejected else ReadingOf(Some(p.instructions[i]), p.keys, v)
  {
  }

  /** A log line of more than 100 characters that starts like program data of a pump event, if it decodes. */
  function EventOfLine(): LogLine -> Option<PumpEvent> {
    (line: LogLine) =>
      if |line.text| > 100 && line.text[..21] == "Program data: vdt/007" then line.payload else None
  }

  lemma LineIsEvent(line: LogLine)
    ensures IfPicked(EventOfLine(), line) ==
      if IsEventLine(line) && line.payload.Some? then [line.payload.value] else []
  {
  }

  /** The events are those of the matching lines, in log order. */
  lemma {:induction false} EventsOfLog(logs: seq<LogLine>)
    ensures Picks(EventOfLine(), logs, DecodedEvents(logs))
  {
    if logs == [] {
      PicksNone(EventOfLine());
    } else {
      EventsOfLog(logs[..|logs| - 1]);
      LineIsEvent(logs[|logs| - 1]);
      PicksLast(EventOfLine(), logs, DecodedEvents(logs[..|logs| - 1]));
    }
  }

  // ----- Which event prices an instruction -----

  /** Instruction i is a purchase or a sale by the pump program. */
  predicate IsPumpTrade(p: Transaction, i: nat)
    requires ProgramsInRange(p) && i < |p.instructions|
  {
    p.keys[p.instructions[i].program] == PUMP && IsTrade(p.instructions[i])
  }

  function CountTrades(p: Transaction, n: nat): nat
    requires ProgramsInRange(p) && n <= |p.instructions|
  {
    if n == 0 then 0 else CountTrades(p, n - 1) + if IsPumpTrade(p, n - 1) then 1 else 0
  }

  /** Every trade among the first n instructions reaches the cursor. */
  ghost predicate AllTradesRead(p: Transaction, v: View, n: nat)
    requires ProgramsInRange(p) && n <= |p.instructions|
  {
    forall j | 0 <= j < n && IsPumpTrade(p, j) :: Readings(p, v)[j].Reads?
  }

  lemma ReadsAreTrades(p: Transaction, v: View, i: nat)
    requires ProgramsInRange(p) && i < |p.instructions|
    ensures Readings(p, v)[i].Reads? ==> IsPumpTrade(p, i)
  {
  }

  lemma AllTradesReadNext(p: Transaction, v: View, n: nat)
    requires ProgramsInRange(p) && n < |p.instructions|
    ensures AllTradesRead(p, v, n + 1) <==>
      AllTradesRead(p, v, n) && (IsPumpTrade(p, n) ==> Readings(p, v)[n].Reads?)
  {
  }

  lemma CountTradesNext(p: Transaction, n: nat)
    requires ProgramsInRange(p) && n < |p.instructions|
    ensures CountTrades(p, n + 1) == if IsPumpTrade(p, n) then CountTrades(p, n) + 1 else CountTrades(p, n)
  {
  }

  /** No more instructions read than trade, and as many exactly if every trade reads. */
  ghost predicate ReadsMatchTrades(p: Transaction, v: View, n: nat)
    requires ProgramsInRange(p) && n <= |p.instructions|
  {
    var (read, traded) := (CountReads(Readings(p, v), n), CountTrades(p, n));
    read <= traded && (read == traded <==> AllTradesRead(p, v, n))
  }

  lemma ReadsMatchNext(p: Transaction, v: View, n: nat)
    requires ProgramsInRange(p) && n < |p.instructions|
    ensures !OverrunsBefore(Readings(p, v), n) && ReadsMatchTrades(p, v, n) ==> ReadsMatchTrades(p, v, n + 1)
  {
    ReadsAreTrades(p, v, n);
    CountsNext(Readings(p, v), n);
    CountTradesNext(p, n);
    AllTradesReadNext(p, v, n);
  }

  lemma {:induction false} ReadsCountTrades(p: Transaction, v: View, n: nat)
    requires ProgramsInRange(p) && n <= |p.instructions| && !OverrunsBefore(Readings(p, v), n)
    ensures ReadsMatchTrades(p, v, n)
  {
    if n > 0 {
      ReadsCountTrades(p, v, n - 1);
      ReadsMatchNext(p, v, n - 1);
    }
  }

  /** An instruction that reaches the cursor reads the event at its own place among the trades of the transaction
      exactly if no trade before it was rejected. A rejected trade leaves its event to the next one. */
  lemma ReadsOwnPlaceIff(p: Transaction, v: View, held: seq<PumpEvent>, i: nat)
    requires ProgramsInRange(p) && i < |p.instructions|
    ensures
      var (rs, own) := (Readings(p, v), DecodedEvents(p.logs));
      var (source, k) := (if held == [] then own else held, CountReads(rs, i));
      rs[i].Reads? && !OverrunsBefore(rs, i) ==>
        && Call(Play(Cursor(held, 0), own, rs, i).cursor, rs[i], own).1 ==
           (if k < |source| then Taken(source[k], rs[i].decimals) else NoEvent)
        && (k == CountTrades(p, i) <==> AllTradesRead(p, v, i))
  {
    if Readings(p, v)[i].Reads? && !OverrunsBefore(Readings(p, v), i) {
      ReadsEvent(held, DecodedEvents(p.logs), Readings(p, v), i);
      ReadsCountTrades(p, v, i);
    }
  }

  // ----- Whose events price a transaction -----

  lemma ConsumedAgrees(ss: seq<Summary>, m: nat, i: nat)
    requires i < m <= |ss|
    ensures ConsumedBy(ss[..m], i) == ConsumedBy(ss, i)
  {
    HeldAgrees(ss[..m], ss, i);
  }

  /** The first transaction that reaches the cursor with events in its log sets the events of all later ones. */
  lemma BlockPricedWithFirstEvents(ps: seq<Transaction>, v: View, n: nat, panicked: bool,
                                   consumed: seq<seq<PumpEvent>>, held: seq<PumpEvent>, f: nat, i: nat)
    requires AllProgramsInRange(ps) && ParsesBlock(ps, v, n, panicked, consumed, held)
    requires FirstFiller(Summaries(ps, v), f) && i < |consumed|
    ensures
      var source := DecodedEvents(ps[if i <= f then i else f].logs);
      consumed[i] == FirstOf(source, CountReads(Readings(ps[i], v), |ps[i].instructions|))
  {
    var ss, m := Summaries(ps, v), |consumed|;
    ReadSoFar(ps, v, n, panicked, consumed, held);
    ConsumedAgrees(ss, m, i);
    BlockReadsFirstEvents(ss, f, i);
  }

  lemma ReadSoFar(ps: seq<Transaction>, v: View, n: nat, panicked: bool, consumed: seq<seq<PumpEvent>>,
                  held: seq<PumpEvent>)
    requires AllProgramsInRange(ps) && ParsesBlock(ps, v, n, panicked, consumed, held)
    ensures |consumed| <= |ps| && BlockRead(Summaries(ps, v)[..|consumed|], consumed, held)
  {
    var m := if panicked then n + 1 else n;
    assert Summaries(ps[..m], v) == Summaries(ps, v)[..m];
  }

  const USER := Other(0)

  /** A pump buy by the user, whose token account is the only key, next to the program's. */
  function Buy(e: PumpEvent): Transaction {
    Transaction([USER, PUMP], [BuyInstruction(0)], [], [], [], 1, false, [LogLine(EventText(), Some(e))])
  }

  function EventText(): string {
    "Program data: vdt/007" + seq(100, _ => 'A')
  }

  lemma BuyReads(e: PumpEvent, v: View)
    requires USER in v
    ensures ProgramsInRange(Buy(e)) && Readings(Buy(e), v) == [Reads(v[USER].decimals)]
  {
    BuyIsRead(0, [USER, PUMP], v);
  }

  lemma BuyEvents(e: PumpEvent)
    ensures DecodedEvents(Buy(e).logs) == [e]
  {
    var logs := Buy(e).logs;
    assert logs[..0] == [] && DecodedEvents([]) == [];
    assert HasPrefix(EventText(), "Program data: vdt/007");
  }

  lemma BuySummary(e: PumpEvent, v: View)
    requires USER in v
    ensures ProgramsInRange(Buy(e)) && !Panics(Buy(e), v) && Summarize(Buy(e), v) == Summary([e], 1)
  {
    BuyReads(e, v);
    BuyEvents(e);
    OneRead(Readings(Buy(e), v));
  }

  lemma OneRead(rs: seq<Reading>)
    requires |rs| == 1 && rs[0].Reads?
    ensures CountReads(rs, 1) == 1
  {
    assert CountReads(rs, 0) == 0;
  }

  const STRANGER := Other(1)

  /** A purchase whose token account is key number user. */
  function BuyInstruction(user: nat): Instruction {
    Instruction(1, [0, 0, 0, 0, 0, user], [0x66, 0x06, 0x3d, 0x12, 0x01, 0xda, 0xeb, 0xea], USER)
  }

  /** A purchase by a stranger and one by the user, with an event for each. */
  function TwoBuys(e: PumpEvent, f: PumpEvent): Transaction {
    Transaction([USER, PUMP, STRANGER], [BuyInstruction(2), BuyInstruction(0)], [], [], [], 1, false,
                [LogLine(EventText(), Some(e)), LogLine(EventText(), Some(f))])
  }

  lemma TwoBuysEvents(e: PumpEvent, f: PumpEvent)
    ensures DecodedEvents(TwoBuys(e, f).logs) == [e, f]
  {
    var logs := TwoBuys(e, f).logs;
    assert HasPrefix(EventText(), "Program data: vdt/007");
    assert logs[..1] == [logs[0]] && logs[..1][..0] == [] && DecodedEvents([]) == [];
    assert DecodedEvents(logs[..1]) == [e];
  }

  lemma BuyIsRead(user: nat, keys: seq<Address>, v: View)
    requires user < |keys|
    ensures ReadingOf(Some(BuyInstruction(user)), keys, v) ==
      if keys[user] in v then Reads(v[keys[user]].decimals) else Rejected
  {
    var inst := BuyInstruction(user);
    TagBytes(inst.data);
    assert inst.data[..8] == inst.data;
  }

  /** The stranger's account is not in the map: the user's purchase reads the stranger's event. */
  lemma RejectedBuyLeavesEvent(e: PumpEvent, f: PumpEvent, v: View)
    requires USER in v && STRANGER !in v
    ensures ProgramsInRange(TwoBuys(e, f)) && DecodedEvents(TwoBuys(e, f).logs) == [e, f]
    ensures
      var rs := Readings(TwoBuys(e, f), v);
      && rs == [Rejected, Reads(v[USER].decimals)]
      && Call(Play(Cursor([], 0), [e, f], rs, 1).cursor, rs[1], [e, f]).1 == Taken(e, v[USER].decimals)
  {
    var p := TwoBuys(e, f);
    TwoBuysEvents(e, f);
    BuyIsRead(2, p.keys, v);
    BuyIsRead(0, p.keys, v);
    FirstRejected(v[USER].decimals, [e, f]);
    assert Readings(p, v) == [Rejected, Reads(v[USER].decimals)];
  }

  lemma FirstRejected(decimals: byte, own: seq<PumpEvent>)
    requires own != []
    ensures
      var rs := [Rejected, Reads(decimals)];
      Call(Play(Cursor([], 0), own, rs, 1).cursor, rs[1], own).1 == Taken(own[0], decimals)
  {
    assert Play(Cursor([], 0), own, [Rejected, Reads(decimals)], 0).cursor == Cursor([], 0);
  }

  /** A sale by the user. */
  function SellInstruction(): Instruction {
    Instruction(1, [0, 0, 0, 0, 0, 0], [0x33, 0xe6, 0x85, 0xa4, 0x01, 0x7f, 0x83, 0xad], USER)
  }

  function BuyThenSell(e: PumpEvent, f: PumpEvent): Transaction {
    Transaction([USER, PUMP], [BuyInstruction(0), SellInstruction()], [], [], [], 1, false,
                [LogLine(EventText(), Some(e)), LogLine(EventText(), Some(f))])
  }

  lemma SellIsRead(keys: seq<Address>, v: View)
    requires keys != [] && keys[0] in v
    ensures ReadingOf(Some(SellInstruction()), keys, v) == Reads(v[keys[0]].decimals)
  {
    var inst := SellInstruction();
    assert inst.data[..8] == inst.data;
    ReadingIff(inst, keys, v);
  }

  /** A purchase and a sale in one transaction: each reads its own event. */
  lemma SaleReadsNextEvent(e: PumpEvent, f: PumpEvent, v: View)
    requires USER in v
    ensures ProgramsInRange(BuyThenSell(e, f)) && DecodedEvents(BuyThenSell(e, f).logs) == [e, f]
    ensures
      var p := Play(Cursor([], 0), [e, f], Readings(BuyThenSell(e, f), v), 2);
      p == Played(Cursor([e, f], 2), [e, f], false)
  {
    var p, d := BuyThenSell(e, f), v[USER].decimals;
    TwoBuysEvents(e, f);
    BuyIsRead(0, p.keys, v);
    SellIsRead(p.keys, v);
    assert Readings(p, v) == [Reads(d), Reads(d)];
    BothRead(d, e, f);
  }

  lemma BothRead(d: byte, e: PumpEvent, f: PumpEvent)
    ensures Play(Cursor([], 0), [e, f], [Reads(d), Reads(d)], 2) == Played(Cursor([e, f], 2), [e, f], false)
  {
    var rs := [Reads(d), Reads(d)];
    assert Play(Cursor([], 0), [e, f], rs, 0) == Played(Cursor([], 0), [], false);
    assert Play(Cursor([], 0), [e, f], rs, 1) == Played(Cursor([e, f], 1), [e], false);
  }

  lemma TwoTransactionsRead(e: PumpEvent, f: PumpEvent)
    ensures BlockRead([Summary([e], 1), Summary([f], 1)], [[e], [e]], [e])
  {
    var ss := [Summary([e], 1), Summary([f], 1)];
    assert HeldAfter(ss, 0) == [] && HeldAfter(ss, 1) == [e] && HeldAfter(ss, 2) == [e];
    assert FirstOf([e], 1) == [e];
  }

  /** Two purchases in one block: the second is priced with the event of the first. */
  lemma SecondBuyReadsFirstEvent(e: PumpEvent, f: PumpEvent, v: View)
    requires USER in v
    ensures AllProgramsInRange([Buy(e), Buy(f)])
    ensures DecodedEvents(Buy(f).logs) == [f]
    ensures ParsesBlock([Buy(e), Buy(f)], v, 2, false, [[e], [e]], [e])
  {
    var ps := [Buy(e), Buy(f)];
    BuySummary(e, v);
    BuySummary(f, v);
    BuyEvents(f);
    TwoTransactionsRead(e, f);
    assert ps[..2] == ps && Summaries(ps, v) == [Summary([e], 1), Summary([f], 1)];
  }

  /** So it gets the price of the first. */
  lemma SecondBuyHasFirstPrice(solUsd: real, v: View)
    requires USER in v && solUsd > 0.0
    ensures
      var (e, f) := (PumpEvent(1, 1), PumpEvent(2, 1));
      && AllProgramsInRange([Buy(e), Buy(f)])
      && ParsesBlock([Buy(e), Buy(f)], v, 2, false, [[e], [e]], [e])
      && EventPrice(e, v[USER].decimals, solUsd) != EventPrice(f, v[USER].decimals, solUsd)
  {
    var (e, f, n) := (PumpEvent(1, 1), PumpEvent(2, 1), v[USER].decimals);
    SecondBuyReadsFirstEvent(e, f, v);
    RawPricesEqual(1, 1, 2, 1, n, solUsd);
  }
}
