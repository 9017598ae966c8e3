/** The pump instructions of a block: decoding their events and pricing them. */
module PumpEvents {
  import opened GoArith
  import opened Chain
  import opened TokenAccounts
  import opened SwapPrice
  import opened EventCursor

  const PUMP_BUY: uint64 := 0xeaebda01123d0666
  const PUMP_SELL: uint64 := 0xad837f01a485e633
  const SOL_DECIMALS: byte := 9

  /** What DecodePumpTranscation returns. */
  datatype Decoded = Price(value: real) | Panicked

  // ----- Decoding -----

  /** A line that DecodePumpEvents looks into. */
  predicate IsEventLine(line: LogLine) {
    |line.text| > 100 && HasPrefix(line.text, "Program data: vdt/007")
  }

  function DecodedEvents(logs: seq<LogLine>): seq<PumpEvent> {
    if logs == [] then []
    else
      var last := logs[|logs| - 1];
      DecodedEvents(logs[..|logs| - 1]) + (if IsEventLine(last) && last.payload.Some? then [last.payload.value] else [])
  }

  method DecodePumpEvents(logs: seq<LogLine>) returns (events: seq<PumpEvent>)
    ensures events == DecodedEvents(logs)
  {
    events := [];
    for i := 0 to |logs|
      invariant events == DecodedEvents(logs[..i])
    {
      assert logs[..i + 1][..i] == logs[..i];
      if IsEventLine(logs[i]) && logs[i].payload.Some? {
        events := events + [logs[i].payload.value];
      }
    }
    assert logs[..|logs|] == logs;
  }

  /** GetInstructionType: none when the data is too short. */
  function GetInstructionType(data: seq<byte>): Option<uint64> {
    if |data| < 8 then None else Some(LittleEndian64(data[..8]))
  }

  predicate IsTrade(inst: Instruction) {
    GetInstructionType(inst.data) == Some(PUMP_BUY) || GetInstructionType(inst.data) == Some(PUMP_SELL)
  }

  /** The two tags are exactly these byte strings at the start of the data. */
  lemma TagBytes(data: seq<byte>)
    ensures GetInstructionType(data) == Some(PUMP_BUY) <==>
      8 <= |data| && data[..8] == [0x66, 0x06, 0x3d, 0x12, 0x01, 0xda, 0xeb, 0xea]
    ensures GetInstructionType(data) == Some(PUMP_SELL) <==>
      8 <= |data| && data[..8] == [0x33, 0xe6, 0x85, 0xa4, 0x01, 0x7f, 0x83, 0xad]
  {
    var buy: seq<byte> := [0x66, 0x06, 0x3d, 0x12, 0x01, 0xda, 0xeb, 0xea];
    var sell: seq<byte> := [0x33, 0xe6, 0x85, 0xa4, 0x01, 0x7f, 0x83, 0xad];
    assert LittleEndian64(buy) == PUMP_BUY && LittleEndian64(sell) == PUMP_SELL;
    assert buy[..8] == buy && sell[..8] == sell;
    if 8 <= |data| {
      assert data[..8][..8] == data[..8];
      LittleEndian64Injective(data[..8], buy);
      LittleEndian64Injective(data[..8], sell);
    }
  }

  // ----- One call -----

  /** The call gets as far as reading account 3 of the instruction. */
  predicate FindsAccount(inst: Option<Instruction>, keys: seq<Address>, v: View) {
    && inst.Some? && IsTrade(inst.value)
    && |inst.value.accounts| > 5 && keys != []
    && inst.value.accounts[5] < |keys| && keys[inst.value.accounts[5]] in v
  }

  /** The checks before the cursor. Account 5 is the user's token account; that account 3 names a key is not checked. */
  function ReadingOf(inst: Option<Instruction>, keys: seq<Address>, v: View): Reading {
    if !FindsAccount(inst, keys, v) then Rejected
    else if inst.value.accounts[3] >= |keys| then Overruns
    else Reads(v[keys[inst.value.accounts[5]]].decimals)
  }

  /** Lamports in whole SOL. */
  function Sol(lamports: int): real {
    Units(lamports, SOL_DECIMALS)
  }

  /** SOL moved, in USD, per token moved; no tokens, no price. */
  function RawPrice(sol: int, tokens: int, decimals: byte, solUsd: real): real {
    Quotient(Sol(sol) * solUsd, Units(tokens, decimals))
  }

  /** The code reads both amounts as signed 64-bit numbers. */
  function EventPrice(e: PumpEvent, decimals: byte, solUsd: real): real {
    RawPrice(AsInt64(e.solAmount), AsInt64(e.tokenAmount), decimals, solUsd)
  }

  function TokenPrice(solUsd: real, o: Outcome): Decoded {
    match o
    case NoEvent => Price(0.0)
    case Panic => Panicked
    case Taken(e, decimals) => Price(EventPrice(e, decimals, solUsd))
  }

  class TxDecodeEntity {
    var price: real
    var accounts: TokenAccountMap
    var instruction: Option<Instruction>
    var logs: seq<LogLine>
    var accountKeys: seq<Address>
    var pumpEvents: seq<PumpEvent>
    var pumpEventIndex: nat

    constructor (price: real, accounts: TokenAccountMap)
      ensures this.price == price && this.accounts == accounts && State() == Cursor([], 0)
    {
      this.price, this.accounts := price, accounts;
      instruction, logs, accountKeys := None, [], [];
      pumpEvents, pumpEventIndex := [], 0;
    }

    function State(): Cursor
      reads this
    {
      Cursor(pumpEvents, pumpEventIndex)
    }
  }

  /** The part of the call that moves the cursor. */
  method TakeEvent(tx: TxDecodeEntity) returns (event: Option<PumpEvent>)
    modifies tx`pumpEvents, tx`pumpEventIndex
    ensures (tx.State(), event) == Take(old(tx.State()), DecodedEvents(tx.logs))
  {
    if |tx.pumpEvents| == 0 {
      var events := DecodePumpEvents(tx.logs);
      if |events| == 0 {
        return None;
      }
      tx.pumpEvents := events;
      if tx.pumpEventIndex >= |events| {
        return None;
      }
      event := Some(events[tx.pumpEventIndex]);
    } else {
      if tx.pumpEventIndex >= |tx.pumpEvents| {
        return None;
      }
      event := Some(tx.pumpEvents[tx.pumpEventIndex]);
    }
    tx.pumpEventIndex := tx.pumpEventIndex + 1;
  }

  method CheckInstruction(tx: TxDecodeEntity) returns (r: Reading)
    ensures r == ReadingOf(tx.instruction, tx.accountKeys, tx.accounts.View())
  {
    if tx.instruction.None? {
      return Rejected;
    }
    var inst := tx.instruction.value;
    var instType := GetInstructionType(inst.data);
    if instType.None? {
      return Rejected;
    }
    if instType.value != PUMP_BUY && instType.value != PUMP_SELL {
      return Rejected;
    }
    if |inst.accounts| <= 5 || |tx.accountKeys| == 0 {
      return Rejected;
    }
    var tokenAccountIndex := inst.accounts[5];
    if tokenAccountIndex >= |tx.accountKeys| {
      return Rejected;
    }
    if tx.accountKeys[tokenAccountIndex] !in tx.accounts.entries {
      return Rejected;
    }
    if inst.accounts[3] >= |tx.accountKeys| {
      return Overruns;
    }
    r := Reads(tx.accounts.entries[tx.accountKeys[tokenAccountIndex]].tokenDecimal);
  }

  /** The price of one event: it turns the tokens that moved back into the SOL that moved, in USD. No tokens, no
      price. */
  method PriceEvent(event: PumpEvent, decimals: byte, solUsd: real) returns (price: real)
    ensures AsInt64(event.tokenAmount) == 0 ==> price == 0.0
    ensures AsInt64(event.tokenAmount) != 0 ==>
      price * Units(AsInt64(event.tokenAmount), decimals) == Sol(AsInt64(event.solAmount)) * solUsd
    ensures price == EventPrice(event, decimals, solUsd)
  {
    var realSol := Sol(AsInt64(event.solAmount));
    var realToken := Units(AsInt64(event.tokenAmount), decimals);
    UnitsZero(AsInt64(event.tokenAmount), decimals);
    if realToken == 0.0 {
      return 0.0;
    }
    var total := realSol * solUsd;
    QuotientTimes(total, realToken);
    price := total / realToken;
  }

  lemma UnitsZero(amount: int, decimals: nat)
    ensures Units(amount, decimals) == 0.0 <==> amount == 0
  {
  }

  lemma QuotientTimes(x: real, y: real)
    requires y != 0.0
    ensures Quotient(x, y) == x / y && Quotient(x, y) * y == x
  {
  }

  method DecodePumpTranscation(tx: TxDecodeEntity) returns (r: Decoded)
    modifies tx`pumpEvents, tx`pumpEventIndex
    ensures
      var reading := ReadingOf(tx.instruction, tx.accountKeys, old(tx.accounts.View()));
      var (next, outcome) := Call(old(tx.State()), reading, DecodedEvents(tx.logs));
      tx.State() == next && r == TokenPrice(tx.price, outcome)
  {
    var reading := CheckInstruction(tx);
    match reading
    case Rejected =>
      r := Price(0.0);
    case Overruns =>
      r := Panicked;
    case Reads(decimals) =>
      var event := TakeEvent(tx);
      if event.None? {
        return Price(0.0);
      }
      var price := PriceEvent(event.value, decimals, tx.price);
      r := Price(price);
  }

  // ----- One transaction -----

  /** parseTxInstruction indexes the keys with every program index. */
  predicate ProgramsInRange(tx: Transaction) {
    forall i | 0 <= i < |tx.instructions| :: tx.instructions[i].program < |tx.keys|
  }

  /** The first failed or unsigned transaction ends the parsing of the block. */
  predicate IsParsed(tx: Transaction) {
    !tx.failed && tx.signatures > 0
  }

  /** How far each instruction gets; only pump instructions are looked at. */
  function Readings(p: Transaction, v: View): seq<Reading>
    requires ProgramsInRange(p)
  {
    seq(|p.instructions|, i requires 0 <= i < |p.instructions| =>
      if p.keys[p.instructions[i].program] == PUMP then ReadingOf(Some(p.instructions[i]), p.keys, v) else Rejected)
  }

  /** Reading past the end of the account keys ends the worker. */
  predicate Panics(p: Transaction, v: View)
    requires ProgramsInRange(p)
  {
    Overruns in Readings(p, v)
  }

  ghost function Summarize(p: Transaction, v: View): Summary
    requires ProgramsInRange(p)
  {
    Summary(DecodedEvents(p.logs), CountReads(Readings(p, v), |p.instructions|))
  }

  /** One pump instruction. */
  method ParseInstruction(p: Transaction, i: nat, tx: TxDecodeEntity) returns (ghost outcome: Outcome, panicked: bool)
    requires i < |p.instructions| && tx.accountKeys == p.keys && tx.logs == p.logs
    modifies tx`instruction, tx`pumpEvents, tx`pumpEventIndex
    ensures (tx.State(), outcome) ==
      Call(old(tx.State()), ReadingOf(Some(p.instructions[i]), p.keys, old(tx.accounts.View())), DecodedEvents(p.logs))
    ensures panicked <==> outcome == Panic
    ensures tx.accounts.View() == old(tx.accounts.View())
  {
    tx.instruction := Some(p.instructions[i]);
    var reading := ReadingOf(tx.instruction, tx.accountKeys, tx.accounts.View());
    outcome := Call(tx.State(), reading, DecodedEvents(tx.logs)).1;
    var decoded := DecodePumpTranscation(tx);
    panicked := decoded == Panicked;
  }

  /** The instruction loop of one transaction, which starts by resetting the index but not the events. */
  method ParseTransaction(p: Transaction, tx: TxDecodeEntity) returns (ghost events: seq<PumpEvent>, panicked: bool)
    requires ProgramsInRange(p)
    modifies tx
    ensures Played(tx.State(), events, panicked) ==
      Play(Cursor(old(tx.pumpEvents), 0), DecodedEvents(p.logs), Readings(p, old(tx.accounts.View())), |p.instructions|)
    ensures tx.accounts == old(tx.accounts) && tx.accounts.View() == old(tx.accounts.View())
  {
    ghost var v := tx.accounts.View();
    ghost var start, own, rs := Cursor(tx.pumpEvents, 0), DecodedEvents(p.logs), Readings(p, v);
    events, panicked := [], false;
    tx.logs, tx.pumpEventIndex, tx.accountKeys := p.logs, 0, p.keys;
    for i := 0 to |p.instructions|
      invariant tx.accounts == old(tx.accounts) && tx.accounts.View() == v
      invariant tx.logs == p.logs && tx.accountKeys == p.keys
      invariant Played(tx.State(), events, panicked) == Play(start, own, rs, i)
    {
      if p.keys[p.instructions[i].program] == PUMP && !panicked {
        ghost var outcome;
        outcome, panicked := ParseInstruction(p, i, tx);
        events := if outcome.Taken? then events + [outcome.event] else events;
      } else {
        assert panicked || Play(start, own, rs, i + 1) == Play(start, own, rs, i);
      }
    }
  }

  // ----- One block -----

  /** Transactions that are neither failed nor unsigned. */
  predicate AllParsed(ps: seq<Transaction>) {
    forall i | 0 <= i < |ps| :: IsParsed(ps[i])
  }

  predicate AllProgramsInRange(ps: seq<Transaction>) {
    forall i | 0 <= i < |ps| :: ProgramsInRange(ps[i])
  }

  ghost function Summaries(ps: seq<Transaction>, v: View): seq<Summary>
    requires AllProgramsInRange(ps)
  {
    seq(|ps|, i requires 0 <= i < |ps| => Summarize(ps[i], v))
  }

  /** What parsing a block comes to: the n transactions before the first failed or unsigned one, each consuming the
      events that ConsumedBy names. A panic in transaction n ends the worker; the events before it are consumed. */
  ghost predicate ParsesBlock(ps: seq<Transaction>, v: View, n: nat, panicked: bool, consumed: seq<seq<PumpEvent>>,
                              held: seq<PumpEvent>)
    requires AllProgramsInRange(ps)
  {
    && n <= |ps| && AllParsed(ps[..n])
    && (forall i | 0 <= i < n :: !Panics(ps[i], v))
    && if panicked then
         && n < |ps| && IsParsed(ps[n]) && Panics(ps[n], v)
         && BlockRead(Summaries(ps[..n + 1], v), consumed, held)
       else
         && (n == |ps| || !IsParsed(ps[n]))
         && BlockRead(Summaries(ps[..n], v), consumed, held)
  }

  /** The first n transactions were parsed without a panic. */
  ghost predicate ParsedSoFar(ps: seq<Transaction>, v: View, n: nat, consumed: seq<seq<PumpEvent>>,
                              held: seq<PumpEvent>)
    requires AllProgramsInRange(ps)
  {
    && n <= |ps| && AllParsed(ps[..n])
    && (forall i | 0 <= i < n :: !Panics(ps[i], v))
    && BlockRead(Summaries(ps[..n], v), consumed, held)
  }

  /** One more transaction. */
  lemma ParsedNext(ps: seq<Transaction>, v: View, n: nat, consumed: seq<seq<PumpEvent>>, held: seq<PumpEvent>,
                   events: seq<PumpEvent>, panicked: bool, held': seq<PumpEvent>)
    requires AllProgramsInRange(ps) && ParsedSoFar(ps, v, n, consumed, held) && n < |ps| && IsParsed(ps[n])
    requires
      var s := Summarize(ps[n], v);
      events == FirstOf(Source(held, s), s.reached) && held' == HeldNext(held, s) && (panicked <==> Panics(ps[n], v))
    ensures panicked ==> ParsesBlock(ps, v, n, true, consumed + [events], held')
    ensures !panicked ==> ParsedSoFar(ps, v, n + 1, consumed + [events], held')
  {
    BlockReadExtends(Summaries(ps[..n], v), Summarize(ps[n], v), consumed, held);
    assert Summaries(ps[..n + 1], v) == Summaries(ps[..n], v) + [Summarize(ps[n], v)];
  }

  /** One iteration of the loop. */
  method ParseNext(ps: seq<Transaction>, n: nat, tx: TxDecodeEntity, ghost v: View, ghost consumed: seq<seq<PumpEvent>>)
    returns (panicked: bool, ghost more: seq<seq<PumpEvent>>)
    requires AllProgramsInRange(ps) && n < |ps| && IsParsed(ps[n])
    requires v == tx.accounts.View() && ParsedSoFar(ps, v, n, consumed, tx.pumpEvents)
    modifies tx
    ensures v == tx.accounts.View()
    ensures panicked ==> ParsesBlock(ps, v, n, true, more, tx.pumpEvents)
    ensures !panicked ==> ParsedSoFar(ps, v, n + 1, more, tx.pumpEvents)
  {
    ghost var events, held := [], tx.pumpEvents;
    events, panicked := ParseTransaction(ps[n], tx);
    TransactionConsumes(held, DecodedEvents(ps[n].logs), Readings(ps[n], v));
    ParsedNext(ps, v, n, consumed, held, events, panicked, tx.pumpEvents);
    more := consumed + [events];
  }

  method ParseTxInstruction(ps: seq<Transaction>, tx: TxDecodeEntity)
    returns (n: nat, panicked: bool, ghost consumed: seq<seq<PumpEvent>>)
    requires AllProgramsInRange(ps) && tx.State() == Cursor([], 0)
    modifies tx
    ensures ParsesBlock(ps, old(tx.accounts.View()), n, panicked, consumed, tx.pumpEvents)
    ensures forall i | 0 <= i < n :: !ps[i].failed && ps[i].signatures > 0
    ensures !panicked ==> n == |ps| || ps[n].failed || ps[n].signatures == 0
  {
    ghost var v := tx.accounts.View();
    n, panicked, consumed := 0, false, [];
    while n < |ps|
      invariant v == tx.accounts.View() && ParsedSoFar(ps, v, n, consumed, tx.pumpEvents)
      invariant forall i | 0 <= i < n :: !ps[i].failed && ps[i].signatures > 0
    {
      if ps[n].failed || ps[n].signatures == 0 {
        return;
      }
      panicked, consumed := ParseNext(ps, n, tx, v, consumed);
      if panicked {
        return;
      }
      n := n + 1;
    }
  }
}
