/** All workers, both channels, the scanner of failed slots and the table, as one system of interleaved steps. */
module Pipeline {
  import opened GoArith
  import opened BlockFetch
  import opened BlockStore

  const LIVE_CAPACITY := 100
  const RETRY_CAPACITY := 1
  const SCAN_LIMIT := 50

  /** Which channel a worker reads. */
  datatype Side = Live | Retry

  /** Where a worker stands in handleTransacton, with its own copy of the row. */
  datatype Phase =
    | Idle
    | Lookup(slot: uint64)
    | Fetch(slot: uint64, row: Row)
    | Save(slot: uint64, row: Row, answer: Answer)
    | Stopped

  datatype Worker = Worker(side: Side, phase: Phase)

  /** The rescan loop: between scans, sending the slots of the latest scan, or ended by an empty scan. */
  datatype Scanner = Waiting | Sending(pending: seq<int>) | Ended

  /** A successful save: what was written, and the answer that dictated it. */
  datatype Entry = Entry(row: Row, answer: Answer)

  datatype System = System(
    table: Table, workers: seq<Worker>, live: seq<uint64>, retry: seq<uint64>, scanner: Scanner, bound: int,
    log: seq<Entry>)

  datatype Action =
    | Produce(slot: uint64)
    | Scan(batch: seq<Row>)
    | Resend
    | Receive(w: nat)
    | LookedUp(w: nat, fails: bool, found: Option<Row>)
    | Fetched(w: nat, answer: Answer, now: int)
    | Stored(w: nat, fails: bool, newId: int)
    | Halt(w: nat)

  /** uint64(block.Slot). */
  function AsUint64(x: int): uint64 {
    Wrap64(x)
  }

  ghost predicate InInt64(x: int) {
    -0x8000_0000_0000_0000 <= x < 0x8000_0000_0000_0000
  }

  // ----- Steps -----

  ghost predicate ProduceStep(s: System, slot: uint64, s': System) {
    |s.live| < LIVE_CAPACITY && s' == s.(live := s.live + [slot])
  }

  /** The rows of a scan: those of the query, or none when it fails. */
  ghost predicate Scanned(t: Table, bound: int, batch: seq<Row>) {
    batch == [] || FailedBatch(t, bound, SCAN_LIMIT, batch)
  }

  /** A scan without rows, also because the query failed, ends the scanner. */
  ghost predicate ScanStep(s: System, batch: seq<Row>, s': System) {
    && s.scanner == Waiting && Scanned(s.table, s.bound, batch)
    && var slots := seq(|batch|, i requires 0 <= i < |batch| => batch[i].slot);
      s' == s.(scanner := if batch == [] then Ended else Sending(slots))
  }

  ghost predicate ResendStep(s: System, s': System) {
    && s.scanner.Sending? && s.scanner.pending != [] && |s.retry| < RETRY_CAPACITY
    && var rest := s.scanner.pending[1..];
      s' == s.(retry := s.retry + [AsUint64(s.scanner.pending[0])],
               scanner := if rest == [] then Waiting else Sending(rest))
  }

  /** Slot 0 stands for a read error and is dropped. */
  ghost predicate ReceiveStep(s: System, w: nat, s': System) {
    && w < |s.workers| && s.workers[w].phase == Idle
    && match s.workers[w].side
      case Live =>
        && s.live != []
        && s' == At(s.(live := s.live[1..]), w, if s.live[0] == 0 then Idle else Lookup(s.live[0]))
      case Retry =>
        && s.retry != []
        && s' == At(s.(retry := s.retry[1..]), w, if s.retry[0] == 0 then Idle else Lookup(s.retry[0]))
  }

  function At(s: System, w: nat, phase: Phase): System
    requires w < |s.workers|
  {
    s.(workers := s.workers[w := s.workers[w].(phase := phase)])
  }

  ghost predicate LookupStep(s: System, w: nat, fails: bool, found: Option<Row>, s': System) {
    && w < |s.workers| && s.workers[w].phase.Lookup?
    && var slot := s.workers[w].phase.slot;
      if fails then s' == At(s, w, Idle)
      else
        && Finds(s.table, AsInt64(slot), found)
        && s' == At(s, w, Fetch(slot, if found.Some? then found.value else NewRow(AsInt64(slot))))
  }

  ghost predicate FetchStep(s: System, w: nat, answer: Answer, now: int, s': System) {
    && w < |s.workers| && s.workers[w].phase.Fetch?
    && var p := s.workers[w].phase;
      s' == At(s, w, match Decide(p.row, answer, now)
                     case Crash => Stopped
                     case Drop => Idle
                     case Write(row) => Save(p.slot, row, answer))
  }

  ghost predicate StoreStep(s: System, w: nat, fails: bool, newId: int, s': System) {
    && w < |s.workers| && s.workers[w].phase.Save?
    && var p := s.workers[w].phase;
      exists ok :: Saves(s.table, p.row, fails, newId, s'.table, ok) &&
        s' == At(s, w, Idle).(table := s'.table,
                              log := if ok then s.log + [Entry(WithId(p.row, newId), p.answer)] else s.log)
  }

  /** A worker may end at any point: the service stops, or later parsing panics. */
  ghost predicate HaltStep(s: System, w: nat, s': System) {
    w < |s.workers| && s' == At(s, w, Stopped)
  }

  ghost predicate Step(s: System, e: Action, s': System) {
    match e
    case Produce(slot) => ProduceStep(s, slot, s')
    case Scan(batch) => ScanStep(s, batch, s')
    case Resend => ResendStep(s, s')
    case Receive(w) => ReceiveStep(s, w, s')
    case LookedUp(w, fails, found) => LookupStep(s, w, fails, found, s')
    case Fetched(w, answer, now) => FetchStep(s, w, answer, now, s')
    case Stored(w, fails, newId) => StoreStep(s, w, fails, newId, s')
    case Halt(w) => HaltStep(s, w, s')
  }

  /** Any number of idle workers and empty channels, over any table that satisfies the schema. */
  ghost predicate Starts(s: System) {
    && TableOk(s.table) && (forall id | id in s.table :: InInt64(s.table[id].slot))
    && (forall w | 0 <= w < |s.workers| :: s.workers[w].phase == Idle)
    && s.live == [] && s.retry == [] && s.scanner == Waiting && s.log == []
  }

  ghost predicate Run(states: seq<System>, actions: seq<Action>) {
    && |states| == |actions| + 1
    && Starts(states[0])
    && forall i | 0 <= i < |actions| :: Step(states[i], actions[i], states[i + 1])
  }

  // ----- The invariant -----

  /** The row that a worker carries: new, or a copy of the one row of its slot. */
  ghost predicate RowOk(t: Table, side: Side, slot: uint64, row: Row) {
    && row.slot == AsInt64(slot)
    && if row.id == 0 then side == Live && row.solPrice == 0.0
       else row.id in t && t[row.id].slot == row.slot && t[row.id].solPrice == row.solPrice
  }

  ghost predicate WorkerOk(t: Table, w: Worker) {
    match w.phase
    case Idle => true
    case Stopped => true
    case Lookup(slot) => w.side == Retry ==> HasSlot(t, AsInt64(slot))
    case Fetch(slot, row) => RowOk(t, w.side, slot, row)
    case Save(slot, row, answer) =>
      && RowOk(t, w.side, slot, row)
      && row.status == Dictated(answer)
  }

  /** Slots on the way back are slots of rows above the scan bound. */
  ghost predicate Rescannable(s: System, slot: int) {
    HasSlot(s.table, slot) && slot > s.bound && InInt64(slot)
  }

  /** The last successful save of a slot. */
  function LastSave(log: seq<Entry>, slot: int): Option<Entry> {
    if log == [] then None
    else if log[|log| - 1].row.slot == slot then Some(log[|log| - 1])
    else LastSave(log[..|log| - 1], slot)
  }

  /** Every row is what the last save of its slot wrote, or else still as it was at the start. */
  ghost predicate Replayed(t0: Table, s: System) {
    forall id | id in s.table ::
      match LastSave(s.log, s.table[id].slot)
      case Some(entry) => s.table[id] == entry.row && entry.row.status == Dictated(entry.answer)
      case None => id in t0 && s.table[id] == t0[id]
  }

  ghost predicate Inv(t0: Table, s: System) {
    && TableOk(s.table) && (forall id | id in s.table :: InInt64(s.table[id].slot))
    && (forall w | 0 <= w < |s.workers| :: WorkerOk(s.table, s.workers[w]))
    && (forall i | 0 <= i < |s.retry| :: Rescannable(s, AsInt64(s.retry[i])))
    && (s.scanner.Sending? ==>
      && s.scanner.pending != []
      && forall i | 0 <= i < |s.scanner.pending| :: Rescannable(s, s.scanner.pending[i]))
    && Replayed(t0, s)
    && Grows(t0, s.table)
  }

  /** Ids are never removed, and a row never changes its slot or its price. */
  ghost predicate Grows(t: Table, t': Table) {
    forall id | id in t :: id in t' && t'[id].slot == t[id].slot && t'[id].solPrice == t[id].solPrice
  }

  lemma AsInt64RoundTrip(x: int)
    requires InInt64(x)
    ensures AsInt64(AsUint64(x)) == x
  {
  }

  lemma GrowsKeepsSlot(t: Table, t': Table, slot: int)
    requires Grows(t, t') && HasSlot(t, slot)
    ensures HasSlot(t', slot)
  {
    var id :| id in t && t[id].slot == slot;
    assert id in t' && t'[id].slot == slot;
  }

  lemma GrowsKeepsWorker(t: Table, t': Table, w: Worker)
    requires Grows(t, t') && WorkerOk(t, w)
    ensures WorkerOk(t', w)
  {
    if w.phase.Lookup? && w.side == Retry {
      GrowsKeepsSlot(t, t', AsInt64(w.phase.slot));
    }
  }

  /** Every Update hits the row of the slot its worker handles, and the unique key never refuses it; an Insert
      succeeds exactly when no row of the slot exists. */
  lemma SaveHitsOwnRow(s: System, t0: Table, w: nat, fails: bool, newId: int, t': Table, ok: bool)
    requires Inv(t0, s) && w < |s.workers| && s.workers[w].phase.Save?
    requires Saves(s.table, s.workers[w].phase.row, fails, newId, t', ok)
    ensures
      var (slot, row) := (AsInt64(s.workers[w].phase.slot), s.workers[w].phase.row);
      && (row.id != 0 ==> row.id in s.table && s.table[row.id].slot == slot && ok == !fails)
      && (row.id == 0 ==> ok == (!fails && !HasSlot(s.table, slot)))
      && (ok ==> WithId(row, newId).id > 0 && WithId(row, newId).slot == slot &&
                 t' == s.table[WithId(row, newId).id := WithId(row, newId)])
      && (!ok ==> t' == s.table)
  {
    assert WorkerOk(s.table, s.workers[w]);
  }

  /** The effect of a step on the table: at most the row of the slot that the storing worker handles. */
  lemma StoreGrows(s: System, t0: Table, w: nat, fails: bool, newId: int, s': System)
    requires Inv(t0, s) && StoreStep(s, w, fails, newId, s')
    ensures Grows(s.table, s'.table) && TableOk(s'.table)
    ensures forall id | id in s'.table :: InInt64(s'.table[id].slot)
    ensures forall id | id in s.table && s.table[id].slot != AsInt64(s.workers[w].phase.slot) ::
      s'.table[id] == s.table[id]
  {
    var p := s.workers[w].phase;
    var ok :| Saves(s.table, p.row, fails, newId, s'.table, ok) &&
      s' == At(s, w, Idle).(table := s'.table,
                            log := if ok then s.log + [Entry(WithId(p.row, newId), p.answer)] else s.log);
    SaveHitsOwnRow(s, t0, w, fails, newId, s'.table, ok);
    assert WorkerOk(s.table, s.workers[w]);
    if ok && p.row.id == 0 {
      assert forall id | id in s.table :: s.table[id].slot != p.row.slot;
    }
  }

  lemma StoreReplays(s: System, t0: Table, w: nat, fails: bool, newId: int, s': System)
    requires Inv(t0, s) && StoreStep(s, w, fails, newId, s')
    ensures Replayed(t0, s')
  {
    var p := s.workers[w].phase;
    var ok :| Saves(s.table, p.row, fails, newId, s'.table, ok) &&
      s' == At(s, w, Idle).(table := s'.table,
                            log := if ok then s.log + [Entry(WithId(p.row, newId), p.answer)] else s.log);
    SaveHitsOwnRow(s, t0, w, fails, newId, s'.table, ok);
    assert WorkerOk(s.table, s.workers[w]);
    if ok {
      assert s'.log[..|s'.log| - 1] == s.log;
      StoreGrows(s, t0, w, fails, newId, s');
    }
  }

  lemma StoreKeepsInv(s: System, t0: Table, w: nat, fails: bool, newId: int, s': System)
    requires Inv(t0, s) && StoreStep(s, w, fails, newId, s')
    ensures Inv(t0, s')
  {
    StoreGrows(s, t0, w, fails, newId, s');
    StoreReplays(s, t0, w, fails, newId, s');
    forall i | 0 <= i < |s'.workers|
      ensures WorkerOk(s'.table, s'.workers[i])
    {
      GrowsKeepsWorker(s.table, s'.table, s.workers[i]);
    }
    forall slot | HasSlot(s.table, slot)
      ensures HasSlot(s'.table, slot)
    {
      GrowsKeepsSlot(s.table, s'.table, slot);
    }
  }

  lemma LookupKeepsInv(s: System, t0: Table, w: nat, fails: bool, found: Option<Row>, s': System)
    requires Inv(t0, s) && LookupStep(s, w, fails, found, s')
    ensures Inv(t0, s')
  {
    assert WorkerOk(s.table, s.workers[w]);
  }

  lemma FetchKeepsInv(s: System, t0: Table, w: nat, answer: Answer, now: int, s': System)
    requires Inv(t0, s) && FetchStep(s, w, answer, now, s')
    ensures Inv(t0, s')
  {
    assert WorkerOk(s.table, s.workers[w]);
  }

  lemma ReceiveKeepsInv(s: System, t0: Table, w: nat, s': System)
    requires Inv(t0, s) && ReceiveStep(s, w, s')
    ensures Inv(t0, s')
  {
  }

  lemma ScannerKeepsInv(s: System, t0: Table, e: Action, s': System)
    requires Inv(t0, s) && Step(s, e, s') && (e.Scan? || e.Resend?)
    ensures Inv(t0, s')
  {
    if e.Resend? {
      AsInt64RoundTrip(s.scanner.pending[0]);
    } else {
      forall i | 0 <= i < |e.batch|
        ensures Rescannable(s, e.batch[i].slot)
      {
        assert e.batch[i].id in s.table;
      }
    }
  }

  /** Every step of every worker, channel and scanner keeps the invariant. */
  lemma StepKeepsInv(s: System, t0: Table, e: Action, s': System)
    requires Inv(t0, s) && Step(s, e, s')
    ensures Inv(t0, s')
  {
    match e
    case Produce(slot) =>
    case Scan(batch) => ScannerKeepsInv(s, t0, e, s');
    case Resend => ScannerKeepsInv(s, t0, e, s');
    case Receive(w) => ReceiveKeepsInv(s, t0, w, s');
    case LookedUp(w, fails, found) => LookupKeepsInv(s, t0, w, fails, found, s');
    case Fetched(w, answer, now) => FetchKeepsInv(s, t0, w, answer, now, s');
    case Stored(w, fails, newId) => StoreKeepsInv(s, t0, w, fails, newId, s');
    case Halt(w) =>
  }

  lemma {:induction false} RunKeepsInv(states: seq<System>, actions: seq<Action>, i: nat)
    requires Run(states, actions) && i <= |actions|
    ensures Inv(states[0].table, states[i])
  {
    if i > 0 {
      RunKeepsInv(states, actions, i - 1);
      StepKeepsInv(states[i - 1], states[0].table, actions[i - 1], states[i]);
    }
  }

  lemma StepGrows(s: System, t0: Table, e: Action, s': System)
    requires Inv(t0, s) && Step(s, e, s')
    ensures Grows(s.table, s'.table) && s'.bound == s.bound
  {
    if e.Stored? {
      StoreGrows(s, t0, e.w, e.fails, e.newId, s');
    }
  }
}
