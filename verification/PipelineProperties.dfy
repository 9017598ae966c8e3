/** What holds in every interleaving, read off the invariant of the pipeline. */
module PipelineProperties {
  import opened GoArith
  import opened BlockFetch
  import opened BlockStore
  import opened TrimmedMean
  import opened SolPrice
  import opened Pipeline

  /** At any two moments of a run, the later table still has every earlier row, with its slot and price. */
  lemma {:induction false} RowsPersist(states: seq<System>, actions: seq<Action>, i: nat, j: nat)
    requires Run(states, actions) && i <= j <= |actions|
    ensures Grows(states[i].table, states[j].table)
  {
    if i < j {
      RowsPersist(states, actions, i, j - 1);
      RunKeepsInv(states, actions, j - 1);
      StepGrows(states[j - 1], states[0].table, actions[j - 1], states[j]);
    }
  }

  /** At every moment each slot has at most one row, and that row is what the last successful save of the slot wrote,
      with the status its answer dictates, or is untouched since the start. */
  lemma TableIsLastSaves(states: seq<System>, actions: seq<Action>, i: nat, id: int)
    requires Run(states, actions) && i <= |actions| && id in states[i].table
    ensures
      var row := states[i].table[id];
      && (forall k | k in states[i].table && states[i].table[k].slot == row.slot :: k == id)
      && match LastSave(states[i].log, row.slot)
         case Some(entry) => row == entry.row && row.status == Dictated(entry.answer)
         case None => id in states[0].table && row == states[0].table[id]
  {
    RunKeepsInv(states, actions, i);
  }

  /** A step that stores leaves the rows of all other slots alone. */
  lemma StoreTouchesOneSlot(states: seq<System>, actions: seq<Action>, i: nat, id: int)
    requires Run(states, actions) && i < |actions| && actions[i].Stored? && id in states[i].table
    ensures actions[i].w < |states[i].workers| && states[i].workers[actions[i].w].phase.Save?
    ensures states[i].table[id].slot != AsInt64(states[i].workers[actions[i].w].phase.slot) ==>
      id in states[i + 1].table && states[i + 1].table[id] == states[i].table[id]
  {
    RunKeepsInv(states, actions, i);
    var e := actions[i];
    assert Step(states[i], e, states[i + 1]);
    StoreGrows(states[i], states[0].table, e.w, e.fails, e.newId, states[i + 1]);
  }

  /** Workers on the channel of failed slots only ever update: their slot already has a row. */
  lemma RetryWorkersUpdate(states: seq<System>, actions: seq<Action>, i: nat, w: nat)
    requires Run(states, actions) && i <= |actions| && w < |states[i].workers|
    requires states[i].workers[w].side == Retry && states[i].workers[w].phase.Save?
    ensures
      var p := states[i].workers[w].phase;
      p.row.id in states[i].table && states[i].table[p.row.id].slot == AsInt64(p.slot)
  {
    RunKeepsInv(states, actions, i);
    assert WorkerOk(states[i].table, states[i].workers[w]);
    assert RowOk(states[i].table, Retry, states[i].workers[w].phase.slot, states[i].workers[w].phase.row);
    assert states[i].workers[w].phase.row.id != 0;
  }

  ghost predicate RacesToInsert(s: System, e: Action, slot: uint64) {
    && e.Stored? && e.w < |s.workers| && s.workers[e.w].phase.Save?
    && s.workers[e.w].phase.slot == slot && s.workers[e.w].phase.row.id == 0
  }

  /** Workers that found no row for a slot race to insert it. Whatever happens in between, at most one of the inserts
      changes the table. */
  lemma SecondInsertFails(states: seq<System>, actions: seq<Action>, i: nat, j: nat, slot: uint64)
    requires Run(states, actions) && i < j < |actions|
    requires RacesToInsert(states[i], actions[i], slot) && RacesToInsert(states[j], actions[j], slot)
    ensures states[i + 1].table == states[i].table || states[j + 1].table == states[j].table
  {
    RunKeepsInv(states, actions, i);
    RunKeepsInv(states, actions, j);
    InsertFillsSlot(states[i], states[0].table, actions[i], slot, states[i + 1]);
    InsertFillsSlot(states[j], states[0].table, actions[j], slot, states[j + 1]);
    RowsPersist(states, actions, i + 1, j);
    if HasSlot(states[i + 1].table, AsInt64(slot)) {
      GrowsKeepsSlot(states[i + 1].table, states[j].table, AsInt64(slot));
    }
  }

  /** An insert changes the table only if the slot had no row, and then it has one. */
  lemma InsertFillsSlot(s: System, t0: Table, e: Action, slot: uint64, s': System)
    requires Inv(t0, s) && Step(s, e, s') && RacesToInsert(s, e, slot)
    ensures s'.table == s.table || (!HasSlot(s.table, AsInt64(slot)) && HasSlot(s'.table, AsInt64(slot)))
  {
    var p := s.workers[e.w].phase;
    var ok :| Saves(s.table, p.row, e.fails, e.newId, s'.table, ok);
    SaveHitsOwnRow(s, t0, e.w, e.fails, e.newId, s'.table, ok);
    assert ok ==> e.newId in s'.table && s'.table[e.newId].slot == AsInt64(slot);
  }

  // ----- Rescans -----

  /** Scan j was the latest before moment i. */
  ghost predicate LatestScan(actions: seq<Action>, j: nat, i: nat) {
    j < i <= |actions| && actions[j].Scan? && forall k | j < k < i :: !actions[k].Scan?
  }

  ghost predicate IsSuffix(pending: seq<int>, batch: seq<Row>) {
    |pending| <= |batch| &&
    forall k | 0 <= k < |pending| :: pending[k] == batch[|batch| - |pending| + k].slot
  }

  /** While the scanner sends, what is pending is the rest of the batch of the latest scan. */
  lemma {:induction false} PendingIsRestOfScan(states: seq<System>, actions: seq<Action>, i: nat)
    requires Run(states, actions) && i <= |actions| && states[i].scanner.Sending?
    ensures exists j: nat :: LatestScan(actions, j, i) && IsSuffix(states[i].scanner.pending, actions[j].batch)
  {
    if i > 0 {
      var e := actions[i - 1];
      assert Step(states[i - 1], e, states[i]);
      if e.Scan? {
        assert LatestScan(actions, i - 1, i);
      } else {
        PendingIsRestOfScan(states, actions, i - 1);
        var j: nat :| LatestScan(actions, j, i - 1) && IsSuffix(states[i - 1].scanner.pending, actions[j].batch);
        assert LatestScan(actions, j, i);
        assert IsSuffix(states[i].scanner.pending, actions[j].batch);
      }
    }
  }

  /** Every slot sent back for another try was, in the latest scan, a failed row above the bound. */
  lemma ResentWasFailed(states: seq<System>, actions: seq<Action>, i: nat)
    requires Run(states, actions) && i < |actions| && actions[i] == Resend
    ensures exists j: nat, row ::
      && LatestScan(actions, j, i) && row in actions[j].batch
      && row.id in states[j].table && states[j].table[row.id] == row
      && row.status == FAILED && row.slot > states[j].bound
      && states[i + 1].retry == states[i].retry + [AsUint64(row.slot)]
  {
    assert Step(states[i], actions[i], states[i + 1]);
    PendingIsRestOfScan(states, actions, i);
    var j: nat :| LatestScan(actions, j, i) && IsSuffix(states[i].scanner.pending, actions[j].batch);
    assert Step(states[j], actions[j], states[j + 1]);
    var batch := actions[j].batch;
    var k := |batch| - |states[i].scanner.pending|;
    assert batch[k] in batch && states[i].scanner.pending[0] == batch[k].slot;
  }

  // ----- Prices in the table -----

  /** The price of a row when the run started; rows inserted since have none. */
  function StartPrice(t0: Table, id: int): real {
    if id in t0 then t0[id].solPrice else 0.0
  }

  ghost predicate PricesOfStart(t0: Table, t: Table) {
    forall id | id in t :: t[id].solPrice == StartPrice(t0, id)
  }

  /** The pipeline never writes a price: at every moment a row's price is the one it had at the start, or 0. */
  lemma {:induction false} PricesStayAsStarted(states: seq<System>, actions: seq<Action>, i: nat)
    requires Run(states, actions) && i <= |actions|
    ensures PricesOfStart(states[0].table, states[i].table)
  {
    if i > 0 {
      PricesStayAsStarted(states, actions, i - 1);
      RunKeepsInv(states, actions, i - 1);
      StepKeepsPrices(states[i - 1], states[0].table, actions[i - 1], states[i]);
    }
  }

  lemma StepKeepsPrices(s: System, t0: Table, e: Action, s': System)
    requires Inv(t0, s) && Step(s, e, s') && PricesOfStart(t0, s.table)
    ensures PricesOfStart(t0, s'.table)
  {
    if e.Stored? {
      var p := s.workers[e.w].phase;
      var ok :| Saves(s.table, p.row, e.fails, e.newId, s'.table, ok);
      SaveHitsOwnRow(s, t0, e.w, e.fails, e.newId, s'.table, ok);
      assert WorkerOk(s.table, s.workers[e.w]);
      StoreGrows(s, t0, e.w, e.fails, e.newId, s');
    }
  }

  /** The save of moment i succeeded and wrote this row. */
  ghost predicate SavedAt(states: seq<System>, i: nat, row: Row) {
    i + 1 < |states| && exists answer :: states[i + 1].log == states[i].log + [Entry(row, answer)]
  }

  lemma SavedRowIsStored(states: seq<System>, actions: seq<Action>, i: nat, row: Row)
    requires Run(states, actions) && i < |actions| && SavedAt(states, i, row)
    ensures row.id in states[i + 1].table && states[i + 1].table[row.id] == row
  {
    RunKeepsInv(states, actions, i);
    var (s, e, s') := (states[i], actions[i], states[i + 1]);
    assert Step(s, e, s');
    assert |s'.log| == |s.log| + 1 && s'.log[|s.log|].row == row;
    assert e.Stored?;
    var p := s.workers[e.w].phase;
    var ok :| Saves(s.table, p.row, e.fails, e.newId, s'.table, ok) &&
      s' == At(s, e.w, Idle).(table := s'.table,
                              log := if ok then s.log + [Entry(WithId(p.row, e.newId), p.answer)] else s.log);
    SaveHitsOwnRow(s, states[0].table, e.w, e.fails, e.newId, s'.table, ok);
  }

  /** The price of the near row as the handler sees it. */
  function NearPrice(near: Option<Row>, nearFails: bool): Option<real> {
    if nearFails || near.None? then None else Some(near.value.solPrice)
  }

  /** Without priced swaps, or with an aggregate that is not positive, a block saved at moment i settles at any later
      moment j on what its row and the nearest earlier processed row were worth before the run. So the two fallbacks
      give a price exactly if one of these rows had one when the run started. */
  lemma FallbacksGivePriceIff(states: seq<System>, actions: seq<Action>, i: nat, j: nat, row: Row, near: Option<Row>,
                              nearFails: bool, prices: seq<real>)
    requires Run(states, actions) && i < j <= |actions| && SavedAt(states, i, row)
    requires FindsNear(states[j].table, row.slot, near) && (prices == [] || Aggregate(prices) <= 0.0)
    ensures
      var own := StartPrice(states[0].table, row.id);
      var other := if nearFails || near.None? then 0.0 else StartPrice(states[0].table, near.value.id);
      var price := SettledPrice(prices, row.solPrice, NearPrice(near, nearFails));
      && price == (if own > 0.0 then own else other)
      && (price > 0.0 <==> own > 0.0 || other > 0.0)
      && (price == 0.0 <==> own <= 0.0 && other == 0.0)
  {
    SavedRowIsStored(states, actions, i, row);
    PricesStayAsStarted(states, actions, i + 1);
    PricesStayAsStarted(states, actions, j);
    assert row.solPrice == StartPrice(states[0].table, row.id);
    assert near.Some? ==> near.value.solPrice == StartPrice(states[0].table, near.value.id);
  }

  // ----- Status is not monotone -----

  /** The action saves over row id, and the answer behind it. */
  ghost predicate Overwrites(s: System, e: Action, id: int) {
    && e.Stored? && !e.fails && e.w < |s.workers|
    && s.workers[e.w].phase.Save? && s.workers[e.w].phase.row.id == id
  }

  /** A row's status changes exactly when a worker saves over it, to what that worker's answer dictates. */
  lemma StatusAfterStep(s: System, t0: Table, e: Action, s': System, id: int)
    requires Inv(t0, s) && Step(s, e, s') && id in s.table
    ensures id in s'.table
    ensures s'.table[id].status ==
      if Overwrites(s, e, id) then Dictated(s.workers[e.w].phase.answer) else s.table[id].status
  {
    if e.Stored? {
      var p := s.workers[e.w].phase;
      var ok :| Saves(s.table, p.row, e.fails, e.newId, s'.table, ok);
      SaveHitsOwnRow(s, t0, e.w, e.fails, e.newId, s'.table, ok);
      assert WorkerOk(s.table, s.workers[e.w]);
    }
  }

  /** A worker that holds an error is about to save over the row. */
  ghost predicate Spoils(s: System, e: Action, id: int) {
    Overwrites(s, e, id) && s.workers[e.w].phase.answer.Error?
  }

  /** A worker that holds a block is about to save over the row. */
  ghost predicate Restores(s: System, e: Action, id: int) {
    Overwrites(s, e, id) && s.workers[e.w].phase.answer.Block?
  }

  /** A processed row stays processed in a step exactly if the step does not save an error over it. */
  lemma ProcessedStaysIff(s: System, t0: Table, e: Action, s': System, id: int)
    requires Inv(t0, s) && Step(s, e, s') && id in s.table && s.table[id].status == PROCESSED
    ensures id in s'.table
    ensures s'.table[id].status == PROCESSED <==> !Spoils(s, e, id)
  {
    StatusAfterStep(s, t0, e, s', id);
  }

  ghost predicate ProcessedAt(states: seq<System>, k: nat, id: int) {
    k < |states| && id in states[k].table && states[k].table[id].status == PROCESSED
  }

  ghost predicate SpoiledAt(states: seq<System>, actions: seq<Action>, k: nat, id: int) {
    k < |actions| && k < |states| && Spoils(states[k], actions[k], id)
  }

  ghost predicate RestoredAt(states: seq<System>, actions: seq<Action>, k: nat, id: int) {
    k < |actions| && k < |states| && Restores(states[k], actions[k], id)
  }

  /** Every error saved over the row between moments i and j is followed by a block saved over it. */
  ghost predicate AllRepaired(states: seq<System>, actions: seq<Action>, i: nat, j: nat, id: int) {
    forall k | i <= k < j && SpoiledAt(states, actions, k, id) :: RepairedBetween(states, actions, k, j, id)
  }

  ghost predicate RepairedBetween(states: seq<System>, actions: seq<Action>, k: nat, j: nat, id: int) {
    exists m | k < m < j :: RestoredAt(states, actions, m, id)
  }

  lemma RepairsExtend(states: seq<System>, actions: seq<Action>, i: nat, n: nat, id: int)
    requires i <= n
    ensures AllRepaired(states, actions, i, n + 1, id) <==>
      || RestoredAt(states, actions, n, id)
      || (!SpoiledAt(states, actions, n, id) && AllRepaired(states, actions, i, n, id))
  {
    forall k | i <= k < n
      ensures RepairedBetween(states, actions, k, n + 1, id) <==>
        RestoredAt(states, actions, n, id) || RepairedBetween(states, actions, k, n, id)
    {
    }
  }

  lemma ProcessedNext(states: seq<System>, actions: seq<Action>, n: nat, id: int)
    requires Run(states, actions) && n < |actions| && id in states[n].table
    ensures id in states[n + 1].table
    ensures ProcessedAt(states, n + 1, id) <==>
      RestoredAt(states, actions, n, id) || (!SpoiledAt(states, actions, n, id) && ProcessedAt(states, n, id))
  {
    RunKeepsInv(states, actions, n);
    StatusAfterStep(states[n], states[0].table, actions[n], states[n + 1], id);
  }

  /** Over a whole run, a row processed at moment i is processed at moment j exactly if every error saved over it in
      between is followed by a block saved over it. */
  lemma {:induction false} ProcessedAtIff(states: seq<System>, actions: seq<Action>, i: nat, j: nat, id: int)
    requires Run(states, actions) && i <= j <= |actions| && ProcessedAt(states, i, id)
    ensures id in states[j].table
    ensures ProcessedAt(states, j, id) <==> AllRepaired(states, actions, i, j, id)
  {
    if i < j {
      ProcessedAtIff(states, actions, i, j - 1, id);
      RepairsExtend(states, actions, i, j - 1, id);
      ProcessedNext(states, actions, j - 1, id);
    }
  }

  ghost predicate ProcessedDuring(states: seq<System>, i: nat, j: nat, id: int) {
    forall k | i <= k <= j :: ProcessedAt(states, k, id)
  }

  ghost predicate NeverSpoiled(states: seq<System>, actions: seq<Action>, i: nat, j: nat, id: int) {
    forall k | i <= k < j :: !SpoiledAt(states, actions, k, id)
  }

  /** It is processed at every moment in between exactly if no error is saved over it. */
  lemma {:induction false} ProcessedDuringIff(states: seq<System>, actions: seq<Action>, i: nat, j: nat, id: int)
    requires Run(states, actions) && i <= j <= |actions| && ProcessedAt(states, i, id)
    ensures ProcessedDuring(states, i, j, id) <==> NeverSpoiled(states, actions, i, j, id)
  {
    if i < j {
      var n := j - 1;
      ProcessedDuringIff(states, actions, i, n, id);
      assert NeverSpoiled(states, actions, i, j, id) <==>
        NeverSpoiled(states, actions, i, n, id) && !SpoiledAt(states, actions, n, id);
      assert ProcessedDuring(states, i, j, id) <==> ProcessedDuring(states, i, n, id) && ProcessedAt(states, j, id);
      if ProcessedDuring(states, i, n, id) {
        assert ProcessedAt(states, n, id);
        RunKeepsInv(states, actions, n);
        ProcessedStaysIff(states[n], states[0].table, actions[n], states[j], id);
      }
    }
  }

  function OneWorker(t: Table, live: seq<uint64>, phase: Phase, log: seq<Entry>): System {
    System(t, [Worker(Live, phase)], live, [], Waiting, 0, log)
  }

  /** The slot of a stored row arrives again. */
  lemma SlotArrives(t: Table, row: Row, slot: uint64)
    requires Finds(t, AsInt64(slot), Some(row)) && slot != 0
    ensures Step(OneWorker(t, [], Idle, []), Produce(slot), OneWorker(t, [slot], Idle, []))
    ensures Step(OneWorker(t, [slot], Idle, []), Receive(0), OneWorker(t, [], Lookup(slot), []))
    ensures Step(OneWorker(t, [], Lookup(slot), []), LookedUp(0, false, Some(row)),
                 OneWorker(t, [], Fetch(slot, row), []))
  {
  }

  /** The node answers with an error, which is saved over the row. */
  lemma ErrorIsSaved(row: Row, slot: uint64)
    requires row.id > 0 && row.slot == AsInt64(slot) && row.message == "" && row.time == 0
    ensures
      var (t, failed, answer) := (map[row.id := row], row.(status := FAILED), Error(""));
      && Step(OneWorker(t, [], Fetch(slot, row), []), Fetched(0, answer, 0),
              OneWorker(t, [], Save(slot, failed, answer), []))
      && Step(OneWorker(t, [], Save(slot, failed, answer), []), Stored(0, false, 2),
              OneWorker(t[row.id := failed], [], Idle, [Entry(failed, answer)]))
  {
    var (t, failed) := (map[row.id := row], row.(status := FAILED));
    assert !SaysSkipped("");
    assert Saves(t, failed, false, 2, t[row.id := failed], true);
  }

  /** A processed row can become a failed one: the slot arrives again and the node answers with an error. */
  lemma ProcessedMayBecomeFailed() returns (states: seq<System>, actions: seq<Action>)
    ensures Run(states, actions)
    ensures ProcessedAt(states, 0, 1)
    ensures var last := states[|actions|].table; 1 in last && last[1].status == FAILED
  {
    var row := Row(1, 7, 0, 0, PROCESSED, 0.0, "");
    var t: Table := map[1 := row];
    var (answer, failed) := (Error(""), row.(status := FAILED));
    SlotArrives(t, row, 7);
    ErrorIsSaved(row, 7);
    states := [
      OneWorker(t, [], Idle, []),
      OneWorker(t, [7], Idle, []),
      OneWorker(t, [], Lookup(7), []),
      OneWorker(t, [], Fetch(7, row), []),
      OneWorker(t, [], Save(7, failed, answer), []),
      OneWorker(t[1 := failed], [], Idle, [Entry(failed, answer)])];
    actions := [Produce(7), Receive(0), LookedUp(0, false, Some(row)), Fetched(0, answer, 0), Stored(0, false, 2)];
    forall i | 0 <= i < |actions|
      ensures Step(states[i], actions[i], states[i + 1])
    {
      assert i == 0 || i == 1 || i == 2 || i == 3 || i == 4;
    }
  }

  // ----- The method is a path through the machine -----

  ghost predicate Path(states: seq<System>, actions: seq<Action>) {
    |states| == |actions| + 1 && forall i | 0 <= i < |actions| :: Step(states[i], actions[i], states[i + 1])
  }

  lemma PathExtends(states: seq<System>, actions: seq<Action>, e: Action, s: System)
    requires Path(states, actions) && Step(states[|actions|], e, s)
    ensures Path(states + [s], actions + [e])
  {
  }

  lemma PathPrepends(s: System, e: Action, states: seq<System>, actions: seq<Action>)
    requires Path(states, actions) && Step(s, e, states[0])
    ensures Path([s] + states, [e] + actions) && ([s] + states)[|actions| + 1] == states[|actions|]
  {
  }

  /** A failed lookup ends the handling. */
  lemma FailedLookupPath(s: System, w: nat, slot: uint64) returns (states: seq<System>, actions: seq<Action>)
    requires w < |s.workers| && s.workers[w].phase == Lookup(slot)
    ensures Path(states, actions) && |actions| == 1 && states[0] == s && states[1] == At(s, w, Idle)
  {
    states, actions := [s, At(s, w, Idle)], [LookedUp(w, true, None)];
    assert Step(s, actions[0], states[1]);
  }

  /** The lookup step that leads to a given row. */
  lemma LookupReaches(s: System, w: nat, slot: uint64, row: Row) returns (e: Action, a: System)
    requires w < |s.workers| && s.workers[w].phase == Lookup(slot) && RowFound(s.table, AsInt64(slot), row)
    ensures Step(s, e, a) && a == At(s, w, Fetch(slot, row))
  {
    e := LookedUp(w, false, if Finds(s.table, AsInt64(slot), Some(row)) then Some(row) else None);
    a := At(s, w, Fetch(slot, row));
  }

  /** The step after the lookup when nothing is written. */
  lemma DropPath(a: System, w: nat, slot: uint64, row: Row, answer: Answer, env: Env, t': Table, h: Handled)
    returns (b: System)
    requires w < |a.workers| && a.workers[w].phase == Fetch(slot, row)
    requires Records(a.table, row, answer, env, t', h) && !Decide(row, answer, env.now).Write?
    ensures Step(a, Fetched(w, answer, env.now), b) && b == At(a, w, if EndsWorker(h) then Stopped else Idle)
    ensures b.table == t'
  {
    b := At(a, w, if Decide(row, answer, env.now).Crash? then Stopped else Idle);
  }

  /** The two steps after the lookup when the row is written. */
  lemma WritePath(a: System, w: nat, slot: uint64, row: Row, answer: Answer, env: Env, t': Table, h: Handled)
    returns (b: System, c: System)
    requires w < |a.workers| && a.workers[w].phase == Fetch(slot, row)
    requires Records(a.table, row, answer, env, t', h) && Decide(row, answer, env.now).Write?
    ensures Step(a, Fetched(w, answer, env.now), b) && Step(b, Stored(w, env.saveFails, env.newId), c)
    ensures c.table == t' && w < |c.workers| && c.workers[w].phase == Idle
  {
    var r := Decide(row, answer, env.now).row;
    b := At(a, w, Save(slot, r, answer));
    c := At(b, w, Idle).(table := t',
                         log := if !h.SaveFailed? then b.log + [Entry(WithId(r, env.newId), answer)] else b.log);
    assert Saves(b.table, r, env.saveFails, env.newId, t', !h.SaveFailed?);
    assert StoreStep(b, w, env.saveFails, env.newId, c);
  }

  /** The path after the lookup. */
  lemma FetchedPath(a: System, w: nat, slot: uint64, row: Row, answer: Answer, env: Env, t': Table, h: Handled)
    returns (states: seq<System>, actions: seq<Action>)
    requires w < |a.workers| && a.workers[w].phase == Fetch(slot, row) && Records(a.table, row, answer, env, t', h)
    ensures Path(states, actions) && |actions| <= 3 && states[0] == a && states[|actions|].table == t'
    ensures w < |states[|actions|].workers|
    ensures states[|actions|].workers[w].phase == if EndsWorker(h) then Stopped else Idle
  {
    var fetched := Fetched(w, answer, env.now);
    if Decide(row, answer, env.now).Write? {
      var b, c := WritePath(a, w, slot, row, answer, env, t', h);
      states, actions := [a, b, c], [fetched, Stored(w, env.saveFails, env.newId)];
      if EndsWorker(h) {
        PathExtends(states, actions, Halt(w), At(c, w, Stopped));
        states, actions := states + [At(c, w, Stopped)], actions + [Halt(w)];
      }
    } else {
      var b := DropPath(a, w, slot, row, answer, env, t', h);
      states, actions := [a, b], [fetched];
    }
  }

  /** What HandleTransacton promises of one slot is what a worker does in at most four steps that nobody
      interrupts. */
  lemma HandlingIsAPath(s: System, w: nat, slot: uint64, answer: Answer, env: Env, t': Table, h: Handled)
    returns (states: seq<System>, actions: seq<Action>)
    requires w < |s.workers| && s.workers[w].phase == Lookup(slot) && slot != 0
    requires Handles(s.table, slot, answer, env, t', h)
    ensures Path(states, actions) && |actions| <= 4 && states[0] == s && states[|actions|].table == t'
    ensures w < |states[|actions|].workers|
    ensures states[|actions|].workers[w].phase == if EndsWorker(h) then Stopped else Idle
  {
    if env.lookupFails {
      states, actions := FailedLookupPath(s, w, slot);
      return;
    }
    var row :| RowFound(s.table, AsInt64(slot), row) && Records(s.table, row, answer, env, t', h);
    var e, a := LookupReaches(s, w, slot, row);
    var rest, later := FetchedPath(a, w, slot, row, answer, env, t', h);
    PathPrepends(s, e, rest, later);
    states, actions := [s] + rest, [e] + later;
  }
}
