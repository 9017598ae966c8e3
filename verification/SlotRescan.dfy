/** The loop that scans the table for failed slots and sends them back. */
module SlotRescan {
  import opened GoArith
  import opened BlockStore
  import opened Pipeline

  /** One scan: the table at that time, and the rows that the query returned; none when it failed. */
  datatype Sweep = Sweep(table: Table, batch: seq<Row>)

  /** The bound of the query, 100 slots below the start. */
  function ScanBound(start: int): int {
    start - 100
  }

  ghost predicate AnswersQuery(scan: Sweep, start: int) {
    Scanned(scan.table, ScanBound(start), scan.batch)
  }

  function Slots(): Sweep -> seq<uint64> {
    (scan: Sweep) => seq(|scan.batch|, i requires 0 <= i < |scan.batch| => AsUint64(scan.batch[i].slot))
  }

  /** The first scan without rows ends the service. */
  function FirstEmpty(scans: seq<Sweep>): (n: nat)
    ensures n <= |scans| && (forall i | 0 <= i < n :: scans[i].batch != []) && (n < |scans| ==> scans[n].batch == [])
  {
    if scans == [] || scans[0].batch == [] then 0 else 1 + FirstEmpty(scans[1..])
  }

  /** The slots sent are those of all batches before the first empty one, in order and complete. */
  method HandleSlotNotCompleted(configured: int, firstFailed: Option<Row>, scans: seq<Sweep>)
    returns (sent: seq<uint64>, done: nat)
    ensures configured == 0 && firstFailed.None? ==> sent == [] && done == 0
    ensures configured != 0 || firstFailed.Some? ==>
      done == FirstEmpty(scans) && sent == FlatMap(Slots(), scans[..done])
  {
    sent, done := [], 0;
    var startBlock := configured;
    if startBlock == 0 {
      if firstFailed.None? {
        return;
      }
      startBlock := firstFailed.value.slot;
    }
    ghost var all := FirstEmpty(scans);
    while done < |scans| && scans[done].batch != []
      invariant done <= all
      invariant sent == FlatMap(Slots(), scans[..done])
      decreases |scans| - done
    {
      var blocks := scans[done].batch;
      for i := 0 to |blocks|
        invariant sent == FlatMap(Slots(), scans[..done]) + Slots()(scans[done])[..i]
      {
        sent := sent + [AsUint64(blocks[i].slot)];
      }
      FlatMapNext(Slots(), scans, 0, done);
      assert scans[0..done] == scans[..done] && scans[0..done + 1] == scans[..done + 1];
      done := done + 1;
    }
  }

  /** Every slot sent is that of a row which was failed and above the bound when its scan was made. */
  lemma {:induction false} SentWereFailed(scans: seq<Sweep>, start: int, n: nat, slot: uint64)
    requires n <= |scans| && forall i | 0 <= i < n :: AnswersQuery(scans[i], start)
    requires slot in FlatMap(Slots(), scans[..n])
    ensures exists i, row ::
      && 0 <= i < n && row in scans[i].batch && slot == AsUint64(row.slot)
      && row.id in scans[i].table && scans[i].table[row.id] == row
      && row.status == 2 && row.slot > start - 100
  {
    assert scans[..n][..n - 1] == scans[..n - 1];
    if slot in FlatMap(Slots(), scans[..n - 1]) {
      SentWereFailed(scans, start, n - 1, slot);
    } else {
      var k :| 0 <= k < |Slots()(scans[n - 1])| && Slots()(scans[n - 1])[k] == slot;
      assert scans[n - 1].batch[k] in scans[n - 1].batch;
    }
  }

  // ----- The loop as the scanner of the pipeline -----

  /** The scans that a run has made up to moment i. */
  ghost function ScansOf(states: seq<System>, actions: seq<Action>, i: nat): seq<Sweep>
    requires |states| == |actions| + 1 && i <= |actions|
  {
    if i == 0 then []
    else
      ScansOf(states, actions, i - 1) +
      if actions[i - 1].Scan? then [Sweep(states[i - 1].table, actions[i - 1].batch)] else []
  }

  function Pending(s: System): seq<int> {
    if s.scanner.Sending? then s.scanner.pending else []
  }

  function Wrapped(slots: seq<int>): seq<uint64> {
    seq(|slots|, i requires 0 <= i < |slots| => AsUint64(slots[i]))
  }

  /** The slots that a run has put on the channel of failed slots up to moment i. */
  ghost function ResentOf(states: seq<System>, actions: seq<Action>, i: nat): seq<uint64>
    requires |states| == |actions| + 1 && i <= |actions|
  {
    if i == 0 then []
    else
      ResentOf(states, actions, i - 1) +
      if actions[i - 1].Resend? && Pending(states[i - 1]) != [] then [AsUint64(Pending(states[i - 1])[0])] else []
  }

  lemma StepOfRun(states: seq<System>, actions: seq<Action>, i: nat)
    requires Run(states, actions) && i < |actions|
    ensures Step(states[i], actions[i], states[i + 1])
  {
  }

  /** A scan makes its slots pending. */
  lemma ScanMakesPending(s: System, batch: seq<Row>, s': System)
    requires ScanStep(s, batch, s')
    ensures Pending(s) == [] && Slots()(Sweep(s.table, batch)) == Wrapped(Pending(s'))
  {
    assert batch == [] ==> Slots()(Sweep(s.table, batch)) == [];
  }

  /** A resend takes the first pending slot. */
  lemma ResendTakesPending(s: System, s': System)
    requires ResendStep(s, s')
    ensures Pending(s) != [] && Pending(s') == Pending(s)[1..]
    ensures Wrapped(Pending(s)) == [AsUint64(Pending(s)[0])] + Wrapped(Pending(s'))
  {
  }

  lemma OthersLeaveScanner(s: System, e: Action, s': System)
    requires Step(s, e, s') && !e.Scan? && !e.Resend?
    ensures s'.scanner == s.scanner
  {
  }

  /** The slots sent so far and those still pending are the slots of all scans so far. */
  ghost predicate SentMatches(states: seq<System>, actions: seq<Action>, i: nat)
    requires |states| == |actions| + 1 && i <= |actions|
  {
    FlatMap(Slots(), ScansOf(states, actions, i)) == ResentOf(states, actions, i) + Wrapped(Pending(states[i]))
  }

  lemma ScanMatches(states: seq<System>, actions: seq<Action>, i: nat)
    requires |states| == |actions| + 1 && i < |actions| && SentMatches(states, actions, i)
    requires actions[i].Scan? && ScanStep(states[i], actions[i].batch, states[i + 1])
    ensures SentMatches(states, actions, i + 1)
  {
    var scans, scan := ScansOf(states, actions, i), Sweep(states[i].table, actions[i].batch);
    ScanMakesPending(states[i], actions[i].batch, states[i + 1]);
    assert (scans + [scan])[..|scans|] == scans;
    assert ScansOf(states, actions, i + 1) == scans + [scan];
  }

  lemma ResendMatches(states: seq<System>, actions: seq<Action>, i: nat)
    requires |states| == |actions| + 1 && i < |actions| && SentMatches(states, actions, i)
    requires actions[i].Resend? && ResendStep(states[i], states[i + 1])
    ensures SentMatches(states, actions, i + 1)
  {
    ResendTakesPending(states[i], states[i + 1]);
    assert ResentOf(states, actions, i + 1) == ResentOf(states, actions, i) + [AsUint64(Pending(states[i])[0])];
    assert ScansOf(states, actions, i + 1) == ScansOf(states, actions, i);
  }

  lemma NextSentMatches(states: seq<System>, actions: seq<Action>, i: nat)
    requires Run(states, actions) && i < |actions| && SentMatches(states, actions, i)
    ensures SentMatches(states, actions, i + 1)
  {
    StepOfRun(states, actions, i);
    if actions[i].Scan? {
      ScanMatches(states, actions, i);
    } else if actions[i].Resend? {
      ResendMatches(states, actions, i);
    } else {
      OthersLeaveScanner(states[i], actions[i], states[i + 1]);
      assert ScansOf(states, actions, i + 1) == ScansOf(states, actions, i);
    }
  }

  /** In every run, the slots sent so far and those still pending are the slots of all scans so far. */
  lemma {:induction false} SentAndPending(states: seq<System>, actions: seq<Action>, i: nat)
    requires Run(states, actions) && i <= |actions|
    ensures SentMatches(states, actions, i)
  {
    if i > 0 {
      SentAndPending(states, actions, i - 1);
      NextSentMatches(states, actions, i - 1);
    }
  }

  lemma ScanAnswers(s: System, batch: seq<Row>, s': System)
    requires ScanStep(s, batch, s')
    ensures AnswersQuery(Sweep(s.table, batch), s.bound + 100)
    ensures !s.scanner.Ended? && (s'.scanner.Ended? <==> batch == [])
  {
  }

  lemma StepKeepsBound(s: System, e: Action, s': System)
    requires Step(s, e, s')
    ensures s'.bound == s.bound && (!e.Scan? ==> (s'.scanner.Ended? <==> s.scanner.Ended?))
  {
  }

  /** All scans so far answer the query, none but the last is empty, and an empty one has ended the scanner. */
  ghost predicate ScansFit(states: seq<System>, actions: seq<Action>, i: nat)
    requires |states| == |actions| + 1 && i <= |actions|
  {
    var scans := ScansOf(states, actions, i);
    && states[i].bound == states[0].bound
    && (forall k | 0 <= k < |scans| :: AnswersQuery(scans[k], states[0].bound + 100))
    && (forall k | 0 <= k < |scans| - 1 :: scans[k].batch != [])
    && (states[i].scanner.Ended? <==> scans != [] && scans[|scans| - 1].batch == [])
  }

  lemma NextScansFit(states: seq<System>, actions: seq<Action>, i: nat)
    requires Run(states, actions) && i < |actions| && ScansFit(states, actions, i)
    ensures ScansFit(states, actions, i + 1)
  {
    StepOfRun(states, actions, i);
    StepKeepsBound(states[i], actions[i], states[i + 1]);
    if actions[i].Scan? {
      ScanAnswers(states[i], actions[i].batch, states[i + 1]);
    }
  }

  lemma {:induction false} ScansOfRun(states: seq<System>, actions: seq<Action>, i: nat)
    requires Run(states, actions) && i <= |actions|
    ensures ScansFit(states, actions, i)
  {
    if i > 0 {
      ScansOfRun(states, actions, i - 1);
      NextScansFit(states, actions, i - 1);
    }
  }

  /** Cutting off an empty scan at the end cuts off no slots. */
  lemma CutKeepsSlots(scans: seq<Sweep>)
    requires forall k | 0 <= k < |scans| - 1 :: scans[k].batch != []
    ensures FlatMap(Slots(), scans[..FirstEmpty(scans)]) == FlatMap(Slots(), scans)
    ensures FirstEmpty(scans) < |scans| <==> scans != [] && scans[|scans| - 1].batch == []
  {
    var n := FirstEmpty(scans);
    if n < |scans| {
      assert n == |scans| - 1 && Slots()(scans[n]) == [];
    } else {
      assert scans[..n] == scans;
    }
  }

  /** The scanner of the pipeline is this loop: once nothing is pending, it has sent what HandleSlotNotCompleted sends
      for the scans of the run. */
  lemma ScannerIsLoop(states: seq<System>, actions: seq<Action>, i: nat)
    requires Run(states, actions) && i <= |actions| && Pending(states[i]) == []
    ensures
      var scans := ScansOf(states, actions, i);
      && ResentOf(states, actions, i) == FlatMap(Slots(), scans[..FirstEmpty(scans)])
      && (states[i].scanner.Ended? <==> FirstEmpty(scans) < |scans|)
  {
    SentAndPending(states, actions, i);
    ScansOfRun(states, actions, i);
    CutKeepsSlots(ScansOf(states, actions, i));
    assert Wrapped([]) == [];
  }
}
