/** The two channels: nothing is lost, repeated or reordered on the way to the workers, and what they drop. */
module PipelineChannels {
  import opened GoArith
  import opened BlockStore
  import opened Pipeline
  import opened PipelineProperties
  import opened SlotRescan

  /** The slots sent on the live channel by the first i actions. */
  function Produced(actions: seq<Action>, i: nat): seq<uint64>
    requires i <= |actions|
  {
    if i == 0 then []
    else Produced(actions, i - 1) + if actions[i - 1].Produce? then [actions[i - 1].slot] else []
  }

  /** A worker of this side takes the next slot of its channel. */
  predicate Takes(s: System, a: Action, side: Side) {
    && a.Receive? && a.w < |s.workers| && s.workers[a.w].side == side
    && Channel(s, side) != []
  }

  function Channel(s: System, side: Side): seq<uint64> {
    if side == Live then s.live else s.retry
  }

  function TakenBy(s: System, a: Action, side: Side): seq<uint64> {
    if Takes(s, a, side) then [Channel(s, side)[0]] else []
  }

  /** The slots that the workers of a side have taken in the first i actions. */
  function Taken(states: seq<System>, actions: seq<Action>, side: Side, i: nat): seq<uint64>
    requires |states| == |actions| + 1 && i <= |actions|
  {
    if i == 0 then []
    else Taken(states, actions, side, i - 1) + TakenBy(states[i - 1], actions[i - 1], side)
  }

  lemma StepMovesLive(s: System, a: Action, s': System)
    requires Step(s, a, s')
    ensures TakenBy(s, a, Live) + s'.live == s.live + if a.Produce? then [a.slot] else []
  {
    if a.Receive? && Takes(s, a, Live) {
      assert s.live == [s.live[0]] + s.live[1..];
    }
  }

  /** Every slot produced has been taken by a worker or is still on the channel, in order and exactly once. */
  ghost predicate LiveArrives(states: seq<System>, actions: seq<Action>, i: nat)
    requires |states| == |actions| + 1 && i <= |actions|
  {
    Produced(actions, i) == Taken(states, actions, Live, i) + states[i].live
  }

  lemma NextLiveArrives(states: seq<System>, actions: seq<Action>, i: nat)
    requires Run(states, actions) && i < |actions| && LiveArrives(states, actions, i)
    ensures LiveArrives(states, actions, i + 1)
  {
    StepOfRun(states, actions, i);
    StepMovesLive(states[i], actions[i], states[i + 1]);
  }

  lemma LiveStarts(states: seq<System>, actions: seq<Action>)
    requires |states| == |actions| + 1 && Starts(states[0])
    ensures LiveArrives(states, actions, 0)
  {
  }

  lemma {:induction false} LiveSlotsArrive(states: seq<System>, actions: seq<Action>, i: nat)
    requires Run(states, actions) && i <= |actions|
    ensures LiveArrives(states, actions, i)
  {
    if i == 0 {
      LiveStarts(states, actions);
    } else {
      LiveSlotsArrive(states, actions, i - 1);
      NextLiveArrives(states, actions, i - 1);
    }
  }

  lemma StepMovesRetry(s: System, a: Action, s': System)
    requires Step(s, a, s')
    ensures TakenBy(s, a, Retry) + s'.retry ==
            s.retry + if a.Resend? && Pending(s) != [] then [AsUint64(Pending(s)[0])] else []
  {
    if a.Receive? && Takes(s, a, Retry) {
      assert s.retry == [s.retry[0]] + s.retry[1..];
    }
  }

  /** Every slot resent has been taken by a worker or is still on the channel, in order and exactly once. */
  ghost predicate RetryArrives(states: seq<System>, actions: seq<Action>, i: nat)
    requires |states| == |actions| + 1 && i <= |actions|
  {
    ResentOf(states, actions, i) == Taken(states, actions, Retry, i) + states[i].retry
  }

  lemma NextRetryArrives(states: seq<System>, actions: seq<Action>, i: nat)
    requires Run(states, actions) && i < |actions| && RetryArrives(states, actions, i)
    ensures RetryArrives(states, actions, i + 1)
  {
    StepOfRun(states, actions, i);
    StepMovesRetry(states[i], actions[i], states[i + 1]);
  }

  lemma RetryStarts(states: seq<System>, actions: seq<Action>)
    requires |states| == |actions| + 1 && Starts(states[0])
    ensures RetryArrives(states, actions, 0)
  {
  }

  lemma {:induction false} RetrySlotsArrive(states: seq<System>, actions: seq<Action>, i: nat)
    requires Run(states, actions) && i <= |actions|
    ensures RetryArrives(states, actions, i)
  {
    if i == 0 {
      RetryStarts(states, actions);
    } else {
      RetrySlotsArrive(states, actions, i - 1);
      NextRetryArrives(states, actions, i - 1);
    }
  }

  /** A worker that takes a slot looks it up next, unless it is 0, which it drops. */
  lemma TakenIsLookedUp(s: System, w: nat, s': System)
    requires Step(s, Receive(w), s')
    ensures
      var side := s.workers[w].side;
      && Takes(s, Receive(w), side) && w < |s'.workers|
      && s'.workers[w].phase == if Channel(s, side)[0] == 0 then Idle else Lookup(Channel(s, side)[0])
  {
  }

  /** The live channel holds at most 100 slots, the other one a single slot, and no worker ever handles slot 0. */
  ghost predicate Bounded(s: System) {
    && |s.live| <= 100 && |s.retry| <= 1
    && forall w | 0 <= w < |s.workers| :: s.workers[w].phase != Lookup(0) && !HandlesZero(s.workers[w].phase)
  }

  predicate HandlesZero(p: Phase) {
    (p.Fetch? || p.Save?) && p.slot == 0
  }

  lemma StepKeepsBounded(s: System, a: Action, s': System)
    requires Bounded(s) && Step(s, a, s')
    ensures Bounded(s')
  {
  }

  lemma {:induction false} RunIsBounded(states: seq<System>, actions: seq<Action>, i: nat)
    requires Run(states, actions) && i <= |actions|
    ensures Bounded(states[i])
  {
    if i > 0 {
      RunIsBounded(states, actions, i - 1);
      StepOfRun(states, actions, i - 1);
      StepKeepsBounded(states[i - 1], actions[i - 1], states[i]);
    }
  }

  /** A scan takes at most 50 rows, the failed ones above the bound with the highest slots. */
  lemma ScanTakesHighest(s: System, batch: seq<Row>, s': System, id: int)
    requires Step(s, Scan(batch), s') && batch != [] && id in s.table && s.table[id].slot > s.bound
    ensures |batch| <= 50
    ensures s.table[id] in batch ==> s.table[id].status == 2
    ensures s.table[id].status == 2 && s.table[id] !in batch ==>
      |batch| == 50 && forall i | 0 <= i < 50 :: s.table[id].slot < batch[i].slot
  {
  }

  /** A slot that was skipped, or processed, at the latest scan is not resent. */
  lemma OnlyFailedAreResent(states: seq<System>, actions: seq<Action>, i: nat, j: nat, id: int)
    requires Run(states, actions) && i < |actions| && actions[i] == Resend && LatestScan(actions, j, i)
    requires id in states[j].table && states[j].table[id].status != 2
    ensures states[i + 1].retry != []
    ensures states[i + 1].retry[|states[i + 1].retry| - 1] != AsUint64(states[j].table[id].slot)
  {
    ResentWasFailed(states, actions, i);
    var j': nat, row :| LatestScan(actions, j', i) && row in actions[j'].batch
      && row.id in states[j'].table && states[j'].table[row.id] == row && row.status == FAILED
      && states[i + 1].retry == states[i].retry + [AsUint64(row.slot)];
    assert j' == j;
    RunKeepsInv(states, actions, j);
    AsInt64RoundTrip(row.slot);
    AsInt64RoundTrip(states[j].table[id].slot);
  }
}
