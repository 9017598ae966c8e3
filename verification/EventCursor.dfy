/** The cursor over pump events: which event each pump instruction of a block reads. */
module EventCursor {
  import opened GoArith
  import opened Chain

  /** The list of decoded events and the position of the next one. */
  datatype Cursor = Cursor(events: seq<PumpEvent>, index: nat)

  /** How far an instruction gets: not to the cursor, past the end of the account keys, or to the cursor, with the
      decimals of the user's token account. */
  datatype Reading = Rejected | Overruns | Reads(decimals: byte)

  /** What comes of it. */
  datatype Outcome = NoEvent | Taken(event: PumpEvent, decimals: byte) | Panic

  // ----- One transaction -----

  /** Taking the next event: an empty list is filled from the transaction's own log first. */
  function Take(c: Cursor, own: seq<PumpEvent>): (Cursor, Option<PumpEvent>) {
    var events := if c.events == [] then own else c.events;
    if c.index >= |events| then (c.(events := events), None)
    else (Cursor(events, c.index + 1), Some(events[c.index]))
  }

  function Call(c: Cursor, r: Reading, own: seq<PumpEvent>): (Cursor, Outcome) {
    match r
    case Rejected => (c, NoEvent)
    case Overruns => (c, Panic)
    case Reads(decimals) =>
      var (next, event) := Take(c, own);
      (next, if event.None? then NoEvent else Taken(event.value, decimals))
  }

  /** The cursor after some instructions, the events they consumed, and whether one of them panicked. */
  datatype Played = Played(cursor: Cursor, events: seq<PumpEvent>, panicked: bool)

  function Next(p: Played, r: Reading, own: seq<PumpEvent>): Played {
    var (next, outcome) := Call(p.cursor, r, own);
    Played(next, if outcome.Taken? then p.events + [outcome.event] else p.events, outcome == Panic)
  }

  /** The first n instructions of a transaction, in order, until one panics. */
  function Play(c: Cursor, own: seq<PumpEvent>, rs: seq<Reading>, n: nat): Played
    requires n <= |rs|
  {
    if n == 0 then Played(c, [], false)
    else
      var p := Play(c, own, rs, n - 1);
      if p.panicked then p else Next(p, rs[n - 1], own)
  }

  ghost predicate OverrunsBefore(rs: seq<Reading>, n: nat)
    requires n <= |rs|
  {
    exists i :: 0 <= i < n && rs[i] == Overruns
  }

  /** How many of the first n instructions reach the cursor; none does after a panic. */
  ghost function CountReads(rs: seq<Reading>, n: nat): nat
    requires n <= |rs|
  {
    if n == 0 then 0
    else CountReads(rs, n - 1) + if rs[n - 1].Reads? && !OverrunsBefore(rs, n - 1) then 1 else 0
  }

  /** The events that n calls reaching the cursor consume. */
  function Consumed(c: Cursor, own: seq<PumpEvent>, n: nat): (Cursor, seq<PumpEvent>) {
    if n == 0 then (c, [])
    else
      var (d, before) := Consumed(c, own, n - 1);
      var (next, event) := Take(d, own);
      (next, if event.None? then before else before + [event.value])
  }

  function FirstOf(events: seq<PumpEvent>, n: nat): seq<PumpEvent> {
    events[..if n < |events| then n else |events|]
  }

  /** From index 0 the calls consume events in log order, none skipped, repeated or out of range: those carried over
      when there are any, the transaction's own otherwise. */
  lemma {:induction false} ConsumesInOrder(carried: seq<PumpEvent>, own: seq<PumpEvent>, n: nat)
    ensures
      var (c, events) := Consumed(Cursor(carried, 0), own, n);
      var source := if carried == [] then own else carried;
      && events == FirstOf(source, n)
      && c.index == |events| <= |source|
      && c.events == (if n == 0 then carried else source)
  {
    if n > 0 {
      ConsumesInOrder(carried, own, n - 1);
    }
  }

  /** A transaction is sure to be priced with its own events exactly when no events are carried over from an earlier
      transaction of the block: the guard that decides whether the log is decoded. */
  lemma OwnEventsIff(carried: seq<PumpEvent>)
    ensures (forall own, n: nat :: Consumed(Cursor(carried, 0), own, n).1 == FirstOf(own, n)) <==> carried == []
  {
    forall own, n: nat | carried == []
      ensures Consumed(Cursor(carried, 0), own, n).1 == FirstOf(own, n)
    {
      ConsumesInOrder(carried, own, n);
    }
    if carried != [] {
      ConsumesInOrder(carried, [], 1);
      assert Consumed(Cursor(carried, 0), [], 1).1 != FirstOf([], 1);
    }
  }

  /** A transaction panics exactly if one of its instructions overruns the keys, whatever the cursor. */
  lemma {:induction false} PlayPanics(c: Cursor, own: seq<PumpEvent>, rs: seq<Reading>, n: nat)
    requires n <= |rs|
    ensures Play(c, own, rs, n).panicked <==> OverrunsBefore(rs, n)
  {
    if n > 0 {
      PlayPanics(c, own, rs, n - 1);
      assert OverrunsBefore(rs, n) <==> OverrunsBefore(rs, n - 1) || rs[n - 1] == Overruns;
    }
  }

  /** The cursor and the events are those of k calls. */
  ghost predicate HasConsumed(p: Played, c: Cursor, own: seq<PumpEvent>, k: nat) {
    (p.cursor, p.events) == Consumed(c, own, k)
  }

  lemma NextConsumes(p: Played, r: Reading, c: Cursor, own: seq<PumpEvent>, k: nat)
    requires HasConsumed(p, c, own, k)
    ensures HasConsumed(Next(p, r, own), c, own, if r.Reads? then k + 1 else k)
  {
    if r.Reads? {
      assert Consumed(c, own, k).0 == p.cursor && Consumed(c, own, k).1 == p.events;
    }
  }

  lemma CountsNext(rs: seq<Reading>, n: nat)
    requires n < |rs|
    ensures OverrunsBefore(rs, n) ==> CountReads(rs, n + 1) == CountReads(rs, n)
    ensures !OverrunsBefore(rs, n) ==>
      CountReads(rs, n + 1) == if rs[n].Reads? then CountReads(rs, n) + 1 else CountReads(rs, n)
  {
  }

  /** The first n instructions have consumed as many events as were counted. */
  ghost predicate ConsumesCounted(c: Cursor, own: seq<PumpEvent>, rs: seq<Reading>, n: nat)
    requires n <= |rs|
  {
    HasConsumed(Play(c, own, rs, n), c, own, CountReads(rs, n))
  }

  lemma PlayStarts(c: Cursor, own: seq<PumpEvent>, rs: seq<Reading>)
    ensures ConsumesCounted(c, own, rs, 0)
  {
  }

  lemma PlayNext(c: Cursor, own: seq<PumpEvent>, rs: seq<Reading>, n: nat)
    requires n < |rs| && ConsumesCounted(c, own, rs, n)
    ensures ConsumesCounted(c, own, rs, n + 1)
  {
    var p, k := Play(c, own, rs, n), CountReads(rs, n);
    PlayPanics(c, own, rs, n);
    CountsNext(rs, n);
    if !p.panicked {
      NextConsumes(p, rs[n], c, own, k);
      assert Play(c, own, rs, n + 1) == Next(p, rs[n], own);
    } else {
      assert Play(c, own, rs, n + 1) == p;
    }
  }

  /** The instructions of a transaction, up to the first that panics, consume one event for each that reaches the
      cursor. */
  lemma {:induction false} PlayConsumes(c: Cursor, own: seq<PumpEvent>, rs: seq<Reading>, n: nat)
    requires n <= |rs|
    ensures ConsumesCounted(c, own, rs, n)
  {
    if n == 0 {
      PlayStarts(c, own, rs);
    } else {
      PlayConsumes(c, own, rs, n - 1);
      PlayNext(c, own, rs, n - 1);
    }
  }

  /** Which event an instruction reads: the one whose number is the count of instructions before it that reached the
      cursor, if there are so many. */
  lemma ReadsEvent(held: seq<PumpEvent>, own: seq<PumpEvent>, rs: seq<Reading>, i: nat)
    requires i < |rs| && rs[i].Reads? && !OverrunsBefore(rs, i)
    ensures
      var source := if held == [] then own else held;
      var k := CountReads(rs, i);
      Call(Play(Cursor(held, 0), own, rs, i).cursor, rs[i], own).1 ==
        if k < |source| then Taken(source[k], rs[i].decimals) else NoEvent
  {
    var p, k := Play(Cursor(held, 0), own, rs, i), CountReads(rs, i);
    PlayConsumes(Cursor(held, 0), own, rs, i);
    ConsumesInOrder(held, own, k);
    assert p.cursor == Consumed(Cursor(held, 0), own, k).0;
  }

  /** What a transaction contributes to the cursor: the events in its log, and how many of its calls reach the
      cursor. */
  datatype Summary = Summary(own: seq<PumpEvent>, reached: nat)

  /** The events that price a transaction which starts with some events held. */
  function Source(held: seq<PumpEvent>, s: Summary): seq<PumpEvent> {
    if held == [] then s.own else held
  }

  /** The events held after a transaction. */
  function HeldNext(held: seq<PumpEvent>, s: Summary): seq<PumpEvent> {
    if s.reached == 0 then held else Source(held, s)
  }

  /** What one transaction consumes and leaves behind, whether or not it panics on the way. */
  lemma TransactionConsumes(held: seq<PumpEvent>, own: seq<PumpEvent>, rs: seq<Reading>)
    ensures
      var p := Play(Cursor(held, 0), own, rs, |rs|);
      var s := Summary(own, CountReads(rs, |rs|));
      && p.cursor.events == HeldNext(held, s)
      && p.events == FirstOf(Source(held, s), s.reached)
      && (p.panicked <==> Overruns in rs)
  {
    PlayConsumes(Cursor(held, 0), own, rs, |rs|);
    PlayPanics(Cursor(held, 0), own, rs, |rs|);
    ConsumesInOrder(held, own, CountReads(rs, |rs|));
  }

  // ----- One block -----

  /** The events held after the first n transactions of a block. */
  function HeldAfter(ss: seq<Summary>, n: nat): seq<PumpEvent>
    requires n <= |ss|
  {
    if n == 0 then [] else HeldNext(HeldAfter(ss, n - 1), ss[n - 1])
  }

  /** The events that transaction n is priced with. */
  function ConsumedBy(ss: seq<Summary>, n: nat): seq<PumpEvent>
    requires n < |ss|
  {
    FirstOf(Source(HeldAfter(ss, n), ss[n]), ss[n].reached)
  }

  /** The transaction reads its log and finds events there. */
  predicate FillsCursor(s: Summary) {
    s.reached > 0 && s.own != []
  }

  ghost predicate FirstFiller(ss: seq<Summary>, f: nat) {
    f < |ss| && FillsCursor(ss[f]) && forall i | 0 <= i < f :: !FillsCursor(ss[i])
  }

  lemma {:induction false} NothingHeldBeforeFiller(ss: seq<Summary>, n: nat)
    requires n <= |ss| && forall i | 0 <= i < n :: !FillsCursor(ss[i])
    ensures HeldAfter(ss, n) == []
  {
    if n > 0 {
      NothingHeldBeforeFiller(ss, n - 1);
    }
  }

  lemma {:induction false} FirstEventsStay(ss: seq<Summary>, f: nat, n: nat)
    requires FirstFiller(ss, f) && f < n <= |ss|
    ensures HeldAfter(ss, n) == ss[f].own
  {
    if n == f + 1 {
      NothingHeldBeforeFiller(ss, f);
    } else {
      FirstEventsStay(ss, f, n - 1);
    }
  }

  /** Only the index is reset between transactions: the first transaction of a block that fills the cursor is priced
      with its own events, and every later one with the events of that first one. */
  lemma BlockReadsFirstEvents(ss: seq<Summary>, f: nat, n: nat)
    requires FirstFiller(ss, f) && n < |ss|
    ensures n <= f ==> ConsumedBy(ss, n) == FirstOf(ss[n].own, ss[n].reached)
    ensures f < n ==> ConsumedBy(ss, n) == FirstOf(ss[f].own, ss[n].reached)
  {
    if n <= f {
      NothingHeldBeforeFiller(ss, n);
    } else {
      FirstEventsStay(ss, f, n);
    }
  }

  /** The events consumed so far are those of the block read so far. */
  ghost predicate BlockRead(ss: seq<Summary>, consumed: seq<seq<PumpEvent>>, held: seq<PumpEvent>) {
    && |consumed| == |ss|
    && held == HeldAfter(ss, |ss|)
    && forall i | 0 <= i < |ss| :: consumed[i] == ConsumedBy(ss, i)
  }

  lemma {:induction false} HeldAgrees(ss: seq<Summary>, tt: seq<Summary>, n: nat)
    requires n <= |ss| <= |tt| && tt[..|ss|] == ss
    ensures HeldAfter(ss, n) == HeldAfter(tt, n)
  {
    if n > 0 {
      HeldAgrees(ss, tt, n - 1);
      assert tt[..|ss|][n - 1] == tt[n - 1];
    }
  }

  lemma BlockReadExtends(ss: seq<Summary>, s: Summary, consumed: seq<seq<PumpEvent>>, held: seq<PumpEvent>)
    requires BlockRead(ss, consumed, held)
    ensures BlockRead(ss + [s], consumed + [FirstOf(Source(held, s), s.reached)], HeldNext(held, s))
  {
    var tt := ss + [s];
    forall i | 0 <= i <= |ss|
      ensures HeldAfter(ss, i) == HeldAfter(tt, i)
    {
      HeldAgrees(ss, tt, i);
    }
  }
}
