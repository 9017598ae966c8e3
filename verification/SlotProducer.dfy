/** The producer: a subscription that is reconnected on errors, and the slots it passes on. */
module SlotProducer {
  import opened GoArith

  // ----- What the network answers -----

  /** An error of ReadMessage, as the code tells them apart. */
  datatype ReadError = NetError(transient: bool, text: string) | Eof | OtherError(text: string)

  /** One message: the error text it decodes to, if any, and the method and slot it decodes to, if any. */
  datatype Message = Message(errorText: Option<string>, notification: Option<Notification>)

  datatype Notification = Notification(methodName: string, slot: uint64)

  datatype Read = Failed(error: ReadError) | Received(message: Message)

  /** The answer to a subscription: a read error, or a message with its error text and subscription id, as far as
      they decode. */
  datatype Ack = NoAck | AckMessage(errorText: Option<string>, result: Option<int>)

  datatype Dial = DialFailed | Dialed(written: bool, ack: Ack)

  /** Errors after which the connection is replaced; any other one is passed on as slot 0. */
  predicate Reconnects(e: ReadError) {
    match e
    case NetError(transient, text) => transient || NamesLostConnection(text)
    case Eof => true
    case OtherError(text) => NamesLostConnection(text)
  }

  const LOST_PATTERNS := ["timeout", "close", "broken pipe"]

  predicate NamesLostConnection(text: string) {
    ContainsAny(ToLower(text), LOST_PATTERNS)
  }

  predicate IsErrorResponse(errorText: Option<string>) {
    errorText.Some? && errorText.value != ""
  }

  /** A dial counts when the subscription was written, acknowledged without an error, and given an id. */
  predicate Accepted(d: Dial) {
    && d.Dialed? && d.written && d.ack.AckMessage?
    && !IsErrorResponse(d.ack.errorText)
    && d.ack.result.Some? && d.ack.result.value != 0
  }

  /** A lost connection is a transient network error, the end of the stream, or an error whose text says so. */
  lemma ReconnectsIff(e: ReadError)
    ensures Reconnects(e) <==>
      || e.Eof?
      || (e.NetError? && e.transient)
      || (!e.Eof? && exists p :: p in ["timeout", "close", "broken pipe"] && Contains(ToLower(e.text), p))
  {
    if !e.Eof? {
      ContainsAnyIff(ToLower(e.text), LOST_PATTERNS);
    }
  }

  /** A subscription id is accepted from the first acknowledgement of a written subscription, if it reports no error. */
  lemma AcceptedIff(d: Dial, id: int)
    requires id != 0
    ensures Accepted(d) && d.ack.result == Some(id) <==>
      d == Dialed(true, AckMessage(None, Some(id))) || d == Dialed(true, AckMessage(Some(""), Some(id)))
    ensures Accepted(d) ==> d.ack.result.Some? && d.ack.result.value != 0
  {
  }

  /** What one read passes on: nothing, a slot, or 0 for an error that is not understood. */
  function PassedOn(r: Read): seq<uint64> {
    match r
    case Failed(e) => if Reconnects(e) then [] else [0]
    case Received(m) =>
      if IsErrorResponse(m.errorText) then []
      else if m.notification.Some? && m.notification.value.methodName == "slotNotification"
      then [m.notification.value.slot]
      else []
  }

  /** A slot is passed on exactly for a slot notification in a message without an error text, and for an error that is
      not a lost connection, which counts as slot 0. */
  lemma PassedOnIff(r: Read, slot: uint64)
    ensures PassedOn(r) == [slot] <==>
      match r
      case Failed(e) => slot == 0 && !Reconnects(e)
      case Received(m) =>
        && (m.errorText == None || m.errorText == Some(""))
        && m.notification == Some(Notification("slotNotification", slot))
    ensures |PassedOn(r)| <= 1
  {
  }

  function AllPassedOn(incoming: seq<Read>): seq<uint64> {
    FlatMap(Passing(), incoming)
  }

  function Passing(): Read -> seq<uint64> {
    (r: Read) => PassedOn(r)
  }

  // ----- The service -----

  /** SlotService with the network as two scripts: the outcomes of dialing and the outcomes of reading. Sockets are
      numbered by their dial. */
  class SlotService {
    var conn: Option<nat>
    var subscriptionID: int
    var sockets: set<nat>  // those that are open
    const dials: seq<Dial>
    var nextDial: nat
    const incoming: seq<Read>
    var nextRead: nat

    constructor (dials: seq<Dial>, incoming: seq<Read>)
      ensures Valid() && this.dials == dials && this.incoming == incoming && nextDial == nextRead == 0
    {
      conn, subscriptionID, sockets := None, 0, {};
      this.dials, nextDial, this.incoming, nextRead := dials, 0, incoming, 0;
    }

    /** A connection is held exactly while there is a subscription id, it stems from an accepted dial with that id,
        and no other socket is open. */
    ghost predicate Valid()
      reads `conn, `subscriptionID, `sockets, `nextDial
    {
      && nextDial <= |dials|
      && (conn.Some? <==> subscriptionID != 0)
      && (conn.Some? ==>
        && conn.value < nextDial && Accepted(dials[conn.value])
        && subscriptionID == dials[conn.value].ack.result.value)
      && sockets == (if conn.Some? then {conn.value} else {})
    }

    /** Dials until a subscription is acknowledged; false when the script of dials ends before that. */
    method ConnectWs() returns (connected: bool)
      requires Valid()
      modifies `conn, `subscriptionID, `sockets, `nextDial
      ensures Valid() && connected == conn.Some?
      ensures old(conn).Some? ==> conn == old(conn) && nextDial == old(nextDial)
      ensures old(conn).None? && connected ==> conn == Some(nextDial - 1) && nextDial > old(nextDial)
      ensures old(conn).None? ==>
        forall d | old(nextDial) <= d < nextDial && conn != Some(d) :: !Accepted(dials[d])
      ensures !connected ==> nextDial == |dials|
    {
      if conn.Some? {
        return true;
      }
      while nextDial < |dials|
        invariant Valid() && conn.None? && old(nextDial) <= nextDial
        invariant forall d | old(nextDial) <= d < nextDial :: !Accepted(dials[d])
        decreases |dials| - nextDial
      {
        var socket, dial := nextDial, dials[nextDial];
        nextDial := nextDial + 1;
        if dial.Dialed? {
          sockets := sockets + {socket};
          var i := 0;
          while i < 10
            invariant 0 <= i <= 10 && (i > 0 ==> !dial.written)
          {
            if dial.written {
              if dial.ack.NoAck? || IsErrorResponse(dial.ack.errorText) || dial.ack.result.None?
                 || dial.ack.result.value == 0 {
                break;
              }
              conn, subscriptionID := Some(socket), dial.ack.result.value;
              return true;
            }
            i := i + 1;
          }
          sockets := sockets - {socket};
        }
      }
      connected := false;
    }

    method ResetConn()
      requires Valid()
      modifies `conn, `subscriptionID, `sockets
      ensures Valid() && conn == None && subscriptionID == 0 && sockets == {}
    {
      if conn.Some? {
        sockets := sockets - {conn.value};
      }
      conn := None;
      subscriptionID := 0;
    }

    /** One iteration of the reading loop: what it returns, if it returns, and whether there is a connection for the
        next one. */
    method HandleRead(read: Read) returns (slot: Option<uint64>, connected: bool)
      requires Valid() && conn.Some?
      modifies `conn, `subscriptionID, `sockets, `nextDial
      ensures Valid() && connected == conn.Some?
      ensures PassedOn(read) == if slot.Some? then [slot.value] else []
      ensures slot.Some? ==> connected
      ensures !connected ==> nextDial == |dials|
      ensures if read.Failed? && Reconnects(read.error) then conn.None? || conn.value >= old(nextDial)
              else conn == old(conn) && nextDial == old(nextDial)
    {
      slot, connected := None, true;
      match read
      case Failed(error) =>
        if Reconnects(error) {
          ResetConn();
          connected := ConnectWs();
        } else {
          slot := Some(0);
        }
      case Received(message) =>
        if IsErrorResponse(message.errorText) || message.notification.None? {
          return;
        }
        if message.notification.value.methodName != "slotNotification" {
          return;
        }
        slot := Some(message.notification.value.slot);
    }

    /** The reading loop. */
    method ReadUntilSlot() returns (slot: Option<uint64>)
      requires Valid() && conn.Some? && nextRead <= |incoming|
      modifies this
      ensures Valid() && old(nextRead) <= nextRead <= |incoming|
      ensures AllPassedOn(incoming[old(nextRead)..nextRead]) == if slot.Some? then [slot.value] else []
      ensures slot.None? ==> nextRead == |incoming| || nextDial == |dials|
      ensures slot.Some? ==> conn.Some?
    {
      ghost var start := nextRead;
      var connected := true;
      slot := None;
      while connected && slot.None? && nextRead < |incoming|
        invariant Valid() && connected == conn.Some?
        invariant start <= nextRead <= |incoming|
        invariant AllPassedOn(incoming[start..nextRead]) == if slot.Some? then [slot.value] else []
        invariant slot.Some? ==> connected
        invariant !connected ==> nextDial == |dials|
        decreases |incoming| - nextRead
      {
        FlatMapNext(Passing(), incoming, start, nextRead);
        var read := incoming[nextRead];
        nextRead := nextRead + 1;
        slot, connected := HandleRead(read);
      }
    }

    /** The next slot; None while the service is still dialing, or waiting for a message, when a script ends. No read
        happens without a connection. */
    method GetSlot() returns (slot: Option<uint64>)
      requires Valid() && nextRead <= |incoming|
      modifies this
      ensures Valid() && old(nextRead) <= nextRead <= |incoming|
      ensures AllPassedOn(incoming[old(nextRead)..nextRead]) == if slot.Some? then [slot.value] else []
      ensures slot.None? ==> nextRead == |incoming| || nextDial == |dials|
      ensures slot.Some? ==> conn.Some?
    {
      var connected := ConnectWs();
      if !connected {
        assert incoming[nextRead..nextRead] == [];
        return None;
      }
      slot := ReadUntilSlot();
    }

    /** The loop of Start, stopped after at most rounds slots: it sends, in order and exactly once, what the reads it
        made pass on. */
    method Start(rounds: nat) returns (sent: seq<uint64>)
      requires Valid() && nextRead <= |incoming|
      modifies this
      ensures Valid() && old(nextRead) <= nextRead <= |incoming|
      ensures sent == AllPassedOn(incoming[old(nextRead)..nextRead]) && |sent| <= rounds
      ensures |sent| < rounds ==> nextRead == |incoming| || nextDial == |dials|
    {
      ghost var start := nextRead;
      sent := [];
      assert incoming[start..start] == [];
      while |sent| < rounds
        invariant Valid() && start <= nextRead <= |incoming|
        invariant sent == AllPassedOn(incoming[start..nextRead]) && |sent| <= rounds
        decreases rounds - |sent|
      {
        ghost var before := nextRead;
        var slot := GetSlot();
        PassedOnSplits(incoming, start, before, nextRead);
        if slot.None? {
          return;
        }
        sent := sent + [slot.value];
      }
    }
  }

  lemma PassedOnSplits(incoming: seq<Read>, start: nat, m: nat, n: nat)
    requires start <= m <= n <= |incoming|
    ensures AllPassedOn(incoming[start..n]) == AllPassedOn(incoming[start..m]) + AllPassedOn(incoming[m..n])
  {
    FlatMapConcat(Passing(), incoming[start..m], incoming[m..n]);
    assert incoming[start..m] + incoming[m..n] == incoming[start..n];
  }

  // ----- What is passed on -----

  predicate IsNotification(r: Read) {
    && r.Received? && !IsErrorResponse(r.message.errorText)
    && r.message.notification.Some? && r.message.notification.value.methodName == "slotNotification"
  }

  predicate IsUnclassified(r: Read) {
    r.Failed? && !Reconnects(r.error)
  }

  /** The slots of the notifications, in order. */
  function NotifiedSlots(incoming: seq<Read>): seq<uint64> {
    if incoming == [] then []
    else if IsNotification(incoming[|incoming| - 1]) then
      NotifiedSlots(incoming[..|incoming| - 1]) + [incoming[|incoming| - 1].message.notification.value.slot]
    else NotifiedSlots(incoming[..|incoming| - 1])
  }

  function NonZero(slots: seq<uint64>): seq<uint64> {
    if slots == [] then []
    else if slots[|slots| - 1] == 0 then NonZero(slots[..|slots| - 1])
    else NonZero(slots[..|slots| - 1]) + [slots[|slots| - 1]]
  }

  function CountUnclassified(incoming: seq<Read>): nat {
    if incoming == [] then 0
    else CountUnclassified(incoming[..|incoming| - 1]) + (if IsUnclassified(incoming[|incoming| - 1]) then 1 else 0)
  }

  lemma NonZeroConcat(s: seq<uint64>, t: seq<uint64>)
    requires |t| <= 1
    ensures NonZero(s + t) == NonZero(s) + NonZero(t)
  {
    if t == [] {
      assert s + t == s;
    } else {
      assert (s + t)[..|s + t| - 1] == s && t[..0] == [];
    }
  }

  /** The consumers, which drop slot 0, see exactly the notified slots, in order; each unclassified error adds one
      element, and nothing else does. */
  lemma {:induction false} ConsumersSeeNotifiedSlots(incoming: seq<Read>)
    ensures NonZero(AllPassedOn(incoming)) == NonZero(NotifiedSlots(incoming))
    ensures |AllPassedOn(incoming)| == |NotifiedSlots(incoming)| + CountUnclassified(incoming)
  {
    if incoming != [] {
      var init, last := incoming[..|incoming| - 1], incoming[|incoming| - 1];
      ConsumersSeeNotifiedSlots(init);
      NonZeroConcat(AllPassedOn(init), PassedOn(last));
      NonZeroConcat(NotifiedSlots(init), if IsNotification(last) then [last.message.notification.value.slot] else []);
      if IsUnclassified(last) {
        var zero: seq<uint64> := [0];
        assert zero[..0] == [] && NonZero(zero) == NonZero(zero[..0]);
      }
    }
  }
}
