/** The specification of the outbound fan-out: which broker messages become broadcasts
    (websocket/subscribe.go:15-41) and which clients survive a broadcast pass
    (websocket/common.go:30-52). */
module Fanout {
  import opened Outcomes
  import Broker
  import C = Collaborators
  import Frames

  /** A registered connection, `*websocket.Conn` in the source. */
  type ConnId = nat

  /** The frame every client is sent: the JSON object `{"type": kind, "content": content}`. */
  datatype Envelope = Envelope(kind: string, content: string)

  /** One `pubsub.ReceiveMessage`: an error, or a message with its channel and payload. */
  datatype Receipt = ReceiveFailed | Received(channel: string, payload: string)

  const ReservationNotificationKind := "reservation_notification"
  const DebugKind := "debug"

  /** The message kind a subscribed channel is broadcast as; other channels have none. */
  function KindOf(channel: string): (r: Option<string>)
    ensures r == Some(ReservationNotificationKind) <==> channel == Broker.ReservationNotifications
    ensures r == Some(DebugKind) <==> channel == Broker.DebugChannel
    ensures r.Some? <==> channel in Broker.Subscribed
  {
    if channel == Broker.ReservationNotifications then Some(ReservationNotificationKind)
    else if channel == Broker.DebugChannel then Some(DebugKind)
    else None
  }

  /** The broadcast one receipt leads to, if any: a receive error and an unknown channel lead
      to none, and the payload is passed on unchanged. */
  function Relayed(receipt: Receipt): (r: Option<Envelope>)
    ensures r.Some? <==> receipt.Received? && receipt.channel in Broker.Subscribed
    ensures r.Some? ==> r.value.content == receipt.payload && Some(r.value.kind) == KindOf(receipt.channel)
  {
    match receipt
    case ReceiveFailed => None
    case Received(channel, payload) =>
      match KindOf(channel)
      case None => None
      case Some(kind) => Some(Envelope(kind, payload))
  }

  /** The broadcasts a run of receipts leads to, in receive order. */
  function Relay(receipts: seq<Receipt>): (r: seq<Envelope>)
    ensures |r| <= |receipts|
    decreases |receipts|
  {
    if receipts == [] then []
    else
      var last := receipts[|receipts| - 1];
      Relay(receipts[..|receipts| - 1]) + (if Relayed(last).Some? then [Relayed(last).value] else [])
  }

  /** Relaying is done message by message: the broadcasts of two runs received one after the
      other are those of the first run followed by those of the second. */
  lemma {:induction false} RelayAppend(first: seq<Receipt>, second: seq<Receipt>)
    ensures Relay(first + second) == Relay(first) + Relay(second)
    decreases |second|
  {
    if second == [] {
      assert first + second == first;
    } else {
      var whole := first + second;
      var init := second[..|second| - 1];
      assert whole[..|whole| - 1] == first + init;
      assert whole[|whole| - 1] == second[|second| - 1];
      RelayAppend(first, init);
    }
  }

  /** One message: at most one broadcast, of its own payload. */
  lemma RelayOne(receipt: Receipt)
    ensures Relay([receipt]) == if Relayed(receipt).Some? then [Relayed(receipt).value] else []
  {
    assert [receipt][..0] == [];
  }

  /** The clients left after a pass: those whose write succeeded. */
  function Survivors(clients: set<ConnId>, writeOk: ConnId -> bool): (r: set<ConnId>)
    ensures r <= clients
    ensures forall c :: c in clients ==> (c in r <==> writeOk(c))
  {
    set c | c in clients && writeOk(c)
  }

  /** The clients a pass closes and removes: those whose write failed. */
  function Dropped(clients: set<ConnId>, writeOk: ConnId -> bool): (r: set<ConnId>)
    ensures r <= clients
    ensures Survivors(clients, writeOk) == clients - r
  {
    set c | c in clients && !writeOk(c)
  }

  /** The registry after `HandleMessages` has taken `receipts`, starting from `clients`, when
      the write to client `c` in the pass for receipt `k` succeeds exactly if `writeOk(k, c)`. */
  function Registry(clients: set<ConnId>, receipts: seq<Receipt>, writeOk: (nat, ConnId) -> bool): set<ConnId>
    decreases |receipts|
  {
    if receipts == [] then clients
    else
      var k := |receipts| - 1;
      var before := Registry(clients, receipts[..k], writeOk);
      if Relayed(receipts[k]).Some? then Survivors(before, (c: ConnId) => writeOk(k, c)) else before
  }

  /** A client is still registered after a run of messages exactly when it was registered to
      begin with and none of the writes made to it failed. In particular nobody is added, and
      a client whose write failed once is gone from every later pass. */
  lemma {:induction false} RegistryMembership(clients: set<ConnId>, receipts: seq<Receipt>,
                                              writeOk: (nat, ConnId) -> bool, c: ConnId)
    ensures c in Registry(clients, receipts, writeOk) <==>
              c in clients &&
              forall k :: 0 <= k < |receipts| && Relayed(receipts[k]).Some? ==> writeOk(k, c)
    decreases |receipts|
  {
    if receipts != [] {
      var k := |receipts| - 1;
      var init := receipts[..k];
      RegistryMembership(clients, init, writeOk, c);
      assert forall j :: 0 <= j < k ==> init[j] == receipts[j];
    }
  }

  /** The broadcast a publish leads to once the subscriber receives it. */
  function Delivered(call: C.Call): (r: Option<Envelope>)
    ensures r.Some? ==> call.Publish? && call.channel in Broker.Subscribed
  {
    if call.Publish? then Relayed(Received(call.channel, call.message)) else None
  }

  /** The loop a client's frames take: a debug frame's message comes back to every client as a
      "debug" broadcast, while a reservation frame is published to a channel nobody subscribes
      to and is never broadcast. */
  lemma ClientFramesLoopback(frame: Frames.Frame, marshal: Frames.Frame -> Option<string>)
    ensures var h := Frames.Dispatch(frame, marshal);
            Frames.RouteOf(frame) == Frames.ToDebug && h.Done? ==>
              |h.calls| == 1 && Delivered(h.calls[0]) == Some(Envelope(DebugKind, frame["message"].s))
    ensures var h := Frames.Dispatch(frame, marshal);
            Frames.RouteOf(frame) == Frames.ToReservationNotification ==>
              h.Done? && forall i :: 0 <= i < |h.calls| ==> Delivered(h.calls[i]).None?
  {
  }
}
