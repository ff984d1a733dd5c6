/** The connection registry of the websocket package: the `clients` map and its mutex
    (websocket/websocket.go:43-44). Each section the source runs under the mutex is one method,
    taken as one atomic step; how steps of different goroutines interleave is modelled by
    `Replay` over a sequence of such steps. Write outcomes are oracles. */
module Hub {
  import opened Outcomes
  import C = Collaborators
  import Origins
  import Frames
  import opened Fanout

  /** One write attempt of a broadcast pass. */
  datatype Write = Write(conn: ConnId, frame: Envelope)

  /** What `upgrader.Upgrade` does once the origin is admitted: a new connection, or an error. */
  datatype Handshake = Upgraded(conn: ConnId) | HandshakeFailed(err: Error)

  /** How `HandleWebSocket` returns: refused before registration, or after a session. */
  datatype Exit = OriginRefused | UpgradeFailed(err: Error) | Ended(session: Frames.Session)

  class Hub {
    /** The keys of the `clients` map. */
    var clients: set<ConnId>

    constructor ()
      ensures clients == {}
    {
      clients := {};
    }

    /** `clients[ws] = true` under the mutex, after the upgrade (lines 61-63). */
    method Register(conn: ConnId)
      modifies this
      ensures clients == old(clients) + {conn}
    {
      clients := clients + {conn};
    }

    /** The deferred `delete(clients, ws)` under the mutex (lines 68-73). */
    method Deregister(conn: ConnId)
      modifies this
      ensures clients == old(clients) - {conn}
    {
      clients := clients - {conn};
    }

    /** `broadcastMessage`: one write of the same frame to every client registered when the pass
        starts, in the map's order; a client whose write fails is closed and deleted. */
    method Broadcast(kind: string, content: string, writeOk: ConnId -> bool)
      returns (writes: seq<Write>, closed: set<ConnId>)
      modifies this
      ensures Targets(writes) == old(clients)
      ensures forall i, j :: 0 <= i < j < |writes| ==> writes[i].conn != writes[j].conn
      ensures forall i :: 0 <= i < |writes| ==> writes[i].frame == Envelope(kind, content)
      ensures closed == Dropped(old(clients), writeOk)
      ensures clients == Survivors(old(clients), writeOk)
    {
      var remaining := clients;
      ghost var visited: set<ConnId> := {};
      writes, closed := [], {};
      while remaining != {}
        invariant remaining !! visited && remaining + visited == old(clients)
        invariant Targets(writes) == visited
        invariant forall i :: 0 <= i < |writes| ==> writes[i].conn in visited
        invariant forall i, j :: 0 <= i < j < |writes| ==> writes[i].conn != writes[j].conn
        invariant forall i :: 0 <= i < |writes| ==> writes[i].frame == Envelope(kind, content)
        invariant closed <= visited
        invariant forall c :: c in visited ==> (c in closed <==> !writeOk(c))
        invariant clients == old(clients) - closed
        decreases remaining
      {
        var conn :| conn in remaining;
        var write := Write(conn, Envelope(kind, content));
        assert (writes + [write])[..|writes|] == writes;
        writes := writes + [write];
        if !writeOk(conn) {
          closed := closed + {conn};
          clients := clients - {conn};
        }
        remaining := remaining - {conn};
        visited := visited + {conn};
      }
    }

    /** `HandleWebSocket`. The origin is checked during the upgrade; a refused origin or a
        failed handshake returns an error with the registry untouched. Otherwise the connection
        is registered, the read loop runs until a read error or a handler's panic, and the
        deferred deregistration removes that connection and no other. */
    method HandleWebSocket(allowed: seq<string>, origin: string, handshake: Handshake,
                           incoming: seq<Frames.Inbound>, marshal: Frames.Frame -> Option<string>)
      returns (exit: Exit, calls: seq<C.Call>)
      requires handshake.Upgraded? ==> handshake.conn !in clients
      modifies this
      ensures !Origins.Admits(allowed, origin) ==> exit == OriginRefused && calls == []
      ensures Origins.Admits(allowed, origin) && handshake.HandshakeFailed? ==>
                exit == UpgradeFailed(handshake.err) && calls == []
      ensures Origins.Admits(allowed, origin) && handshake.Upgraded? ==>
                exit == Ended(Frames.RunSession(incoming, marshal))
                && calls == Frames.RunSession(incoming, marshal).calls
      ensures clients == old(clients)
    {
      var admitted := Origins.CheckOrigin(allowed, origin);
      if !admitted {
        return OriginRefused, [];
      }
      match handshake {
        case HandshakeFailed(err) =>
          return UpgradeFailed(err), [];
        case Upgraded(conn) =>
          Register(conn);
          assert conn in clients;
          var session := Frames.ReadLoop(incoming, marshal);
          Deregister(conn);
          return Ended(session), session.calls;
      }
    }

    /** `HandleMessages`: take the broker's messages one at a time; skip receive errors and
        unknown channels, and broadcast each other message as its channel's kind. */
    method HandleMessages(receipts: seq<Receipt>, writeOk: (nat, ConnId) -> bool)
      returns (passes: seq<Envelope>)
      modifies this
      ensures passes == Relay(receipts)
      ensures clients == Registry(old(clients), receipts, writeOk)
    {
      passes := [];
      var i := 0;
      while i < |receipts|
        invariant 0 <= i <= |receipts|
        invariant passes == Relay(receipts[..i])
        invariant clients == Registry(old(clients), receipts[..i], writeOk)
      {
        assert receipts[..i + 1][..i] == receipts[..i];
        match receipts[i] {
          case ReceiveFailed =>
          case Received(channel, payload) =>
            match KindOf(channel) {
              case None =>
              case Some(kind) =>
                var k := i;
                var _, _ := Broadcast(kind, payload, (c: ConnId) => writeOk(k, c));
                passes := passes + [Envelope(kind, payload)];
            }
        }
        i := i + 1;
      }
      assert receipts[..i] == receipts;
    }
  }

  /** The connections a run of writes went to. */
  function Targets(writes: seq<Write>): set<ConnId>
    decreases |writes|
  {
    if writes == [] then {} else Targets(writes[..|writes| - 1]) + {writes[|writes| - 1].conn}
  }

  /** With distinct targets, a pass makes exactly one write per registered client. */
  lemma {:induction false} OneWritePerClient(writes: seq<Write>)
    requires forall i, j :: 0 <= i < j < |writes| ==> writes[i].conn != writes[j].conn
    ensures |Targets(writes)| == |writes|
    ensures forall i :: 0 <= i < |writes| ==> writes[i].conn in Targets(writes)
    decreases |writes|
  {
    if writes != [] {
      var n := |writes| - 1;
      OneWritePerClient(writes[..n]);
      assert writes[n].conn !in Targets(writes[..n]) by {
        TargetsAreWritten(writes[..n], writes[n].conn);
      }
    }
  }

  lemma {:induction false} TargetsAreWritten(writes: seq<Write>, c: ConnId)
    ensures c in Targets(writes) ==> exists i :: 0 <= i < |writes| && writes[i].conn == c
    decreases |writes|
  {
    if writes != [] {
      var n := |writes| - 1;
      TargetsAreWritten(writes[..n], c);
      if c in Targets(writes[..n]) {
        var i :| 0 <= i < n && writes[..n][i].conn == c;
        assert writes[i].conn == c;
      }
    }
  }

  /** One mutex-guarded step of some goroutine: a lifecycle handler registering or
      deregistering its connection, or a broadcast pass whose writes to `failed` fail. */
  datatype Event = Connect(conn: ConnId) | Disconnect(conn: ConnId) | Pass(failed: set<ConnId>)

  predicate Removes(e: Event, c: ConnId) {
    e == Disconnect(c) || (e.Pass? && c in e.failed)
  }

  function Apply(clients: set<ConnId>, e: Event): set<ConnId> {
    match e
    case Connect(c) => clients + {c}
    case Disconnect(c) => clients - {c}
    case Pass(failed) => clients - failed
  }

  /** The registry after the steps `events`, in the order the mutex admitted them. */
  function Replay(clients: set<ConnId>, events: seq<Event>): set<ConnId>
    decreases |events|
  {
    if events == [] then clients
    else Apply(Replay(clients, events[..|events| - 1]), events[|events| - 1])
  }

  /** The registry's invariant under any interleaving: a connection is a member exactly when
      its last registration (or its presence at the start) has not been followed by its
      deregistration or by a failed write to it. */
  lemma {:induction false} ReplayMembership(clients: set<ConnId>, events: seq<Event>, c: ConnId)
    ensures c in Replay(clients, events) <==>
              (c in clients && forall j :: 0 <= j < |events| ==> !Removes(events[j], c))
              || (exists i :: 0 <= i < |events| && events[i] == Connect(c)
                    && forall j :: i < j < |events| ==> !Removes(events[j], c))
    decreases |events|
  {
    if events != [] {
      var n := |events| - 1;
      var init := events[..n];
      ReplayMembership(clients, init, c);
      assert forall j :: 0 <= j < n ==> init[j] == events[j];
      var last := events[n];
      if last == Connect(c) {
        assert c in Replay(clients, events);
      } else if Removes(last, c) {
        assert c !in Replay(clients, events);
      } else {
        assert c in Replay(clients, events) <==> c in Replay(clients, init);
        if exists i :: 0 <= i < |events| && events[i] == Connect(c)
                       && forall j :: i < j < |events| ==> !Removes(events[j], c) {
          var i :| 0 <= i < |events| && events[i] == Connect(c)
                   && forall j :: i < j < |events| ==> !Removes(events[j], c);
          assert i < n;
        }
      }
    }
  }
}
