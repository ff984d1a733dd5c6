/** Frames sent by clients: routing by their `type` (websocket/websocket.go:76-110) and the two
    handlers of websocket/publish.go. A frame arrives already decoded by `json.Unmarshal`; the
    JSON encoding of a whole frame is an oracle, `marshal`. Publishing is recorded as a call;
    the broker's answer is only logged by both handlers, so it does not appear. */
module Frames {
  import opened Outcomes
  import C = Collaborators
  import Broker

  /** A JSON value in a decoded frame: a string, or any other value kept by its encoding. */
  datatype Json = JString(s: string) | JOther(encoded: string)

  /** `map[string]interface{}` as `json.Unmarshal` fills it. */
  type Frame = map<string, Json>

  /** One turn of the read loop: a read error, a message that is not a JSON object, or a frame. */
  datatype Inbound = ReadFailed | Undecodable | Decoded(frame: Frame)

  /** Which handler a frame goes to. */
  datatype Route = Ignored | ToDebug | ToReservationNotification

  const DebugType := "debug"
  const ReservationNotificationType := "reservation_notification"

  /** A `type` that is missing, not a string or not one of the two names is ignored. */
  function RouteOf(frame: Frame): (r: Route)
    ensures r == ToDebug <==> "type" in frame && frame["type"] == JString(DebugType)
    ensures r == ToReservationNotification <==>
              "type" in frame && frame["type"] == JString(ReservationNotificationType)
  {
    if "type" !in frame then Ignored
    else match frame["type"]
      case JString(t) =>
        if t == DebugType then ToDebug
        else if t == ReservationNotificationType then ToReservationNotification
        else Ignored
      case JOther(_) => Ignored
  }

  /** What a handler did: its publish calls, or a panic. */
  datatype Handled = Done(calls: seq<C.Call>) | Panicked

  /** `handleDebugMessage`: publish the frame's `message` (not its `content`) to the debug
      channel. `messageData["message"].(string)` panics when the field is missing or not a string. */
  function HandleDebugMessage(frame: Frame): (r: Handled)
    ensures r.Panicked? <==> "message" !in frame || !frame["message"].JString?
    ensures r.Done? ==> r.calls == [C.Publish(Broker.DebugChannel, frame["message"].s)]
  {
    if "message" in frame && frame["message"].JString? then
      Done([C.Publish(Broker.DebugChannel, frame["message"].s)])
    else
      Panicked
  }

  /** `handleReservationNotification`: publish the encoding of the whole frame, `type` included,
      to "reservation-channel"; when encoding fails, publish nothing. */
  function HandleReservationNotification(frame: Frame, marshal: Frame -> Option<string>): (r: Handled)
    ensures r.Done?
    ensures marshal(frame).None? ==> r.calls == []
    ensures marshal(frame).Some? ==> r.calls == [C.Publish(Broker.ReservationChannel, marshal(frame).value)]
  {
    match marshal(frame)
    case None => Done([])
    case Some(encoded) => Done([C.Publish(Broker.ReservationChannel, encoded)])
  }

  /** One decoded message: exactly the handler its route names runs, or none. */
  function Dispatch(frame: Frame, marshal: Frame -> Option<string>): (r: Handled)
    ensures RouteOf(frame) == Ignored ==> r == Done([])
    ensures RouteOf(frame) == ToDebug ==> r == HandleDebugMessage(frame)
    ensures RouteOf(frame) == ToReservationNotification ==> r == HandleReservationNotification(frame, marshal)
    ensures r.Done? ==> |r.calls| <= 1
  {
    match RouteOf(frame)
    case Ignored => Done([])
    case ToDebug => HandleDebugMessage(frame)
    case ToReservationNotification => HandleReservationNotification(frame, marshal)
  }

  /** How a session's read loop ended: on a read error (the only `break`; a transport with
      nothing left to read is one), or by a handler's panic. */
  datatype End = ReadError | Panic

  /** The specification of the read loop: the publish calls made, how many reads were taken,
      and how it ended. */
  datatype Session = Session(calls: seq<C.Call>, consumed: nat, end: End)

  function RunSession(incoming: seq<Inbound>, marshal: Frame -> Option<string>): Session
    decreases |incoming|
  {
    if incoming == [] then Session([], 0, ReadError)
    else match incoming[0]
      case ReadFailed => Session([], 1, ReadError)
      case Undecodable =>
        var rest := RunSession(incoming[1..], marshal);
        Session(rest.calls, rest.consumed + 1, rest.end)
      case Decoded(frame) =>
        match Dispatch(frame, marshal)
        case Panicked => Session([], 1, Panic)
        case Done(calls) =>
          var rest := RunSession(incoming[1..], marshal);
          Session(calls + rest.calls, rest.consumed + 1, rest.end)
  }

  /** The loop ends only at a read error or a panic: every read before the last one it took
      was a frame it went past, and the last one is what stopped it (or there was nothing more). */
  lemma {:induction false} SessionStops(incoming: seq<Inbound>, marshal: Frame -> Option<string>)
    ensures var r := RunSession(incoming, marshal);
            r.consumed <= |incoming| &&
            (forall k :: 0 <= k < r.consumed - 1 ==> !incoming[k].ReadFailed?) &&
            (r.end == Panic ==>
               0 < r.consumed && incoming[r.consumed - 1].Decoded?
               && Dispatch(incoming[r.consumed - 1].frame, marshal).Panicked?) &&
            (r.end == ReadError ==>
               r.consumed == |incoming| || (0 < r.consumed && incoming[r.consumed - 1].ReadFailed?))
    decreases |incoming|
  {
    if incoming != [] {
      SessionStops(incoming[1..], marshal);
    }
  }

  /** Reads are taken in order: the loop for `prefix + rest` runs as the loop for `prefix` and then, if that did not stop,
      as the loop for `rest`. */
  lemma {:induction false} SessionContinues(prefix: seq<Inbound>, rest: seq<Inbound>,
                                            marshal: Frame -> Option<string>)
    requires forall k :: 0 <= k < |prefix| ==> !prefix[k].ReadFailed?
    requires forall k :: 0 <= k < |prefix| ==> prefix[k].Decoded? ==> Dispatch(prefix[k].frame, marshal).Done?
    ensures var whole := RunSession(prefix + rest, marshal);
            whole.calls == PublishedBy(prefix, marshal) + RunSession(rest, marshal).calls &&
            whole.consumed == |prefix| + RunSession(rest, marshal).consumed &&
            whole.end == RunSession(rest, marshal).end
    decreases |prefix|
  {
    if prefix != [] {
      var whole := prefix + rest;
      assert whole[0] == prefix[0];
      assert whole[1..] == prefix[1..] + rest;
      SessionContinues(prefix[1..], rest, marshal);
      var tail := RunSession(whole[1..], marshal);
      if prefix[0].Decoded? {
        var own := Dispatch(prefix[0].frame, marshal).calls;
        assert RunSession(whole, marshal) == Session(own + tail.calls, tail.consumed + 1, tail.end);
        assert PublishedBy(prefix, marshal) == own + PublishedBy(prefix[1..], marshal);
      } else {
        assert RunSession(whole, marshal) == Session(tail.calls, tail.consumed + 1, tail.end);
        assert PublishedBy(prefix, marshal) == PublishedBy(prefix[1..], marshal);
      }
    } else {
      assert prefix + rest == rest;
    }
  }

  /** The publish calls of frames that neither fail to read nor panic. */
  function PublishedBy(incoming: seq<Inbound>, marshal: Frame -> Option<string>): seq<C.Call>
    decreases |incoming|
  {
    if incoming == [] then []
    else
      var own := if incoming[0].Decoded? && Dispatch(incoming[0].frame, marshal).Done?
                 then Dispatch(incoming[0].frame, marshal).calls else [];
      own + PublishedBy(incoming[1..], marshal)
  }

  /** A frame that is skipped, whatever it holds, changes nothing about the rest of the session:
      no publish, and the loop goes on. */
  lemma SkippedFrameInert(skipped: Inbound, rest: seq<Inbound>, marshal: Frame -> Option<string>)
    requires skipped.Undecodable? || (skipped.Decoded? && RouteOf(skipped.frame) == Ignored)
    ensures RunSession([skipped] + rest, marshal).calls == RunSession(rest, marshal).calls
    ensures RunSession([skipped] + rest, marshal).end == RunSession(rest, marshal).end
    ensures RunSession([skipped] + rest, marshal).consumed == 1 + RunSession(rest, marshal).consumed
  {
    assert ([skipped] + rest)[1..] == rest;
  }

  /** A session that has taken `taken` reads and made `calls`, and then behaves as `rest`. */
  function Resume(calls: seq<C.Call>, taken: nat, rest: Session): Session {
    Session(calls + rest.calls, taken + rest.consumed, rest.end)
  }

  /** The read loop of `HandleWebSocket`: read until a read error, skip what cannot be routed,
      hand each routed frame to its handler. */
  method ReadLoop(incoming: seq<Inbound>, marshal: Frame -> Option<string>) returns (s: Session)
    ensures s == RunSession(incoming, marshal)
  {
    var calls: seq<C.Call> := [];
    var i := 0;
    assert incoming[0..] == incoming;
    while i < |incoming|
      invariant 0 <= i <= |incoming|
      invariant RunSession(incoming, marshal) == Resume(calls, i, RunSession(incoming[i..], marshal))
    {
      assert incoming[i..][0] == incoming[i];
      assert incoming[i..][1..] == incoming[i + 1..];
      match incoming[i] {
        case ReadFailed =>
          return Session(calls, i + 1, ReadError);
        case Undecodable =>
        case Decoded(frame) =>
          match Dispatch(frame, marshal) {
            case Panicked =>
              return Session(calls, i + 1, Panic);
            case Done(published) =>
              calls := calls + published;
          }
      }
      i := i + 1;
    }
    assert incoming[i..] == [];
    return Session(calls, i, ReadError);
  }

  lemma {:induction false} PublishedAppend(incoming: seq<Inbound>, last: Inbound, marshal: Frame -> Option<string>)
    ensures PublishedBy(incoming + [last], marshal) == PublishedBy(incoming, marshal) + PublishedBy([last], marshal)
    decreases |incoming|
  {
    if incoming != [] {
      assert (incoming + [last])[1..] == incoming[1..] + [last];
      PublishedAppend(incoming[1..], last, marshal);
    } else {
      assert incoming + [last] == [last];
    }
  }
}
