/** The broker side of the websocket package: the channel names and `PublishToRedis`
    (websocket/common.go:12-24). The broker itself is an oracle. */
module Broker {
  import opened Outcomes
  import C = Collaborators

  /** Reservation events published by the HTTP handlers and relayed to clients. */
  const ReservationNotifications := "reservation-notifications"
  /** Debug messages sent by clients and relayed to clients. */
  const DebugChannel := "debug-channel"
  /** Where client-sent reservation notifications are published (websocket/publish.go:35). */
  const ReservationChannel := "reservation-channel"

  /** The channels `HandleMessages` subscribes to (websocket/subscribe.go:12). */
  const Subscribed: seq<string> := [ReservationNotifications, DebugChannel]

  /** One publish, whose broker error is handed back unchanged. */
  function PublishToRedis(broker: C.Broker, channel: string, message: string): (r: C.Traced<Result<()>>)
    ensures r.calls == [C.Publish(channel, message)]
    ensures r.result.Ok? <==> broker(channel, message).Ok?
    ensures r.result.Err? ==> r.result.err == broker(channel, message).err
  {
    match broker(channel, message)
    case Err(e) => C.Traced(Err(e), [C.Publish(channel, message)])
    case Ok(_) => C.Traced(Ok(()), [C.Publish(channel, message)])
  }
}
