/** handlers/notifications/notifications.go: `NotificationHandler`, which leaves all validation
    to its `NotificationService` and maps the service's error text to a response. */
module HandlersNotifications {
  import opened Outcomes
  import opened Models
  import opened Http
  import C = Collaborators

  /** The JSON request body: `user_id`, `reservation_id`, `message`. */
  datatype NotificationBody = NotificationBody(userId: string, reservationId: string, message: string)

  function GetNotifications(svc: C.NotificationStore): (r: C.Traced<Response<seq<Notification>>>)
    ensures r.calls == [C.FetchNotifications]
    ensures r.result.status == StatusOK <==> svc.fetchNotifications.Ok?
    ensures svc.fetchNotifications.Err? ==>
              r.result == Fail(StatusInternalServerError, "Failed to fetch notifications")
    ensures svc.fetchNotifications.Ok? ==> r.result.body == Payload(svc.fetchNotifications.value)
  {
    match svc.fetchNotifications
    case Err(_) => C.Traced(Fail(StatusInternalServerError, "Failed to fetch notifications"), [C.FetchNotifications])
    case Ok(list) => C.Traced(Response(StatusOK, Payload(list)), [C.FetchNotifications])
  }

  /** The `switch err.Error()` of lines 63-85. */
  function ErrorResponse(text: string): (r: Response<()>)
    ensures r.body.ErrorJson?
    ensures r.status == StatusBadRequest <==> text == "userID, ReservationID, and message are required"
    ensures r.status == StatusNotFound <==> text in {"user not found", "reservation not found"}
    ensures r.status == StatusInternalServerError <==>
              text !in {"userID, ReservationID, and message are required",
                        "user not found", "reservation not found"}
    ensures text == "user not found" ==> r.body.error == "User not found"
    ensures text == "reservation not found" ==> r.body.error == "Reservation not found"
    ensures text == "failed to create notification" ==> r.body.error == "Failed to create notification"
    // any text the switch does not list falls through to a message about reservations
    ensures text !in {"userID, ReservationID, and message are required", "user not found",
                      "reservation not found", "failed to create notification"} ==>
              r.body.error == "Failed to create reservation"
  {
    match text
    case "userID, ReservationID, and message are required" =>
      Fail(StatusBadRequest, "UserID, ReservationID, and message are required")
    case "user not found" => Fail(StatusNotFound, "User not found")
    case "reservation not found" => Fail(StatusNotFound, "Reservation not found")
    case "failed to create notification" => Fail(StatusInternalServerError, "Failed to create notification")
    case _ => Fail(StatusInternalServerError, "Failed to create reservation")
  }

  function AddNotification(request: Bind<NotificationBody>, svc: C.NotificationStore): (r: C.Traced<Response<()>>)
    // a body that does not bind is refused and the service is not called
    ensures request.BindFailed? ==> r.result == Fail(StatusBadRequest, "Invalid request body") && r.calls == []
    // otherwise the three fields go to the service as they are: no validation here
    ensures request.Bound? ==>
              r.calls == [C.CreateNotification(request.body.userId, request.body.reservationId,
                                               request.body.message)]
    ensures request.Bound? ==>
              var outcome := svc.createNotification(request.body.userId, request.body.reservationId,
                                                    request.body.message);
              (outcome.Ok? <==> r.result == Response(StatusCreated, MessageJson("Notification created successfully"))) &&
              (outcome.Err? ==> r.result == ErrorResponse(Text(outcome.err)))
  {
    match request
    case BindFailed => C.Traced(Fail(StatusBadRequest, "Invalid request body"), [])
    case Bound(b) =>
      var calls := [C.CreateNotification(b.userId, b.reservationId, b.message)];
      match svc.createNotification(b.userId, b.reservationId, b.message)
      case Err(e) => C.Traced(ErrorResponse(Text(e)), calls)
      case Ok(_) => C.Traced(Response(StatusCreated, MessageJson("Notification created successfully")), calls)
  }
}
