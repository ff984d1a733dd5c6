/** handlers/notifications.go, in package `handlers`: the notification routes main.go:64-65
    installs. This version validates in the handler and calls the package-level service
    functions directly. Its `GetNotifications` answers as `HandlersNotifications.GetNotifications`
    does with the package-level service functions as its collaborator, so that member models both. */
module RoutedNotifications {
  import opened Outcomes
  import opened Models
  import opened Http
  import C = Collaborators
  import HandlersNotifications
  import ServicesNotifications

  type NotificationBody = HandlersNotifications.NotificationBody

  function AddNotification(request: Bind<NotificationBody>, users: C.UserStore,
                           reservations: C.ReservationStore,
                           notifications: C.NotificationStore): (r: C.Traced<Response<()>>)
    ensures request.BindFailed? ==> r.result == Fail(StatusBadRequest, "Invalid request body") && r.calls == []
    ensures request.Bound? ==>
              var b := request.body;
              // the calls are a prefix of user lookup, reservation lookup, insert
              r.calls <= ServicesNotifications.CreateChain(b.userId, b.reservationId, b.message) &&
              // an empty field is refused before any lookup
              (!ServicesNotifications.HasRequiredFields(b.userId, b.reservationId, b.message) ==>
                 r.result == Fail(StatusBadRequest, "UserID, ReservationID, and message are required") &&
                 r.calls == []) &&
              // a missing user stops before the reservation lookup
              (ServicesNotifications.HasRequiredFields(b.userId, b.reservationId, b.message) &&
               users.fetchUserById(b.userId).Absent() ==>
                 r.result == Fail(StatusNotFound, "User not found") && |r.calls| == 1) &&
              // a missing reservation stops before the insert
              (r.result == Fail(StatusNotFound, "Reservation not found") <==>
                 |r.calls| == 2 && reservations.fetchReservationById(b.reservationId).Absent()) &&
              (r.result.status == StatusCreated <==>
                 |r.calls| == 3 && notifications.createNotification(b.userId, b.reservationId, b.message).Ok?) &&
              (r.result == Fail(StatusInternalServerError, "Failed to create notification") <==>
                 |r.calls| == 3 && notifications.createNotification(b.userId, b.reservationId, b.message).Err?)
  {
    match request
    case BindFailed => C.Traced(Fail(StatusBadRequest, "Invalid request body"), [])
    case Bound(b) =>
      if b.userId == "" || b.reservationId == "" || b.message == "" then
        C.Traced(Fail(StatusBadRequest, "UserID, ReservationID, and message are required"), [])
      else
        var user := users.fetchUserById(b.userId);
        if user.Failed? || user.Nil? then
          C.Traced(Fail(StatusNotFound, "User not found"), [C.FetchUserById(b.userId)])
        else
          var reservation := reservations.fetchReservationById(b.reservationId);
          if reservation.Failed? || reservation.Nil? then
            C.Traced(Fail(StatusNotFound, "Reservation not found"),
                     [C.FetchUserById(b.userId), C.FetchReservationById(b.reservationId)])
          else
            var calls := ServicesNotifications.CreateChain(b.userId, b.reservationId, b.message);
            match notifications.createNotification(b.userId, b.reservationId, b.message)
            case Err(_) => C.Traced(Fail(StatusInternalServerError, "Failed to create notification"), calls)
            case Ok(_) => C.Traced(Response(StatusCreated, MessageJson("Notification created successfully")), calls)
  }

  /** The two packages agree. The routed handler, over some repositories, answers exactly as the
      `NotificationHandler` does when its service is `NotificationServiceImpl` over the same
      repositories, and it makes the same repository calls, in the same order, as that service.
      The handler's fall-through text "Failed to create reservation" is therefore never produced. */
  lemma AddNotificationPackagesAgree(request: Bind<NotificationBody>, users: C.UserStore,
                                     reservations: C.ReservationStore, notifications: C.NotificationStore)
    ensures var svc := ServicesNotifications.AsService(users, reservations, notifications);
            AddNotification(request, users, reservations, notifications).result
              == HandlersNotifications.AddNotification(request, svc).result
    ensures request.Bound? ==>
              var b := request.body;
              AddNotification(request, users, reservations, notifications).calls
                == ServicesNotifications.CreateNotification(users, reservations, notifications,
                                                            b.userId, b.reservationId, b.message).calls
    ensures var svc := ServicesNotifications.AsService(users, reservations, notifications);
            HandlersNotifications.AddNotification(request, svc).result.body
              != ErrorJson("Failed to create reservation")
  {
    if request.Bound? {
      var b := request.body;
      var svc := ServicesNotifications.AsService(users, reservations, notifications);
      var served := ServicesNotifications.CreateNotification(users, reservations, notifications,
                                                             b.userId, b.reservationId, b.message);
      assert svc.createNotification(b.userId, b.reservationId, b.message) == served.result;
    }
  }
}
