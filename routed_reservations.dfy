/** handlers/reservations.go, in package `handlers`: the reservation routes main.go:60-62
    installs. The creating user is named in the request body, not taken from a token. Its
    `GetReservations` and `GetReservationByUserId` answer as the members of the same names in
    `HandlersReservations` do with the package-level service functions as their collaborator, so those
    members model both. */
module RoutedReservations {
  import opened Outcomes
  import opened Models
  import opened Http
  import C = Collaborators
  import Broker
  import SR = ServicesReservations
  import HR = HandlersReservations

  /** The JSON request body: `user_id`, `reservation_date`, `num_people`, `special_request`, `status`. */
  datatype RoutedBody = RoutedBody(userId: string, reservationDate: string, numPeople: int,
                                   specialRequest: string, status: string)

  /** The same body without its user id, as the token-based handler reads it. */
  function WithoutUser(b: RoutedBody): HR.ReservationBody {
    HR.ReservationBody(b.reservationDate, b.numPeople, b.specialRequest, b.status)
  }

  function AddReservation(request: Bind<RoutedBody>, users: C.UserStore,
                          reservations: C.ReservationStore, notifications: C.NotificationStore,
                          broker: C.Broker, dateParses: string -> bool): (r: C.Traced<Response<()>>)
    ensures request.BindFailed? ==> r.result == Fail(StatusBadRequest, "Invalid request body") && r.calls == []
    ensures request.Bound? ==>
              var u, b := request.body.userId, WithoutUser(request.body);
              (HR.Created(u, b, reservations).Ok? ==>
                 r.calls <= HR.AddChain(u, b, HR.Created(u, b, reservations).value)) &&
              (HR.Created(u, b, reservations).Err? ==> r.calls <= HR.AddChain(u, b, "")[..2]) &&
              // an empty user id, an empty date or no people: 400 before anything else
              ((u == "" || !SR.HasRequiredFields(b.reservationDate, b.numPeople)) ==>
                 r.result == Fail(StatusBadRequest, HR.MissingFields) && r.calls == []) &&
              (u != "" && SR.HasRequiredFields(b.reservationDate, b.numPeople) && !dateParses(b.reservationDate) ==>
                 r.result == Fail(StatusBadRequest, HR.BadDateFormat) && r.calls == []) &&
              (r.result == Fail(StatusNotFound, "User not found") <==>
                 u != "" && SR.HasRequiredFields(b.reservationDate, b.numPeople) && dateParses(b.reservationDate)
                 && users.fetchUserById(u).Absent()) &&
              (r.result == Fail(StatusNotFound, "User not found") ==> r.calls == [C.FetchUserById(u)]) &&
              (u != "" && HR.Admitted(u, b, users, dateParses) && HR.Created(u, b, reservations).Err? ==>
                 r.result == Fail(StatusInternalServerError, "Failed to create reservation") && |r.calls| == 2) &&
              (u != "" && HR.Admitted(u, b, users, dateParses) && HR.Created(u, b, reservations).Ok? ==>
                 var notified := notifications.createNotification(u, HR.Created(u, b, reservations).value,
                                                                  HR.NotificationMessage(u));
                 (notified.Err? ==>
                    r.result == Fail(StatusInternalServerError, "Failed to create notification") && |r.calls| == 3) &&
                 (notified.Ok? ==>
                    r.result == Response(StatusCreated, MessageJson("Reservation created successfully"))
                    && |r.calls| == 4))
  {
    match request
    case BindFailed => C.Traced(Fail(StatusBadRequest, "Invalid request body"), [])
    case Bound(b) =>
      if b.userId == "" || b.reservationDate == "" || b.numPeople <= 0 then
        C.Traced(Fail(StatusBadRequest, HR.MissingFields), [])
      else if !dateParses(b.reservationDate) then
        C.Traced(Fail(StatusBadRequest, HR.BadDateFormat), [])
      else
        var user := users.fetchUserById(b.userId);
        if user.Failed? || user.Nil? then
          C.Traced(Fail(StatusNotFound, "User not found"), [C.FetchUserById(b.userId)])
        else
          var stored := SR.StoredStatus(b.status);
          var created := reservations.createReservation(b.userId, b.reservationDate, b.numPeople,
                                                        b.specialRequest, stored);
          var soFar := [C.FetchUserById(b.userId),
                        C.CreateReservation(b.userId, b.reservationDate, b.numPeople, b.specialRequest, stored)];
          if created.Err? then
            C.Traced(Fail(StatusInternalServerError, "Failed to create reservation"), soFar)
          else
            var message := HR.NotificationMessage(b.userId);
            var notified := notifications.createNotification(b.userId, created.value, message);
            var withNotice := soFar + [C.CreateNotification(b.userId, created.value, message)];
            if notified.Err? then
              C.Traced(Fail(StatusInternalServerError, "Failed to create notification"), withNotice)
            else
              var published := Broker.PublishToRedis(broker, Broker.ReservationNotifications, message);
              C.Traced(Response(StatusCreated, MessageJson("Reservation created successfully")),
                       withNotice + published.calls)
  }

  /** The two packages agree once a user is known. For a non-empty user id, the routed handler
      given that id in the body answers and calls exactly as the token-based handler does for
      a valid token carrying the same id. They differ only on the empty id, which the routed
      handler refuses with 400 and the token-based handler goes on to look up. */
  lemma AddReservationPackagesAgree(body: RoutedBody, users: C.UserStore,
                                    reservations: C.ReservationStore, notifications: C.NotificationStore,
                                    broker: C.Broker, dateParses: string -> bool)
    ensures body.userId != "" ==>
              AddReservation(Bound(body), users, reservations, notifications, broker, dateParses)
                == HR.AddReservation(HR.ValidToken(body.userId), Bound(WithoutUser(body)), users,
                                     reservations, notifications, broker, dateParses)
    ensures body.userId == "" ==>
              AddReservation(Bound(body), users, reservations, notifications, broker, dateParses).result
                == Fail(StatusBadRequest, HR.MissingFields)
  {
  }
}
