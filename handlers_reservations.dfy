/** handlers/reservations/reservations.go: `ReservationHandler`. The user creating a reservation
    is taken from the `token` cookie; reading and checking that token is an oracle. */
module HandlersReservations {
  import opened Outcomes
  import opened Models
  import opened Http
  import C = Collaborators
  import Broker
  import SR = ServicesReservations

  /** What lines 85-105 find: no `token` cookie, a token that does not parse or is not valid,
      or a valid token and the user id among its claims. */
  datatype Token = NoCookie | InvalidToken | ValidToken(userId: string)

  /** The JSON request body: `reservation_date`, `num_people`, `special_request`, `status`. */
  datatype ReservationBody = ReservationBody(reservationDate: string, numPeople: int,
                                             specialRequest: string, status: string)

  const NotificationPrefix := "New reservation created for user "
  const MissingFields := "UserID, reservation date, and num_people are required"
  const BadDateFormat := "Invalid reservation date format. Use 'YYYY-MM-DD HH:MM:SS'"

  /** The text of the notification stored and published for a new reservation. */
  function NotificationMessage(userId: string): (m: string)
    ensures |m| == |NotificationPrefix| + |userId|
    ensures m[..|NotificationPrefix|] == NotificationPrefix && m[|NotificationPrefix|..] == userId
  {
    NotificationPrefix + userId
  }

  function GetReservations(svc: C.ReservationStore): (r: C.Traced<Response<seq<Reservation>>>)
    ensures r.calls == [C.FetchReservations]
    ensures r.result.status == StatusOK <==> svc.fetchReservations.Ok?
    ensures svc.fetchReservations.Err? ==>
              r.result == Fail(StatusInternalServerError, "Failed to fetch reservations")
    ensures svc.fetchReservations.Ok? ==> r.result.body == Payload(svc.fetchReservations.value)
  {
    match svc.fetchReservations
    case Err(_) => C.Traced(Fail(StatusInternalServerError, "Failed to fetch reservations"), [C.FetchReservations])
    case Ok(list) => C.Traced(Response(StatusOK, Payload(list)), [C.FetchReservations])
  }

  /** The path parameter `user_id`. A nil reservation without error is sent as JSON `null`. */
  function GetReservationByUserId(userId: string, svc: C.ReservationStore): (r: C.Traced<Response<Option<Reservation>>>)
    ensures userId == "" <==> r.calls == []
    ensures userId == "" ==> r.result == Fail(StatusBadRequest, "userId is required")
    ensures userId != "" ==> r.calls == [C.FetchReservationByUserId(userId)]
    ensures userId != "" && svc.fetchReservationByUserId(userId).Failed? ==>
              r.result == Fail(StatusNotFound, "Reservation not found")
    ensures r.result.status == StatusOK <==> userId != "" && !svc.fetchReservationByUserId(userId).Failed?
    ensures userId != "" && svc.fetchReservationByUserId(userId).Found? ==>
              r.result.body == Payload(Some(svc.fetchReservationByUserId(userId).value))
    ensures userId != "" && svc.fetchReservationByUserId(userId).Nil? ==> r.result.body == Payload(None)
  {
    if userId == "" then C.Traced(Fail(StatusBadRequest, "userId is required"), [])
    else
      var calls := [C.FetchReservationByUserId(userId)];
      match svc.fetchReservationByUserId(userId)
      case Failed(_) => C.Traced(Fail(StatusNotFound, "Reservation not found"), calls)
      case Nil => C.Traced(Response(StatusOK, Payload(None)), calls)
      case Found(v) => C.Traced(Response(StatusOK, Payload(Some(v))), calls)
  }

  /** The calls a fully successful creation makes, in order; `id` is the new reservation's id. */
  function AddChain(userId: string, b: ReservationBody, id: string): seq<C.Call> {
    [C.FetchUserById(userId),
     C.CreateReservation(userId, b.reservationDate, b.numPeople, b.specialRequest, SR.StoredStatus(b.status)),
     C.CreateNotification(userId, id, NotificationMessage(userId)),
     C.Publish(Broker.ReservationNotifications, NotificationMessage(userId))]
  }

  /** Every check before the first write passed. */
  predicate Admitted(userId: string, b: ReservationBody, users: C.UserStore, dateParses: string -> bool) {
    SR.HasRequiredFields(b.reservationDate, b.numPeople) && dateParses(b.reservationDate)
    && users.fetchUserById(userId).Found?
  }

  /** The reservation service's answer to the create call the handler makes. */
  function Created(userId: string, b: ReservationBody, reservations: C.ReservationStore): Result<string> {
    reservations.createReservation(userId, b.reservationDate, b.numPeople, b.specialRequest,
                                   SR.StoredStatus(b.status))
  }

  function AddReservation(token: Token, request: Bind<ReservationBody>, users: C.UserStore,
                          reservations: C.ReservationStore, notifications: C.NotificationStore,
                          broker: C.Broker, dateParses: string -> bool): (r: C.Traced<Response<()>>)
    // authentication comes first, before the body is looked at
    ensures token.NoCookie? ==> r.result == Fail(StatusUnauthorized, "Unauthorized") && r.calls == []
    ensures token.InvalidToken? ==> r.result == Fail(StatusUnauthorized, "Invalid token") && r.calls == []
    ensures token.ValidToken? && request.BindFailed? ==>
              r.result == Fail(StatusBadRequest, "Invalid request body") && r.calls == []
    ensures token.ValidToken? && request.Bound? ==>
              var u, b := token.userId, request.body;
              // the calls made are the first steps of the one chain
              (Created(u, b, reservations).Ok? ==> r.calls <= AddChain(u, b, Created(u, b, reservations).value)) &&
              (Created(u, b, reservations).Err? ==> r.calls <= AddChain(u, b, "")[..2]) &&
              // the field check precedes the date format check, and neither calls anything
              (!SR.HasRequiredFields(b.reservationDate, b.numPeople) ==>
                 r.result == Fail(StatusBadRequest, MissingFields) && r.calls == []) &&
              (SR.HasRequiredFields(b.reservationDate, b.numPeople) && !dateParses(b.reservationDate) ==>
                 r.result == Fail(StatusBadRequest, BadDateFormat) && r.calls == []) &&
              // a missing user: 404, and nothing is created
              (r.result == Fail(StatusNotFound, "User not found") <==>
                 SR.HasRequiredFields(b.reservationDate, b.numPeople) && dateParses(b.reservationDate)
                 && users.fetchUserById(u).Absent()) &&
              (r.result == Fail(StatusNotFound, "User not found") ==> r.calls == [C.FetchUserById(u)]) &&
              // any create error, whatever it says: 500, and no notification
              (Admitted(u, b, users, dateParses) && Created(u, b, reservations).Err? ==>
                 r.result == Fail(StatusInternalServerError, "Failed to create reservation") && |r.calls| == 2) &&
              // a notification error: 500, and nothing is published
              (Admitted(u, b, users, dateParses) && Created(u, b, reservations).Ok? ==>
                 var notified := notifications.createNotification(u, Created(u, b, reservations).value,
                                                                  NotificationMessage(u));
                 (notified.Err? ==>
                    r.result == Fail(StatusInternalServerError, "Failed to create notification") && |r.calls| == 3) &&
                 // after a stored notification the publish is made, and its outcome is not looked at
                 (notified.Ok? ==>
                    r.result == Response(StatusCreated, MessageJson("Reservation created successfully"))
                    && |r.calls| == 4))
  {
    match token
    case NoCookie => C.Traced(Fail(StatusUnauthorized, "Unauthorized"), [])
    case InvalidToken => C.Traced(Fail(StatusUnauthorized, "Invalid token"), [])
    case ValidToken(userId) =>
      match request
      case BindFailed => C.Traced(Fail(StatusBadRequest, "Invalid request body"), [])
      case Bound(b) =>
        if b.reservationDate == "" || b.numPeople <= 0 then
          C.Traced(Fail(StatusBadRequest, MissingFields), [])
        else if !dateParses(b.reservationDate) then
          C.Traced(Fail(StatusBadRequest, BadDateFormat), [])
        else
          var user := users.fetchUserById(userId);
          if user.Failed? || user.Nil? then
            C.Traced(Fail(StatusNotFound, "User not found"), [C.FetchUserById(userId)])
          else
            var stored := SR.StoredStatus(b.status);
            var created := reservations.createReservation(userId, b.reservationDate, b.numPeople,
                                                          b.specialRequest, stored);
            var soFar := [C.FetchUserById(userId),
                          C.CreateReservation(userId, b.reservationDate, b.numPeople, b.specialRequest, stored)];
            if created.Err? then
              C.Traced(Fail(StatusInternalServerError, "Failed to create reservation"), soFar)
            else
              var message := NotificationMessage(userId);
              var notified := notifications.createNotification(userId, created.value, message);
              var withNotice := soFar + [C.CreateNotification(userId, created.value, message)];
              if notified.Err? then
                C.Traced(Fail(StatusInternalServerError, "Failed to create notification"), withNotice)
              else
                var published := Broker.PublishToRedis(broker, Broker.ReservationNotifications, message);
                C.Traced(Response(StatusCreated, MessageJson("Reservation created successfully")),
                         withNotice + published.calls)
  }

  /** A broker failure never changes what the client is told, nor any call made. */
  lemma PublishOutcomeIgnored(token: Token, request: Bind<ReservationBody>, users: C.UserStore,
                              reservations: C.ReservationStore, notifications: C.NotificationStore,
                              broker: C.Broker, other: C.Broker, dateParses: string -> bool)
    ensures AddReservation(token, request, users, reservations, notifications, broker, dateParses)
         == AddReservation(token, request, users, reservations, notifications, other, dateParses)
  {
  }

  /** Behind this handler, the reservation service's own checks are redundant: once the handler
      has admitted a request, `ReservationServiceImpl.CreateReservation` over the same user
      repository fails only when the insert fails, and then with its fixed text. */
  lemma ServiceChecksRedundant(userId: string, b: ReservationBody, users: C.UserStore,
                               reservations: C.ReservationStore, dateParses: string -> bool)
    requires Admitted(userId, b, users, dateParses)
    ensures var svc := SR.AsService(users, reservations, dateParses);
            var served := Created(userId, b, svc);
            (served.Ok? <==> Created(userId, b, reservations).Ok?) &&
            (served.Ok? ==> served == Created(userId, b, reservations)) &&
            (served.Err? ==> served.err == Message(SR.CreateFailed))
  {
    var stored := SR.StoredStatus(b.status);
    var direct := SR.CreateReservation(users, reservations, dateParses, userId, b.reservationDate,
                                       b.numPeople, b.specialRequest, stored);
    assert SR.StoredStatus(stored) == stored;
    assert Created(userId, b, SR.AsService(users, reservations, dateParses)) == direct.result;
  }
}
