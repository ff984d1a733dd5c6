/** services/notifications/notifications.go: `NotificationServiceImpl` over the user, reservation
    and notification repositories. */
module ServicesNotifications {
  import opened Outcomes
  import opened Models
  import C = Collaborators

  const RequiredFields := "userID, ReservationID, and message are required"
  const UserNotFound := "user not found"
  const ReservationNotFound := "reservation not found"
  const CreateFailed := "failed to create notification"

  /** Every error text `CreateNotification` can return. */
  const ErrorTexts := {RequiredFields, UserNotFound, ReservationNotFound, CreateFailed}

  predicate HasRequiredFields(userId: string, reservationId: string, message: string) {
    userId != "" && reservationId != "" && message != ""
  }

  function FetchNotifications(repo: C.NotificationStore): (r: C.Traced<Result<seq<Notification>>>)
    ensures r.result == repo.fetchNotifications
    ensures r.calls == [C.FetchNotifications]
  {
    C.Traced(repo.fetchNotifications, [C.FetchNotifications])
  }

  /** The order in which a successful creation talks to the repositories. */
  function CreateChain(userId: string, reservationId: string, message: string): seq<C.Call> {
    [C.FetchUserById(userId), C.FetchReservationById(reservationId),
     C.CreateNotification(userId, reservationId, message)]
  }

  function CreateNotification(users: C.UserStore, reservations: C.ReservationStore,
                              notifications: C.NotificationStore,
                              userId: string, reservationId: string, message: string): (r: C.Traced<Result<()>>)
    ensures r.calls <= CreateChain(userId, reservationId, message)
    // every failure is one of the four fixed texts, never a repository's own error
    ensures r.result.Err? ==> r.result.err.Message? && r.result.err.text in ErrorTexts
    // 1. required fields: no repository is touched
    ensures !HasRequiredFields(userId, reservationId, message) <==> r.result == Err(Message(RequiredFields))
    ensures !HasRequiredFields(userId, reservationId, message) ==> r.calls == []
    // 2. the user must exist; the reservation is then not looked up
    ensures r.result == Err(Message(UserNotFound)) <==>
              HasRequiredFields(userId, reservationId, message) && users.fetchUserById(userId).Absent()
    ensures r.result == Err(Message(UserNotFound)) ==> r.calls == [C.FetchUserById(userId)]
    // 3. the reservation must exist; nothing is then inserted
    ensures r.result == Err(Message(ReservationNotFound)) <==>
              HasRequiredFields(userId, reservationId, message) && users.fetchUserById(userId).Found?
              && reservations.fetchReservationById(reservationId).Absent()
    ensures r.result == Err(Message(ReservationNotFound)) ==> |r.calls| == 2
    // 4. the insert receives the three inputs unchanged and decides the outcome
    ensures |r.calls| == 3 <==>
              HasRequiredFields(userId, reservationId, message) && users.fetchUserById(userId).Found?
              && reservations.fetchReservationById(reservationId).Found?
    ensures r.result == Err(Message(CreateFailed)) <==>
              |r.calls| == 3 && notifications.createNotification(userId, reservationId, message).Err?
    ensures r.result.Ok? <==>
              |r.calls| == 3 && notifications.createNotification(userId, reservationId, message).Ok?
  {
    if userId == "" || reservationId == "" || message == "" then
      C.Traced(Err(Message(RequiredFields)), [])
    else
      var user := users.fetchUserById(userId);
      if user.Failed? || user.Nil? then
        C.Traced(Err(Message(UserNotFound)), [C.FetchUserById(userId)])
      else
        var reservation := reservations.fetchReservationById(reservationId);
        if reservation.Failed? || reservation.Nil? then
          C.Traced(Err(Message(ReservationNotFound)),
                   [C.FetchUserById(userId), C.FetchReservationById(reservationId)])
        else
          var inserted := notifications.createNotification(userId, reservationId, message);
          var calls := CreateChain(userId, reservationId, message);
          if inserted.Err? then C.Traced(Err(Message(CreateFailed)), calls)
          else C.Traced(Ok(()), calls)
  }

  /** `NotificationServiceImpl` seen through the `NotificationService` interface. */
  function AsService(users: C.UserStore, reservations: C.ReservationStore,
                     notifications: C.NotificationStore): C.NotificationStore
  {
    C.NotificationStore(
      FetchNotifications(notifications).result,
      (u, rid, m) => CreateNotification(users, reservations, notifications, u, rid, m).result)
  }
}
