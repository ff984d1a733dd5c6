/** services/reservations/reservations.go: `ReservationServiceImpl` over a user repository and a
    reservation repository. `dateParses` stands for `time.Parse("2006-01-02 15:04:05", ·)`
    succeeding. */
module ServicesReservations {
  import opened Outcomes
  import opened Models
  import C = Collaborators

  const RequiredFields := "userID, reservation date, and num_people are required"
  const BadDateFormat := "invalid reservation date format. Use 'YYYY-MM-DD HH:MM:SS'"
  const UserNotFound := "user not found"
  const CreateFailed := "failed to create reservation"
  const UserIdRequired := "userId is required"
  const ReservationNotFound := "reservation not found"
  const DefaultStatus := "pending"

  /** The status that is stored: an empty status becomes "pending". */
  function StoredStatus(status: string): (r: string)
    ensures r != ""
    ensures status != "" ==> r == status
    ensures status == "" ==> r == DefaultStatus
  {
    if status == "" then DefaultStatus else status
  }

  /** The guard of line 46: a date and a positive head count are present. */
  predicate HasRequiredFields(reservationDate: string, numPeople: int) {
    reservationDate != "" && numPeople > 0
  }

  function FetchReservations(repo: C.ReservationStore): (r: C.Traced<Result<seq<Reservation>>>)
    ensures r.result == repo.fetchReservations
    ensures r.calls == [C.FetchReservations]
  {
    C.Traced(repo.fetchReservations, [C.FetchReservations])
  }

  function FetchReservationById(repo: C.ReservationStore, id: string): (r: C.Traced<Fetch<Reservation>>)
    ensures r.result == repo.fetchReservationById(id)
    ensures r.calls == [C.FetchReservationById(id)]
  {
    C.Traced(repo.fetchReservationById(id), [C.FetchReservationById(id)])
  }

  function FetchReservationByUserId(repo: C.ReservationStore, userId: string): (r: C.Traced<Fetch<Reservation>>)
    // an empty id is refused without asking the repository
    ensures userId == "" <==> r.calls == []
    ensures userId == "" ==> r.result == Failed(Message(UserIdRequired))
    // otherwise exactly one lookup, whose error (whatever it is) is replaced
    ensures userId != "" ==> r.calls == [C.FetchReservationByUserId(userId)]
    ensures userId != "" && repo.fetchReservationByUserId(userId).Failed? ==>
              r.result == Failed(Message(ReservationNotFound))
    // a reservation or a nil answer without error passes through unchanged
    ensures userId != "" && !repo.fetchReservationByUserId(userId).Failed? ==>
              r.result == repo.fetchReservationByUserId(userId)
  {
    if userId == "" then
      C.Traced(Failed(Message(UserIdRequired)), [])
    else
      var answer := repo.fetchReservationByUserId(userId);
      var calls := [C.FetchReservationByUserId(userId)];
      if answer.Failed? then C.Traced(Failed(Message(ReservationNotFound)), calls)
      else C.Traced(answer, calls)
  }

  /** The order in which a successful creation talks to the repositories. */
  function CreateChain(userId: string, reservationDate: string, numPeople: int,
                       specialRequest: string, status: string): seq<C.Call>
  {
    [C.FetchUserById(userId),
     C.CreateReservation(userId, reservationDate, numPeople, specialRequest, StoredStatus(status))]
  }

  function CreateReservation(users: C.UserStore, reservations: C.ReservationStore,
                             dateParses: string -> bool,
                             userId: string, reservationDate: string, numPeople: int,
                             specialRequest: string, status: string): (r: C.Traced<Result<string>>)
    // the calls made are always the first steps of the one chain, in its order
    ensures r.calls <= CreateChain(userId, reservationDate, numPeople, specialRequest, status)
    // 1. required fields, before anything else
    ensures !HasRequiredFields(reservationDate, numPeople) <==> r.result == Err(Message(RequiredFields))
    ensures !HasRequiredFields(reservationDate, numPeople) ==> r.calls == []
    // 2. date format, before the user lookup
    ensures r.result == Err(Message(BadDateFormat)) <==>
              HasRequiredFields(reservationDate, numPeople) && !dateParses(reservationDate)
    ensures r.result == Err(Message(BadDateFormat)) ==> r.calls == []
    // 3. the user must exist, or nothing is inserted
    ensures r.result == Err(Message(UserNotFound)) <==>
              HasRequiredFields(reservationDate, numPeople) && dateParses(reservationDate)
              && users.fetchUserById(userId).Absent()
    ensures r.result == Err(Message(UserNotFound)) ==> r.calls == [C.FetchUserById(userId)]
    // 4. the insert is made exactly when every check passed, with the defaulted status
    ensures |r.calls| == 2 <==>
              HasRequiredFields(reservationDate, numPeople) && dateParses(reservationDate)
              && users.fetchUserById(userId).Found?
    ensures |r.calls| == 2 ==>
              var insert := reservations.createReservation(userId, reservationDate, numPeople,
                                                           specialRequest, StoredStatus(status));
              (insert.Ok? ==> r.result == insert) &&
              (insert.Err? ==> r.result == Err(Message(CreateFailed)))
    // the id returned is always the repository's
    ensures r.result.Ok? ==>
              |r.calls| == 2 &&
              r.result == reservations.createReservation(userId, reservationDate, numPeople,
                                                         specialRequest, StoredStatus(status))
  {
    if reservationDate == "" || numPeople <= 0 then
      C.Traced(Err(Message(RequiredFields)), [])
    else if !dateParses(reservationDate) then
      C.Traced(Err(Message(BadDateFormat)), [])
    else
      var user := users.fetchUserById(userId);
      if user.Failed? || user.Nil? then
        C.Traced(Err(Message(UserNotFound)), [C.FetchUserById(userId)])
      else
        var stored := StoredStatus(status);
        var insert := reservations.createReservation(userId, reservationDate, numPeople, specialRequest, stored);
        var calls := [C.FetchUserById(userId),
                      C.CreateReservation(userId, reservationDate, numPeople, specialRequest, stored)];
        if insert.Err? then C.Traced(Err(Message(CreateFailed)), calls)
        else C.Traced(Ok(insert.value), calls)
  }

  /** `ReservationServiceImpl` seen through the `ReservationService` interface the handlers use
      (services/reservations/reservations_impl.go:6-11). */
  function AsService(users: C.UserStore, reservations: C.ReservationStore,
                     dateParses: string -> bool): C.ReservationStore
  {
    C.ReservationStore(
      FetchReservations(reservations).result,
      id => FetchReservationById(reservations, id).result,
      userId => FetchReservationByUserId(reservations, userId).result,
      (u, d, n, sr, st) => CreateReservation(users, reservations, dateParses, u, d, n, sr, st).result)
  }
}
