/** The collaborators the services and handlers call, as oracles, and the record of the calls made.

    A repository interface and the service interface of the same entity have the same methods, so
    one record per entity describes either: the answer each method gives to each argument. */
module Collaborators {
  import opened Outcomes
  import opened Models

  /** One call on a repository, a service or the broker, with its arguments. */
  datatype Call =
    | FetchUsers
    | FetchUserById(id: string)
    | FetchUserByEmail(email: string)
    | FetchUserByEmailAndPassword(email: string, password: string)
    | CreateUser(name: string, email: string, password: string)
    | FetchReservations
    | FetchReservationById(reservationId: string)
    | FetchReservationByUserId(userId: string)
    | CreateReservation(userId: string, reservationDate: string, numPeople: int,
                        specialRequest: string, status: string)
    | FetchNotifications
    | CreateNotification(userId: string, reservationId: string, message: string)
    | Publish(channel: string, message: string)

  /** A result together with the calls made, in order, to compute it. */
  datatype Traced<+T> = Traced(result: T, calls: seq<Call>)

  /** `UserRepository` (repositories/users) or `UserService` (services/users). */
  datatype UserStore = UserStore(
    fetchUsers: Result<seq<User>>,
    fetchUserByEmailAndPassword: (string, string) -> Fetch<User>,
    fetchUserById: string -> Fetch<User>,
    fetchUserByEmail: string -> Fetch<User>,
    createUser: (string, string, string) -> Result<()>)

  /** `ReservationRepository` or `ReservationService`; the create call answers with the new id. */
  datatype ReservationStore = ReservationStore(
    fetchReservations: Result<seq<Reservation>>,
    fetchReservationById: string -> Fetch<Reservation>,
    fetchReservationByUserId: string -> Fetch<Reservation>,
    createReservation: (string, string, int, string, string) -> Result<string>)

  /** `NotificationRepository` or `NotificationService`. */
  datatype NotificationStore = NotificationStore(
    fetchNotifications: Result<seq<Notification>>,
    createNotification: (string, string, string) -> Result<()>)

  /** The broker's answer to `Publish(channel, message)`. */
  type Broker = (string, string) -> Result<()>
}
