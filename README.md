# Reservation notice backend — a verified model of its decision logic

The backend takes reservations for a restaurant over HTTP (Echo), stores users, reservations
and notifications in Postgres, and pushes reservation events to browsers over WebSocket, with
Redis pub/sub carrying the events between the two. This project models in Dafny the parts of it
that decide things:

- **Services** (`services/users`, `services/reservations`, `services/notifications`): ordered
  chains of early-return checks. Required fields come first, then formats, then lookups, then
  the repository write. Each failure maps to a fixed error text.
- **HTTP handlers**: the new packages under `handlers/*/` and the old `handlers` package, which
  is the one `main.go` routes for reservations and notifications. Each is a table from request
  fields and collaborator outcomes to an HTTP status and message.
- **Realtime fan-out** (`websocket/`):
  - the origin allow-list;
  - the registry of connected clients;
  - the routing of client frames by their `type`;
  - the two publish handlers;
  - the broadcast pass that prunes clients whose write fails;
  - the relay from subscribed Redis channels to broadcast kinds.

Collaborators are oracles. Repositories, services seen through their interfaces and the Redis
broker are records of functions (`Collaborators`). A Go `(*T, error)` answer is a
`Fetch<T>`: `Found`, `Nil` or `Failed(err)`, where the error wins as in every check of the
source. Every service and handler returns its result together with the sequence of collaborator
calls it made. "The repository is not called" is therefore a statement about that trace, and
"the checks run in this order" says the trace is a prefix of one fixed chain of calls.
`time.Parse` and `mail.ParseAddress` are predicates passed in (`dateParses`, `emailParses`).

The registry is a class `Hub.Hub` with a `clients: set<ConnId>` field. Each section the source
runs under its mutex is one method and one atomic step; `Hub.Replay` models any interleaving of
those steps. The outbound frame is `Envelope(kind, content)`, i.e. `{"type": kind, "content":
content}`. The encoding of an inbound frame is an oracle `marshal`. Write and receive outcomes
are oracles indexed by connection and by message number.

Partners that tie the layers together:
- `RoutedNotifications.AddNotificationPackagesAgree`: the old notification handler is the new one
  composed with `NotificationServiceImpl`.
- `RoutedReservations.AddReservationPackagesAgree`: the old reservation handler is the new one
  with the user id taken from the body instead of a token.
- `HandlersUsers.AddUserOverService` and `HandlersUsers.LoginOverService`: the user handlers over
  `UserServiceImpl`.
- `HandlersReservations.ServiceChecksRedundant`: the reservation service behind the reservation
  handler.
- The websocket methods are proved against the specification functions in `Fanout` and
  `Frames`, whose properties are lemmas there.

Files: `outcomes.dfy`, `models.dfy`, `collaborators.dfy`, `http.dfy` (shared types);
`services_*.dfy`; `handlers_*.dfy` (packages under `handlers/*/`); `routed_*.dfy` (the old
`handlers` package); `websocket_*.dfy`.

Where the code and its description or tests disagree, the model follows the code:
- `services/reservations.go:85` declares `CreateReservation` as returning only an `error`, while
  `handlers/reservations.go:117` uses an id and an error. The model gives the old handler the id
  and error of the create call.
- `handlers/reservations/reservations_2_test.go:96-99` expects 400 for an insert error.
  `handlers/reservations/reservations.go:161-166` answers 500, and so does the model.

## Model

| member | source | states |
|---|---|---|
| ServicesReservations.StoredStatus | services/reservations/reservations.go:66-68 | the stored status is never empty: an empty status becomes "pending", any other is kept |
| ServicesReservations.FetchReservations | services/reservations/reservations.go:12-14 | the repository's list or error is returned unchanged, after exactly one repository call |
| ServicesReservations.FetchReservationById | services/reservations/reservations.go:18-20 | the repository's record, nil or error is returned unchanged after one lookup |
| ServicesReservations.FetchReservationByUserId | services/reservations/reservations.go:24-40 | an empty id fails with "userId is required" and the repository is not called (iff); otherwise one lookup is made, any repository error becomes "reservation not found", and a record or nil passes through |
| ServicesReservations.CreateReservation | services/reservations/reservations.go:44-80 | calls are a prefix of [user lookup, insert]; missing date or numPeople <= 0 iff the required-fields error, with no call; an unparsable date iff the format error, with no call; a user lookup error or nil iff "user not found", with no insert; the insert happens iff all checks pass, with the defaulted status; an insert error becomes "failed to create reservation", and the id returned is the repository's |
| ServicesNotifications.FetchNotifications | services/notifications/notifications.go:11-13 | the repository's list or error is returned unchanged after one call |
| ServicesNotifications.CreateNotification | services/notifications/notifications.go:17-46 | calls are a prefix of [user lookup, reservation lookup, insert]; every error is one of the four fixed texts; an empty field iff the required error with no call; a missing user iff "user not found" with only the user looked up; a missing reservation iff "reservation not found" with no insert; the insert receives the three inputs and its error iff "failed to create notification"; success iff the insert succeeds |
| ServicesUsers.FetchUsers | services/users/users.go:13-15 | the repository's list or error unchanged, one call |
| ServicesUsers.FetchUserById | services/users/users.go:46-48 | the repository's answer unchanged, one call |
| ServicesUsers.FetchUserByEmail | services/users/users.go:52-54 | the repository's answer unchanged, one call |
| ServicesUsers.FetchUserByEmailAndPassword | services/users/users.go:19-42 | an empty email or password gives "email and password are required", checked before the format, which gives "invalid email format"; the repository is called iff both checks pass; then `sql.ErrNoRows` becomes "user not found" and every other answer, error or not, passes unchanged |
| ServicesUsers.CreateUser | services/users/users.go:58-88 | calls are a prefix of [lookup by email, insert]; an empty field iff "name, email and password are required"; a bad email iff "invalid email format"; neither calls the repository; a found user (no error, non-nil) iff "user already exists" with no insert; a lookup error or nil iff the insert is made; an insert error iff "failed to create user"; success iff the insert succeeds |
| Broker.PublishToRedis | websocket/common.go:12-24 | exactly one publish of the given message to the given channel; nil iff the broker succeeds, and the broker's error is returned unchanged |
| HandlersNotifications.GetNotifications | handlers/notifications/notifications.go:24-38 | one service call; 200 iff the service succeeds, with its list as body; otherwise 500 "Failed to fetch notifications"; the old package's route at handlers/notifications.go:13-27 answers by the same table, with the package-level service functions as its collaborator |
| HandlersNotifications.ErrorResponse | handlers/notifications/notifications.go:63-85 | the required-fields text iff 400; "user not found" or "reservation not found" iff 404 with the matching message; everything else 500; "failed to create notification" keeps its message, and any unlisted text falls through to 500 "Failed to create reservation" |
| HandlersNotifications.AddNotification | handlers/notifications/notifications.go:41-92 | a bind failure gives 400 "Invalid request body" and no call; otherwise exactly one service call with the three fields unchanged (no validation in the handler); a nil error iff 201 "Notification created successfully"; an error gives the response of the switch on its text |
| RoutedNotifications.AddNotification | handlers/notifications.go:30-88 | a bind failure gives 400; otherwise calls are a prefix of [user lookup, reservation lookup, insert]; an empty field gives 400 before any lookup; a missing user gives 404 "User not found" with the reservation not looked up; 404 "Reservation not found" iff two calls and the reservation is missing; 201 iff the insert is made and succeeds; 500 iff it is made and fails |
| RoutedNotifications.AddNotificationPackagesAgree | handlers/notifications.go:30-88 | over the same repositories, the routed handler answers exactly as `NotificationHandler` over `NotificationServiceImpl` and makes the same calls as that service; that handler's fall-through "Failed to create reservation" never occurs |
| HandlersReservations.NotificationMessage | handlers/reservations/reservations.go:171 | the notification text is exactly "New reservation created for user " followed by the user id |
| HandlersReservations.GetReservations | handlers/reservations/reservations.go:34-48 | one call; 200 with the list iff it succeeds, otherwise 500 "Failed to fetch reservations"; the old package's route at handlers/reservations.go:15-29 answers by the same table, with the package-level service functions as its collaborator |
| HandlersReservations.GetReservationByUserId | handlers/reservations/reservations.go:52-78 | an empty id iff no call, with 400; otherwise one lookup; any service error gives 404 "Reservation not found"; 200 iff no error, with the record or null; the old package's route at handlers/reservations.go:33-59 answers by the same table, with the package-level service functions as its collaborator |
| HandlersReservations.AddReservation | handlers/reservations/reservations.go:81-191 | no cookie gives 401 "Unauthorized" and an invalid token 401 "Invalid token", both before the body is read; a bind failure gives 400; calls are a prefix of [user lookup, create, notification, publish]; missing fields give 400 before the date-format 400, neither with a call; 404 iff the user is missing, with no create; any create error gives 500 with no notification; a notification error gives 500 with nothing published; otherwise the publish to "reservation-notifications" is made and the answer is 201 |
| HandlersReservations.PublishOutcomeIgnored | handlers/reservations/reservations.go:182-190 | the response and the calls are the same whatever the broker answers |
| HandlersReservations.ServiceChecksRedundant | services/reservations/reservations.go:44-80 | once the handler admitted a request, the service over the same user repository succeeds iff the insert does, returns the repository's id, and otherwise fails with "failed to create reservation" |
| RoutedReservations.AddReservation | handlers/reservations.go:62-147 | a bind failure gives 400; an empty user id or date, or numPeople <= 0, gives 400 before the date check, neither with a call; 404 iff the user is missing, with no create; a create error gives 500; a notification error gives 500 with no publish; the publish follows a stored notification and the answer is 201 |
| RoutedReservations.AddReservationPackagesAgree | handlers/reservations.go:62-147 | for a non-empty user id, the routed handler's answer and calls equal those of `ReservationHandler` for a valid token carrying that id; an empty id always gives 400 |
| HandlersUsers.GetUsers | handlers/users/users.go:25-39 | one call; 200 with the list iff it succeeds, otherwise 500 "Failed to fetch users" |
| HandlersUsers.GetUserByEmailAndPassword | handlers/users/users.go:43-88 | a bind failure gives 400; empty email or password gives 400 before the format check, which also gives 400; the service is called iff both pass; any service error gives 404 "User not found"; otherwise 200 with the user or null |
| HandlersUsers.AddUser | handlers/users/users.go:92-152 | a bind failure gives 400; an empty field gives 400 and a bad email 400, neither with a call; 409 iff the lookup finds a user, with no creation; a lookup error or nil iff creation is attempted; a create error gives 500; 201 iff the creation succeeds |
| HandlersUsers.AddUserOverService | handlers/users/users.go:129-151 | over `UserServiceImpl`, a well-formed sign-up gives 409 iff the repository has the user, 201 iff it has none and the insert succeeds, 500 iff it has none and the insert fails |
| HandlersUsers.LoginOverService | handlers/users/users.go:78-84 | over `UserServiceImpl`, a well-formed login gives 404 iff the repository reports any error, and 200 otherwise |
| Origins.TrimLeft | websocket/websocket.go:34 | the result is a suffix of the input, everything dropped is white space, and it does not start with white space |
| Origins.TrimRight | websocket/websocket.go:34 | the result is a prefix of the input, everything dropped is white space, and it does not end with white space |
| Origins.TrimSpace | websocket/websocket.go:34 | the result is a slice of the input with only white space around it, and it neither starts nor ends with white space |
| Origins.Split | websocket/websocket.go:26 | at least one piece, and no piece holds the separator |
| Origins.JoinSplit | websocket/websocket.go:26 | joining the pieces with the separator gives back the original value |
| Origins.SplitJoin | websocket/websocket.go:26 | separator-free pieces are recovered exactly by splitting their join |
| Origins.AllowedOrigins | websocket/websocket.go:26 | the allow-list has at least one entry and no entry contains a comma |
| Origins.CheckOrigin | websocket/websocket.go:30-38 | accepts iff the origin equals some entry after the entry is trimmed |
| Origins.UnsetAdmitsOnlyEmpty | websocket/websocket.go:26-38 | with the variable unset the list is [""], which admits exactly an absent or empty origin |
| Origins.PaddedOriginRefused | websocket/websocket.go:31-34 | the origin itself is not trimmed, so one that starts or ends with white space is always refused |
| Origins.SpacedEntryAdmitsBareOrigin | websocket/websocket.go:33-35 | an entry written with white space around an origin admits that bare origin |
| Frames.RouteOf | websocket/websocket.go:94-111 | the debug handler iff `type` is the string "debug", the reservation handler iff it is "reservation_notification", and otherwise the frame is ignored |
| Frames.HandleDebugMessage | websocket/publish.go:9-21 | panics iff "message" is missing or not a string; otherwise publishes exactly that field, not "content", to "debug-channel" |
| Frames.HandleReservationNotification | websocket/publish.go:24-41 | never fails; a marshal failure publishes nothing; otherwise publishes the encoding of the whole frame to "reservation-channel" |
| Frames.Dispatch | websocket/websocket.go:102-111 | an ignored frame does nothing, a routed one runs exactly its handler and no other, and at most one publish is made per frame |
| Frames.SessionStops | websocket/websocket.go:76-112 | the loop reads in order, never past a read error, and stops only at a read error, at a panicking frame or at the end of input |
| Frames.SessionContinues | websocket/websocket.go:76-112 | a run of frames that neither fail nor panic publishes its frames' calls in order and hands the loop on unchanged to what follows |
| Frames.SkippedFrameInert | websocket/websocket.go:88-98 | an undecodable frame or one with an unusable `type` publishes nothing and the loop goes on |
| Frames.ReadLoop | websocket/websocket.go:76-112 | the loop's publishes, read count and way of ending are those of the session specification |
| Frames.PublishedAppend | websocket/websocket.go:76-112 | publishes accumulate frame by frame |
| Fanout.KindOf | websocket/subscribe.go:27-38 | "reservation-notifications" iff kind "reservation_notification", "debug-channel" iff kind "debug", and a kind exists iff the channel is one of the two subscribed at subscribe.go:12 |
| Fanout.Relayed | websocket/subscribe.go:19-38 | a receipt leads to a broadcast iff it was received on a subscribed channel; the payload is passed on unchanged with its channel's kind |
| Fanout.Relay | websocket/subscribe.go:15-41 | at most one broadcast per received message |
| Fanout.RelayAppend | websocket/subscribe.go:15-41 | messages are relayed one by one in receive order: the broadcasts for two runs are the first run's followed by the second's |
| Fanout.RelayOne | websocket/subscribe.go:19-38 | a single message gives its own broadcast or none |
| Fanout.Survivors | websocket/common.go:34-52 | after a pass the registry is a subset of the one before, keeping a client iff its write succeeded |
| Fanout.Dropped | websocket/common.go:46-51 | the clients closed are the ones whose write failed, and the survivors are the rest |
| Fanout.RegistryMembership | websocket/subscribe.go:15-41 | after any run of messages a client is registered iff it was registered before and none of the writes made to it failed; no client is added |
| Fanout.Delivered | websocket/subscribe.go:12-38 | only a publish to a subscribed channel ever reaches the clients |
| Fanout.ClientFramesLoopback | websocket/publish.go:9-41 | a debug frame's message comes back to the clients as a "debug" broadcast; a reservation frame goes to "reservation-channel" and is never broadcast |
| Hub.Hub.constructor | websocket/websocket.go:43 | the registry starts empty |
| Hub.Hub.Register | websocket/websocket.go:61-63 | the connection is added and nothing else changes |
| Hub.Hub.Deregister | websocket/websocket.go:68-73 | the connection is removed and nothing else changes |
| Hub.Hub.Broadcast | websocket/common.go:27-55 | one write to each client registered at the start, to distinct clients; every write carries the same frame {type, content}; the closed clients are those whose write failed; the new registry is the old one minus them |
| Hub.Hub.HandleWebSocket | websocket/websocket.go:48-116 | a refused origin or a failed upgrade returns an error with no call and the registry untouched; otherwise the loop's calls and ending are the session specification's; on return the registry is what it was before |
| Hub.Hub.HandleMessages | websocket/subscribe.go:8-42 | the broadcasts made are the relay of the messages received, and the registry afterwards is the pruning fold of `Fanout.Registry` |
| Hub.OneWritePerClient | websocket/common.go:34-45 | writes to distinct clients number exactly as many as the clients they reach |
| Hub.TargetsAreWritten | websocket/common.go:34-45 | every client a pass reached has a write of its own |
| Hub.ReplayMembership | websocket/websocket.go:61-73 | under any interleaving of registrations, deregistrations and broadcast passes, a connection is a member iff its last registration (or its presence at the start) has not been followed by its deregistration or a failed write to it |

## Left out

- I/O and transports are not modelled: HTTP request binding, JSON encoding and decoding, the
  Postgres repositories, Redis, and the gorilla WebSocket upgrade, reads and writes. They appear
  as oracle answers (`Bind`, `Fetch`, `Result`, `marshal`, `writeOk`, `Receipt`, `Inbound`).
- SQL queries, connection pools and transactions (the repositories and `supabase/client.go`) are
  not modelled. Their answers are oracle values.
- `services/reservations.go`, the package-level services the old handlers call, is not part of
  this model. The old handlers are given the same oracle records as the new ones.
- Token parsing and HMAC verification (`auth/auth.go`) are not modelled. The reservation handler
  receives the outcome as a `Token`.
- `time.Parse` with layout `2006-01-02 15:04:05` and `mail.ParseAddress` are not modelled.
  They are the predicates `dateParses` and `emailParses`.
- Concurrency is modelled only at the level of atomic steps. Goroutines and the mutex are not
  modelled; each mutex section is one atomic method, and `Hub.Replay` orders such steps.
- The read and receive loops of the source run without bound. The model runs them over a finite
  sequence of reads or receipts; running out of reads ends a session as a read error does.
- Logging (`utils/utilsLog.go`, every `log.Print…`) and `main.go` routing, signals and startup
  are not modelled. `handlers/users.go`, the old package's user routes, is not part of this
  model.
- Mocks (`*_mock.go`) and the interface wrappers (`*_impl.go`) are not modelled. The `AsService`
  functions play the part of the wrappers.
- `Origins.TrimSpace` works on code points. Go's treatment of invalid UTF-8 bytes is not
  modelled.
- Closing a connection (`ws.Close`, `client.Close`) is not modelled beyond removing it from the
  registry.
- Recovering from a handler's panic (Echo's `Recover` middleware) is not modelled. A panic ends
  the session, and the deferred deregistration still runs.
- ServicesUsers.FetchUserByEmailAndPassword: the two input checks are stated as implications,
  not as if-and-only-if, because a repository error passed through unchanged may carry the same
  text.
