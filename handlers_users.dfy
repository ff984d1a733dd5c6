/** handlers/users/users.go: `UserHandler`. `emailParses` stands for `mail.ParseAddress(·)`
    succeeding. */
module HandlersUsers {
  import opened Outcomes
  import opened Models
  import opened Http
  import C = Collaborators
  import SU = ServicesUsers

  /** The JSON body of the login lookup: `email`, `password`. */
  datatype Credentials = Credentials(email: string, password: string)

  /** The JSON body of a sign-up: `name`, `email`, `password`. */
  datatype NewUser = NewUser(name: string, email: string, password: string)

  function GetUsers(svc: C.UserStore): (r: C.Traced<Response<seq<User>>>)
    ensures r.calls == [C.FetchUsers]
    ensures r.result.status == StatusOK <==> svc.fetchUsers.Ok?
    ensures svc.fetchUsers.Err? ==> r.result == Fail(StatusInternalServerError, "Failed to fetch users")
    ensures svc.fetchUsers.Ok? ==> r.result.body == Payload(svc.fetchUsers.value)
  {
    match svc.fetchUsers
    case Err(_) => C.Traced(Fail(StatusInternalServerError, "Failed to fetch users"), [C.FetchUsers])
    case Ok(list) => C.Traced(Response(StatusOK, Payload(list)), [C.FetchUsers])
  }

  function GetUserByEmailAndPassword(request: Bind<Credentials>, svc: C.UserStore,
                                     emailParses: string -> bool): (r: C.Traced<Response<Option<User>>>)
    ensures request.BindFailed? ==> r.result == Fail(StatusBadRequest, "Invalid request body") && r.calls == []
    ensures request.Bound? ==>
              var e, p := request.body.email, request.body.password;
              r.calls <= [C.FetchUserByEmailAndPassword(e, p)] &&
              // the emptiness check precedes the format check; neither calls the service
              ((e == "" || p == "") ==>
                 r.result == Fail(StatusBadRequest, "Email and password are required") && r.calls == []) &&
              (e != "" && p != "" && !emailParses(e) ==>
                 r.result == Fail(StatusBadRequest, "Invalid email format") && r.calls == []) &&
              (r.calls != [] <==> e != "" && p != "" && emailParses(e)) &&
              // every service error, whatever it is, reads as a missing user
              (r.calls != [] && svc.fetchUserByEmailAndPassword(e, p).Failed? ==>
                 r.result == Fail(StatusNotFound, "User not found")) &&
              (r.calls != [] && svc.fetchUserByEmailAndPassword(e, p).Found? ==>
                 r.result == Response(StatusOK, Payload(Some(svc.fetchUserByEmailAndPassword(e, p).value)))) &&
              (r.calls != [] && svc.fetchUserByEmailAndPassword(e, p).Nil? ==>
                 r.result == Response(StatusOK, Payload(None)))
  {
    match request
    case BindFailed => C.Traced(Fail(StatusBadRequest, "Invalid request body"), [])
    case Bound(b) =>
      if b.email == "" || b.password == "" then
        C.Traced(Fail(StatusBadRequest, "Email and password are required"), [])
      else if !emailParses(b.email) then
        C.Traced(Fail(StatusBadRequest, "Invalid email format"), [])
      else
        var calls := [C.FetchUserByEmailAndPassword(b.email, b.password)];
        match svc.fetchUserByEmailAndPassword(b.email, b.password)
        case Failed(_) => C.Traced(Fail(StatusNotFound, "User not found"), calls)
        case Nil => C.Traced(Response(StatusOK, Payload(None)), calls)
        case Found(u) => C.Traced(Response(StatusOK, Payload(Some(u))), calls)
  }

  function AddUser(request: Bind<NewUser>, svc: C.UserStore, emailParses: string -> bool): (r: C.Traced<Response<()>>)
    ensures request.BindFailed? ==> r.result == Fail(StatusBadRequest, "Invalid request body") && r.calls == []
    ensures request.Bound? ==>
              var n, e, p := request.body.name, request.body.email, request.body.password;
              r.calls <= SU.CreateChain(n, e, p) &&
              (!SU.HasRequiredFields(n, e, p) ==>
                 r.result == Fail(StatusBadRequest, "Name, email and password are required") && r.calls == []) &&
              (SU.HasRequiredFields(n, e, p) && !emailParses(e) ==>
                 r.result == Fail(StatusBadRequest, "Invalid email format") && r.calls == []) &&
              (r.calls != [] <==> SU.HasRequiredFields(n, e, p) && emailParses(e)) &&
              // an existing user: 409 and no creation; a lookup error counts as "does not exist"
              (r.result.status == StatusConflict <==> r.calls != [] && svc.fetchUserByEmail(e).Found?) &&
              (r.result.status == StatusConflict ==>
                 r.result.body == ErrorJson("User already exists") && r.calls == [C.FetchUserByEmail(e)]) &&
              (|r.calls| == 2 <==> r.calls != [] && svc.fetchUserByEmail(e).Absent()) &&
              (|r.calls| == 2 && svc.createUser(n, e, p).Err? ==>
                 r.result == Fail(StatusInternalServerError, "Failed to create user")) &&
              (r.result.status == StatusCreated <==> |r.calls| == 2 && svc.createUser(n, e, p).Ok?) &&
              (r.result.status == StatusCreated ==> r.result.body == MessageJson("User created successfully"))
  {
    match request
    case BindFailed => C.Traced(Fail(StatusBadRequest, "Invalid request body"), [])
    case Bound(b) =>
      if b.name == "" || b.email == "" || b.password == "" then
        C.Traced(Fail(StatusBadRequest, "Name, email and password are required"), [])
      else if !emailParses(b.email) then
        C.Traced(Fail(StatusBadRequest, "Invalid email format"), [])
      else
        var existing := svc.fetchUserByEmail(b.email);
        if existing.Found? then
          C.Traced(Fail(StatusConflict, "User already exists"), [C.FetchUserByEmail(b.email)])
        else
          var calls := SU.CreateChain(b.name, b.email, b.password);
          match svc.createUser(b.name, b.email, b.password)
          case Err(_) => C.Traced(Fail(StatusInternalServerError, "Failed to create user"), calls)
          case Ok(_) => C.Traced(Response(StatusCreated, MessageJson("User created successfully")), calls)
  }

  /** Over `UserServiceImpl` and a user repository, sign-up answers 201 exactly when the
      repository has no such user and stores the new one: the service repeats the handler's
      checks, and with the same repository its own "user already exists" cannot arise. */
  lemma AddUserOverService(body: NewUser, repo: C.UserStore, emailParses: string -> bool)
    requires SU.HasRequiredFields(body.name, body.email, body.password) && emailParses(body.email)
    ensures var r := AddUser(Bound(body), SU.AsService(repo, emailParses), emailParses);
            (r.result.status == StatusConflict <==> repo.fetchUserByEmail(body.email).Found?) &&
            (r.result.status == StatusCreated <==>
               repo.fetchUserByEmail(body.email).Absent() && repo.createUser(body.name, body.email, body.password).Ok?) &&
            (r.result.status == StatusInternalServerError <==>
               repo.fetchUserByEmail(body.email).Absent() && repo.createUser(body.name, body.email, body.password).Err?)
  {
    var svc := SU.AsService(repo, emailParses);
    assert svc.fetchUserByEmail(body.email) == repo.fetchUserByEmail(body.email);
    var served := SU.CreateUser(repo, emailParses, body.name, body.email, body.password);
    assert svc.createUser(body.name, body.email, body.password) == served.result;
  }

  /** Over `UserServiceImpl` and a user repository, a well-formed login lookup answers 404
      exactly when the repository reports an error, whether no rows or any other. */
  lemma LoginOverService(body: Credentials, repo: C.UserStore, emailParses: string -> bool)
    requires body.email != "" && body.password != "" && emailParses(body.email)
    ensures var r := GetUserByEmailAndPassword(Bound(body), SU.AsService(repo, emailParses), emailParses);
            (r.result.status == StatusNotFound <==> repo.fetchUserByEmailAndPassword(body.email, body.password).Failed?) &&
            (r.result.status == StatusOK <==> !repo.fetchUserByEmailAndPassword(body.email, body.password).Failed?)
  {
    var svc := SU.AsService(repo, emailParses);
    var served := SU.FetchUserByEmailAndPassword(repo, emailParses, body.email, body.password);
    assert svc.fetchUserByEmailAndPassword(body.email, body.password) == served.result;
  }
}
