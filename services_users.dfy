/** services/users/users.go: `UserServiceImpl` over a user repository. `emailParses` stands for
    `mail.ParseAddress(·)` succeeding. */
module ServicesUsers {
  import opened Outcomes
  import opened Models
  import C = Collaborators

  const CredentialsRequired := "email and password are required"
  const InvalidEmail := "invalid email format"
  const UserNotFound := "user not found"
  const FieldsRequired := "name, email and password are required"
  const UserExists := "user already exists"
  const CreateFailed := "failed to create user"

  function FetchUsers(repo: C.UserStore): (r: C.Traced<Result<seq<User>>>)
    ensures r.result == repo.fetchUsers
    ensures r.calls == [C.FetchUsers]
  {
    C.Traced(repo.fetchUsers, [C.FetchUsers])
  }

  function FetchUserById(repo: C.UserStore, id: string): (r: C.Traced<Fetch<User>>)
    ensures r.result == repo.fetchUserById(id)
    ensures r.calls == [C.FetchUserById(id)]
  {
    C.Traced(repo.fetchUserById(id), [C.FetchUserById(id)])
  }

  function FetchUserByEmail(repo: C.UserStore, email: string): (r: C.Traced<Fetch<User>>)
    ensures r.result == repo.fetchUserByEmail(email)
    ensures r.calls == [C.FetchUserByEmail(email)]
  {
    C.Traced(repo.fetchUserByEmail(email), [C.FetchUserByEmail(email)])
  }

  function FetchUserByEmailAndPassword(repo: C.UserStore, emailParses: string -> bool,
                                       email: string, password: string): (r: C.Traced<Fetch<User>>)
    ensures r.calls <= [C.FetchUserByEmailAndPassword(email, password)]
    // the emptiness check comes first, the format check second; neither asks the repository
    // (a repository error may carry the same texts, so these are one-way)
    ensures (email == "" || password == "") ==> r.result == Failed(Message(CredentialsRequired))
    ensures email != "" && password != "" && !emailParses(email) ==>
              r.result == Failed(Message(InvalidEmail))
    ensures r.calls == [] <==> email == "" || password == "" || !emailParses(email)
    // once asked, the repository's answer decides: no rows becomes "user not found",
    // any other error passes unchanged, and so do a user and a nil answer
    ensures r.calls != [] ==>
              var answer := repo.fetchUserByEmailAndPassword(email, password);
              (answer == Failed(ErrNoRows) ==> r.result == Failed(Message(UserNotFound))) &&
              (answer != Failed(ErrNoRows) ==> r.result == answer)
  {
    if email == "" || password == "" then
      C.Traced(Failed(Message(CredentialsRequired)), [])
    else if !emailParses(email) then
      C.Traced(Failed(Message(InvalidEmail)), [])
    else
      var answer := repo.fetchUserByEmailAndPassword(email, password);
      var calls := [C.FetchUserByEmailAndPassword(email, password)];
      if answer.Failed? && answer.err == ErrNoRows then C.Traced(Failed(Message(UserNotFound)), calls)
      else if answer.Failed? then C.Traced(Failed(answer.err), calls)
      else C.Traced(answer, calls)
  }

  predicate HasRequiredFields(name: string, email: string, password: string) {
    name != "" && email != "" && password != ""
  }

  function CreateChain(name: string, email: string, password: string): seq<C.Call> {
    [C.FetchUserByEmail(email), C.CreateUser(name, email, password)]
  }

  function CreateUser(repo: C.UserStore, emailParses: string -> bool,
                      name: string, email: string, password: string): (r: C.Traced<Result<()>>)
    ensures r.calls <= CreateChain(name, email, password)
    ensures r.result.Err? ==> r.result.err.Message?
    ensures !HasRequiredFields(name, email, password) <==> r.result == Err(Message(FieldsRequired))
    ensures r.result == Err(Message(InvalidEmail)) <==>
              HasRequiredFields(name, email, password) && !emailParses(email)
    ensures r.calls == [] <==> !HasRequiredFields(name, email, password) || !emailParses(email)
    // an existing user (no error and a non-nil record) stops the creation
    ensures r.result == Err(Message(UserExists)) <==>
              r.calls != [] && repo.fetchUserByEmail(email).Found?
    ensures r.result == Err(Message(UserExists)) ==> r.calls == [C.FetchUserByEmail(email)]
    // a lookup error or a nil answer both let the creation go ahead
    ensures |r.calls| == 2 <==> r.calls != [] && repo.fetchUserByEmail(email).Absent()
    ensures r.result == Err(Message(CreateFailed)) <==>
              |r.calls| == 2 && repo.createUser(name, email, password).Err?
    ensures r.result.Ok? <==> |r.calls| == 2 && repo.createUser(name, email, password).Ok?
  {
    if name == "" || email == "" || password == "" then
      C.Traced(Err(Message(FieldsRequired)), [])
    else if !emailParses(email) then
      C.Traced(Err(Message(InvalidEmail)), [])
    else
      var existing := repo.fetchUserByEmail(email);
      if existing.Found? then
        C.Traced(Err(Message(UserExists)), [C.FetchUserByEmail(email)])
      else
        var created := repo.createUser(name, email, password);
        var calls := CreateChain(name, email, password);
        if created.Err? then C.Traced(Err(Message(CreateFailed)), calls)
        else C.Traced(Ok(()), calls)
  }

  /** `UserServiceImpl` seen through the `UserService` interface the handlers use. */
  function AsService(repo: C.UserStore, emailParses: string -> bool): C.UserStore {
    C.UserStore(
      FetchUsers(repo).result,
      (e, p) => FetchUserByEmailAndPassword(repo, emailParses, e, p).result,
      id => FetchUserById(repo, id).result,
      e => FetchUserByEmail(repo, e).result,
      (n, e, p) => CreateUser(repo, emailParses, n, e, p).result)
  }
}
