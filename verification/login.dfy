/**
 * Signing in and out. The login service validates the credentials, marks the
 * user online and persists that once, then returns the credential query's
 * user; logging out marks the user offline, stamps the activity time and
 * persists once. The login view model guards against empty input and
 * records whether the login succeeded and who is signed in.
 */
module Login {
  import opened Wrappers
  import opened Text
  import opened Users
  import opened Persistence
  import opened UserRepositories

  /** What signing in yields on a given table: the guard's error, no user, or the user marked online. */
  function SignedIn(users: seq<UserRecord>, username: string, password: string): (r: Result<Option<UserRecord>, Error>)
    ensures r.Failure? <==> IsNullOrWhiteSpace(username)
    ensures r.Success? ==> (r.value.Some? <==> CheckCredentials(users, username, password) == Success(true))
    ensures r.Success? && r.value.Some? ==>
              r.value.value.onlineStatus && r.value.value.userName == username && r.value.value.password == password
    ensures r.Success? && r.value.Some? ==>
              r.value.value == FirstMatch(users, ByUserName(username)).value.(onlineStatus := true)
  {
    var ok :- CheckCredentials(users, username, password);
    if ok then Success(Some(FirstMatch(users, ByUserName(username)).value.(onlineStatus := true)))
    else Success(None)
  }

  /** After the online write, the credentials still validate and the lookup returns the written record. */
  lemma SignInIsStable(users: seq<UserRecord>, username: string, password: string)
    requires SignedIn(users, username, password).Success? && SignedIn(users, username, password).value.Some?
    ensures CheckCredentials(ReplaceById(users, SignedIn(users, username, password).value.value), username, password)
            == Success(true)
    ensures FirstMatch(ReplaceById(users, SignedIn(users, username, password).value.value), ByUserName(username))
            == SignedIn(users, username, password).value
  {
    LookupAfterUpdate(users, username, SignedIn(users, username, password).value.value);
  }

  class LoginService {
    const repository: UserRepository

    constructor (repository: UserRepository)
      ensures this.repository == repository
    {
      this.repository := repository;
    }

    /** `new LoginService(userRepository)`: a null repository throws. */
    static method Create(repository: UserRepository?) returns (r: Result<LoginService, Error>)
      ensures repository == null <==> r.Failure?
      ensures r.Failure? ==> r.error == ArgumentNull("userRepository")
      ensures r.Success? ==> fresh(r.value) && r.value.repository == repository
    {
      if repository == null {
        return Failure(ArgumentNull("userRepository"));
      }
      var service := new LoginService(repository);
      return Success(service);
    }

    /** Exactly the repository's credential check. */
    method AuthenticateUser(username: string, password: string) returns (r: Result<bool, Error>)
      ensures r == CheckCredentials(repository.link.users, username, password)
    {
      r := repository.ValidateCredentials(username, password);
    }

    /**
     * On valid credentials the user is marked online and written back once, and the
     * credential query's user is returned; otherwise null is returned and nothing is written.
     */
    method GetUserByCredentials(username: string, password: string) returns (r: Result<User?, Error>)
      modifies repository.link`users, repository.link`log
      ensures r.Failure? <==> SignedIn(old(repository.link.users), username, password).Failure?
      ensures r.Failure? ==> r.error == InvalidArgument("Invalid username.", "username")
      ensures r.Success? ==> Delivers(r.value, SignedIn(old(repository.link.users), username, password).value)
      ensures r.Success? && r.value != null ==> fresh(r.value)
      ensures match SignedIn(old(repository.link.users), username, password)
              case Success(Some(rec)) =>
                repository.link.users == ReplaceById(old(repository.link.users), rec) &&
                repository.link.log == old(repository.link.log) + [UpdateUserWrite(rec)]
              case _ => unchanged(repository.link)
    {
      var ok :- repository.ValidateCredentials(username, password);
      if ok {
        // the validation already looked the name up, so this lookup neither throws nor misses
        var lookup := repository.GetUserByUsername(username);
        var found := lookup.value;
        assert found != null;
        found.onlineStatus := true;
        var written := repository.UpdateUser(found);
        SignInIsStable(old(repository.link.users), username, password);
      }
      r := repository.GetUserByCredentials(username, password);
    }

    /** A null user throws; otherwise the user goes offline at `now` and is written back once. */
    method UpdateUserStatusOnLogout(user: User?, now: int) returns (r: Outcome<Error>)
      modifies user, repository.link`users, repository.link`log
      ensures user == null ==> r == Fail(ArgumentNull("user")) && unchanged(repository.link)
      ensures user != null ==> r == Pass
      ensures user != null ==>
                user.Snapshot() == old(user.Snapshot()).(onlineStatus := false, lastActivityDate := Some(now))
      ensures user != null ==>
                repository.link.users == ReplaceById(old(repository.link.users), user.Snapshot()) &&
                repository.link.log == old(repository.link.log) + [UpdateUserWrite(user.Snapshot())]
    {
      if user == null {
        return Fail(ArgumentNull("user"));
      }
      user.onlineStatus := false;
      user.lastActivityDate := Some(now);
      var written := repository.UpdateUser(user);
      return Pass;
    }
  }

  /** The login form's state: whether the last attempt succeeded and who is signed in. */
  class LoginViewModel {
    const loginService: LoginService
    var loginStatus: bool
    var loggedInUser: User?

    constructor (loginService: LoginService)
      ensures this.loginService == loginService && !loginStatus && loggedInUser == null
    {
      this.loginService := loginService;
      loginStatus := false;
      loggedInUser := null;
    }

    /** `new LoginViewModel(loginService)`: a null service throws. */
    static method Create(loginService: LoginService?) returns (r: Result<LoginViewModel, Error>)
      ensures loginService == null <==> r.Failure?
      ensures r.Failure? ==> r.error == ArgumentNull("loginService")
      ensures r.Success? ==> fresh(r.value) && r.value.loginService == loginService
                             && !r.value.loginStatus && r.value.loggedInUser == null
    {
      if loginService == null {
        return Failure(ArgumentNull("loginService"));
      }
      var vm := new LoginViewModel(loginService);
      return Success(vm);
    }

    /**
     * An empty user name or password fails without calling the service. Otherwise the
     * signed-in user is the service's result and the status says whether there is one.
     */
    method AttemptLogin(username: string, password: string) returns (r: Outcome<Error>)
      modifies this`loginStatus, this`loggedInUser, loginService.repository.link`users,
               loginService.repository.link`log
      ensures username == [] || password == [] ==>
                r == Pass && !loginStatus && loggedInUser == old(loggedInUser) &&
                unchanged(loginService.repository.link)
      ensures username != [] && password != [] ==>
                var outcome := SignedIn(old(loginService.repository.link.users), username, password);
                (r.Fail? <==> outcome.Failure?) &&
                (r.Fail? ==> loginStatus == old(loginStatus) && loggedInUser == old(loggedInUser)) &&
                (r.Pass? ==> loginStatus == (loggedInUser != null) && Delivers(loggedInUser, outcome.value))
      ensures username != [] && password != [] ==>
                match SignedIn(old(loginService.repository.link.users), username, password)
                case Success(Some(rec)) =>
                  loginService.repository.link.users == ReplaceById(old(loginService.repository.link.users), rec) &&
                  loginService.repository.link.log == old(loginService.repository.link.log) + [UpdateUserWrite(rec)]
                case _ => unchanged(loginService.repository.link)
    {
      if username == [] || password == [] {
        loginStatus := false;
        return Pass;
      }
      var result := loginService.GetUserByCredentials(username, password);
      if result.Failure? {
        return Fail(result.error);
      }
      loggedInUser := result.value;
      loginStatus := loggedInUser != null;
      return Pass;
    }
  }
}
