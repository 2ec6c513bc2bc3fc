/**
 * The client-side authentication store. It holds six observable fields; each
 * action sets some of them, awaits one HTTP call and sets some again
 * according to how the call ended. The call's outcome is a parameter of the
 * action: the response body on a 2xx answer, otherwise the `message` the
 * server put in its error body, if there was an answer and it had one.
 */
module AuthStore {
  import opened Wrappers
  import opened Users

  /** The parts of `response.data` the store reads. */
  datatype Payload = Payload(user: Option<PublicUser>, message: Option<string>)

  /** How the awaited axios call ended. */
  datatype Reply = Ok(data: Payload) | Err(serverMessage: Option<string>)

  /** The HTTP call an action makes, by path below the API base address. */
  datatype Request = Post(path: string, body: map<string, string>) | Get(path: string)

  /** What the action's promise settles to: a value, a fresh `Error(message)`,
      or (checkAuth only) the axios error itself. */
  datatype ActionResult = Returned(data: Option<Payload>) | Threw(message: string) | Rethrew(reply: Reply)

  /** `error.response?.data?.message || fallback`: an absent or empty server
      message falls back to the action's own text. */
  function ErrorText(serverMessage: Option<string>, fallback: string): (text: string)
    ensures serverMessage.Some? && serverMessage.value != "" ==> text == serverMessage.value
    ensures serverMessage.None? || serverMessage.value == "" ==> text == fallback
  {
    if serverMessage.Some? && serverMessage.value != "" then serverMessage.value else fallback
  }

  const SignupFailed := "Error signing up"
  const LoginFailed := "Error logging in"
  const LogoutFailed := "Error logging out"
  const VerifyFailed := "Error verifying email"
  const ForgotFailed := "Error sending reset password email"
  const ResetFailed := "Error resetting password"

  class AuthStore {
    var user: Option<PublicUser>
    var isAuthenticated: bool
    var error: Option<string>
    var isLoading: bool
    var isCheckingAuth: bool
    var message: Option<string>

    /** No user is held while the store says nobody is signed in. */
    ghost predicate Valid()
      reads this
    {
      !isAuthenticated ==> user.None?
    }

    constructor ()
      ensures Valid()
      ensures user.None? && !isAuthenticated && error.None? && !isLoading && isCheckingAuth && message.None?
    {
      user, isAuthenticated, error := None, false, None;
      isLoading, isCheckingAuth, message := false, true, None;
    }

    /** The first `set` of every action but checkAuth: loading, no error and,
        for the two password actions, no message. */
    method Begin(clearMessage: bool)
      requires Valid()
      modifies this
      ensures Valid()
      ensures isLoading && error.None?
      ensures message == (if clearMessage then None else old(message))
      ensures user == old(user) && isAuthenticated == old(isAuthenticated)
      ensures isCheckingAuth == old(isCheckingAuth)
    {
      isLoading, error := true, None;
      if clearMessage {
        message := None;
      }
    }

    /** The failure branch shared by the six actions that start with Begin. */
    method Fail(serverMessage: Option<string>, fallback: string) returns (result: ActionResult)
      requires Valid()
      modifies this
      ensures Valid()
      ensures error == Some(ErrorText(serverMessage, fallback)) && !isLoading
      ensures result == Threw(ErrorText(serverMessage, fallback))
      ensures user == old(user) && isAuthenticated == old(isAuthenticated)
      ensures isCheckingAuth == old(isCheckingAuth) && message == old(message)
    {
      var errorMessage := ErrorText(serverMessage, fallback);
      error, isLoading := Some(errorMessage), false;
      result := Threw(errorMessage);
    }

    /** The success branch of signup, login and verifyEmail. */
    method SignIn(data: Payload) returns (result: ActionResult)
      requires Valid()
      modifies this
      ensures Valid()
      ensures user == data.user && isAuthenticated && !isLoading && result == Returned(Some(data))
      ensures error == old(error) && isCheckingAuth == old(isCheckingAuth) && message == old(message)
    {
      user, isAuthenticated, isLoading := data.user, true, false;
      result := Returned(Some(data));
    }

    method Signup(email: string, password: string, name: string, reply: Reply)
      returns (request: Request, result: ActionResult)
      requires Valid()
      modifies this
      ensures Valid()
      ensures request == Post("/signup", map["email" := email, "password" := password, "name" := name])
      ensures !isLoading && isCheckingAuth == old(isCheckingAuth) && message == old(message)
      ensures reply.Ok? ==>
        user == reply.data.user && isAuthenticated && error.None? && result == Returned(Some(reply.data))
      ensures reply.Err? ==>
        user == old(user) && isAuthenticated == old(isAuthenticated) &&
        error == Some(ErrorText(reply.serverMessage, SignupFailed)) &&
        result == Threw(ErrorText(reply.serverMessage, SignupFailed))
    {
      Begin(false);
      request := Post("/signup", map["email" := email, "password" := password, "name" := name]);
      match reply
      case Ok(data) => result := SignIn(data);
      case Err(serverMessage) => result := Fail(serverMessage, SignupFailed);
    }

    method Login(email: string, password: string, reply: Reply)
      returns (request: Request, result: ActionResult)
      requires Valid()
      modifies this
      ensures Valid()
      ensures request == Post("/login", map["email" := email, "password" := password])
      ensures !isLoading && isCheckingAuth == old(isCheckingAuth) && message == old(message)
      ensures reply.Ok? ==>
        user == reply.data.user && isAuthenticated && error.None? && result == Returned(Some(reply.data))
      ensures reply.Err? ==>
        user == old(user) && isAuthenticated == old(isAuthenticated) &&
        error == Some(ErrorText(reply.serverMessage, LoginFailed)) &&
        result == Threw(ErrorText(reply.serverMessage, LoginFailed))
    {
      Begin(false);
      request := Post("/login", map["email" := email, "password" := password]);
      match reply
      case Ok(data) =>
        result := SignIn(data);
        error := None;
      case Err(serverMessage) => result := Fail(serverMessage, LoginFailed);
    }

    method Logout(reply: Reply) returns (request: Request, result: ActionResult)
      requires Valid()
      modifies this
      ensures Valid()
      ensures request == Post("/logout", map[])
      ensures !isLoading && isCheckingAuth == old(isCheckingAuth) && message == old(message)
      ensures reply.Ok? ==> user.None? && !isAuthenticated && error.None? && result == Returned(None)
      ensures reply.Err? ==>
        user == old(user) && isAuthenticated == old(isAuthenticated) &&
        error == Some(ErrorText(reply.serverMessage, LogoutFailed)) &&
        result == Threw(ErrorText(reply.serverMessage, LogoutFailed))
    {
      Begin(false);
      request := Post("/logout", map[]);
      match reply
      case Ok(_) =>
        user, isAuthenticated, error, isLoading := None, false, None, false;
        result := Returned(None);
      case Err(serverMessage) => result := Fail(serverMessage, LogoutFailed);
    }

    method VerifyEmail(code: string, reply: Reply) returns (request: Request, result: ActionResult)
      requires Valid()
      modifies this
      ensures Valid()
      ensures request == Post("/verify-email", map["code" := code])
      ensures !isLoading && isCheckingAuth == old(isCheckingAuth) && message == old(message)
      ensures reply.Ok? ==>
        user == reply.data.user && isAuthenticated && error.None? && result == Returned(Some(reply.data))
      ensures reply.Err? ==>
        user == old(user) && isAuthenticated == old(isAuthenticated) &&
        error == Some(ErrorText(reply.serverMessage, VerifyFailed)) &&
        result == Threw(ErrorText(reply.serverMessage, VerifyFailed))
    {
      Begin(false);
      request := Post("/verify-email", map["code" := code]);
      match reply
      case Ok(data) => result := SignIn(data);
      case Err(serverMessage) => result := Fail(serverMessage, VerifyFailed);
    }

    method ForgotPassword(email: string, reply: Reply) returns (request: Request, result: ActionResult)
      requires Valid()
      modifies this
      ensures Valid()
      ensures request == Post("/forgot-password", map["email" := email])
      ensures !isLoading && isCheckingAuth == old(isCheckingAuth)
      ensures user == old(user) && isAuthenticated == old(isAuthenticated)
      ensures reply.Ok? ==> message == reply.data.message && error.None? && result == Returned(Some(reply.data))
      ensures reply.Err? ==>
        message.None? && error == Some(ErrorText(reply.serverMessage, ForgotFailed)) &&
        result == Threw(ErrorText(reply.serverMessage, ForgotFailed))
    {
      Begin(true);
      request := Post("/forgot-password", map["email" := email]);
      match reply
      case Ok(data) =>
        message, isLoading := data.message, false;
        result := Returned(Some(data));
      case Err(serverMessage) => result := Fail(serverMessage, ForgotFailed);
    }

    method ResetPassword(token: string, password: string, reply: Reply)
      returns (request: Request, result: ActionResult)
      requires Valid()
      modifies this
      ensures Valid()
      ensures request == Post("/reset-password/" + token, map["password" := password])
      ensures !isLoading && isCheckingAuth == old(isCheckingAuth)
      ensures user == old(user) && isAuthenticated == old(isAuthenticated)
      ensures reply.Ok? ==> message == reply.data.message && error.None? && result == Returned(Some(reply.data))
      ensures reply.Err? ==>
        message.None? && error == Some(ErrorText(reply.serverMessage, ResetFailed)) &&
        result == Threw(ErrorText(reply.serverMessage, ResetFailed))
    {
      Begin(true);
      request := Post("/reset-password/" + token, map["password" := password]);
      match reply
      case Ok(data) =>
        message, isLoading := data.message, false;
        result := Returned(Some(data));
      case Err(serverMessage) => result := Fail(serverMessage, ResetFailed);
    }

    /** Runs on page load with no loading state of its own: it only settles
        who is signed in and ends the initial check. */
    method CheckAuth(reply: Reply) returns (request: Request, result: ActionResult)
      requires Valid()
      modifies this
      ensures Valid()
      ensures request == Get("/check-auth")
      ensures !isCheckingAuth
      ensures isLoading == old(isLoading) && error == old(error) && message == old(message)
      ensures reply.Ok? ==> user == reply.data.user && isAuthenticated && result == Returned(Some(reply.data))
      ensures reply.Err? ==> user.None? && !isAuthenticated && result == Rethrew(reply)
    {
      request := Get("/check-auth");
      match reply
      case Ok(data) =>
        user, isAuthenticated, isCheckingAuth := data.user, true, false;
        result := Returned(Some(data));
      case Err(_) =>
        user, isAuthenticated, isCheckingAuth := None, false, false;
        result := Rethrew(reply);
    }
  }
}
