/**
 * The two decisions of the reset-password page: whether a submitted pair of
 * passwords is sent to the store, and where a page served over https sends
 * the browser instead.
 */
module ResetPage {
  import opened Wrappers
  import opened AuthStore

  const MinPasswordLength: nat := 6
  const PasswordsDoNotMatch := "Passwords do not match"
  const PasswordTooShort := "Password must be at least 6 characters long"

  /** The verdict of the submit handler's two early returns. */
  datatype Check = Mismatch | TooShort | Accepted

  /** The mismatch check comes first, the length check second. */
  function CheckSubmit(password: string, confirmPassword: string): (c: Check)
    ensures c == Accepted <==> password == confirmPassword && |password| >= MinPasswordLength
    ensures c == Mismatch <==> password != confirmPassword
    ensures c == TooShort <==> password == confirmPassword && |password| < MinPasswordLength
  {
    if password != confirmPassword then Mismatch
    else if |password| < MinPasswordLength then TooShort
    else Accepted
  }

  /** The error toast shown for a refused submit; the two refusals read differently. */
  function RefusalText(c: Check): (text: string)
    requires c != Accepted
    ensures text == PasswordsDoNotMatch <==> c == Mismatch
    ensures text == PasswordTooShort <==> c == TooShort
  {
    assert |PasswordsDoNotMatch| != |PasswordTooShort|;
    match c
    case Mismatch => PasswordsDoNotMatch
    case TooShort => PasswordTooShort
  }

  /** A short pair that also differs is reported as a mismatch. */
  lemma MismatchReportedFirst(password: string, confirmPassword: string)
    requires password != confirmPassword
    ensures CheckSubmit(password, confirmPassword) == Mismatch
    ensures RefusalText(CheckSubmit(password, confirmPassword)) == PasswordsDoNotMatch
  {
  }

  datatype Submitted = Refused(toast: string) | Called(request: Request, result: ActionResult)

  /** `handleSubmit`: refuse with a toast, or hand the token and password to
      the store's resetPassword. A rejection of that call is caught here. */
  method HandleSubmit(store: AuthStore, token: string, password: string, confirmPassword: string, reply: Reply)
    returns (outcome: Submitted)
    requires store.Valid()
    modifies store
    ensures store.Valid()
    ensures outcome.Called? <==> CheckSubmit(password, confirmPassword) == Accepted
    ensures outcome.Refused? ==>
      outcome.toast == RefusalText(CheckSubmit(password, confirmPassword)) && unchanged(store)
    ensures outcome.Called? ==>
      outcome.request == Post("/reset-password/" + token, map["password" := password]) &&
      !store.isLoading && store.user == old(store.user) &&
      store.isAuthenticated == old(store.isAuthenticated) &&
      store.isCheckingAuth == old(store.isCheckingAuth) &&
      (reply.Ok? ==> store.message == reply.data.message && store.error.None? &&
                     outcome.result == Returned(Some(reply.data))) &&
      (reply.Err? ==> store.message.None? && store.error == Some(ErrorText(reply.serverMessage, ResetFailed)) &&
                      outcome.result == Threw(ErrorText(reply.serverMessage, ResetFailed)))
  {
    if password != confirmPassword {
      return Refused(PasswordsDoNotMatch);
    }
    if |password| < MinPasswordLength {
      return Refused(PasswordTooShort);
    }
    var request, result := store.ResetPassword(token, password, reply);
    outcome := Called(request, result);
  }

  /** The parts of the current address the page reads: protocol, hostname and
      port from `window.location`, the path from the router's `useLocation()`
      (the two are taken to agree, with no router base path). */
  datatype Location = Location(protocol: string, hostname: string, port: string, pathname: string)

  /** `:port`, or nothing for the scheme's default port. */
  function PortSuffix(port: string): (suffix: string)
    ensures port == "" ==> suffix == ""
    ensures port != "" ==> |suffix| == |port| + 1 && suffix[0] == ':' && suffix[1..] == port
  {
    if port != "" then ":" + port else ""
  }

  /** The address of a location without query or fragment, as the browser writes it. */
  function Href(loc: Location): string
  {
    loc.protocol + "//" + loc.hostname + PortSuffix(loc.port) + loc.pathname
  }

  /** `httpUrl`: the same host, port and path, reached over plain http. */
  function HttpUrl(loc: Location): (url: string)
    ensures url == Href(loc.(protocol := "http:"))
  {
    "http://" + loc.hostname + PortSuffix(loc.port) + loc.pathname
  }

  /** The address the page sends the browser to, if any. */
  function RedirectTarget(loc: Location): (target: Option<string>)
    ensures target.Some? <==> loc.protocol == "https:"
    ensures target.Some? ==> target.value == Href(loc.(protocol := "http:"))
  {
    if loc.protocol == "https:" then Some(HttpUrl(loc)) else None
  }

  /** The page reached by the redirect does not redirect again. */
  lemma RedirectSettles(loc: Location)
    ensures RedirectTarget(loc.(protocol := "http:")) == None
  {
  }
}
