/**
  Logging in and out over plain HTTP (`AuthService` in src/services/auth.ts).

  Login is a fixed sequence of three requests.  The replies are parameters:
  each request consumes the next one, and the run records the requests
  issued, the session afterwards and how the call completed.
 */
module AuthService {
  import opened Results
  import opened Entries
  import opened BaseService

  /** The parts of a `fetch` response the client reads. */
  datatype Response = Response(ok: bool, setCookies: seq<string>, message: Option<string>)

  /** A `fetch` call either resolves with a response or rejects. */
  datatype Delivery = Delivered(response: Response) | Rejected

  datatype Run = Run(requests: seq<Request>, session: Session, outcome: Outcome)

  const IndexPage := "/jsp/wf/index.jsp"
  const RefreshSession := "/login?action=refreshsession"
  const LoginPath := "/login"
  const LogoutPage := "/login/wf/logout.jsp"

  /** The verb and path of the login's n-th request. */
  function LoginStep(n: nat): (Method, string)
    requires n < 3
  {
    [(GET, IndexPage), (POST, RefreshSession), (POST, LoginPath)][n]
  }

  /** The credential body: exactly `username` and `password`, form-encoded. */
  function Credentials(username: string, password: string): Body {
    UrlEncoded([("username", username), ("password", password)])
  }

  /** The token a `Set-Cookie` list carries, when it has an entry. */
  predicate CarriesCookie(d: Delivery) {
    d.Delivered? && d.response.setCookies != []
  }

  /** The `Error` message a failed login throws. */
  function LoginFailure(r: Response): Error {
    Thrown(r.message.GetOr("Something went wrong"))
  }

  /**
    `login({username, password})`: fetch the index page and take its
    session cookie, POST the session refresh with it, POST the credentials,
    take the session cookie of that reply, and only then look at its status.
   */
  function Login(s: Session, username: string, password: string,
                 site: Delivery, refresh: Delivery, answer: Delivery): (run: Run)
    // the requests follow the fixed three-step order and stop at the first failure
    ensures 1 <= |run.requests| <= 3
    ensures forall n :: 0 <= n < |run.requests| ==>
              run.requests[n].verb == LoginStep(n).0
              && run.requests[n].url == Url(Origin(s) + LoginStep(n).1, [])
    ensures |run.requests| == 3 <==> CarriesCookie(site) && refresh.Delivered?
    ensures run.session.host == s.host
    ensures |run.requests| >= 2 ==> CarriesCookie(site)
    // the token is replaced from the login reply before its status is looked at
    ensures |run.requests| == 3 && CarriesCookie(answer) ==>
              run.session.token == CookieToken(answer.response.setCookies[0])
    ensures run.outcome == Pass <==>
              |run.requests| == 3 && CarriesCookie(answer) && answer.response.ok
    ensures |run.requests| == 3 && CarriesCookie(answer) && !answer.response.ok ==>
              run.outcome == Fail(LoginFailure(answer.response))
    ensures !CarriesCookie(site) ==> run.session == s
    // a failure after the index page keeps the token that page set
    ensures CarriesCookie(site) && !(|run.requests| == 3 && CarriesCookie(answer)) ==>
              run.session == Session(s.host, CookieToken(site.response.setCookies[0]))
    // which error each step raises
    ensures site.Rejected? ==> run.outcome == Fail(TransportFault)
    ensures site.Delivered? && !CarriesCookie(site) ==> run.outcome == Fail(TypeFault)
    ensures CarriesCookie(site) && refresh.Rejected? ==> run.outcome == Fail(TransportFault)
    ensures |run.requests| == 3 && answer.Rejected? ==> run.outcome == Fail(TransportFault)
    ensures |run.requests| == 3 && answer.Delivered? && !CarriesCookie(answer) ==> run.outcome == Fail(TypeFault)
  {
    var first := Fetch(s, IndexPage, NoOptions);
    match site
    case Rejected => Run([first], s, Fail(TransportFault))
    case Delivered(page) =>
      match SetSession(s, page.setCookies)
      case Err(e) => Run([first], s, Fail(e))
      case Ok(s1) =>
        var second := Fetch(s1, RefreshSession, FetchOptions(Some(POST), [], NoBody));
        if refresh.Rejected? then Run([first, second], s1, Fail(TransportFault))
        else
          var third := Fetch(s1, LoginPath, FetchOptions(Some(POST), [], Credentials(username, password)));
          match answer
          case Rejected => Run([first, second, third], s1, Fail(TransportFault))
          case Delivered(reply) =>
            match SetSession(s1, reply.setCookies)
            case Err(e) => Run([first, second, third], s1, Fail(e))
            case Ok(s2) =>
              Run([first, second, third], s2, if reply.ok then Pass else Fail(LoginFailure(reply)))
  }

  /**
    What the login's requests carry: the first the old token, the others
    the one the index page set; only the last has a body, the credentials.
   */
  lemma LoginRequests(s: Session, username: string, password: string,
                      site: Delivery, refresh: Delivery, answer: Delivery)
    ensures var run := Login(s, username, password, site, refresh, answer);
            && Get(run.requests[0].headers, "Cookie") == Some(SessionCookie(s.token))
            && run.requests[0].body == NoBody
            && (forall n :: 1 <= n < |run.requests| && CarriesCookie(site) ==>
                  Get(run.requests[n].headers, "Cookie")
                  == Some(SessionCookie(CookieToken(site.response.setCookies[0]))))
            && (|run.requests| == 3 ==>
                  run.requests[1].body == NoBody && run.requests[2].body == Credentials(username, password))
  {
  }

  /** A failed login still leaves the token of its reply behind. */
  lemma FailedLoginReplacesToken(s: Session, username: string, password: string,
                                 site: Delivery, refresh: Delivery, reply: Response)
    requires CarriesCookie(site) && refresh.Delivered?
    requires reply.setCookies != [] && !reply.ok
    ensures Login(s, username, password, site, refresh, Delivered(reply)).session.token
            == CookieToken(reply.setCookies[0])
    ensures Login(s, username, password, site, refresh, Delivered(reply)).outcome.Fail?
  {
  }

  /** The failure message: the `message` header when present, even if empty. */
  lemma LoginFailureMessage(r: Response)
    ensures r.message == None ==> LoginFailure(r) == Thrown("Something went wrong")
    ensures r.message == Some("") ==> LoginFailure(r) == Thrown("")
  {
  }

  /** `logout()`: one GET of the logout page with the current token; the session is kept. */
  function Logout(s: Session, d: Delivery): (run: Run)
    ensures |run.requests| == 1
    ensures run.requests[0].verb == GET && run.requests[0].url == Url(Origin(s) + LogoutPage, [])
    ensures Get(run.requests[0].headers, "Cookie") == Some(SessionCookie(s.token))
    ensures run.session == s
    ensures run.outcome == Pass <==> d.Delivered?
  {
    Run([Fetch(s, LogoutPage, NoOptions)], s, if d.Delivered? then Pass else Fail(TransportFault))
  }
}
