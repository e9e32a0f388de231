/**
 * The axios response interceptor of frontend/src/App.tsx: an error whose
 * server message is "No token provided" or "Invalid token", on a request
 * not yet marked `_retry`, marks the request, posts the refresh cookie to
 * `auth/refresh`, and either installs the new pair and replays the request
 * or clears both cookies and sends the page to "/sign-in". Every other
 * error is rejected unchanged.
 *
 * The cookie jar, the default Authorization header and the page location
 * are the state of a `Client`; the request's `_retry` flag and its own
 * Authorization header are the state of a `RequestConfig`. The reply of
 * the server to the refresh post is a parameter.
 */
module Interceptor {
  import opened Wrappers
  import opened AxiosErrors

  /** A cookie as `setCookie(name, value, days)` writes it; a negative lifetime expires it. */
  datatype Cookie = Cookie(value: string, days: int)

  const ACCESS_COOKIE: string := "accessToken"
  const REFRESH_COOKIE: string := "refreshToken"
  const SIGN_IN: string := "/sign-in"
  const REFRESH_MESSAGES: seq<string> := ["No token provided", "Invalid token"]

  function Bearer(token: string): string { "Bearer " + token }

  /** Why the interceptor's promise is rejected: an axios error, or the TypeError of reading `error.response.data` when there is no response. */
  datatype Rejection = Rejected(error: AxiosError) | NoResponseRead
  /** What the interceptor resolves to: the replayed request, sent with this Authorization header, or a rejection. */
  datatype Outcome = Replay(authorization: string) | Reject(reason: Rejection)

  /** The answer to the refresh post: a new pair, or the axios error it failed with. */
  datatype RefreshReply = Issued(accessToken: string, refreshToken: string) | Refused(error: AxiosError)

  datatype Session = Session(cookies: map<string, Cookie>, defaultAuthorization: string, location: string)

  /**
   * One run of the interceptor: the new session, the request's new `_retry`
   * flag and Authorization header, the body of the refresh post if one was
   * sent (the refresh cookie's value, None when there is none), and the outcome.
   */
  datatype Step = Step(session: Session, retry: bool, authorization: Option<string>,
                       refreshPosted: Option<Option<string>>, outcome: Outcome)

  /** `getCookie(name)`. */
  function CookieValue(cookies: map<string, Cookie>, name: string): Option<string>
  {
    if name in cookies then Some(cookies[name].value) else None
  }

  /** The first test of the interceptor: a server message naming a missing or invalid token, on a request not yet retried. */
  predicate ShouldRefresh(err: AxiosError, retry: bool)
    requires err.response.Some?
  {
    && err.response.value.error.Some?
    && err.response.value.error.value in REFRESH_MESSAGES
    && !retry
  }

  /**
   * The interceptor with the refresh post answered by `reply` directly (the
   * behaviour the code evidently intends; see RefreshChainAsWritten for the
   * refresh post passing through the interceptor itself).
   */
  function Intercept(s: Session, retry: bool, authorization: Option<string>,
                     err: AxiosError, reply: RefreshReply): (st: Step)
    // at most one refresh per request: a request already retried is rejected with its own error, nothing changed
    ensures retry ==> st == Step(s, retry, authorization, None, Reject(if err.response.None? then NoResponseRead else Rejected(err)))
    // a refresh is posted exactly for the two token messages, with the refresh cookie
    ensures st.refreshPosted.Some? <==> err.response.Some? && ShouldRefresh(err, retry)
    ensures st.refreshPosted.Some? ==> st.refreshPosted.value == CookieValue(s.cookies, REFRESH_COOKIE) && st.retry
    // any other error is rejected as it came, with no cookie, header or location change
    ensures st.refreshPosted.None? ==>
      && st.session == s && st.retry == retry && st.authorization == authorization
      && st.outcome == Reject(if err.response.None? then NoResponseRead else Rejected(err))
    // a new pair: both cookies rewritten for one day, both headers set, the request replayed
    ensures st.refreshPosted.Some? && reply.Issued? ==>
      && st.session.cookies == s.cookies[ACCESS_COOKIE := Cookie(reply.accessToken, 1)][REFRESH_COOKIE := Cookie(reply.refreshToken, 1)]
      && st.session.defaultAuthorization == Bearer(reply.accessToken)
      && st.authorization == Some(Bearer(reply.accessToken))
      && st.session.location == s.location
      && st.outcome == Replay(Bearer(reply.accessToken))
    // a refused refresh: both cookies expired, the page sent to sign-in, the refresh error rejected
    ensures st.refreshPosted.Some? && reply.Refused? ==>
      && st.session.cookies == s.cookies[ACCESS_COOKIE := Cookie("", -1)][REFRESH_COOKIE := Cookie("", -1)]
      && st.session.defaultAuthorization == s.defaultAuthorization
      && st.authorization == authorization
      && st.session.location == SIGN_IN
      && st.outcome == Reject(Rejected(reply.error))
  {
    if err.response.None? then Step(s, retry, authorization, None, Reject(NoResponseRead))
    else if !ShouldRefresh(err, retry) then Step(s, retry, authorization, None, Reject(Rejected(err)))
    else
      var posted := Some(CookieValue(s.cookies, REFRESH_COOKIE));
      match reply
      case Issued(access, refresh) =>
        Step(Session(s.cookies[ACCESS_COOKIE := Cookie(access, 1)][REFRESH_COOKIE := Cookie(refresh, 1)],
                     Bearer(access), s.location),
             true, Some(Bearer(access)), posted, Replay(Bearer(access)))
      case Refused(e) =>
        Step(Session(s.cookies[ACCESS_COOKIE := Cookie("", -1)][REFRESH_COOKIE := Cookie("", -1)],
                     s.defaultAuthorization, SIGN_IN),
             true, authorization, posted, Reject(Rejected(e)))
  }

  /**
   * Retry once: when the replayed request fails again, whatever the error,
   * the interceptor rejects it without a second refresh, so one original
   * request causes at most one refresh post.
   */
  lemma ReplayIsNotRefreshedAgain(s: Session, authorization: Option<string>, err: AxiosError, reply: RefreshReply,
                                  err2: AxiosError, reply2: RefreshReply)
    requires Intercept(s, false, authorization, err, reply).outcome.Replay?
    ensures var st := Intercept(s, false, authorization, err, reply);
      var st2 := Intercept(st.session, st.retry, st.authorization, err2, reply2);
      st2.refreshPosted.None? && st2.outcome.Reject? && st2.session == st.session
  {
  }

  /** The per-request state the interceptor reads and writes: `_retry` and the request's Authorization header. */
  class RequestConfig {
    var retry: bool
    var authorization: Option<string>

    constructor (authorization: Option<string>)
      ensures !retry && this.authorization == authorization
    {
      retry := false;
      this.authorization := authorization;
    }
  }

  /** The browser-side state: the cookie jar, `axios.defaults.headers.common.Authorization`, and `window.location.href`. */
  class Client {
    var cookies: map<string, Cookie>
    var defaultAuthorization: string
    var location: string
    /** The bodies of the refresh posts sent so far, in order. */
    var refreshPosts: seq<Option<string>>

    /** Module load: the default header is built from the access cookie (`Bearer undefined` without one). */
    constructor (cookies: map<string, Cookie>, location: string)
      ensures this.cookies == cookies && this.location == location && refreshPosts == []
      ensures defaultAuthorization == Bearer(CookieValue(cookies, ACCESS_COOKIE).GetOr("undefined"))
    {
      this.cookies := cookies;
      this.location := location;
      defaultAuthorization := Bearer(CookieValue(cookies, ACCESS_COOKIE).GetOr("undefined"));
      refreshPosts := [];
    }

    function CurrentSession(): Session
      reads this
    {
      Session(cookies, defaultAuthorization, location)
    }

    /** The rejection handler registered with `axios.interceptors.response.use`, with the corrected refresh of Intercept. */
    method OnResponseError(err: AxiosError, config: RequestConfig, reply: RefreshReply) returns (outcome: Outcome)
      modifies this, config
      ensures var st := Intercept(old(CurrentSession()), old(config.retry), old(config.authorization), err, reply);
        && CurrentSession() == st.session
        && config.retry == st.retry && config.authorization == st.authorization
        && outcome == st.outcome
        && refreshPosts == old(refreshPosts) + (if st.refreshPosted.Some? then [st.refreshPosted.value] else [])
    {
      if err.response.None? {
        return Reject(NoResponseRead);
      }
      if !ShouldRefresh(err, config.retry) {
        return Reject(Rejected(err));
      }
      config.retry := true;
      var refreshToken := CookieValue(cookies, REFRESH_COOKIE);
      refreshPosts := refreshPosts + [refreshToken];
      match reply {
        case Issued(access, refresh) =>
          cookies := cookies[ACCESS_COOKIE := Cookie(access, 1)];
          cookies := cookies[REFRESH_COOKIE := Cookie(refresh, 1)];
          defaultAuthorization := Bearer(access);
          config.authorization := Some(Bearer(access));
          outcome := Replay(Bearer(access));
        case Refused(e) =>
          cookies := cookies[ACCESS_COOKIE := Cookie("", -1)];
          cookies := cookies[REFRESH_COOKIE := Cookie("", -1)];
          location := SIGN_IN;
          outcome := Reject(Rejected(e));
      }
    }
  }

  // ---------------------------------------------------------------------------
  // The refresh post as written
  // ---------------------------------------------------------------------------

  /**
   * As written, `axios.post("auth/refresh", …)` goes through the same
   * interceptor, on a fresh request config that has no `_retry`. When the
   * server refuses the refresh with one of the two token messages (it does,
   * with "Invalid token", for a spent or expired refresh token, and with "No
   * token provided" when the cookie is gone), that failure triggers another
   * refresh with the same cookie, which the server refuses the same way.
   *
   * The number of refresh posts the outermost request has settled after,
   * when it settles within `fuel` nested posts; None when it has not.
   */
  function RefreshChainAsWritten(reply: RefreshReply, fuel: nat): (r: Option<nat>)
    ensures r.Some? ==> 1 <= r.value <= fuel
    decreases fuel
  {
    if fuel == 0 then None
    else match reply
      case Issued(_, _) => Some(1)
      case Refused(e) =>
        if e.response.Some? && ShouldRefresh(e, false) then
          match RefreshChainAsWritten(reply, fuel - 1)
          case None => None
          case Some(n) => Some(n + 1)
        else Some(1)
  }

  /** As written, a refresh refused with a token message never settles: no bound on the posts suffices, so the cookies are never cleared and the page never leaves. */
  lemma {:induction false} RefusedRefreshNeverSettlesAsWritten(reply: RefreshReply, fuel: nat)
    requires reply.Refused? && reply.error.response.Some? && ShouldRefresh(reply.error, false)
    ensures RefreshChainAsWritten(reply, fuel) == None
    decreases fuel
  {
    if fuel > 0 {
      RefusedRefreshNeverSettlesAsWritten(reply, fuel - 1);
    }
  }

  /** With the refresh post answered directly, a refused refresh takes one post and signs the client out. */
  lemma RefusedRefreshSignsOut(s: Session, authorization: Option<string>, err: AxiosError, reply: RefreshReply)
    requires err.response.Some? && ShouldRefresh(err, false) && reply.Refused?
    ensures var st := Intercept(s, false, authorization, err, reply);
      && st.refreshPosted.Some?
      && st.session.location == SIGN_IN
      && st.session.cookies[ACCESS_COOKIE].days < 0 && st.session.cookies[REFRESH_COOKIE].days < 0
      && st.outcome == Reject(Rejected(reply.error))
  {
  }
}
