/** The login pages in front of a route, and what a browser sees that follows them. */
module Login {
  import opened Bytes
  import opened Redirect
  import opened Session

  /** `/___login___` and `/___logout___` */
  const LOGIN_PATH: seq<byte> := [47, 95, 95, 95, 108, 111, 103, 105, 110, 95, 95, 95]
  const LOGOUT_PATH: seq<byte> := [47, 95, 95, 95, 108, 111, 103, 111, 117, 116, 95, 95, 95]

  /** `redirect` */
  const REDIRECT_PARAM: seq<byte> := [114, 101, 100, 105, 114, 101, 99, 116]

  /** The lifetime of a session in seconds. */
  const SESSION_TTL: int := 24 * 3600

  /** A Unix time, in seconds, far from the ends of 64 bits. */
  type Clock = t: int | -0x4000_0000_0000_0000 <= t < 0x4000_0000_0000_0000

  datatype Credentials = Credentials(user: seq<byte>, password: seq<byte>)

  datatype HttpMethod = GET | POST | Other

  /** A request: the path, the raw query and the request URI as parsed, the session cookie if there is one
      and the posted form, absent if it does not parse. */
  datatype Request = Request(verb: HttpMethod, path: seq<byte>, query: seq<byte>, uri: seq<byte>,
                             cookie: Option<seq<byte>>, form: Option<Credentials>)

  datatype Response =
    | Forwarded
    | ToLogin(target: seq<byte>)
    | LoginPage(action: seq<byte>)
    | SignedIn(cookie: seq<byte>, location: seq<byte>)
    | SignedOut
    | NotAllowed

  /** The password of the first entry for the user, or nothing. */
  function LookupUser(users: seq<Credentials>, user: seq<byte>): seq<byte>
    decreases |users|
  {
    if users == [] then []
    else if users[0].user == user then users[0].password
    else LookupUser(users[1..], user)
  }

  function LoginTarget(redirect: seq<byte>): seq<byte> {
    LOGIN_PATH + [QUESTION] + (REDIRECT_PARAM + [EQUALS] + RedirectURLValue(redirect))
  }

  /** The page's form action, as it stands in the HTML text. */
  function RenderedAction(redirect: seq<byte>): seq<byte> {
    HtmlEscape(LoginTarget(redirect))
  }

  function HandleLogin(mac: Mac, users: seq<Credentials>, secret: seq<byte>, now: Clock, r: Request): Response {
    var redirect := SafeRedirect(QueryGet(r.query, REDIRECT_PARAM));
    if r.verb.GET? then LoginPage(RenderedAction(redirect))
    else if !r.verb.POST? then NotAllowed
    else if r.form.None? then LoginPage(RenderedAction(redirect))
    else
      var user, want := r.form.value.user, LookupUser(users, r.form.value.user);
      if want == [] || r.form.value.password != want then LoginPage(RenderedAction(redirect))
      else SignedIn(SignSession(mac, user, now + SESSION_TTL, secret), redirect)
  }

  function HandleSessionAuth(mac: Mac, users: seq<Credentials>, secret: seq<byte>, now: Clock, r: Request): Response {
    if r.path == LOGIN_PATH then HandleLogin(mac, users, secret, now, r)
    else if r.path == LOGOUT_PATH then SignedOut
    else if r.cookie.Some? && VerifySession(mac, r.cookie.value, secret, now) != [] then Forwarded
    else ToLogin(LoginTarget(r.uri))
  }

  // ----- when which answer is given

  /** Entry i is the first for the form's user, and has the form's password, which is not empty. */
  predicate FirstEntryMatches(users: seq<Credentials>, i: nat, form: Credentials) {
    && i < |users| && users[i] == form && form.password != []
    && forall j :: 0 <= j < i ==> users[j].user != form.user
  }

  lemma {:induction false} PasswordOfFirstEntry(users: seq<Credentials>, form: Credentials)
    ensures LookupUser(users, form.user) == form.password && form.password != [] <==>
            exists i: nat :: FirstEntryMatches(users, i, form)
    decreases |users|
  {
    if users != [] {
      var rest := users[1..];
      if users[0].user == form.user {
        assert FirstEntryMatches(users, 0, form) <==> users[0] == form && form.password != [];
      } else {
        PasswordOfFirstEntry(rest, form);
        if i: nat :| FirstEntryMatches(rest, i, form) {
          assert users[i + 1] == form;
          assert FirstEntryMatches(users, i + 1, form) by {
            assert forall j :: 1 <= j < i + 1 ==> users[j] == rest[j - 1];
          }
        }
        if i: nat :| FirstEntryMatches(users, i, form) {
          assert rest[i - 1] == form;
          assert FirstEntryMatches(rest, i - 1, form) by {
            assert forall j :: 0 <= j < i - 1 ==> rest[j] == users[j + 1];
          }
        }
      }
    }
  }

  /** A request signs its user in exactly if it posts to the login path a form whose user and non-empty password
      are the first entry for that user.  Every other post there is answered with the login page. */
  lemma SignedInExactly(mac: Mac, users: seq<Credentials>, secret: seq<byte>, now: Clock, r: Request)
    ensures var answer := HandleSessionAuth(mac, users, secret, now, r);
      && (answer.SignedIn? <==>
            r.path == LOGIN_PATH && r.verb == POST && r.form.Some? && exists i: nat :: FirstEntryMatches(users, i, r.form.value))
      && (r.path == LOGIN_PATH && r.verb == POST ==> answer.SignedIn? || answer.LoginPage?)
  {
    hide LookupUser;
    if r.form.Some? {
      PasswordOfFirstEntry(users, r.form.value);
    }
  }

  /** The other answers: the login page is shown to a GET, other verbs are refused there, the logout path signs
      out, and any other page is forwarded exactly if the cookie is signed and names a user with a later expiry;
      otherwise the browser is sent to the login page with the page it asked for. */
  lemma AnswersByPath(mac: Mac, users: seq<Credentials>, secret: seq<byte>, now: Clock, r: Request)
    ensures var answer := HandleSessionAuth(mac, users, secret, now, r);
      && (answer.LoginPage? ==> r.path == LOGIN_PATH && r.verb != Other)
      && (r.path == LOGIN_PATH && r.verb == GET ==> answer.LoginPage?)
      && (answer == NotAllowed <==> r.path == LOGIN_PATH && r.verb == Other)
      && (answer == SignedOut <==> r.path == LOGOUT_PATH)
      && (r.path != LOGIN_PATH && r.path != LOGOUT_PATH ==>
            if r.cookie.Some? && exists user, dot, payload, exp ::
                 user != [] && Signed(mac, r.cookie.value, secret, dot, payload) && Names(payload, user, exp) && now < exp
            then answer == Forwarded else answer == ToLogin(LoginTarget(r.uri)))
  {
    hide VerifySession, Signed, Names;
    assert LOGIN_PATH[7] != LOGOUT_PATH[7];
    if r.cookie.Some? {
      AcceptedForSome(mac, r.cookie.value, secret, now);
    }
  }

  lemma AcceptedForSome(mac: Mac, value: seq<byte>, secret: seq<byte>, now: int)
    ensures VerifySession(mac, value, secret, now) != [] <==>
            exists user, dot, payload, exp ::
              user != [] && Signed(mac, value, secret, dot, payload) && Names(payload, user, exp) && now < exp
  {
    hide VerifySession, Signed, Names;
    var named := VerifySession(mac, value, secret, now);
    if named != [] {
      AcceptedExactly(mac, value, secret, now, named);
    }
    forall user, dot, payload, exp |
      user != [] && Signed(mac, value, secret, dot, payload) && Names(payload, user, exp) && now < exp
      ensures named != []
    {
      AcceptedExactly(mac, value, secret, now, user);
    }
  }

  // ----- the redirect through the login

  /** The request a browser makes for a target on this host. */
  function Visit(verb: HttpMethod, target: seq<byte>, cookie: Option<seq<byte>>, form: Option<Credentials>): Request {
    var (path, query) := Cut(target, QUESTION);
    Request(verb, path, query, target, cookie, form)
  }

  lemma EscapedIsQuerySafe(s: seq<byte>, c: byte)
    requires !Plain(c) && c != PERCENT
    ensures c !in Escape(s)
  {
    EscapedBytes(s);
  }

  function LoginQuery(redirect: seq<byte>): seq<byte> {
    REDIRECT_PARAM + [EQUALS] + RedirectURLValue(redirect)
  }

  lemma NowhereIn(a: seq<byte>, b: seq<byte>, c: byte)
    requires c !in a && c !in b
    ensures c !in a + b
  {
  }

  lemma QueryIsOnePair(redirect: seq<byte>)
    ensures AMPERSAND !in LoginQuery(redirect) && SEMICOLON !in LoginQuery(redirect)
    ensures Cut(LoginQuery(redirect), EQUALS) == (REDIRECT_PARAM, RedirectURLValue(redirect))
  {
    EscapedIsQuerySafe(SafeRedirect(redirect), AMPERSAND);
    EscapedIsQuerySafe(SafeRedirect(redirect), SEMICOLON);
    NowhereIn(REDIRECT_PARAM + [EQUALS], RedirectURLValue(redirect), AMPERSAND);
    NowhereIn(REDIRECT_PARAM + [EQUALS], RedirectURLValue(redirect), SEMICOLON);
    CutAt(REDIRECT_PARAM, EQUALS, RedirectURLValue(redirect));
  }

  lemma ParamIsPlain()
    ensures Unescape(REDIRECT_PARAM) == Some(REDIRECT_PARAM)
  {
    UnescapePlain(REDIRECT_PARAM);
  }

  lemma QueryGivesRedirect(redirect: seq<byte>)
    ensures QueryGet(LoginQuery(redirect), REDIRECT_PARAM) == SafeRedirect(redirect)
  {
    QueryIsOnePair(redirect);
    hide LoginQuery, QueryGet, RedirectURLValue, SafeRedirect, Cut, Unescape;
    ParamIsPlain();
    ValueRoundTrip(redirect);
    QueryOfOnePair(LoginQuery(redirect), REDIRECT_PARAM, RedirectURLValue(redirect), REDIRECT_PARAM);
  }

  /** A login target leads to the login page and carries the checked redirect. */
  lemma TargetCarriesRedirect(redirect: seq<byte>)
    ensures Cut(LoginTarget(redirect), QUESTION).0 == LOGIN_PATH
    ensures QueryGet(Cut(LoginTarget(redirect), QUESTION).1, REDIRECT_PARAM) == SafeRedirect(redirect)
  {
    CutAt(LOGIN_PATH, QUESTION, LoginQuery(redirect));
    QueryGivesRedirect(redirect);
  }

  lemma {:induction false} UnescapePlain(s: seq<byte>)
    requires forall c :: c in s ==> Plain(c)
    ensures Unescape(s) == Some(s)
    decreases |s|
  {
    if s != [] {
      assert Plain(s[0]);
      UnescapePlain(s[1..]);
      assert s == [s[0]] + s[1..];
    }
  }

  /** The action is not changed by HTML escaping, so the browser reads back what was written. */
  lemma ActionUnchangedByHtml(redirect: seq<byte>)
    ensures RenderedAction(redirect) == LoginTarget(redirect)
  {
    EscapedBytes(SafeRedirect(redirect));
    assert forall c: byte :: Plain(c) || c == PERCENT ==> HtmlSafe(c);
    HtmlEscapeLeaves(LoginTarget(redirect));
  }

  /** A browser whose request `first`, at time `at`, was sent to the login page and that then made these
      visits, each to the target it had and each answered with a login page: the target it has now.  It takes
      a page's action as it stands, for by `ActionUnchangedByHtml` there is nothing in it to unescape. */
  ghost function NextTarget(mac: Mac, users: seq<Credentials>, secret: seq<byte>, first: Request, at: Clock,
                            visits: seq<(Request, Clock)>): Option<seq<byte>>
    decreases |visits|
  {
    if visits == [] then
      match HandleSessionAuth(mac, users, secret, at, first)
      case ToLogin(target) => Some(target)
      case _ => None
    else
      var last := visits[|visits| - 1];
      match NextTarget(mac, users, secret, first, at, visits[..|visits| - 1])
      case None => None
      case Some(target) =>
        if last.0 != Visit(last.0.verb, target, last.0.cookie, last.0.form) then None
        else match HandleSessionAuth(mac, users, secret, last.1, last.0)
          case LoginPage(action) => Some(action)
          case _ => None
  }

  /** Checking the redirect first makes no difference to the target. */
  lemma TargetOfChecked(redirect: seq<byte>)
    ensures LoginTarget(SafeRedirect(redirect)) == LoginTarget(redirect)
    ensures RenderedAction(SafeRedirect(redirect)) == LoginTarget(redirect)
  {
    SafeRedirectIsLocal(redirect);
    ActionUnchangedByHtml(SafeRedirect(redirect));
  }

  /** What the login page answers to a visit of a login target. */
  lemma LoginAnswers(mac: Mac, users: seq<Credentials>, secret: seq<byte>, now: Clock, verb: HttpMethod,
                     redirect: seq<byte>, cookie: Option<seq<byte>>, form: Option<Credentials>)
    ensures match HandleSessionAuth(mac, users, secret, now, Visit(verb, LoginTarget(redirect), cookie, form))
            case LoginPage(action) => action == LoginTarget(redirect)
            case SignedIn(_, location) => verb == POST && location == SafeRedirect(redirect)
            case NotAllowed => verb == Other
            case _ => false
  {
    hide LoginTarget, RenderedAction, SafeRedirect, QueryGet, Cut, LookupUser, SignSession;
    TargetCarriesRedirect(redirect);
    TargetOfChecked(redirect);
    SafeRedirectIsLocal(redirect);
  }

  lemma {:induction false} TargetsKeepRedirect(mac: Mac, users: seq<Credentials>, secret: seq<byte>, first: Request,
                                               at: Clock, visits: seq<(Request, Clock)>, target: seq<byte>)
    requires NextTarget(mac, users, secret, first, at, visits) == Some(target)
    ensures target == LoginTarget(first.uri)
    decreases |visits|
  {
    if visits != [] {
      var last := visits[|visits| - 1];
      var before := NextTarget(mac, users, secret, first, at, visits[..|visits| - 1]).value;
      TargetsKeepRedirect(mac, users, secret, first, at, visits[..|visits| - 1], before);
      LoginAnswers(mac, users, secret, last.1, last.0.verb, first.uri, last.0.cookie, last.0.form);
    }
  }

  /** The redirect survives the login: whatever the first request asked for, and however many login pages
      were shown and answered in vain, the next answer is the same page again or signs the user in and
      leads to the first request's URI, checked. */
  lemma RedirectSurvivesLogin(mac: Mac, users: seq<Credentials>, secret: seq<byte>, first: Request,
                              at: Clock, visits: seq<(Request, Clock)>, target: seq<byte>,
                              cookie: Option<seq<byte>>, form: Option<Credentials>, now: Clock)
    requires NextTarget(mac, users, secret, first, at, visits) == Some(target)
    ensures match HandleSessionAuth(mac, users, secret, now, Visit(POST, target, cookie, form))
            case LoginPage(action) => action == LoginTarget(first.uri)
            case SignedIn(_, location) => location == SafeRedirect(first.uri)
            case _ => false
  {
    TargetsKeepRedirect(mac, users, secret, first, at, visits, target);
    LoginAnswers(mac, users, secret, now, POST, first.uri, cookie, form);
  }

  /** Whatever query a login request carries, signing in leads to a location with one leading slash, not two. */
  lemma LocationIsLocal(mac: Mac, users: seq<Credentials>, secret: seq<byte>, now: Clock, r: Request)
    requires HandleSessionAuth(mac, users, secret, now, r).SignedIn?
    ensures LocalPath(HandleSessionAuth(mac, users, secret, now, r).location)
  {
    SafeRedirectIsLocal(QueryGet(r.query, REDIRECT_PARAM));
  }

  /** A browser that is given this location leaves this host exactly if the query's value begins with a slash
      and then, tabs and line breaks aside, a slash or a backslash, and was accepted. */
  lemma LocationStaysUnless(mac: Mac, users: seq<Credentials>, secret: seq<byte>, now: Clock, r: Request)
    requires HandleSessionAuth(mac, users, secret, now, r).SignedIn?
    ensures var value := QueryGet(r.query, REDIRECT_PARAM);
      LeavesHost(HandleSessionAuth(mac, users, secret, now, r).location) <==> LocalPath(value) && SecondSlash(value)
  {
    hide SafeRedirect, QueryGet, LeavesHost, LocalPath, SecondSlash, LookupUser, SignSession;
    SafeRedirectLeavesHost(QueryGet(r.query, REDIRECT_PARAM));
  }

  /** A login target whose redirect begins with a slash and a backslash leads to another host. */
  lemma BackslashLeavesHost(mac: Mac, users: seq<Credentials>, secret: seq<byte>, now: Clock, name: seq<byte>,
                            cookie: Option<seq<byte>>, form: Option<Credentials>)
    ensures match HandleSessionAuth(mac, users, secret, now,
                                    Visit(POST, LoginTarget([SLASH, BACKSLASH] + name), cookie, form))
            case SignedIn(_, location) => LeavesHost(location)
            case _ => true
  {
    hide LoginTarget;
    LoginAnswers(mac, users, secret, now, POST, [SLASH, BACKSLASH] + name, cookie, form);
    BackslashPasses(name);
  }

  lemma SignedInBy(mac: Mac, users: seq<Credentials>, secret: seq<byte>, login: Request, at: Clock)
    requires HandleSessionAuth(mac, users, secret, at, login).SignedIn?
    ensures login.form.Some?
    ensures HandleSessionAuth(mac, users, secret, at, login).cookie
         == SignSession(mac, login.form.value.user, at + SESSION_TTL, secret)
  {
  }

  /** The session that signing in starts: its cookie opens every other page until it expires, if the user
      name is not empty and has no separator, and never otherwise. */
  lemma SessionLasts(mac: Mac, users: seq<Credentials>, secret: seq<byte>, login: Request, at: Clock, r: Request, now: Clock)
    requires HandleSessionAuth(mac, users, secret, at, login).SignedIn?
    requires r.cookie == Some(HandleSessionAuth(mac, users, secret, at, login).cookie)
    requires r.path != LOGIN_PATH && r.path != LOGOUT_PATH
    ensures login.form.Some?
    ensures var user := login.form.value.user;
      HandleSessionAuth(mac, users, secret, now, r)
      == if user != [] && SEPARATOR !in user && now < at + 24 * 60 * 60 then Forwarded else ToLogin(LoginTarget(r.uri))
  {
    SignedInBy(mac, users, secret, login, at);
    Session.RoundTrip(mac, login.form.value.user, at + SESSION_TTL, secret, now);
  }
}
