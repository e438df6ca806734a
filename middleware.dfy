/** The request middleware: pages outside the authentication flow and the static
    prefixes need a session, and a request without one goes to `/login`, which is told
    where to come back to. */
module Middleware {
  import opened Query

  /** `AUTH_PAGES`. */
  const AuthPages: seq<string> := ["/login", "/auth/callback", "/reset-password", "/accept-invite", "/set-password"]

  /** `prefixes.some((p) => s.startsWith(p))`. */
  predicate StartsWithAny(s: string, prefixes: seq<string>) {
    exists i :: 0 <= i < |prefixes| && prefixes[i] <= s
  }

  predicate IsAuthPage(pathname: string) {
    StartsWithAny(pathname, AuthPages)
  }

  /** The paths that pass without a session check. */
  predicate Bypassed(pathname: string) {
    IsAuthPage(pathname) || "/_next" <= pathname || "/favicon" <= pathname || "/assets" <= pathname
  }

  datatype Decision = PassThrough | RedirectToLogin(url: Target)

  /** `new URL('/login', …)` with `next` set to the path and its search string. */
  function LoginUrl(pathname: string, search: string): Target {
    Target("/login", Set([], "next", pathname + search), "")
  }

  /** `session` says whether the cookies hold a session. Without one, a path that is
      not bypassed is redirected to the login URL; with one, every request passes
      unchanged; bypassed paths pass either way. */
  function Decide(pathname: string, search: string, session: bool): (d: Decision)
    ensures d.RedirectToLogin? <==> !session && !Bypassed(pathname)
    ensures d.RedirectToLogin? ==> d.url == LoginUrl(pathname, search)
  {
    if Bypassed(pathname) then PassThrough
    else if !session then RedirectToLogin(LoginUrl(pathname, search))
    else PassThrough
  }

  /** A path is an authentication page exactly when it starts with one of the five;
      the test is a prefix test, so `/login-x` counts too. */
  lemma AuthPageCases(pathname: string)
    ensures IsAuthPage(pathname) <==>
      ("/login" <= pathname || "/auth/callback" <= pathname || "/reset-password" <= pathname ||
       "/accept-invite" <= pathname || "/set-password" <= pathname)
    ensures IsAuthPage("/login-x")
  {
    if "/login" <= pathname { assert AuthPages[0] <= pathname; }
    if "/auth/callback" <= pathname { assert AuthPages[1] <= pathname; }
    if "/reset-password" <= pathname { assert AuthPages[2] <= pathname; }
    if "/accept-invite" <= pathname { assert AuthPages[3] <= pathname; }
    if "/set-password" <= pathname { assert AuthPages[4] <= pathname; }
    assert AuthPages[0] <= "/login-x";
  }

  /** The login URL carries exactly one parameter, `next`, holding the path and the
      search string. */
  lemma LoginUrlNext(pathname: string, search: string)
    ensures LoginUrl(pathname, search) == Target("/login", [Param("next", pathname + search)], "")
  {
    SetFresh([], "next", pathname + search);
  }

  /** Four pages of the flow are not exempt: without a session they redirect to
      `/login`. */
  lemma FlowPagesNeedSession(search: string)
    ensures Decide("/auth/accept", search, false).RedirectToLogin?
    ensures Decide("/auth/cb", search, false).RedirectToLogin?
    ensures Decide("/auth/recovery", search, false).RedirectToLogin?
    ensures Decide("/auth/new-password", search, false).RedirectToLogin?
  {
    NotAuthPage("/auth/accept");
    NotAuthPage("/auth/cb");
    assert "/auth/recovery" == "/auth/" + "recovery";
    assert !("/auth/callback" <= "/auth/recovery") by { assert "/auth/callback"[6] != "/auth/recovery"[6]; }
    NotAuthPage("/auth/recovery");
    assert "/auth/new-password" == "/auth/" + "new-password";
    assert !("/auth/callback" <= "/auth/new-password") by { assert "/auth/callback"[6] != "/auth/new-password"[6]; }
    NotAuthPage("/auth/new-password");
  }

  /** A path under `/auth/` other than `/auth/callback…` is neither an authentication
      page nor a static prefix. */
  lemma NotAuthPage(pathname: string)
    requires "/auth/" <= pathname && !("/auth/callback" <= pathname)
    ensures !Bypassed(pathname)
  {
    assert pathname[1] == 'a';
    assert !("/login" <= pathname) by { assert "/login"[1] == 'l'; }
    assert !("/reset-password" <= pathname) by { assert "/reset-password"[1] == 'r'; }
    assert !("/accept-invite" <= pathname) by { assert pathname[2] == 'u' && "/accept-invite"[2] == 'c'; }
    assert !("/set-password" <= pathname) by { assert "/set-password"[1] == 's'; }
    assert !("/_next" <= pathname) by { assert "/_next"[1] == '_'; }
    assert !("/favicon" <= pathname) by { assert "/favicon"[1] == 'f'; }
    assert !("/assets" <= pathname) by { assert pathname[2] == 'u' && "/assets"[2] == 's'; }
    AuthPageCases(pathname);
  }
}
