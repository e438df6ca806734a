/** The page frame: authentication pages get a bare header, every other page the
    application header and the sidebar; the toaster is in both. */
module LayoutShell {
  import Middleware

  /** The prefixes of the pages drawn without the application chrome. */
  const ChromelessPages: seq<string> :=
    ["/login", "/auth/callback", "/auth/recovery", "/auth/new-password", "/reset-password", "/accept-invite", "/set-password"]

  predicate IsAuthPage(pathname: string) {
    Middleware.StartsWithAny(pathname, ChromelessPages)
  }

  /** What the frame draws around the page. */
  datatype Frame = Frame(appHeader: bool, sidebar: bool, toaster: bool)

  function FrameFor(pathname: string): (f: Frame)
    ensures f.toaster
    ensures f.appHeader == f.sidebar
    ensures f.sidebar <==> !IsAuthPage(pathname)
  {
    if IsAuthPage(pathname) then Frame(false, false, true) else Frame(true, true, true)
  }

  /** Every page the middleware exempts from the session check is also drawn without
      the chrome. */
  lemma MiddlewareExemptIsChromeless(pathname: string)
    requires Middleware.IsAuthPage(pathname)
    ensures IsAuthPage(pathname)
  {
    var i :| 0 <= i < |Middleware.AuthPages| && Middleware.AuthPages[i] <= pathname;
    var j := if i == 0 then 0 else if i == 1 then 1 else i + 2;
    assert ChromelessPages[j] == Middleware.AuthPages[i];
  }

  /** `/auth/recovery` and `/auth/new-password` are drawn without the chrome, yet the
      middleware still asks for a session on them. */
  lemma ChromelessButProtected(search: string)
    ensures IsAuthPage("/auth/recovery") && IsAuthPage("/auth/new-password")
    ensures Middleware.Decide("/auth/recovery", search, false).RedirectToLogin?
    ensures Middleware.Decide("/auth/new-password", search, false).RedirectToLogin?
  {
    assert ChromelessPages[2] <= "/auth/recovery";
    assert ChromelessPages[3] <= "/auth/new-password";
    Middleware.FlowPagesNeedSession(search);
  }
}
