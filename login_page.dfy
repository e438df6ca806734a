/** The `/login` page: sign-in and sign-up with a return path taken from `?next=`, and
    the password-reset request whose link leads through `/auth/recovery`. */
module LoginPage {
  import opened Common
  import opened Text
  import opened UrlCoding
  import opened Query
  import Middleware
  import Recovery
  import NewPasswordPage

  /** `search.get('next') || '/'`. */
  function NextUrl(search: Params): (r: string)
    ensures Truthy(Get(search, "next")) ==> r == Get(search, "next").value
    ensures !Truthy(Get(search, "next")) ==> r == "/"
  {
    GetOr(search, "next", "/")
  }

  /** The mount effect: with a session the page leaves for `nextUrl` at once. */
  function SessionRedirect(search: Params, hasSession: bool): (nav: Option<string>)
    ensures nav.Some? <==> hasSession
    ensures hasSession ==> nav == Some(NextUrl(search))
  {
    if hasSession then Some(NextUrl(search)) else None
  }

  lemma LoginPathPlain()
    ensures '?' !in "/login" && '#' !in "/login"
  {
  }

  /** A request the middleware sends to `/login` comes back, after signing in, to the
      path and query it asked for. */
  lemma LoginReturnsToRequest(pathname: string, search: string)
    requires pathname + search != ""
    ensures var url := Middleware.LoginUrl(pathname, search);
      NextUrl(ParseTarget(url.path + "?" + Serialize(url.query)).query) == pathname + search
  {
    var url := Middleware.LoginUrl(pathname, search);
    SetFresh([], "next", pathname + search);
    assert url.query == [Param("next", pathname + search)];
    LoginPathPlain();
    ParseQueryTarget("/login", url.query);
  }

  /** Sign-up's `full_name`: the text before the first `@`, or the whole address. */
  function FullName(email: string): string {
    Split(email, '@')[0]
  }

  lemma FullNameIsLocalPart(email: string)
    ensures FullName(email) <= email && '@' !in FullName(email)
    ensures |FullName(email)| < |email| ==> email[|FullName(email)|] == '@'
    ensures '@' !in email ==> FullName(email) == email
  {
    SplitHead(email, '@');
  }

  /** The address the reset mail leads to. */
  function ResetRedirect(origin: string, email: string): string {
    origin + "/auth/recovery" + "?" + ("em" + "=" + Encode(Component, email))
  }

  lemma RecoveryLinkFacts(origin: string)
    requires '?' !in origin && '#' !in origin
    ensures '?' !in origin + "/auth/recovery" && '#' !in origin + "/auth/recovery"
    ensures forall i :: 0 <= i < |"em"| ==> Keeps(Form, "em"[i])
  {
    assert '?' !in "/auth/recovery" && '#' !in "/auth/recovery";
  }

  /** The reset link carries the address as `em`, and the recovery page forwards it to
      the new-password page, which then has no invitation to accept. */
  lemma ResetLinkReachesNewPassword(origin: string, email: string)
    requires '?' !in origin && '#' !in origin
    ensures ParseTarget(ResetRedirect(origin, email)) == Target(origin + "/auth/recovery", [Param("em", email)], "")
    ensures var landing := ParseTarget(Recovery.RecoveryTarget([Param("em", email)]));
      landing == Target("/auth/new-password", [Param("em", email)], "") &&
      NewPasswordPage.InviteId(landing.query) == ""
  {
    RecoveryLinkFacts(origin);
    TargetOfOnePiece(origin + "/auth/recovery", "em", Component, email);
    Recovery.RecoveryForwardsAll([Param("em", email)]);
    assert "em" != "inviteId";
  }

  datatype Mode = SignIn | SignUp

  /** The identity-service call a submission makes. */
  datatype AuthCall =
    | PasswordSignIn(email: string, password: string)
    | PasswordSignUp(email: string, password: string, fullName: string)

  /** `resetPasswordForEmail(email, { redirectTo })`. */
  datatype ResetRequest = ResetRequest(email: string, redirectTo: string)

  class Page {
    var mode: Mode
    var err: Option<string>
    var pending: bool

    constructor ()
      ensures mode == SignIn && err.None? && !pending
    {
      mode := SignIn;
      err := None;
      pending := false;
    }

    method ToggleMode()
      modifies this`mode
      ensures mode == if old(mode) == SignIn then SignUp else SignIn
    {
      mode := if mode == SignIn then SignUp else SignIn;
    }

    /** `submit`: the call matches the mode; success leaves for `nextUrl`, a failure
        shows the service's message or a fallback. */
    method Submit(search: Params, email: string, password: string, reply: Outcome)
      returns (call: AuthCall, nav: Option<string>)
      modifies this`err, this`pending
      ensures mode == SignIn ==> call == PasswordSignIn(email, password)
      ensures mode == SignUp ==> call == PasswordSignUp(email, password, FullName(email))
      ensures !pending
      ensures reply.Done? ==> err.None? && nav == Some(NextUrl(search))
      ensures reply.Failed? ==>
        nav.None? && err == Some(if reply.message != "" then reply.message else "Authentication error")
    {
      err := None;
      pending := true;
      if mode == SignIn {
        call := PasswordSignIn(email, password);
      } else {
        call := PasswordSignUp(email, password, FullName(email));
      }
      if reply.Failed? {
        err := Some(if reply.message != "" then reply.message else "Authentication error");
        nav := None;
      } else {
        nav := Some(NextUrl(search));
      }
      pending := false;
    }

    /** `sendReset`: nothing is sent without an address; otherwise the mail is asked
        for with the recovery link, and a failure shows a message. */
    method SendReset(email: string, origin: string, reply: Outcome)
      returns (request: Option<ResetRequest>, alerted: bool)
      modifies this`err
      ensures email == "" ==> request.None? && !alerted && err == Some("Enter your email first")
      ensures email != "" ==> request == Some(ResetRequest(email, ResetRedirect(origin, email)))
      ensures email != "" && reply.Done? ==> alerted && err.None?
      ensures email != "" && reply.Failed? ==>
        !alerted && err == Some(if reply.message != "" then reply.message else "Failed to send reset email")
    {
      err := None;
      if email == "" {
        err := Some("Enter your email first");
        return None, false;
      }
      request := Some(ResetRequest(email, ResetRedirect(origin, email)));
      if reply.Failed? {
        err := Some(if reply.message != "" then reply.message else "Failed to send reset email");
        alerted := false;
      } else {
        alerted := true;
      }
    }
  }
}
