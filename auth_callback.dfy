/** The `/auth/callback` page: once per mount, it turns the link's artifact into a
    session (a token hash verified as a one-time password, or a PKCE code of RFC 7636
    exchanged), waits for the session to be stored, and navigates. */
module AuthCallback {
  import opened Common
  import opened Query
  import opened Browser
  import opened BrowserClient
  import opened Polling

  /** The session checks after a verification. */
  const Attempts: nat := 12

  /** What the link carries, in the order the page tries it. */
  datatype Artifact = OtpToken(token: string, kind: string) | PkceCode(code: string) | NoArtifact

  function CallbackArtifact(params: Params): (a: Artifact)
    ensures a.OtpToken? <==> Truthy(Get(params, "token")) && Truthy(Get(params, "type"))
    ensures a.PkceCode? <==> !a.OtpToken? && Truthy(Get(params, "code"))
    ensures a.OtpToken? ==> Get(params, "token") == Some(a.token) && Get(params, "type") == Some(a.kind)
    ensures a.PkceCode? ==> Get(params, "code") == Some(a.code)
  {
    var token := Get(params, "token");
    var kind := Get(params, "type");
    var code := Get(params, "code");
    if Truthy(token) && Truthy(kind) then OtpToken(token.value, kind.value)
    else if Truthy(code) then PkceCode(code.value)
    else NoArtifact
  }

  /** `params.get('next') || '/'`. */
  function NextUrl(params: Params): string {
    GetOr(params, "next", "/")
  }

  /** Where one run of the effect leads. `initial` is the first session check,
      `verify`/`exchange` the identity service's answers, `polls` the later checks. */
  function Destination(params: Params, initial: bool, verify: Outcome, exchange: Outcome,
                       polls: seq<bool>): (r: string)
    ensures r == NextUrl(params) || r == "/login" || r == "/"
    ensures r == "/" && NextUrl(params) != "/" ==> !initial && FirstHit(polls, Attempts).None?
  {
    var next := NextUrl(params);
    if initial then next
    else
      var a := CallbackArtifact(params);
      if a.NoArtifact? then "/login"
      else if (a.OtpToken? && verify.Failed?) || (a.PkceCode? && exchange.Failed?) then "/login"
      else if FirstHit(polls, Attempts).Some? then next
      else "/"
  }

  /** The artifact was turned into a session: there was one, and its call did not fail. */
  predicate ArtifactAccepted(params: Params, verify: Outcome, exchange: Outcome) {
    var a := CallbackArtifact(params);
    !a.NoArtifact? && !(a.OtpToken? && verify.Failed?) && !(a.PkceCode? && exchange.Failed?)
  }

  /** The alert shown when no check finds the stored session. */
  const NotStoredAlert :=
    "Signed in, but session not stored. Check Codespaces port 3000 is Public and Supabase redirect URLs match exactly."

  /** An existing session goes to `next` whatever the link holds; without an artifact
      or after a refused artifact the page goes to `/login`; the one-time password wins
      over a code. */
  lemma DestinationCases(params: Params, initial: bool, verify: Outcome, exchange: Outcome, polls: seq<bool>)
    ensures initial ==> Destination(params, initial, verify, exchange, polls) == NextUrl(params)
    ensures !initial && CallbackArtifact(params).NoArtifact? ==>
      Destination(params, initial, verify, exchange, polls) == "/login"
    ensures !initial && Truthy(Get(params, "token")) && Truthy(Get(params, "type")) ==>
      Destination(params, initial, verify, exchange, polls) ==
      Destination(params, initial, verify, Failed("unused"), polls)
    ensures !initial && ((CallbackArtifact(params).OtpToken? && verify.Failed?) ||
                         (CallbackArtifact(params).PkceCode? && exchange.Failed?)) ==>
      Destination(params, initial, verify, exchange, polls) == "/login"
  {
  }

  /** After a successful verification the page goes to `next` exactly when one of the 12
      checks finds the session, and to `/` when none does. */
  lemma DestinationPolls(params: Params, verify: Outcome, exchange: Outcome, polls: seq<bool>)
    requires !CallbackArtifact(params).NoArtifact?
    requires CallbackArtifact(params).OtpToken? ==> verify.Done?
    requires CallbackArtifact(params).PkceCode? ==> exchange.Done?
    ensures var d := Destination(params, false, verify, exchange, polls);
      (d == NextUrl(params) || d == "/") &&
      ((exists j :: 0 <= j < Attempts && SessionAt(polls, j)) ==> d == NextUrl(params)) &&
      ((forall j :: 0 <= j < Attempts ==> !SessionAt(polls, j)) ==> d == "/")
  {
    if exists j :: 0 <= j < Attempts && SessionAt(polls, j) {
      var j :| 0 <= j < Attempts && SessionAt(polls, j);
      assert FirstHit(polls, Attempts).Some?;
    }
  }

  class CallbackPage {
    /** The `ran` ref. */
    var ran: bool

    constructor ()
      ensures !ran
    {
      ran := false;
    }

    /** One run of the effect. `nav` is the navigation (none when the effect already
        ran), `exchanged` the location handed to the code exchange, and `checks` the
        number of session checks after the verification; `alert` is the text of the
        `alert` call after 12 checks without a session. */
    method Effect(w: Window, initial: bool, verify: Outcome, exchange: Outcome, polls: seq<bool>)
      returns (nav: Option<string>, exchanged: Option<Target>, checks: nat, alert: Option<string>)
      modifies this`ran, w`url
      ensures ran
      ensures old(ran) ==> nav.None? && exchanged.None? && checks == 0 && w.url == old(w.url)
      ensures !old(ran) ==> w.url == Sanitised(old(w.url))
      ensures !old(ran) ==> nav == Some(Destination(old(w.url.query), initial, verify, exchange, polls))
      ensures exchanged.Some? <==>
        !old(ran) && !initial && CallbackArtifact(old(w.url.query)).PkceCode?
      ensures exchanged.Some? ==> exchanged.value == Sanitised(old(w.url))
      ensures checks <= Attempts
      ensures checks > 0 ==> checks == if FirstHit(polls, Attempts).Some? then FirstHit(polls, Attempts).value + 1 else Attempts
      ensures alert.Some? <==>
        !old(ran) && !initial && ArtifactAccepted(old(w.url.query), verify, exchange) && FirstHit(polls, Attempts).None?
      ensures alert.Some? ==> alert.value == NotStoredAlert
    {
      nav, exchanged, checks, alert := None, None, 0, None;
      if ran {
        return;
      }
      ran := true;
      var params := w.url.query;
      CreateClient(w, false);
      var url := w.url;
      var next := GetOr(params, "next", "/");
      var token := Get(params, "token");
      var kind := Get(params, "type");
      var code := Get(params, "code");
      if initial {
        nav := Some(next);
        return;
      }
      if Truthy(token) && Truthy(kind) {
        if verify.Failed? {
          nav := Some("/login");
          return;
        }
      } else if Truthy(code) {
        exchanged := Some(url);
        if exchange.Failed? {
          nav := Some("/login");
          return;
        }
      } else {
        nav := Some("/login");
        return;
      }
      var i := 0;
      while i < Attempts
        invariant 0 <= i <= Attempts && checks == i
        invariant forall j :: 0 <= j < i ==> !SessionAt(polls, j)
      {
        var found := SessionAt(polls, i);
        checks := checks + 1;
        if found {
          nav := Some(next);
          return;
        }
        i := i + 1;
      }
      alert := Some(NotStoredAlert);
      nav := Some("/");
    }
  }

  /** The code exchange is handed the location as `createClient` left it: for a link
      carrying only a `code`, that location no longer has the `code`. */
  lemma ExchangeLosesCode(url: Target)
    requires CallbackArtifact(url.query).PkceCode? && !HasImplicitTokens(url)
    ensures !HasKey(Sanitised(url).query, "code")
  {
  }
}
