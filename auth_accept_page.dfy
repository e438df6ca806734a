/** The `/auth/accept` landing page for sign-up, recovery and magic links: it turns
    whichever artifact the link carries into a session, checks the session against the
    expected address, and either continues to `/org` or asks for a password. */
module AuthAcceptPage {
  import opened Common
  import opened Text
  import opened Query
  import opened Browser

  /** The token kinds the page verifies as one-time passwords. */
  predicate OtpKind(kind: string) {
    kind == "signup" || kind == "recovery" || kind == "invite"
  }

  /** `(sp.get('em') || '').toLowerCase()`. */
  function ExpectedEmail(sp: Params): string {
    Lower(GetOr(sp, "em", ""))
  }

  /** The tokens captured from the fragment; the access token is never empty. */
  datatype Tokens = Tokens(access: string, refresh: Option<string>)

  /** The identity call the page makes without an initial session. */
  datatype Attempt =
    | VerifyOtp(kind: string, token: string, email: string)
    | SetSession(access: string, refresh: string)
    | ExchangeCode(code: string)
    | NoAttempt

  /** `access_token || fragmentTokens?.access_token` (and the same for the refresh
      token): the query's token when non-empty, else the fragment's. */
  function Pick(fromQuery: Option<string>, fromFragment: Option<string>): (r: Option<string>)
    ensures Truthy(fromQuery) ==> r == fromQuery
    ensures !Truthy(fromQuery) ==> r == fromFragment
  {
    if Truthy(fromQuery) then fromQuery else fromFragment
  }

  function ChooseAttempt(sp: Params, frag: Option<Tokens>): (a: Attempt)
    ensures a.VerifyOtp? ==> OtpKind(a.kind) && a.token != "" && Get(sp, "token") == Some(a.token)
    ensures a.SetSession? ==> a.access != "" && a.refresh != ""
    ensures a.ExchangeCode? ==> a.code != "" && Get(sp, "code") == Some(a.code)
    ensures a.NoAttempt? ==> !Truthy(Get(sp, "code"))
  {
    var token := Get(sp, "token");
    var kind := Get(sp, "type");
    if Truthy(token) && Truthy(kind) && OtpKind(kind.value) then VerifyOtp(kind.value, token.value, ExpectedEmail(sp))
    else
      var at := Pick(Get(sp, "access_token"), if frag.Some? then Some(frag.value.access) else None);
      var rt := Pick(Get(sp, "refresh_token"), if frag.Some? then frag.value.refresh else None);
      if Truthy(at) && Truthy(rt) then SetSession(at.value, rt.value)
      else if Truthy(Get(sp, "code")) then ExchangeCode(Get(sp, "code").value)
      else NoAttempt
  }

  /** The artifacts in priority order: a one-time password of a known kind; else a
      complete token pair, each token from the query in preference to the fragment;
      else a code; else nothing. */
  lemma AttemptPriority(sp: Params, frag: Option<Tokens>)
    ensures var a := ChooseAttempt(sp, frag);
      var token := Get(sp, "token");
      var kind := Get(sp, "type");
      (a.VerifyOtp? <==> Truthy(token) && Truthy(kind) && OtpKind(kind.value)) &&
      (a.VerifyOtp? ==> a.token == token.value && a.kind == kind.value && a.email == ExpectedEmail(sp)) &&
      (a.SetSession? && Truthy(Get(sp, "access_token")) ==> Some(a.access) == Get(sp, "access_token")) &&
      (a.SetSession? && Truthy(Get(sp, "refresh_token")) ==> Some(a.refresh) == Get(sp, "refresh_token")) &&
      (a.SetSession? && !Truthy(Get(sp, "access_token")) ==> frag.Some? && a.access == frag.value.access) &&
      (a.ExchangeCode? ==> Truthy(Get(sp, "code")) && !a.VerifyOtp?) &&
      (a.NoAttempt? ==> !Truthy(Get(sp, "code"))) &&
      var at := Pick(Get(sp, "access_token"), if frag.Some? then Some(frag.value.access) else None);
      var rt := Pick(Get(sp, "refresh_token"), if frag.Some? then frag.value.refresh else None);
      (!a.VerifyOtp? ==> (a.SetSession? <==> Truthy(at) && Truthy(rt))) &&
      (a.SetSession? ==> Some(a.access) == at && Some(a.refresh) == rt) &&
      (a.ExchangeCode? <==> !a.VerifyOtp? && !(Truthy(at) && Truthy(rt)) && Truthy(Get(sp, "code")))
  {
  }

  /** A token pair is used only whole: with no refresh token anywhere, a code is tried
      instead, and without a code nothing is tried. */
  lemma PairNeedsBoth(sp: Params, access: string)
    requires !Truthy(Get(sp, "token")) && !Truthy(Get(sp, "refresh_token"))
    ensures ChooseAttempt(sp, Some(Tokens(access, None))) ==
      if Truthy(Get(sp, "code")) then ExchangeCode(Get(sp, "code").value) else NoAttempt
  {
  }

  /** What the session check leads to. */
  datatype Result = Stopped(message: string) | AskPassword | ToOrg

  /** The session the page finds after the attempt. */
  datatype Session = Session(email: Option<string>, hasPassword: bool)

  const NoSessionMessage := "Session introuvable. Lien invalide, expiré ou déjà utilisé."

  function ConflictMessage(sessEmail: string, expected: string): string {
    "Vous êtes connecté en tant que " + sessEmail + ". Déconnectez-vous pour utiliser l'email " + expected + "."
  }

  /** The resolution effect. `initial` is the first session check, `attemptError` the
      error of the identity call (`Some("")` for an error without a message), and
      `after` the session found afterwards. */
  function Resolution(sp: Params, frag: Option<Tokens>, initial: bool, attemptError: Option<string>,
                      after: Option<Session>): (r: Result)
    ensures !initial && !ChooseAttempt(sp, frag).NoAttempt? && attemptError.Some? ==>
      r == Stopped(if attemptError.value != "" then attemptError.value else "Impossible de valider le lien.")
    ensures (initial || ChooseAttempt(sp, frag).NoAttempt? || attemptError.None?) && after.None? ==>
      r == Stopped(NoSessionMessage)
    ensures r.ToOrg? ==> after.Some? && after.value.hasPassword
    ensures r.AskPassword? ==> after.Some? && !after.value.hasPassword
  {
    var refused := !initial && !ChooseAttempt(sp, frag).NoAttempt? && attemptError.Some?;
    if refused then Stopped(if attemptError.value != "" then attemptError.value else "Impossible de valider le lien.")
    else if after.None? then Stopped(NoSessionMessage)
    else
      var expected := ExpectedEmail(sp);
      var sessEmail := if after.value.email.Some? then Some(Lower(after.value.email.value)) else None;
      if expected != "" && Truthy(sessEmail) && expected != sessEmail.value then
        Stopped(ConflictMessage(sessEmail.value, expected))
      else if after.value.hasPassword then ToOrg
      else AskPassword
  }

  /** A session for another address than the expected one stops the page: it neither
      goes on nor asks for a password. */
  lemma EmailConflict(sp: Params, frag: Option<Tokens>, initial: bool, attemptError: Option<string>, s: Session)
    requires initial || ChooseAttempt(sp, frag).NoAttempt? || attemptError.None?
    requires ExpectedEmail(sp) != "" && s.email.Some? && Lower(s.email.value) != ""
    requires Lower(s.email.value) != ExpectedEmail(sp)
    ensures Resolution(sp, frag, initial, attemptError, Some(s)).Stopped?
  {
  }

  /** Past the checks, `has_password` decides: `/org`, or the password form. Without an
      expected address, or with a session without an address, there is no conflict. */
  lemma PasswordBranch(sp: Params, frag: Option<Tokens>, initial: bool, attemptError: Option<string>, s: Session)
    requires initial || ChooseAttempt(sp, frag).NoAttempt? || attemptError.None?
    requires ExpectedEmail(sp) == "" || s.email.None? || Lower(s.email.value) == "" ||
             Lower(s.email.value) == ExpectedEmail(sp)
    ensures Resolution(sp, frag, initial, attemptError, Some(s)) == if s.hasPassword then ToOrg else AskPassword
  {
  }

  /** Addresses compare without regard to ASCII case: a session address that differs
      from the expected one only in case is no conflict. */
  lemma CaseInsensitive(em: string, se: string, s: Session, frag: Option<Tokens>)
    requires Lower(em) != "" && s.email == Some(se) && Lower(se) == Lower(em)
    ensures var sp := [Param("em", em)];
      Resolution(sp, frag, true, None, Some(s)) == if s.hasPassword then ToOrg else AskPassword
  {
    var sp := [Param("em", em)];
    assert GetOr(sp, "em", "") == em;
  }

  class Page {
    var fragmentTokens: Option<Tokens>
    var loading: bool
    var needsPassword: bool
    var msg: string
    var busy: bool

    constructor ()
      ensures fragmentTokens.None? && loading && !needsPassword && msg == "" && !busy
    {
      fragmentTokens := None;
      loading := true;
      needsPassword := false;
      msg := "";
      busy := false;
    }

    /** The fragment effect: tokens are taken once, only from a fragment holding
        `access_token=` with a non-empty value, and the fragment is then cleared. */
    method CaptureFragment(w: Window)
      modifies this`fragmentTokens, w`url
      ensures var hash := old(w.url.hash);
        var params := if hash == [] then [] else Parse(hash[1..]);
        if old(fragmentTokens).None? && Contains(hash, "access_token=") && Truthy(Get(params, "access_token"))
        then fragmentTokens == Some(Tokens(Get(params, "access_token").value,
                                           if Truthy(Get(params, "refresh_token")) then Get(params, "refresh_token") else None)) &&
             w.url == old(w.url).(hash := "")
        else fragmentTokens == old(fragmentTokens) && w.url == old(w.url)
    {
      if fragmentTokens.Some? {
        return;
      }
      var hash := w.url.hash;
      if Contains(hash, "access_token=") {
        var params := if hash == [] then [] else Parse(hash[1..]);
        var at := Get(params, "access_token");
        var rt := Get(params, "refresh_token");
        if Truthy(at) {
          fragmentTokens := Some(Tokens(at.value, if Truthy(rt) then rt else None));
          w.url := w.url.(hash := "");
        }
      }
    }

    /** The resolution effect; `nav` is the redirect. */
    method Resolve(sp: Params, initial: bool, attemptError: Option<string>, after: Option<Session>)
      returns (nav: Option<string>)
      modifies this`msg, this`loading, this`needsPassword
      ensures !loading
      ensures var r := Resolution(sp, fragmentTokens, initial, attemptError, after);
        (r.Stopped? ==> msg == r.message && nav.None? && needsPassword == old(needsPassword)) &&
        (r == AskPassword ==> needsPassword && nav.None? && msg == old(msg)) &&
        (r == ToOrg ==> nav == Some("/org") && msg == old(msg) && needsPassword == old(needsPassword))
    {
      ghost var r := Resolution(sp, fragmentTokens, initial, attemptError, after);
      nav := None;
      if !initial {
        var attempt := ChooseAttempt(sp, fragmentTokens);
        if !attempt.NoAttempt? && attemptError.Some? {
          msg := if attemptError.value != "" then attemptError.value else "Impossible de valider le lien.";
          assert r == Stopped(msg);
          loading := false;
          return;
        }
      }
      if after.None? {
        msg := NoSessionMessage;
        assert r == Stopped(msg);
        loading := false;
        return;
      }
      var expected := ExpectedEmail(sp);
      var sessEmail := if after.value.email.Some? then Some(Lower(after.value.email.value)) else None;
      if expected != "" && Truthy(sessEmail) && expected != sessEmail.value {
        msg := ConflictMessage(sessEmail.value, expected);
        assert r == Stopped(msg);
        loading := false;
        return;
      }
      if !after.value.hasPassword {
        needsPassword := true;
        assert r == AskPassword;
      } else {
        nav := Some("/org");
        assert r == ToOrg;
      }
      loading := false;
    }

    /** `submitPassword`. The length is checked first (in UTF-16 code units), then the
        confirmation, both before any request. `session` says whether a session is
        found, `reply` is the password route's answer. */
    method SubmitPassword(password: string, confirm: string, session: bool, reply: Outcome)
      returns (posted: bool, nav: Option<string>)
      modifies this`msg, this`busy
      ensures Utf16Length(password) < 8 ==>
        !posted && nav.None? && msg == "Mot de passe trop court (min 8)." && busy == old(busy)
      ensures Utf16Length(password) >= 8 && password != confirm ==>
        !posted && nav.None? && msg == "Les mots de passe ne correspondent pas." && busy == old(busy)
      ensures Utf16Length(password) >= 8 && password == confirm ==>
        !busy && (posted <==> session) &&
        (!session ==> nav.None? && msg == "Session perdue") &&
        (session && reply.Done? ==> nav == Some("/org") && msg == old(msg)) &&
        (session && reply.Failed? ==>
          nav.None? && msg == (if reply.message != "" then reply.message else "Échec maj mot de passe"))
    {
      posted, nav := false, None;
      if Utf16Length(password) < 8 {
        msg := "Mot de passe trop court (min 8).";
        return;
      }
      if password != confirm {
        msg := "Les mots de passe ne correspondent pas.";
        return;
      }
      busy := true;
      if !session {
        msg := "Session perdue";
      } else {
        posted := true;
        if reply.Failed? {
          msg := if reply.message != "" then reply.message else "Échec maj mot de passe";
        } else {
          nav := Some("/org");
        }
      }
      busy := false;
    }
  }
}
