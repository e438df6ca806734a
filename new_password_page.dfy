/** The `/auth/new-password` page: with a session it shows the password form, saves
    the password and, for an invitation, then accepts the invite. */
module NewPasswordPage {
  import opened Common
  import opened Query
  import opened UrlCoding
  import SetPassword
  import Recovery

  /** `sp.get('inviteId') || ''`. */
  function InviteId(sp: Params): string {
    GetOr(sp, "inviteId", "")
  }

  /** A request to one of the two routes, with its Authorization header if any. */
  datatype Request = Request(path: string, authorization: Option<string>)

  /** The Authorization header: present only when the session has an access token. */
  function Authorization(accessToken: Option<string>): (r: Option<string>)
    ensures r.Some? <==> Truthy(accessToken)
    ensures r.Some? ==> r.value == "Bearer " + accessToken.value
  {
    if Truthy(accessToken) then Some("Bearer " + accessToken.value) else None
  }

  /** The toast text of the success redirect. */
  function SuccessToast(inviteId: string): string {
    if inviteId != "" then "Invitation acceptée" else "Mot de passe mis à jour"
  }

  function SuccessTarget(inviteId: string): string {
    "/org" + "?" + (("toast" + "=" + Encode(Component, SuccessToast(inviteId))) + "&" + ("kind" + "=" + "success"))
  }

  /** Through `/set-password` and `/auth/recovery`, a link's parameters arrive at this
      page with `em` alone: the invitation id is gone, so the page only saves the
      password and never accepts the invite. */
  lemma ChainDropsInvite(sp: Params)
    ensures var landing := ParseTarget(Recovery.RecoveryTarget(ParseTarget(SetPassword.ShimTarget(sp)).query));
      landing.path == "/auth/new-password" && InviteId(landing.query) == "" &&
      GetOr(landing.query, "em", "") == GetOr(sp, "em", "")
  {
    var q := SetPassword.ShimQuery(sp);
    SetPassword.ShimKeepsOnlyEmail(sp);
    assert ParseTarget(SetPassword.ShimTarget(sp)).query == q;
    Recovery.RecoveryForwardsAll(q);
    ShimQueryReads(sp);
  }

  /** The shim's query has no invitation id and carries `em` over. */
  lemma ShimQueryReads(sp: Params)
    ensures InviteId(SetPassword.ShimQuery(sp)) == ""
    ensures GetOr(SetPassword.ShimQuery(sp), "em", "") == GetOr(sp, "em", "")
  {
    var em := GetOr(sp, "em", "");
    SetPassword.ShimQueryContents(sp);
    if em != "" {
      var q := [Param("em", em)];
      assert "inviteId" != "em";
      assert Get(q, "em") == Some(em);
      assert q[1..] == [];
      assert Get(q, "inviteId") == Get(q[1..], "inviteId") == None;
    }
  }

  const NoSessionMessage := "Lien invalide ou expiré. Redemandez un email."
  const PasswordFallback := "Échec update mot de passe"
  const AcceptFallback := "Échec de l'acceptation de l'invitation"

  /** A route's error text, or the page's own when the route gives none. */
  function FailureText(message: string, fallback: string): (r: string)
    ensures message != "" ==> r == message
    ensures message == "" ==> r == fallback
  {
    if message != "" then message else fallback
  }
  const MismatchMessage := "Les mots de passe ne correspondent pas."

  class Page {
    var msg: string
    var busy: bool
    var ready: bool

    constructor ()
      ensures msg == "" && !busy && !ready
    {
      msg := "";
      busy := false;
      ready := false;
    }

    /** The session effect: a session makes the page ready, its absence sets a message. */
    method CheckSession(session: bool)
      modifies this`msg, this`ready
      ensures session ==> ready && msg == old(msg)
      ensures !session ==> msg == NoSessionMessage && ready == old(ready)
    {
      if !session {
        msg := NoSessionMessage;
      } else {
        ready := true;
      }
    }

    /** "Vérification de la session…" */
    predicate ShowsChecking()
      reads this
    {
      !ready && msg == ""
    }

    /** The message paragraph: only while not ready. */
    predicate ShowsMessage()
      reads this
    {
      msg != "" && !ready
    }

    /** The form: only once ready. */
    predicate ShowsForm()
      reads this
    {
      ready
    }

    /** `submit`. `accessToken` is the session's token, `passwordReply` and
        `acceptReply` the two routes' answers. `calls` lists the requests in order. */
    method Submit(sp: Params, password: string, confirm: string, accessToken: Option<string>,
                  passwordReply: Outcome, acceptReply: Outcome)
      returns (calls: seq<Request>, nav: Option<string>)
      modifies this`msg, this`busy
      ensures password == "" || password != confirm ==>
        calls == [] && nav.None? && msg == MismatchMessage && busy == old(busy)
      ensures password != "" && password == confirm ==>
        !busy && SavesThenAccepts(calls, nav, msg, old(msg), Authorization(accessToken), InviteId(sp), passwordReply, acceptReply)
      ensures ready == old(ready)
    {
      if password == "" || password != confirm {
        calls, nav := [], None;
        msg := MismatchMessage;
        return;
      }
      busy := true;
      calls, nav := Save(Authorization(accessToken), InviteId(sp), passwordReply, acceptReply);
      busy := false;
    }

    /** The part of `submit` after the two fields match: save the password, then accept
        the invitation when there is one. */
    method Save(auth: Option<string>, inviteId: string, passwordReply: Outcome, acceptReply: Outcome)
      returns (calls: seq<Request>, nav: Option<string>)
      modifies this`msg
      ensures SavesThenAccepts(calls, nav, msg, old(msg), auth, inviteId, passwordReply, acceptReply)
    {
      calls, nav := [Request("/api/auth/password", auth)], None;
      if passwordReply.Failed? {
        msg := FailureText(passwordReply.message, PasswordFallback);
        return;
      }
      if inviteId != "" {
        calls := calls + [Request("/api/invites/accept", auth)];
        if acceptReply.Failed? {
          msg := FailureText(acceptReply.message, AcceptFallback);
          return;
        }
      }
      nav := Some(SuccessTarget(inviteId));
    }
  }

  /** What a submit with matching fields does: the password request always comes first;
      a failure stops there with the route's message; otherwise an invitation is
      accepted next, and only a full success navigates to the organisation page.
      `msg` and `oldMsg` are the page's message after and before. */
  predicate SavesThenAccepts(calls: seq<Request>, nav: Option<string>, msg: string, oldMsg: string,
                             auth: Option<string>, inviteId: string,
                             passwordReply: Outcome, acceptReply: Outcome)
  {
    |calls| >= 1 && calls[0] == Request("/api/auth/password", auth) &&
    (passwordReply.Failed? ==>
      calls == [calls[0]] && nav.None? && msg == FailureText(passwordReply.message, PasswordFallback)) &&
    (passwordReply.Done? && inviteId == "" ==>
      calls == [calls[0]] && nav == Some(SuccessTarget(inviteId)) && msg == oldMsg) &&
    (passwordReply.Done? && inviteId != "" ==>
      calls == [calls[0], Request("/api/invites/accept", auth)] &&
      (acceptReply.Done? ==> nav == Some(SuccessTarget(inviteId)) && msg == oldMsg) &&
      (acceptReply.Failed? ==> nav.None? && msg == FailureText(acceptReply.message, AcceptFallback)))
  }

  /** A failed submit sets a message the page never shows: the form is there only when
      ready, and the message paragraph only when not. */
  lemma SubmitErrorHidden(p: Page)
    requires p.ready && p.msg != ""
    ensures p.ShowsForm() && !p.ShowsMessage() && !p.ShowsChecking()
  {
  }

  /** The success toast names the invitation exactly when there is one. */
  lemma SuccessToastCases(inviteId: string)
    ensures (SuccessToast(inviteId) == "Invitation acceptée") <==> inviteId != ""
  {
    if inviteId == "" {
      assert SuccessToast(inviteId)[0] == 'M';
    }
  }
}
