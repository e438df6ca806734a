/** `POST /api/invites/resend`: an owner of the invite's organisation sends the
    invitation email again, falling back to a password-reset email for an address that
    already has an account. */
module ResendRoute {
  import opened Common
  import opened Text
  import opened UrlCoding
  import opened Query
  import opened Store
  import BeginPassword
  import SetPassword
  import NewPasswordPage
  import Recovery

  datatype EmailMode = InviteMode | PasswordResetMode

  datatype ResendReply =
    | ResendUnauthenticated
    | MissingInviteId
    | ResendNotFound
    | ResendForbidden
    | Sent(mode: EmailMode)
    | ResetFailed(message: string)
    | InviteFailed(message: string)

  /** A failed reset carries `ok: false` but no explicit status, hence 200. */
  function ResendStatus(r: ResendReply): int {
    match r
    case ResendUnauthenticated => 401
    case MissingInviteId => 400
    case ResendNotFound => 404
    case ResendForbidden => 403
    case Sent(_) => 200
    case ResetFailed(_) => 200
    case InviteFailed(_) => 400
  }

  /** The emails the route asks the identity service for, in order. */
  datatype Mail = InviteMail(email: string, redirectTo: string, role: Role) | ResetMail(email: string, redirectTo: string)

  /** `redirectTo`: the id is written as it is, the address encoded. */
  function RedirectTo(base: string, inv: Invite): string {
    base + "/set-password" + "?" + (("inviteId" + "=" + inv.id) + "&" + ("em" + "=" + Encode(Component, inv.email)))
  }

  /** The invite error that means the address already has an account. */
  predicate AlreadyRegistered(message: string) {
    var m := Lower(message);
    Contains(m, "already been registered") || Contains(m, "already registered")
  }

  /** The reply and the emails requested. `inviteId` is the body's id (`""` when falsy);
      `inviteError` and `resetError` are the identity service's answers. */
  function Resend(user: Option<User>, inviteId: string, rows: Members, invites: map<string, Invite>,
                  siteUrl: string, origin: string, inviteError: Option<string>, resetError: Option<string>)
    : (r: (ResendReply, seq<Mail>))
    ensures r.0 == ResendUnauthenticated <==> user.None?
    ensures r.1 != [] <==> r.0.Sent? || r.0.ResetFailed? || r.0.InviteFailed?
    ensures r.1 != [] ==>
      inviteId in invites && r.1[0].InviteMail? && r.1[0].email == invites[inviteId].email &&
      forall m :: m in r.1 ==> m.email == invites[inviteId].email
  {
    if user.None? then (ResendUnauthenticated, [])
    else if inviteId == "" then (MissingInviteId, [])
    else if inviteId !in invites then (ResendNotFound, [])
    else
      var inv := invites[inviteId];
      var me := Lookup(rows, inv.orgId, user.value.id);
      if me.None? || me.value.role != Owner then (ResendForbidden, [])
      else
        var redirect := RedirectTo(BeginPassword.Base(siteUrl, origin), inv);
        var invite := InviteMail(inv.email, redirect, inv.role);
        if inviteError.None? then (Sent(InviteMode), [invite])
        else if AlreadyRegistered(inviteError.value) then
          var mails := [invite, ResetMail(inv.email, redirect)];
          if resetError.None? then (Sent(PasswordResetMode), mails)
          else (ResetFailed("Password reset email failed: " + resetError.value), mails)
        else (InviteFailed(inviteError.value), [invite])
  }

  /** The refusals come in the order 401, 400, 404, 403, and none sends an email; only an
      owner of the invite's own organisation gets past the gate. */
  lemma ResendGate(user: Option<User>, inviteId: string, rows: Members, invites: map<string, Invite>,
                   siteUrl: string, origin: string, inviteError: Option<string>, resetError: Option<string>)
    ensures var (reply, mails) := Resend(user, inviteId, rows, invites, siteUrl, origin, inviteError, resetError);
      (reply == ResendUnauthenticated <==> user.None?) &&
      (reply == MissingInviteId <==> user.Some? && inviteId == "") &&
      (reply == ResendNotFound <==> user.Some? && inviteId != "" && inviteId !in invites) &&
      (reply == ResendForbidden <==>
        (user.Some? && inviteId != "" && inviteId in invites &&
         (Lookup(rows, invites[inviteId].orgId, user.value.id).None? ||
          Lookup(rows, invites[inviteId].orgId, user.value.id).value.role != Owner))) &&
      (mails == [] <==> reply in {ResendUnauthenticated, MissingInviteId, ResendNotFound, ResendForbidden})
  {
  }

  /** An editor of the invite's organisation is refused. */
  lemma EditorCannotResend(user: User, inviteId: string, rows: Members, invites: map<string, Invite>,
                           siteUrl: string, origin: string, inviteError: Option<string>, resetError: Option<string>)
    requires inviteId != "" && inviteId in invites
    requires Lookup(rows, invites[inviteId].orgId, user.id) == Some(MemberRow(invites[inviteId].orgId, user.id, Editor, true))
    ensures Resend(Some(user), inviteId, rows, invites, siteUrl, origin, inviteError, resetError).0 == ResendForbidden
  {
  }

  /** Past the gate: the invitation email is always requested first; a success is mode
      `invite`; an "already registered" error adds a reset email, whose success is mode
      `password-reset` and whose failure is reported; any other error is a 400. */
  lemma ResendModes(user: User, inviteId: string, rows: Members, invites: map<string, Invite>,
                    siteUrl: string, origin: string, inviteError: Option<string>, resetError: Option<string>)
    requires inviteId != "" && inviteId in invites
    requires Lookup(rows, invites[inviteId].orgId, user.id).Some?
    requires Lookup(rows, invites[inviteId].orgId, user.id).value.role == Owner
    ensures var inv := invites[inviteId];
      var redirect := RedirectTo(BeginPassword.Base(siteUrl, origin), inv);
      var (reply, mails) := Resend(Some(user), inviteId, rows, invites, siteUrl, origin, inviteError, resetError);
      |mails| >= 1 && mails[0] == InviteMail(inv.email, redirect, inv.role) &&
      (inviteError.None? ==> reply == Sent(InviteMode) && |mails| == 1) &&
      (inviteError.Some? && AlreadyRegistered(inviteError.value) ==>
        mails == [mails[0], ResetMail(inv.email, redirect)] &&
        (resetError.None? ==> reply == Sent(PasswordResetMode)) &&
        (resetError.Some? ==> reply == ResetFailed("Password reset email failed: " + resetError.value) &&
                              ResendStatus(reply) == 200)) &&
      (inviteError.Some? && !AlreadyRegistered(inviteError.value) ==>
        reply == InviteFailed(inviteError.value) && |mails| == 1 && ResendStatus(reply) == 400)
  {
  }

  lemma SetPasswordPathPlain(base: string)
    requires '?' !in base && '#' !in base
    ensures '?' !in base + "/set-password" && '#' !in base + "/set-password"
  {
  }

  /** The link carries the invitation id and the address to `/set-password`, but that
      page keeps `em` alone: after `/auth/recovery`, `/auth/new-password` sees no
      invitation and never accepts it. */
  lemma ResendLinkLosesInvite(base: string, inv: Invite)
    requires '?' !in base && '#' !in base
    requires inv.id != "" && forall i :: 0 <= i < |inv.id| ==> Keeps(Form, inv.id[i])
    ensures var t := ParseTarget(RedirectTo(base, inv));
      t == Target(base + "/set-password", [Param("inviteId", inv.id), Param("em", inv.email)], "") &&
      GetOr(t.query, "inviteId", "") == inv.id &&
      var landing := ParseTarget(Recovery.RecoveryTarget(ParseTarget(SetPassword.ShimTarget(t.query)).query));
      landing.path == "/auth/new-password" && NewPasswordPage.InviteId(landing.query) == ""
  {
    BeginPassword.NamesKept();
    SetPasswordPathPlain(base);
    EncodeKept(Form, inv.id);
    TargetOfTwoPieces(base + "/set-password", "inviteId", Form, inv.id, "em", Component, inv.email);
    var q := [Param("inviteId", inv.id), Param("em", inv.email)];
    assert GetOr(q, "inviteId", "") == inv.id;
    NewPasswordPage.ChainDropsInvite(q);
  }
}
