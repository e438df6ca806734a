/** `POST /api/auth/begin-password`: sends a recovery email whose link leads through
    `/auth/cb` to `/auth/new-password`. */
module BeginPassword {
  import opened Common
  import opened UrlCoding
  import opened Query
  import Json
  import HashBridge
  import NewPasswordPage

  /** `s.replace(/\/+$/, '')`: `s` without its trailing slashes. */
  function StripTrailingSlashes(s: string): (r: string)
    ensures r <= s
    ensures r == [] || r[|r| - 1] != '/'
    ensures forall i :: |r| <= i < |s| ==> s[i] == '/'
  {
    if s != [] && s[|s| - 1] == '/' then StripTrailingSlashes(s[..|s| - 1]) else s
  }

  /** The site URL when configured (non-empty), else the request's own origin. */
  function Base(siteUrl: string, origin: string): string {
    StripTrailingSlashes(if siteUrl != "" then siteUrl else origin)
  }

  /** `next`: the address is encoded, the invitation id is appended as it is, and only
      when truthy. */
  function NextPath(email: string, inviteId: Json.Value): string {
    var em := "em" + "=" + Encode(Component, email);
    "/auth/new-password" + "?" +
      (if Json.Truthy(inviteId) then em + "&" + ("inviteId" + "=" + Json.ToText(inviteId).value) else em)
  }

  function RedirectTo(base: string, next: string): string {
    base + "/auth/cb" + "?" + ("next" + "=" + Encode(Component, next))
  }

  datatype BeginReply = MissingEmail | ResetFailed(message: string) | Started(redirectTo: string)

  function BeginStatus(r: BeginReply): int {
    if r.Started? then 200 else 400
  }

  /** The recovery email the route asks the identity service to send. */
  datatype ResetMail = ResetMail(email: string, redirectTo: string)

  /** The reply and the email requested. `resetError` is the identity service's answer. */
  function Begin(email: Json.Value, inviteId: Json.Value, siteUrl: string, origin: string,
                 resetError: Option<string>): (r: (BeginReply, Option<ResetMail>))
    ensures r.0 == MissingEmail <==> r.1.None?
    ensures r.0 == MissingEmail <==> !Json.Truthy(email)
    ensures r.0.Started? ==> r.1.Some? && r.1.value.redirectTo == r.0.redirectTo && resetError.None?
  {
    if !Json.Truthy(email) then (MissingEmail, None)
    else
      var address := Json.ToText(email).value;
      var redirect := RedirectTo(Base(siteUrl, origin), NextPath(address, inviteId));
      (if resetError.Some? then ResetFailed(resetError.value) else Started(redirect),
       Some(ResetMail(address, redirect)))
  }

  /** A falsy email is refused before any email is requested; otherwise a recovery
      email is always requested, and its error, if any, is the reply. */
  lemma BeginOutcomes(email: Json.Value, inviteId: Json.Value, siteUrl: string, origin: string,
                      resetError: Option<string>)
    ensures var (reply, mail) := Begin(email, inviteId, siteUrl, origin, resetError);
      (reply == MissingEmail <==> !Json.Truthy(email)) &&
      (mail.None? <==> !Json.Truthy(email)) &&
      (mail.Some? ==> mail.value.redirectTo == RedirectTo(Base(siteUrl, origin), NextPath(mail.value.email, inviteId))) &&
      (email.Str? && email.s != "" ==> mail == Some(ResetMail(email.s, mail.value.redirectTo))) &&
      (mail.Some? ==> (reply.ResetFailed? <==> resetError.Some?)) &&
      (mail.Some? && resetError.None? ==> reply == Started(mail.value.redirectTo))
  {
  }

  /** The parameter names the route writes are kept as they are by the form encoding. */
  lemma NamesKept()
    ensures forall i :: 0 <= i < |"next"| ==> Keeps(Form, "next"[i])
    ensures forall i :: 0 <= i < |"em"| ==> Keeps(Form, "em"[i])
    ensures forall i :: 0 <= i < |"inviteId"| ==> Keeps(Form, "inviteId"[i])
  {
  }

  lemma NewPasswordPathPlain()
    ensures '?' !in "/auth/new-password" && '#' !in "/auth/new-password"
  {
  }

  lemma CallbackPathPlain(base: string)
    requires '?' !in base && '#' !in base
    ensures '?' !in base + "/auth/cb" && '#' !in base + "/auth/cb"
  {
  }

  /** The link brings `/auth/cb` exactly one parameter, `next`, from which the bridge
      reads back the `next` path the route built. */
  lemma RedirectCarriesNext(base: string, next: string)
    requires '?' !in base && '#' !in base
    ensures ParseTarget(RedirectTo(base, next)) == Target(base + "/auth/cb", [Param("next", next)], "")
    ensures next != "" ==> HashBridge.Next(ParseTarget(RedirectTo(base, next)).query) == next
  {
    NamesKept();
    CallbackPathPlain(base);
    TargetOfOnePiece(base + "/auth/cb", "next", Component, next);
    assert Get([Param("next", next)], "next") == Some(next);
  }

  lemma NextWithoutInvite(email: string, inviteId: Json.Value)
    requires !Json.Truthy(inviteId)
    ensures ParseTarget(NextPath(email, inviteId)) == Target("/auth/new-password", [Param("em", email)], "")
  {
    NamesKept();
    NewPasswordPathPlain();
    TargetOfOnePiece("/auth/new-password", "em", Component, email);
  }

  lemma NextWithInvite(email: string, id: string)
    requires id != "" && forall i :: 0 <= i < |id| ==> Keeps(Form, id[i])
    ensures ParseTarget(NextPath(email, Json.Str(id))) ==
      Target("/auth/new-password", [Param("em", email), Param("inviteId", id)], "")
  {
    NamesKept();
    EncodeKept(Form, id);
    NewPasswordPathPlain();
    TargetOfTwoPieces("/auth/new-password", "em", Component, email, "inviteId", Form, id);
  }

  /** `/auth/new-password` then receives the address as `em` and, for a truthy id made of
      characters the form encoding keeps, the invitation id as `inviteId`. */
  lemma NextCarriesInvite(email: string, inviteId: Json.Value)
    requires Json.Truthy(inviteId) ==> inviteId.Str? && forall i :: 0 <= i < |inviteId.s| ==> Keeps(Form, inviteId.s[i])
    ensures var t := ParseTarget(NextPath(email, inviteId));
      t.path == "/auth/new-password" && t.hash == "" &&
      GetOr(t.query, "em", "") == email &&
      NewPasswordPage.InviteId(t.query) == (if Json.Truthy(inviteId) then inviteId.s else "")
  {
    assert "em" != "inviteId";
    if Json.Truthy(inviteId) {
      var id := inviteId.s;
      NextWithInvite(email, id);
      var q := [Param("em", email), Param("inviteId", id)];
      GetCons(q[0], q[1..], "inviteId");
      assert [q[0]] + q[1..] == q;
    } else {
      NextWithoutInvite(email, inviteId);
    }
  }

  /** The whole path of a request: the email's link reaches `/auth/new-password` with the
      address and the invitation, through the bridge's `next`. */
  lemma BeginLinkLandsOnNewPassword(email: Json.Value, inviteId: Json.Value, siteUrl: string, origin: string,
                                     resetError: Option<string>)
    requires Json.Truthy(email)
    requires '?' !in Base(siteUrl, origin) && '#' !in Base(siteUrl, origin)
    requires Json.Truthy(inviteId) ==> inviteId.Str? && forall i :: 0 <= i < |inviteId.s| ==> Keeps(Form, inviteId.s[i])
    ensures var mail := Begin(email, inviteId, siteUrl, origin, resetError).1;
      mail.Some? &&
      var landing := ParseTarget(HashBridge.Next(ParseTarget(mail.value.redirectTo).query));
      landing.path == "/auth/new-password" &&
      GetOr(landing.query, "em", "") == mail.value.email &&
      NewPasswordPage.InviteId(landing.query) == (if Json.Truthy(inviteId) then inviteId.s else "")
  {
    var address := Json.ToText(email).value;
    var next := NextPath(address, inviteId);
    assert next != "";
    RedirectCarriesNext(Base(siteUrl, origin), next);
    NextCarriesInvite(address, inviteId);
  }
}
