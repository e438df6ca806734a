/** `GET /api/invites/debug?inviteId=…`: an invitation with its organisation's seat
    figures, for an owner or editor of the invitation's organisation. */
module InviteDebug {
  import opened Common
  import opened Store

  datatype DebugCounts = DebugCounts(
    usedEditors: int, usedViewers: int,
    seatsEditor: Option<int>, seatsViewer: Option<int>, status: Option<string>)

  datatype DebugReply =
    | DebugUnauthenticated
    | MissingInviteId
    | DebugNotFound
    | DebugForbidden
    | DebugOk(invite: Invite, subscription: Option<Subscription>, hasActiveSub: bool, counts: DebugCounts)

  function DebugStatus(r: DebugReply): int {
    match r
    case DebugUnauthenticated => 401
    case MissingInviteId => 400
    case DebugNotFound => 404
    case DebugForbidden => 403
    case DebugOk(_, _, _, _) => 200
  }

  /** `searchParams.get('inviteId')` is truthy: present and not empty. */
  predicate Given(id: Option<string>) {
    id.Some? && id.value != ""
  }

  /** The answer. `inviteId` is the query parameter, `lookupFault` an error of the invite
      query. */
  function Debug(user: Option<User>, inviteId: Option<string>, lookupFault: bool,
                 invites: map<string, Invite>, rows: Members, subs: map<OrgId, Subscription>): (r: DebugReply)
    ensures r == DebugUnauthenticated <==> user.None?
    ensures r == MissingInviteId <==> user.Some? && !Given(inviteId)
    ensures r == DebugNotFound <==> user.Some? && Given(inviteId) && (lookupFault || inviteId.value !in invites)
    ensures r.DebugOk? ==> inviteId.Some? && inviteId.value in invites && r.invite == invites[inviteId.value]
  {
    if user.None? then DebugUnauthenticated
    else if !Given(inviteId) then MissingInviteId
    else if lookupFault || inviteId.value !in invites then DebugNotFound
    else
      var inv := invites[inviteId.value];
      var me := Lookup(rows, inv.orgId, user.value.id);
      if me.None? || !ManagesOrg(me.value.role) then DebugForbidden
      else
        var sub := SubOf(subs, inv.orgId);
        var list := RowsOfOrg(rows, inv.orgId);
        DebugOk(inv, sub, HasActiveSub(sub),
                DebugCounts(UsedEditors(list), UsedViewers(list),
                            if sub.Some? then sub.value.seatsEditor else None,
                            if sub.Some? then sub.value.seatsViewer else None,
                            if sub.Some? then Some(sub.value.status) else None))
  }

  /** Past the first three checks, the answer is 403 exactly when the caller is not an
      owner or editor of the INVITATION's organisation (whatever their other
      memberships); when the keys are unique, lacking a membership there suffices. */
  lemma DebugGate(user: User, id: string, invites: map<string, Invite>, rows: Members,
                  subs: map<OrgId, Subscription>)
    requires id != "" && id in invites
    ensures var org := invites[id].orgId;
      var r := Debug(Some(user), Some(id), false, invites, rows, subs);
      (r == DebugForbidden <==>
        (Lookup(rows, org, user.id).None? || Lookup(rows, org, user.id).value.role == Viewer)) &&
      (UniqueKeys(rows) && !HasMember(rows, org, user.id) ==> r == DebugForbidden) &&
      (r.DebugOk? ==> exists m :: m in rows && m.orgId == org && m.userId == user.id && m.role != Viewer)
  {
    var org := invites[id].orgId;
    var me := Lookup(rows, org, user.id);
    if me.Some? {
      var i :| 0 <= i < |rows| && rows[i] == me.value;
      assert HasMember(rows, org, user.id);
    }
  }

  /** The counts of a successful answer: the editor seats are the owners and the
      editors of the invitation's organisation, the viewer seats its viewers, and without
      a subscription the seat columns and the status are null. */
  lemma DebugCountsMeaning(user: Option<User>, inviteId: Option<string>, lookupFault: bool,
                           invites: map<string, Invite>, rows: Members, subs: map<OrgId, Subscription>)
    requires Debug(user, inviteId, lookupFault, invites, rows, subs).DebugOk?
    ensures var r := Debug(user, inviteId, lookupFault, invites, rows, subs);
      var list := RowsOfOrg(rows, r.invite.orgId);
      r.counts.usedEditors == CountRole(list, Owner) + CountRole(list, Editor) &&
      r.counts.usedViewers == CountRole(list, Viewer) &&
      r.counts.usedEditors + r.counts.usedViewers == |list| &&
      r.subscription == SubOf(subs, r.invite.orgId) &&
      (r.hasActiveSub <==>
        (r.subscription.Some? && r.subscription.value.status in {"active", "trialing", "paused"})) &&
      (r.subscription.None? ==>
        r.counts.seatsEditor.None? && r.counts.seatsViewer.None? && r.counts.status.None?) &&
      (r.subscription.Some? ==> r.counts.status == Some(r.subscription.value.status))
  {
    var r := Debug(user, inviteId, lookupFault, invites, rows, subs);
    SeatsPartition(RowsOfOrg(rows, r.invite.orgId));
  }
}
