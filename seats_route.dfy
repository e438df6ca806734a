/** `GET /api/org/seats`: the seats in use in the caller's organisation and, under an
    active subscription, the limit of each tier. */
module SeatsRoute {
  import opened Common
  import opened Store
  import MembersRoute

  /** One tier of the answer: the seats in use and the limit (null for "no limit shown"). */
  datatype Tier = Tier(used: int, limit: Option<int>)

  datatype SeatsReply =
    | SeatsUnauthenticated
    | SeatsNoOrg
    | SeatsOk(orgId: OrgId, subscription: Option<Subscription>, hasActiveSub: bool,
              editors: Tier, viewers: Tier)

  function SeatsStatus(r: SeatsReply): int {
    match r
    case SeatsUnauthenticated => 401
    case SeatsNoOrg => 400
    case SeatsOk(_, _, _, _, _) => 200
  }

  /** The `error` field of a refusal. */
  function SeatsError(r: SeatsReply): string {
    match r
    case SeatsUnauthenticated => "Not authenticated"
    case SeatsNoOrg => "No org"
    case SeatsOk(_, _, _, _, _) => ""
  }

  /** The answer, from the membership table and the subscriptions (read in sequence). */
  function Seats(user: Option<User>, rows: Members, subs: map<OrgId, Subscription>): (r: SeatsReply)
    ensures r == SeatsUnauthenticated <==> user.None?
    ensures r == SeatsNoOrg <==> user.Some? && forall m :: m in rows ==> m.userId != user.value.id
    ensures r.SeatsOk? ==> user.Some? && r.orgId == FirstOfUser(rows, user.value.id).value.orgId
    ensures r.SeatsOk? ==> r.subscription == SubOf(subs, r.orgId)
  {
    if user.None? then SeatsUnauthenticated
    else
      match FirstOfUser(rows, user.value.id)
      case None => SeatsNoOrg
      case Some(mem) =>
        var sub := SubOf(subs, mem.orgId);
        var members := RowsOfOrg(rows, mem.orgId);
        var active := HasActiveSub(sub);
        SeatsOk(mem.orgId, sub, active,
                Tier(UsedEditors(members), if active then sub.value.seatsEditor else None),
                Tier(UsedViewers(members), if active then sub.value.seatsViewer else None))
  }

  /** The two tiers share out the organisation's members: owners and editors take the
      editor seats, viewers the viewer seats. */
  lemma SeatsAccounting(user: Option<User>, rows: Members, subs: map<OrgId, Subscription>)
    requires Seats(user, rows, subs).SeatsOk?
    ensures var r := Seats(user, rows, subs);
      var members := RowsOfOrg(rows, r.orgId);
      r.editors.used + r.viewers.used == |members| &&
      r.editors.used == CountRole(members, Owner) + CountRole(members, Editor) &&
      r.viewers.used == CountRole(members, Viewer)
  {
    var r := Seats(user, rows, subs);
    SeatsPartition(RowsOfOrg(rows, r.orgId));
  }

  /** A limit is shown only under an active subscription, and it is then that
      subscription's seat column (itself possibly null). */
  lemma SeatsLimits(user: Option<User>, rows: Members, subs: map<OrgId, Subscription>)
    requires Seats(user, rows, subs).SeatsOk?
    ensures var r := Seats(user, rows, subs);
      (r.hasActiveSub <==>
        (r.subscription.Some? && r.subscription.value.status in {"active", "trialing", "paused"})) &&
      (!r.hasActiveSub ==> r.editors.limit.None? && r.viewers.limit.None?) &&
      (r.hasActiveSub ==> r.editors.limit == r.subscription.value.seatsEditor &&
                          r.viewers.limit == r.subscription.value.seatsViewer)
  {
  }

  /** For a caller whose only membership is as owner or editor, a PATCH that promotes a
      member of the org to editor is refused for seats exactly when this answer shows a
      limit that the seats in use have reached, or an active subscription whose editor
      column is null: the route counts a null column as zero seats, while the answer
      shows it as no limit. */
  lemma SeatsAgreeWithPatch(user: User, rows: Members, subs: map<OrgId, Subscription>,
                            target: UserId, updateFault: Option<string>)
    requires MembersRoute.Manager(rows, user).Some?
    requires var org := MembersRoute.Manager(rows, user).value.orgId;
      Lookup(rows, org, target).Some? && Lookup(rows, org, target).value.role != Editor
    ensures var r := Seats(Some(user), rows, subs);
      r.SeatsOk? &&
      var reply := MembersRoute.Patch(Some(user), rows, subs, target, Editor, updateFault).1;
      (reply == MembersRoute.NoEditorSeats <==>
        (r.hasActiveSub && (r.editors.limit.None? || r.editors.used >= r.editors.limit.value)))
  {
    var me := MembersRoute.Manager(rows, user).value;
    assert RowsOfUser(rows, user.id) == [me];
    assert FirstOfUser(rows, user.id) == Some(me);
    if HasActiveSub(SubOf(subs, me.orgId)) {
      MembersRoute.PatchSeatRule(user, rows, subs, target, Editor, updateFault);
    }
  }

  /** A concrete case of the difference: an active subscription with a null editor
      column shows no limit here, yet every promotion to editor is refused. */
  lemma NullEditorColumn()
    ensures var owner := MemberRow("o", "a", Owner, true);
      var viewer := MemberRow("o", "b", Viewer, false);
      var subs := map["o" := Subscription("active", None, Some(5), None)];
      var r := Seats(Some(User("a", None)), [owner, viewer], subs);
      r.SeatsOk? && r.editors.limit.None? &&
      MembersRoute.Patch(Some(User("a", None)), [owner, viewer], subs, "b", Editor, None).1
        == MembersRoute.NoEditorSeats
  {
    var owner := MemberRow("o", "a", Owner, true);
    var viewer := MemberRow("o", "b", Viewer, false);
    var rows := [owner, viewer];
    var subs := map["o" := Subscription("active", None, Some(5), None)];
    var user := User("a", None);
    assert RowsOfUser(rows, "a") == [owner];
    assert MembersRoute.Manager(rows, user) == Some(owner);
    assert owner.userId != "b" by { assert owner.userId[0] != "b"[0]; }
    assert rows[1..] == [viewer] && rows[1..][1..] == [];
    assert RowsOfUser(rows[1..], "b") == [viewer];
    assert RowsOfUser(rows, "b") == [viewer];
    assert Lookup(rows, "o", "b") == Some(viewer);
    assert HasActiveSub(SubOf(subs, "o"));
    SeatsAgreeWithPatch(user, rows, subs, "b", None);
    SeatsLimits(Some(user), rows, subs);
  }
}
