/** `/api/org/members`: the member list of the caller's organisation (GET), a role
    change guarded by the caller's role and the subscription's seats (PATCH), and the
    removal of a member (DELETE). */
module MembersRoute {
  import opened Common
  import opened Store

  // ---------------------------------------------------------------------------
  // GET

  /** One entry of the GET answer; `email` is null when the user has none on record. */
  datatype Item = Item(userId: UserId, role: Role, canEdit: bool, email: Option<string>)

  datatype ListReply = ListUnauthenticated | ListFailed(message: string) | Listed(items: seq<Item>)

  function ListStatus(r: ListReply): int {
    match r
    case ListUnauthenticated => 401
    case ListFailed(_) => 400
    case Listed(_) => 200
  }

  function ToItem(m: MemberRow, emails: map<UserId, string>): Item {
    Item(m.userId, m.role, m.canEdit, if m.userId in emails then Some(emails[m.userId]) else None)
  }

  function ToItems(rows: Members, emails: map<UserId, string>): (r: seq<Item>)
    ensures |r| == |rows|
    ensures forall i :: 0 <= i < |rows| ==> r[i] == ToItem(rows[i], emails)
  {
    if rows == [] then [] else [ToItem(rows[0], emails)] + ToItems(rows[1..], emails)
  }

  /** GET: without a membership the list is empty; otherwise it holds, in table order,
      one entry per member of the organisation of the caller's first membership.
      `listFault` is an error the store reports for the list query. */
  function List(user: Option<User>, rows: Members, emails: map<UserId, string>,
                listFault: Option<string>): (r: ListReply)
    ensures user.None? <==> r == ListUnauthenticated
    ensures user.Some? && FirstOfUser(rows, user.value.id).None? ==> r == Listed([])
    ensures r.ListFailed? ==> listFault == Some(r.message)
    ensures user.Some? && FirstOfUser(rows, user.value.id).Some? && listFault.Some? ==>
      r == ListFailed(listFault.value)
    ensures user.Some? && listFault.None? ==> r.Listed?
    ensures r.Listed? && user.Some? && FirstOfUser(rows, user.value.id).Some? ==>
      var org := FirstOfUser(rows, user.value.id).value.orgId;
      |r.items| == |RowsOfOrg(rows, org)| &&
      forall i :: 0 <= i < |r.items| ==>
        r.items[i].userId == RowsOfOrg(rows, org)[i].userId &&
        r.items[i].role == RowsOfOrg(rows, org)[i].role &&
        r.items[i].canEdit == RowsOfOrg(rows, org)[i].canEdit &&
        r.items[i].email == (if r.items[i].userId in emails then Some(emails[r.items[i].userId]) else None)
  {
    if user.None? then ListUnauthenticated
    else
      match FirstOfUser(rows, user.value.id)
      case None => Listed([])
      case Some(membership) =>
        if listFault.Some? then ListFailed(listFault.value)
        else Listed(ToItems(RowsOfOrg(rows, membership.orgId), emails))
  }

  /** Every listed member belongs to the caller's organisation. */
  lemma ListedAreOrgMembers(user: User, rows: Members, emails: map<UserId, string>, i: nat)
    requires FirstOfUser(rows, user.id).Some?
    requires List(Some(user), rows, emails, None).Listed?
    requires i < |List(Some(user), rows, emails, None).items|
    ensures var org := FirstOfUser(rows, user.id).value.orgId;
      var it := List(Some(user), rows, emails, None).items[i];
      MemberRow(org, it.userId, it.role, it.canEdit) in rows
  {
    var org := FirstOfUser(rows, user.id).value.orgId;
    var inOrg := RowsOfOrg(rows, org);
    assert inOrg[i] in inOrg;
  }

  // ---------------------------------------------------------------------------
  // PATCH

  datatype PatchReply =
    | PatchUnauthenticated
    | PatchForbidden
    | NoEditorSeats
    | NoViewerSeats
    | PatchFailed(message: string)
    | PatchOk

  function PatchStatus(r: PatchReply): int {
    match r
    case PatchUnauthenticated => 401
    case PatchForbidden => 403
    case NoEditorSeats => 409
    case NoViewerSeats => 409
    case PatchFailed(_) => 400
    case PatchOk => 200
  }

  /** The caller's membership as PATCH and DELETE read it (no `limit(1)`), when it
      allows managing members. */
  function Manager(rows: Members, user: User): (r: Option<MemberRow>)
    ensures r.Some? <==> OnlyOfUser(rows, user.id).Some? && ManagesOrg(OnlyOfUser(rows, user.id).value.role)
    ensures r.Some? ==> r == OnlyOfUser(rows, user.id)
  {
    var me := OnlyOfUser(rows, user.id);
    if me.Some? && ManagesOrg(me.value.role) then me else None
  }

  /** The seat check of a role change: it applies only to a current member whose role
      changes, under an active subscription, and to the roles `editor` and `viewer`;
      a null seat count counts as zero. */
  function SeatRefusal(sub: Option<Subscription>, orgRows: Members, target: Option<MemberRow>,
                       role: Role): Option<PatchReply>
  {
    if target.Some? && target.value.role != role && HasActiveSub(sub) then
      if role == Editor && UsedEditors(orgRows) >= sub.value.seatsEditor.GetOr(0) then Some(NoEditorSeats)
      else if role == Viewer && UsedViewers(orgRows) >= sub.value.seatsViewer.GetOr(0) then Some(NoViewerSeats)
      else None
    else None
  }

  /** PATCH `{ user_id, role }`: the reply and the new membership table. `updateFault` is
      an error the store reports for the update. */
  function Patch(user: Option<User>, rows: Members, subs: map<OrgId, Subscription>,
                 targetUser: UserId, role: Role, updateFault: Option<string>): (r: (Members, PatchReply))
    ensures r.1 == PatchUnauthenticated <==> user.None?
    ensures r.1 != PatchOk ==> r.0 == rows
    ensures r.1 == PatchOk ==> user.Some? && Manager(rows, user.value).Some? && |r.0| == |rows|
  {
    if user.None? then (rows, PatchUnauthenticated)
    else
      match Manager(rows, user.value)
      case None => (rows, PatchForbidden)
      case Some(me) =>
        var refusal := SeatRefusal(SubOf(subs, me.orgId), RowsOfOrg(rows, me.orgId),
                                   Lookup(rows, me.orgId, targetUser), role);
        if refusal.Some? then (rows, refusal.value)
        else if updateFault.Some? then (rows, PatchFailed(updateFault.value))
        else (UpdateRole(rows, me.orgId, targetUser, role), PatchOk)
  }

  /** PATCH is refused with 403 exactly when the caller is signed in but does not hold a
      single membership with the role `owner` or `editor`. */
  lemma PatchRoleGate(user: User, rows: Members, subs: map<OrgId, Subscription>,
                      targetUser: UserId, role: Role, updateFault: Option<string>)
    ensures Patch(Some(user), rows, subs, targetUser, role, updateFault).1 == PatchForbidden
      <==> !(OnlyOfUser(rows, user.id).Some? && ManagesOrg(OnlyOfUser(rows, user.id).value.role))
  {
  }

  /** Under an active subscription, moving a member with another role to `editor` is
      refused with 409 exactly when the editor seats in use (owners and editors) reach
      `seats_editor`, null counting as zero; likewise for `viewer`. */
  lemma PatchSeatRule(user: User, rows: Members, subs: map<OrgId, Subscription>,
                      targetUser: UserId, role: Role, updateFault: Option<string>)
    requires Manager(rows, user).Some?
    requires var org := Manager(rows, user).value.orgId;
      HasActiveSub(SubOf(subs, org)) &&
      Lookup(rows, org, targetUser).Some? && Lookup(rows, org, targetUser).value.role != role
    ensures var org := Manager(rows, user).value.orgId;
      var sub := SubOf(subs, org).value;
      var reply := Patch(Some(user), rows, subs, targetUser, role, updateFault).1;
      (reply == NoEditorSeats <==>
        role == Editor && UsedEditors(RowsOfOrg(rows, org)) >= sub.seatsEditor.GetOr(0)) &&
      (reply == NoViewerSeats <==>
        role == Viewer && UsedViewers(RowsOfOrg(rows, org)) >= sub.seatsViewer.GetOr(0))
  {
  }

  /** No seat check happens without an active subscription, for a user who is not a
      member, for an unchanged role or for the role `owner`: the update goes ahead. */
  lemma PatchWithoutSeatCheck(user: User, rows: Members, subs: map<OrgId, Subscription>,
                              targetUser: UserId, role: Role, updateFault: Option<string>)
    requires Manager(rows, user).Some?
    requires var org := Manager(rows, user).value.orgId;
      !HasActiveSub(SubOf(subs, org)) || Lookup(rows, org, targetUser).None? ||
      Lookup(rows, org, targetUser).value.role == role || role == Owner
    ensures var r := Patch(Some(user), rows, subs, targetUser, role, updateFault);
      updateFault.None? ==> r == (UpdateRole(rows, Manager(rows, user).value.orgId, targetUser, role), PatchOk)
    ensures var r := Patch(Some(user), rows, subs, targetUser, role, updateFault);
      updateFault.Some? ==> r == (rows, PatchFailed(updateFault.value))
  {
  }

  /** PATCH changes the table only when it answers ok, and then only the role of the
      row (user_id, caller's org); `can_edit` and every other row stay as they were. */
  lemma PatchFrame(user: Option<User>, rows: Members, subs: map<OrgId, Subscription>,
                   targetUser: UserId, role: Role, updateFault: Option<string>)
    ensures var (after, reply) := Patch(user, rows, subs, targetUser, role, updateFault);
      (reply != PatchOk ==> after == rows) &&
      |after| == |rows| &&
      UniqueKeys(rows) == UniqueKeys(after) &&
      forall i :: 0 <= i < |rows| ==>
        after[i].orgId == rows[i].orgId && after[i].userId == rows[i].userId &&
        after[i].canEdit == rows[i].canEdit &&
        (after[i] != rows[i] ==>
          reply == PatchOk && user.Some? && Manager(rows, user.value).Some? &&
          rows[i].orgId == Manager(rows, user.value).value.orgId &&
          rows[i].userId == targetUser && after[i].role == role)
  {
    var r := Patch(user, rows, subs, targetUser, role, updateFault);
    if user.Some? && Manager(rows, user.value).Some? {
      var me := Manager(rows, user.value).value;
      var refusal := SeatRefusal(SubOf(subs, me.orgId), RowsOfOrg(rows, me.orgId),
                                 Lookup(rows, me.orgId, targetUser), role);
      if refusal.None? && updateFault.None? {
        assert r == (UpdateRole(rows, me.orgId, targetUser, role), PatchOk);
        UpdateRoleFrame(rows, me.orgId, targetUser, role);
      } else {
        assert r.0 == rows && r.1 != PatchOk;
      }
    } else {
      assert r.0 == rows && r.1 != PatchOk;
    }
  }

  // ---------------------------------------------------------------------------
  // DELETE

  datatype DeleteReply = DeleteUnauthenticated | DeleteForbidden | DeleteFailed(message: string) | DeleteOk

  function DeleteStatus(r: DeleteReply): int {
    match r
    case DeleteUnauthenticated => 401
    case DeleteForbidden => 403
    case DeleteFailed(_) => 400
    case DeleteOk => 200
  }

  /** DELETE `{ user_id }`: the reply and the new membership table. */
  function Delete(user: Option<User>, rows: Members, targetUser: UserId,
                  deleteFault: Option<string>): (r: (Members, DeleteReply))
    ensures r.1 == DeleteUnauthenticated <==> user.None?
    ensures r.1 != DeleteOk ==> r.0 == rows
    ensures r.1 == DeleteOk ==> forall m :: m in r.0 ==> m in rows
  {
    if user.None? then (rows, DeleteUnauthenticated)
    else
      match Manager(rows, user.value)
      case None => (rows, DeleteForbidden)
      case Some(me) =>
        if deleteFault.Some? then (rows, DeleteFailed(deleteFault.value))
        else (DeleteMember(rows, me.orgId, targetUser), DeleteOk)
  }

  /** DELETE is refused with 403 unless the caller manages the organisation; when it
      succeeds, exactly the row (user_id, caller's org) is gone and every other row
      stays. Nothing protects the last owner. */
  lemma DeleteRemovesOnlyTarget(user: User, rows: Members, targetUser: UserId,
                                deleteFault: Option<string>)
    ensures var (after, reply) := Delete(Some(user), rows, targetUser, deleteFault);
      (reply == DeleteForbidden <==> Manager(rows, user).None?) &&
      (reply != DeleteOk ==> after == rows) &&
      (reply == DeleteOk ==>
        var org := Manager(rows, user).value.orgId;
        !HasMember(after, org, targetUser) &&
        forall m :: m in after <==> m in rows && !(m.orgId == org && m.userId == targetUser))
  {
  }

  /** An owner may remove their own, last, owner membership. */
  lemma NoLastOwnerProtection()
    ensures var rows := [MemberRow("org", "u", Owner, true)];
      var (after, reply) := Delete(Some(User("u", None)), rows, "u", None);
      reply == DeleteOk && CountRole(after, Owner) == 0
  {
    var rows := [MemberRow("org", "u", Owner, true)];
    assert RowsOfUser(rows, "u") == rows;
    assert DeleteMember(rows, "org", "u") == [];
  }

  // ---------------------------------------------------------------------------
  // The handlers over the store

  /** PATCH over the store: the reads, the seat check, then the update. */
  method PatchHandler(db: Database, user: Option<User>, targetUser: UserId, role: Role,
                      updateFault: Option<string>) returns (reply: PatchReply)
    modifies db`members
    ensures (db.members, reply) == Patch(user, old(db.members), db.subscriptions, targetUser, role, updateFault)
  {
    if user.None? {
      return PatchUnauthenticated;
    }
    var me := OnlyOfUser(db.members, user.value.id);
    if me.None? || (me.value.role != Owner && me.value.role != Editor) {
      return PatchForbidden;
    }
    assert Manager(db.members, user.value) == me;
    var sub := SubOf(db.subscriptions, me.value.orgId);
    var members := RowsOfOrg(db.members, me.value.orgId);
    var target := Lookup(db.members, me.value.orgId, targetUser);
    var hasActiveSub := HasActiveSub(sub);
    if target.Some? && target.value.role != role {
      var usedEditors := UsedEditors(members);
      var usedViewers := UsedViewers(members);
      if hasActiveSub {
        if role == Editor && usedEditors >= sub.value.seatsEditor.GetOr(0) {
          assert SeatRefusal(sub, members, target, role) == Some(NoEditorSeats);
          return NoEditorSeats;
        }
        if role == Viewer && usedViewers >= sub.value.seatsViewer.GetOr(0) {
          assert SeatRefusal(sub, members, target, role) == Some(NoViewerSeats);
          return NoViewerSeats;
        }
      }
    }
    assert SeatRefusal(sub, members, target, role).None?;
    var err := db.SetRole(me.value.orgId, targetUser, role, updateFault);
    if err.Some? {
      return PatchFailed(err.value);
    }
    return PatchOk;
  }

  /** DELETE over the store. */
  method DeleteHandler(db: Database, user: Option<User>, targetUser: UserId,
                       deleteFault: Option<string>) returns (reply: DeleteReply)
    modifies db`members
    ensures (db.members, reply) == Delete(user, old(db.members), targetUser, deleteFault)
  {
    if user.None? {
      return DeleteUnauthenticated;
    }
    var me := OnlyOfUser(db.members, user.value.id);
    if me.None? || (me.value.role != Owner && me.value.role != Editor) {
      return DeleteForbidden;
    }
    assert Manager(db.members, user.value) == me;
    var err := db.RemoveMember(me.value.orgId, targetUser, deleteFault);
    if err.Some? {
      return DeleteFailed(err.value);
    }
    return DeleteOk;
  }
}
