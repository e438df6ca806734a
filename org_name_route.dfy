/** `POST /api/org/name`: an owner or editor renames their organisation. */
module OrgNameRoute {
  import opened Common
  import Json
  import opened Store

  datatype RenameReply = RenameUnauthenticated | RenameInvalid | RenameNoOrg | RenameForbidden | RenameFailed(message: string) | Renamed

  function RenameStatus(r: RenameReply): int {
    match r
    case RenameUnauthenticated => 401
    case RenameForbidden => 403
    case Renamed => 200
    case _ => 400
  }

  /** `!name || typeof name !== 'string'` refuses: any non-empty string passes. */
  predicate ValidName(v: Json.Value) {
    v.Str? && v.s != ""
  }

  /** The reply and the organisations after one request. The role is read again with
      `(org, user)` in the organisation of the caller's first membership. */
  function RenameOrg(user: Option<User>, name: Json.Value, rows: Members, orgs: map<OrgId, Org>,
                     updateFault: Option<string>): (r: (map<OrgId, Org>, RenameReply))
    ensures r.1 == RenameUnauthenticated <==> user.None?
    ensures !r.1.Renamed? ==> r.0 == orgs
    ensures r.1.Renamed? ==> r.0.Keys == orgs.Keys && name.Str?
  {
    if user.None? then (orgs, RenameUnauthenticated)
    else if !ValidName(name) then (orgs, RenameInvalid)
    else
      var mem := FirstOfUser(rows, user.value.id);
      if mem.None? then (orgs, RenameNoOrg)
      else
        var me := Lookup(rows, mem.value.orgId, user.value.id);
        if me.None? || !ManagesOrg(me.value.role) then (orgs, RenameForbidden)
        else if updateFault.Some? then (orgs, RenameFailed(updateFault.value))
        else (Rename(orgs, mem.value.orgId, name.s), Renamed)
  }

  /** Only the caller's organisation is renamed, to the name exactly as sent (a name of
      spaces included), and only by an owner or an editor of it. */
  lemma RenameScope(user: Option<User>, name: Json.Value, rows: Members, orgs: map<OrgId, Org>,
                    updateFault: Option<string>)
    ensures var (after, reply) := RenameOrg(user, name, rows, orgs, updateFault);
      (reply == RenameUnauthenticated <==> user.None?) &&
      (reply == RenameInvalid <==> user.Some? && !ValidName(name)) &&
      (reply == Renamed ==>
        var org := FirstOfUser(rows, user.value.id).value.orgId;
        Lookup(rows, org, user.value.id).Some? && ManagesOrg(Lookup(rows, org, user.value.id).value.role) &&
        after.Keys == orgs.Keys && (forall k :: k in orgs && k != org ==> after[k] == orgs[k]) &&
        (org in orgs ==> after[org].name == Some(name.s))) &&
      (reply != Renamed ==> after == orgs)
  {
  }

  /** Viewers are refused. */
  lemma ViewerCannotRename(user: User, name: Json.Value, rows: Members, orgs: map<OrgId, Org>, updateFault: Option<string>)
    requires ValidName(name) && FirstOfUser(rows, user.id).Some?
    requires var org := FirstOfUser(rows, user.id).value.orgId;
      Lookup(rows, org, user.id).Some? && Lookup(rows, org, user.id).value.role == Viewer
    ensures RenameOrg(Some(user), name, rows, orgs, updateFault) == (orgs, RenameForbidden)
  {
  }

  method RenameHandler(db: Database, user: Option<User>, name: Json.Value, updateFault: Option<string>)
    returns (reply: RenameReply)
    modifies db`orgs
    ensures (db.orgs, reply) == RenameOrg(user, name, db.members, old(db.orgs), updateFault)
  {
    if user.None? {
      return RenameUnauthenticated;
    }
    if !ValidName(name) {
      return RenameInvalid;
    }
    var mem := FirstOfUser(db.members, user.value.id);
    if mem.None? {
      return RenameNoOrg;
    }
    var me := Lookup(db.members, mem.value.orgId, user.value.id);
    if me.None? || !ManagesOrg(me.value.role) {
      return RenameForbidden;
    }
    var err := db.RenameOrg(mem.value.orgId, name.s, updateFault);
    if err.Some? {
      return RenameFailed(err.value);
    }
    reply := Renamed;
  }
}
