/** `POST /api/processes`: a signed-in member creates a process in their organisation,
    optionally under one of its departements. */
module ProcessesRoute {
  import opened Common
  import opened Text
  import Json
  import opened Store

  /** The two body fields the route reads; `None` for a body `req.json()` rejects. */
  datatype ProcessBody = ProcessBody(name: Json.Value, departementId: Json.Value)

  datatype CreateReply =
    | CreateFailedUnexpectedly
    | CreateUnauthenticated
    | MissingName
    | NoOrganization
    | InvalidDepartement
    | ForeignDepartement
    | InsertRefused(message: string)
    | Created(id: string)

  function CreateStatus(r: CreateReply): int {
    match r
    case CreateFailedUnexpectedly => 500
    case CreateUnauthenticated => 401
    case Created(_) => 201
    case _ => 400
  }

  /** `body?.name?.toString().trim()`: no name for a missing or null field. */
  function NameOf(v: Json.Value): (r: Option<string>)
    ensures r.None? <==> v.Absent? || v.Null?
    ensures v.Str? ==> r == Some(Trim(v.s))
  {
    match Json.ToText(v)
    case None => None
    case Some(t) => Some(Trim(t))
  }

  /** `typeof body?.departement_id === 'number' ? body.departement_id : null`. */
  function DepartementIdOf(v: Json.Value): (r: Option<int>)
    ensures r.Some? <==> v.Num?
  {
    if v.Num? then Some(v.n) else None
  }

  /** The reply and the process table after one request. `memberFault` is an error of
      the membership query, `newId` the id the store assigns, `insertFault` an insert
      error. */
  function Create(body: Option<ProcessBody>, user: Option<User>, rows: Members, deps: seq<Departement>,
                  processes: seq<ProcessRow>, memberFault: bool, newId: string, insertFault: Option<string>)
    : (r: (seq<ProcessRow>, CreateReply))
    ensures r.1 == CreateUnauthenticated <==> body.Some? && user.None?
    ensures !r.1.Created? ==> r.0 == processes
    ensures r.1.Created? ==>
      |r.0| == |processes| + 1 && r.0[..|processes|] == processes &&
      r.0[|processes|].id == newId == r.1.id && Trim(r.0[|processes|].name) == r.0[|processes|].name != ""
  {
    if body.None? then (processes, CreateFailedUnexpectedly)
    else if user.None? then (processes, CreateUnauthenticated)
    else
      var name := NameOf(body.value.name);
      var depId := DepartementIdOf(body.value.departementId);
      if name.None? || name.value == "" then (processes, MissingName)
      else
        var membership := FirstOfUser(rows, user.value.id);
        if memberFault || membership.None? then (processes, NoOrganization)
        else
          Place(ProcessRow(newId, name.value, membership.value.orgId, depId, "{}", user.value.id, user.value.id),
                deps, processes, insertFault)
  }

  /** The departement checks and the insert of a row that passed the earlier checks. */
  function Place(row: ProcessRow, deps: seq<Departement>, processes: seq<ProcessRow>,
                 insertFault: Option<string>): (r: (seq<ProcessRow>, CreateReply))
    ensures !r.1.Created? ==> r.0 == processes
    ensures r.1.Created? ==> r.0 == processes + [row] && r.1.id == row.id
    ensures r.1.Created? && row.departementId.Some? ==>
      exists d :: d in deps && d.id == row.departementId.value && d.orgId == row.orgId
  {
    var depId := row.departementId;
    if depId.Some? && DepartementById(deps, depId.value).None? then (processes, InvalidDepartement)
    else if depId.Some? && DepartementById(deps, depId.value).value.orgId != row.orgId then (processes, ForeignDepartement)
    else if insertFault.Some? then (processes, InsertRefused(insertFault.value))
    else (processes + [row], Created(row.id))
  }

  /** The last stage either refuses without a change, for a departement that does not
      exist or belongs to another organisation or for an insert error, or appends the row. */
  lemma PlaceFacts(row: ProcessRow, deps: seq<Departement>, processes: seq<ProcessRow>, insertFault: Option<string>)
    ensures var (after, reply) := Place(row, deps, processes, insertFault);
      (reply.Created? <==> (insertFault.None? &&
        (row.departementId.Some? ==>
          DepartementById(deps, row.departementId.value).Some? &&
          DepartementById(deps, row.departementId.value).value.orgId == row.orgId))) &&
      (reply.Created? ==> after == processes + [row] && reply.id == row.id) &&
      (!reply.Created? ==> (after == processes &&
        (reply.InvalidDepartement? || reply.ForeignDepartement? || reply.InsertRefused?)))
  {
  }

  /** A request either changes nothing or appends exactly one row. */
  lemma CreateOnlyAppends(body: Option<ProcessBody>, user: Option<User>, rows: Members, deps: seq<Departement>,
                          processes: seq<ProcessRow>, memberFault: bool, newId: string, insertFault: Option<string>)
    ensures var (after, reply) := Create(body, user, rows, deps, processes, memberFault, newId, insertFault);
      (reply.Created? ==> |after| == |processes| + 1 && after[..|processes|] == processes) &&
      (!reply.Created? ==> after == processes)
  {
    var r := Create(body, user, rows, deps, processes, memberFault, newId, insertFault);
    if body.Some? && user.Some? {
      var name := NameOf(body.value.name);
      var membership := FirstOfUser(rows, user.value.id);
      if name.Some? && name.value != "" && !memberFault && membership.Some? {
        var row := ProcessRow(newId, name.value, membership.value.orgId,
                              DepartementIdOf(body.value.departementId), "{}", user.value.id, user.value.id);
        assert r == Place(row, deps, processes, insertFault);
        PlaceFacts(row, deps, processes, insertFault);
        assert (processes + [row])[..|processes|] == processes;
      }
    }
  }

  /** The new row: the trimmed name, the organisation of the caller's first membership
      (never one from the body), a departement only when the body gives a number that
      names a departement of that organisation, empty content, and the caller as owner
      and creator. */
  lemma CreatedRow(body: ProcessBody, user: User, rows: Members, deps: seq<Departement>,
                   processes: seq<ProcessRow>, memberFault: bool, newId: string, insertFault: Option<string>)
    ensures var (after, reply) := Create(Some(body), Some(user), rows, deps, processes, memberFault, newId, insertFault);
      reply.Created? ==> (
        |after| == |processes| + 1 &&
        var row := after[|processes|];
        var membership := FirstOfUser(rows, user.id);
        !memberFault && membership.Some? && insertFault.None? && reply.id == newId &&
        body.name != Json.Absent && body.name != Json.Null &&
        row.name == Trim(Json.ToText(body.name).value) && row.name != "" &&
        row.orgId == membership.value.orgId &&
        row.departementId == DepartementIdOf(body.departementId) &&
        (row.departementId.Some? ==>
          DepartementById(deps, row.departementId.value).Some? &&
          DepartementById(deps, row.departementId.value).value.orgId == row.orgId) &&
        row.content == "{}" && row.ownerId == user.id && row.createdBy == user.id)
  {
    var r := Create(Some(body), Some(user), rows, deps, processes, memberFault, newId, insertFault);
    var name := NameOf(body.name);
    var membership := FirstOfUser(rows, user.id);
    if name.Some? && name.value != "" && !memberFault && membership.Some? {
      var row := ProcessRow(newId, name.value, membership.value.orgId,
                            DepartementIdOf(body.departementId), "{}", user.id, user.id);
      assert r == Place(row, deps, processes, insertFault);
      PlaceFacts(row, deps, processes, insertFault);
      if r.1.Created? {
        assert r.0 == processes + [row];
        assert r.0[|processes|] == row;
        assert Json.ToText(body.name).Some? && name.value == Trim(Json.ToText(body.name).value);
      }
    } else {
      assert !r.1.Created?;
    }
  }

  /** The checks in order: an unreadable body (500), no user (401), no name (400), no
      membership (400), then the departement (400). */
  lemma CreateChecks(body: Option<ProcessBody>, user: Option<User>, rows: Members, deps: seq<Departement>,
                     processes: seq<ProcessRow>, memberFault: bool, newId: string, insertFault: Option<string>)
    ensures var reply := Create(body, user, rows, deps, processes, memberFault, newId, insertFault).1;
      (reply == CreateFailedUnexpectedly <==> body.None?) &&
      (reply == CreateUnauthenticated <==> body.Some? && user.None?) &&
      (reply == MissingName <==>
        (body.Some? && user.Some? && (NameOf(body.value.name).None? || NameOf(body.value.name).value == ""))) &&
      (reply == NoOrganization ==> memberFault || FirstOfUser(rows, user.value.id).None?) &&
      ((body.Some? && user.Some? && NameOf(body.value.name).Some? && NameOf(body.value.name).value != "" &&
        (memberFault || FirstOfUser(rows, user.value.id).None?)) ==> reply == NoOrganization)
  {
    var r := Create(body, user, rows, deps, processes, memberFault, newId, insertFault);
    if body.Some? && user.Some? {
      var name := NameOf(body.value.name);
      var membership := FirstOfUser(rows, user.value.id);
      if name.Some? && name.value != "" && !memberFault && membership.Some? {
        var row := ProcessRow(newId, name.value, membership.value.orgId,
                              DepartementIdOf(body.value.departementId), "{}", user.value.id, user.value.id);
        assert r == Place(row, deps, processes, insertFault);
        PlaceFacts(row, deps, processes, insertFault);
      }
    }
  }

  /** A departement id that is not a number is dropped rather than refused. */
  lemma NonNumericDepartementIgnored(name: string, dep: Json.Value, user: User, rows: Members, deps: seq<Departement>,
                                     processes: seq<ProcessRow>, newId: string)
    requires !dep.Num? && Trim(name) != "" && FirstOfUser(rows, user.id).Some?
    ensures Create(Some(ProcessBody(Json.Str(name), dep)), Some(user), rows, deps, processes, false, newId, None) ==
      (processes + [ProcessRow(newId, Trim(name), FirstOfUser(rows, user.id).value.orgId, None, "{}", user.id, user.id)],
       Created(newId))
  {
  }

  method CreateHandler(db: Database, body: Option<ProcessBody>, user: Option<User>, memberFault: bool,
                       newId: string, insertFault: Option<string>) returns (reply: CreateReply)
    modifies db`processes
    ensures (db.processes, reply) == Create(body, user, db.members, db.departements, old(db.processes),
                                            memberFault, newId, insertFault)
  {
    if body.None? {
      return CreateFailedUnexpectedly;
    }
    if user.None? {
      return CreateUnauthenticated;
    }
    var name := NameOf(body.value.name);
    var depId := DepartementIdOf(body.value.departementId);
    if name.None? || name.value == "" {
      return MissingName;
    }
    var membership := FirstOfUser(db.members, user.value.id);
    if memberFault || membership.None? {
      return NoOrganization;
    }
    var row := ProcessRow(newId, name.value, membership.value.orgId, depId, "{}", user.value.id, user.value.id);
    reply := PlaceHandler(db, row, insertFault);
  }

  method PlaceHandler(db: Database, row: ProcessRow, insertFault: Option<string>) returns (reply: CreateReply)
    modifies db`processes
    ensures (db.processes, reply) == Place(row, db.departements, old(db.processes), insertFault)
  {
    var depId := row.departementId;
    if depId.Some? {
      var dep := DepartementById(db.departements, depId.value);
      if dep.None? {
        return InvalidDepartement;
      }
      if dep.value.orgId != row.orgId {
        return ForeignDepartement;
      }
    }
    var err := db.InsertProcess(row, insertFault);
    if err.Some? {
      return InsertRefused(err.value);
    }
    reply := Created(row.id);
  }
}
