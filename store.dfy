/** The tables the routes read and write (`org_members`, `org_subscriptions`,
    `invites`, `organizations`, `departements`, `processes`), the queries they run
    over them, and the seat counts derived from the membership table. */
module Store {
  import opened Common

  type UserId = string
  type OrgId = string

  /** The signed-in user as `auth.getUser()` returns it. */
  datatype User = User(id: UserId, email: Option<string>)

  /** A row of `org_members`. */
  datatype MemberRow = MemberRow(orgId: OrgId, userId: UserId, role: Role, canEdit: bool)

  type Members = seq<MemberRow>

  /** A row of `org_subscriptions`; the seat columns may be null. */
  datatype Subscription = Subscription(
    status: string, seatsEditor: Option<int>, seatsViewer: Option<int>, planId: Option<string>)

  /** A row of `invites`. */
  datatype Invite = Invite(
    id: string, orgId: OrgId, email: string, role: Role,
    acceptedBy: Option<UserId>, acceptedAt: Option<string>, createdAt: string)

  /** A row of `organizations`. */
  datatype Org = Org(id: OrgId, name: Option<string>)

  /** A row of `departements`. */
  datatype Departement = Departement(id: int, orgId: OrgId, name: Option<string>)

  /** A row of `processes`; `content` is the JSON text of the diagram. */
  datatype ProcessRow = ProcessRow(
    id: string, name: string, orgId: OrgId, departementId: Option<int>,
    content: string, ownerId: UserId, createdBy: UserId)

  /** A process as the processes page receives it: the listed columns of `processes`. */
  datatype Proc = Proc(
    id: string, name: string, orgId: OrgId, departementId: Option<int>, updatedAt: Option<string>)

  /** JavaScript truthiness of a `number | null` departement id: `null` and `0` are falsy. */
  predicate DepartementIdTruthy(id: Option<int>) {
    id.Some? && id.value != 0
  }

  /** The primary key of `org_members` is (org_id, user_id). */
  predicate UniqueKeys(rows: Members) {
    forall i, j :: 0 <= i < j < |rows| ==>
      (rows[i].orgId, rows[i].userId) != (rows[j].orgId, rows[j].userId)
  }

  predicate HasMember(rows: Members, org: OrgId, user: UserId) {
    exists i :: 0 <= i < |rows| && rows[i].orgId == org && rows[i].userId == user
  }

  // ---------------------------------------------------------------------------
  // Queries

  /** `.eq('user_id', user)`, in table order. */
  function RowsOfUser(rows: Members, user: UserId): (r: Members)
    ensures forall m :: m in r <==> m in rows && m.userId == user
  {
    if rows == [] then []
    else (if rows[0].userId == user then [rows[0]] else []) + RowsOfUser(rows[1..], user)
  }

  /** `.eq('org_id', org)`, in table order. */
  function RowsOfOrg(rows: Members, org: OrgId): (r: Members)
    ensures forall m :: m in r <==> m in rows && m.orgId == org
    ensures |r| <= |rows|
  {
    if rows == [] then []
    else (if rows[0].orgId == org then [rows[0]] else []) + RowsOfOrg(rows[1..], org)
  }

  /** `.eq('user_id', user).limit(1).maybeSingle()`: the user's first membership. */
  function FirstOfUser(rows: Members, user: UserId): (r: Option<MemberRow>)
    ensures r.None? <==> forall m :: m in rows ==> m.userId != user
    ensures r.Some? ==> r.value in rows && r.value.userId == user
  {
    var mine := RowsOfUser(rows, user);
    assert mine != [] ==> mine[0] in mine;
    if mine == [] then None else Some(mine[0])
  }

  /** `.eq('user_id', user).maybeSingle()` without a limit: a row only when the user has
      exactly one membership; with several, the client reports an error and no data. */
  function OnlyOfUser(rows: Members, user: UserId): (r: Option<MemberRow>)
    ensures r.Some? ==> r.value in rows && r.value.userId == user
    ensures r.Some? <==> |RowsOfUser(rows, user)| == 1
  {
    var mine := RowsOfUser(rows, user);
    if |mine| == 1 then Some(mine[0]) else None
  }

  /** `.eq('org_id', org).eq('user_id', user).maybeSingle()`. */
  function Lookup(rows: Members, org: OrgId, user: UserId): (r: Option<MemberRow>)
    ensures r.Some? ==> r.value in rows && r.value.orgId == org && r.value.userId == user
    ensures r.None? && UniqueKeys(rows) ==> !HasMember(rows, org, user)
  {
    var mine := RowsOfOrg(RowsOfUser(rows, user), org);
    if |mine| == 1 then Some(mine[0])
    else
      assert UniqueKeys(rows) && HasMember(rows, org, user) ==> |mine| == 1 by {
        if UniqueKeys(rows) && HasMember(rows, org, user) {
          SingleKey(rows, org, user);
        }
      }
      None
  }

  /** Under unique keys, the rows of one user in one org number exactly one when the
      key is present. */
  lemma {:induction false} SingleKey(rows: Members, org: OrgId, user: UserId)
    requires UniqueKeys(rows) && HasMember(rows, org, user)
    ensures |RowsOfOrg(RowsOfUser(rows, user), org)| == 1
  {
    var rest := rows[1..];
    assert UniqueKeys(rest) by {
      forall i, j | 0 <= i < j < |rest|
        ensures (rest[i].orgId, rest[i].userId) != (rest[j].orgId, rest[j].userId)
      {
        assert rest[i] == rows[i + 1] && rest[j] == rows[j + 1];
      }
    }
    RowsOfOrgAppend(if rows[0].userId == user then [rows[0]] else [], RowsOfUser(rest, user), org);
    if rows[0].orgId == org && rows[0].userId == user {
      assert !HasMember(rest, org, user) by {
        forall i | 0 <= i < |rest| ensures !(rest[i].orgId == org && rest[i].userId == user) {
          assert rest[i] == rows[i + 1];
        }
      }
      NoKey(rest, org, user);
    } else {
      assert HasMember(rest, org, user) by {
        var i :| 0 <= i < |rows| && rows[i].orgId == org && rows[i].userId == user;
        assert rest[i - 1] == rows[i];
      }
      SingleKey(rest, org, user);
    }
  }

  lemma {:induction false} NoKey(rows: Members, org: OrgId, user: UserId)
    requires !HasMember(rows, org, user)
    ensures RowsOfOrg(RowsOfUser(rows, user), org) == []
  {
    if rows != [] {
      assert !HasMember(rows[1..], org, user) by {
        forall i | 0 <= i < |rows[1..]| ensures !(rows[1..][i].orgId == org && rows[1..][i].userId == user) {
          assert rows[1..][i] == rows[i + 1];
        }
      }
      NoKey(rows[1..], org, user);
      RowsOfOrgAppend(if rows[0].userId == user then [rows[0]] else [], RowsOfUser(rows[1..], user), org);
    }
  }

  lemma {:induction false} RowsOfOrgAppend(a: Members, b: Members, org: OrgId)
    ensures RowsOfOrg(a + b, org) == RowsOfOrg(a, org) + RowsOfOrg(b, org)
  {
    if a == [] {
      assert a + b == b;
    } else {
      assert (a + b)[0] == a[0] && (a + b)[1..] == a[1..] + b;
      RowsOfOrgAppend(a[1..], b, org);
    }
  }

  // ---------------------------------------------------------------------------
  // Seat counts

  /** `list.filter(m => m.role === r).length`. */
  function CountRole(rows: Members, r: Role): (n: nat)
    ensures n <= |rows|
  {
    if rows == [] then 0 else (if rows[0].role == r then 1 else 0) + CountRole(rows[1..], r)
  }

  /** The editor seats in use: owners count as editors. */
  function UsedEditors(rows: Members): (n: nat)
    ensures n <= |rows|
  {
    if rows == [] then 0
    else (if rows[0].role == Owner || rows[0].role == Editor then 1 else 0) + UsedEditors(rows[1..])
  }

  /** The viewer seats in use. */
  function UsedViewers(rows: Members): nat {
    CountRole(rows, Viewer)
  }

  /** Every member takes exactly one seat: editors' seats and viewers' seats add up to
      the membership, and the editor seats are the owners and the editors. */
  lemma {:induction false} SeatsPartition(rows: Members)
    ensures UsedEditors(rows) + UsedViewers(rows) == |rows|
    ensures UsedEditors(rows) == CountRole(rows, Owner) + CountRole(rows, Editor)
    ensures CountRole(rows, Owner) <= UsedEditors(rows)
  {
    if rows != [] {
      SeatsPartition(rows[1..]);
    }
  }

  /** `!!sub && (status === 'active' || status === 'trialing' || status === 'paused')`. */
  predicate HasActiveSub(sub: Option<Subscription>) {
    sub.Some? && (sub.value.status == "active" || sub.value.status == "trialing" || sub.value.status == "paused")
  }

  /** `.from('org_subscriptions').eq('org_id', org).maybeSingle()`: one subscription row
      per organisation at most. */
  function SubOf(subs: map<OrgId, Subscription>, org: OrgId): Option<Subscription> {
    if org in subs then Some(subs[org]) else None
  }

  // ---------------------------------------------------------------------------
  // Writes

  /** `.update({ role }).eq('user_id', user).eq('org_id', org)`: every matching row takes
      the new role; `can_edit` is not part of the update. */
  function UpdateRole(rows: Members, org: OrgId, user: UserId, role: Role): (r: Members)
    ensures |r| == |rows|
    ensures forall i :: 0 <= i < |rows| ==>
      r[i] == if rows[i].orgId == org && rows[i].userId == user then rows[i].(role := role) else rows[i]
  {
    if rows == [] then []
    else
      var head := if rows[0].orgId == org && rows[0].userId == user then rows[0].(role := role) else rows[0];
      [head] + UpdateRole(rows[1..], org, user, role)
  }

  /** `.delete().eq('user_id', user).eq('org_id', org)`: the matching rows go, the others
      stay in order. */
  function DeleteMember(rows: Members, org: OrgId, user: UserId): (r: Members)
    ensures forall m :: m in r <==> m in rows && !(m.orgId == org && m.userId == user)
    ensures !HasMember(r, org, user)
  {
    if rows == [] then []
    else
      var head := if rows[0].orgId == org && rows[0].userId == user then [] else [rows[0]];
      head + DeleteMember(rows[1..], org, user)
  }

  /** A role update keeps every row's key and `can_edit`, changes only the rows with
      the given key, and so keeps the keys unique exactly when they were. */
  lemma UpdateRoleFrame(rows: Members, org: OrgId, user: UserId, role: Role)
    ensures var after := UpdateRole(rows, org, user, role);
      (UniqueKeys(after) <==> UniqueKeys(rows)) &&
      forall i :: 0 <= i < |rows| ==>
        after[i].orgId == rows[i].orgId && after[i].userId == rows[i].userId &&
        after[i].canEdit == rows[i].canEdit &&
        (after[i] != rows[i] ==> rows[i].orgId == org && rows[i].userId == user && after[i].role == role)
  {
    var after := UpdateRole(rows, org, user, role);
    assert forall i :: 0 <= i < |rows| ==> (after[i].orgId, after[i].userId) == (rows[i].orgId, rows[i].userId);
  }

  lemma {:induction false} DeleteKeepsKeys(rows: Members, org: OrgId, user: UserId)
    requires UniqueKeys(rows)
    ensures UniqueKeys(DeleteMember(rows, org, user))
  {
    if rows != [] {
      var rest := rows[1..];
      UniqueKeysSplit(rows);
      DeleteKeepsKeys(rest, org, user);
      var tail := DeleteMember(rest, org, user);
      if !(rows[0].orgId == org && rows[0].userId == user) {
        assert DeleteMember(rows, org, user) == [rows[0]] + tail;
        UniqueKeysCons(rows[0], tail);
      }
    }
  }

  /** The rows after the first keep unique keys, none of them the first row's key. */
  lemma UniqueKeysSplit(rows: Members)
    requires UniqueKeys(rows) && rows != []
    ensures UniqueKeys(rows[1..])
    ensures forall m :: m in rows[1..] ==> (m.orgId, m.userId) != (rows[0].orgId, rows[0].userId)
  {
    var rest := rows[1..];
    forall i, j | 0 <= i < j < |rest|
      ensures (rest[i].orgId, rest[i].userId) != (rest[j].orgId, rest[j].userId)
    {
      assert rest[i] == rows[i + 1] && rest[j] == rows[j + 1];
    }
    forall m | m in rest
      ensures (m.orgId, m.userId) != (rows[0].orgId, rows[0].userId)
    {
      var k :| 0 <= k < |rest| && rest[k] == m;
      assert rows[k + 1] == m;
    }
  }

  /** A row whose key no other row has extends a table with unique keys. */
  lemma UniqueKeysCons(x: MemberRow, tail: Members)
    requires UniqueKeys(tail)
    requires forall m :: m in tail ==> (m.orgId, m.userId) != (x.orgId, x.userId)
    ensures UniqueKeys([x] + tail)
  {
    var r := [x] + tail;
    forall i, j | 0 <= i < j < |r|
      ensures (r[i].orgId, r[i].userId) != (r[j].orgId, r[j].userId)
    {
      assert r[j] == tail[j - 1];
      if i == 0 {
        assert r[j] in tail;
      } else {
        assert r[i] == tail[i - 1];
      }
    }
  }

  /** The invites after the accepted marker is written, unless the update fails. */
  function MarkInvite(invites: map<string, Invite>, id: string, user: UserId, now: string,
                      fault: bool): (r: map<string, Invite>)
    ensures r.Keys == invites.Keys
    ensures forall k :: k in invites && k != id ==> r[k] == invites[k]
    ensures id in invites && !fault ==>
      r[id] == invites[id].(acceptedBy := Some(user), acceptedAt := Some(now))
    ensures fault ==> r == invites
  {
    if !fault && id in invites then
      invites[id := invites[id].(acceptedBy := Some(user), acceptedAt := Some(now))]
    else invites
  }

  // ---------------------------------------------------------------------------
  // Departements, processes and organisations

  /** `.from('departements').eq('organization_id', org)`, in table order. */
  function DepartementsOfOrg(deps: seq<Departement>, org: OrgId): seq<Departement> {
    if deps == [] then []
    else (if deps[0].orgId == org then [deps[0]] else []) + DepartementsOfOrg(deps[1..], org)
  }

  /** The filter holds exactly the organisation's rows. */
  lemma {:induction false} DepartementsOfOrgMembers(deps: seq<Departement>, org: OrgId)
    ensures forall d :: d in DepartementsOfOrg(deps, org) <==> d in deps && d.orgId == org
  {
    if deps != [] {
      DepartementsOfOrgMembers(deps[1..], org);
      assert deps == [deps[0]] + deps[1..];
    }
  }

  /** The filter keeps the table order: it distributes over concatenation. */
  lemma {:induction false} DepartementsOfOrgAppend(a: seq<Departement>, b: seq<Departement>, org: OrgId)
    ensures DepartementsOfOrg(a + b, org) == DepartementsOfOrg(a, org) + DepartementsOfOrg(b, org)
  {
    if a == [] {
      assert a + b == b;
    } else {
      DepartementsOfOrgAppend(a[1..], b, org);
      var ab := a + b;
      assert ab[0] == a[0];
      assert ab[1..] == a[1..] + b;
      var h := if a[0].orgId == org then [a[0]] else [];
      calc {
        DepartementsOfOrg(ab, org);
        h + DepartementsOfOrg(ab[1..], org);
        h + DepartementsOfOrg(a[1..] + b, org);
        h + (DepartementsOfOrg(a[1..], org) + DepartementsOfOrg(b, org));
        (h + DepartementsOfOrg(a[1..], org)) + DepartementsOfOrg(b, org);
        DepartementsOfOrg(a, org) + DepartementsOfOrg(b, org);
      }
    }
  }

  /** ... and keeps a single row exactly when that row is of the organisation. */
  lemma DepartementsOfOrgSingle(d: Departement, org: OrgId)
    ensures DepartementsOfOrg([d], org) == (if d.orgId == org then [d] else [])
  {
    assert [d][1..] == [];
  }

  /** A list of one organisation's departements is its own filter. */
  lemma {:induction false} DepartementsOfOrgAll(deps: seq<Departement>, org: OrgId)
    requires forall d :: d in deps ==> d.orgId == org
    ensures DepartementsOfOrg(deps, org) == deps
  {
    if deps != [] {
      DepartementsOfOrgAll(deps[1..], org);
      assert [deps[0]] + deps[1..] == deps;
    }
  }

  /** `departements.find(d => d.id === id)`: the first row with that id. */
  function FindDepartement(deps: seq<Departement>, id: int): (r: Option<Departement>)
    ensures r.Some? ==> r.value in deps && r.value.id == id
    ensures r.None? <==> forall d :: d in deps ==> d.id != id
  {
    if deps == [] then None
    else if deps[0].id == id then Some(deps[0])
    else FindDepartement(deps[1..], id)
  }

  /** `find` returns the first match. */
  lemma {:induction false} FindDepartementFirst(deps: seq<Departement>, id: int, k: nat)
    requires k < |deps| && deps[k].id == id
    requires forall j :: 0 <= j < k ==> deps[j].id != id
    ensures FindDepartement(deps, id) == Some(deps[k])
  {
    if k > 0 {
      assert forall j :: 0 <= j < k - 1 ==> deps[1..][j] == deps[j + 1];
      FindDepartementFirst(deps[1..], id, k - 1);
    }
  }

  function DepartementsWithId(deps: seq<Departement>, id: int): (r: seq<Departement>)
    ensures forall d :: d in r <==> d in deps && d.id == id
  {
    if deps == [] then []
    else (if deps[0].id == id then [deps[0]] else []) + DepartementsWithId(deps[1..], id)
  }

  /** `.eq('id', id).single()`: the row when exactly one has that id, else an error. */
  function DepartementById(deps: seq<Departement>, id: int): (r: Option<Departement>)
    ensures r.Some? ==> r.value in deps && r.value.id == id
    ensures r.None? <==> |DepartementsWithId(deps, id)| != 1
  {
    var found := DepartementsWithId(deps, id);
    if |found| == 1 then Some(found[0]) else None
  }

  /** `.from('organizations').update({ name }).eq('id', id)`: only that row changes, and
      an id with no row changes nothing. */
  function Rename(orgs: map<OrgId, Org>, id: OrgId, name: string): (r: map<OrgId, Org>)
    ensures r.Keys == orgs.Keys
    ensures forall k :: k in orgs && k != id ==> r[k] == orgs[k]
    ensures id in orgs ==> r[id] == orgs[id].(name := Some(name))
  {
    if id in orgs then orgs[id := orgs[id].(name := Some(name))] else orgs
  }

  /** The store's answer to an `org_members` insert whose key already exists. */
  const DuplicateKeyMessage := "duplicate key" + " value violates unique constraint \"org_members_pkey\""

  /** The tables, updated in place by the routes. */
  class Database {
    var members: Members
    var subscriptions: map<OrgId, Subscription>
    var invites: map<string, Invite>
    var orgs: map<OrgId, Org>
    var departements: seq<Departement>
    var processes: seq<ProcessRow>

    constructor(members: Members, subscriptions: map<OrgId, Subscription>, invites: map<string, Invite>,
                orgs: map<OrgId, Org>, departements: seq<Departement>, processes: seq<ProcessRow>)
      ensures this.members == members && this.subscriptions == subscriptions
      ensures this.invites == invites && this.orgs == orgs
      ensures this.departements == departements && this.processes == processes
    {
      this.members := members;
      this.subscriptions := subscriptions;
      this.invites := invites;
      this.orgs := orgs;
      this.departements := departements;
      this.processes := processes;
    }

    /** `.from('org_members').insert(row)`: refused with the duplicate-key message when the
        key exists, refused with `fault` when the store fails otherwise, else appended. */
    method InsertMember(row: MemberRow, fault: Option<string>) returns (err: Option<string>)
      modifies this`members
      ensures HasMember(old(members), row.orgId, row.userId) ==>
        err == Some(DuplicateKeyMessage) && members == old(members)
      ensures !HasMember(old(members), row.orgId, row.userId) && fault.Some? ==>
        err == fault && members == old(members)
      ensures !HasMember(old(members), row.orgId, row.userId) && fault.None? ==>
        err.None? && members == old(members) + [row]
    {
      if exists i :: 0 <= i < |members| && members[i].orgId == row.orgId && members[i].userId == row.userId {
        err := Some(DuplicateKeyMessage);
      } else if fault.Some? {
        err := fault;
      } else {
        members := members + [row];
        err := None;
      }
    }

    /** `.from('invites').update({ accepted_by, accepted_at }).eq('id', id)`; an id that
        names no invite matches no row. */
    method MarkAccepted(id: string, user: UserId, now: string, fault: bool)
      modifies this`invites
      ensures invites == MarkInvite(old(invites), id, user, now, fault)
    {
      if !fault && id in invites {
        invites := invites[id := invites[id].(acceptedBy := Some(user), acceptedAt := Some(now))];
      }
    }

    /** `.from('departements').insert(row)`; `fault` is a store error. */
    method InsertDepartement(row: Departement, fault: Option<string>) returns (err: Option<string>)
      modifies this`departements
      ensures err == fault
      ensures departements == if fault.None? then old(departements) + [row] else old(departements)
    {
      err := fault;
      if fault.None? {
        departements := departements + [row];
      }
    }

    /** `.from('processes').insert(row)`; `fault` is a store error. */
    method InsertProcess(row: ProcessRow, fault: Option<string>) returns (err: Option<string>)
      modifies this`processes
      ensures err == fault
      ensures processes == if fault.None? then old(processes) + [row] else old(processes)
    {
      err := fault;
      if fault.None? {
        processes := processes + [row];
      }
    }

    /** `.from('organizations').update({ name }).eq('id', id)`. */
    method RenameOrg(id: OrgId, name: string, fault: Option<string>) returns (err: Option<string>)
      modifies this`orgs
      ensures err == fault
      ensures orgs == if fault.None? then Rename(old(orgs), id, name) else old(orgs)
    {
      err := fault;
      if fault.None? {
        orgs := Rename(orgs, id, name);
      }
    }

    /** `.update({ role }).eq('user_id', user).eq('org_id', org)`. */
    method SetRole(org: OrgId, user: UserId, role: Role, fault: Option<string>) returns (err: Option<string>)
      modifies this`members
      ensures err == fault
      ensures fault.None? ==> members == UpdateRole(old(members), org, user, role)
      ensures fault.Some? ==> members == old(members)
    {
      err := fault;
      if fault.None? {
        members := UpdateRole(members, org, user, role);
      }
    }

    /** `.delete().eq('user_id', user).eq('org_id', org)`. */
    method RemoveMember(org: OrgId, user: UserId, fault: Option<string>) returns (err: Option<string>)
      modifies this`members
      ensures err == fault
      ensures fault.None? ==> members == DeleteMember(old(members), org, user)
      ensures fault.Some? ==> members == old(members)
    {
      err := fault;
      if fault.None? {
        members := DeleteMember(members, org, user);
      }
    }
  }

  /** Inserting through the store never breaks the uniqueness of keys. */
  lemma InsertKeepsKeys(rows: Members, row: MemberRow)
    requires UniqueKeys(rows) && !HasMember(rows, row.orgId, row.userId)
    ensures UniqueKeys(rows + [row])
  {
    var r := rows + [row];
    forall i, j | 0 <= i < j < |r| ensures (r[i].orgId, r[i].userId) != (r[j].orgId, r[j].userId) {
      if j == |rows| {
        assert r[i] == rows[i];
      } else {
        assert r[i] == rows[i] && r[j] == rows[j];
      }
    }
  }
}
