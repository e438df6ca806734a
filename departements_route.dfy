/** `/api/org/departements`: GET lists the departements of the caller's organisation;
    POST lets an owner or editor add one. */
module DepartementsRoute {
  import opened Common
  import opened Text
  import Json
  import opened Store

  datatype ListReply = ListUnauthenticated | ListNoOrg | ListFailed(message: string) | Listed(departements: seq<Departement>)

  function ListStatus(r: ListReply): int {
    match r
    case ListUnauthenticated => 401
    case Listed(_) => 200
    case _ => 400
  }

  // ---------------------------------------------------------------------------
  // `.order('name', { ascending: true })`

  /** Ascending by name, with a null name last, as PostgreSQL orders nulls in an
      ascending sort by default. */
  predicate NameLe(a: Option<string>, b: Option<string>) {
    b.None? || (a.Some? && StringLe(a.value, b.value))
  }

  lemma NameLeTotal(a: Option<string>, b: Option<string>)
    ensures NameLe(a, b) || NameLe(b, a)
  {
    if a.Some? && b.Some? {
      StringLeTotal(a.value, b.value);
    }
  }

  lemma NameLeTransitive(a: Option<string>, b: Option<string>, c: Option<string>)
    requires NameLe(a, b) && NameLe(b, c)
    ensures NameLe(a, c)
  {
    if a.Some? && b.Some? && c.Some? {
      StringLeTransitive(a.value, b.value, c.value);
    }
  }

  predicate SortedByName(s: seq<Departement>) {
    forall i, j :: 0 <= i < j < |s| ==> NameLe(s[i].name, s[j].name)
  }

  /** `d` placed before the first departement it does not sort after. */
  function InsertByName(d: Departement, s: seq<Departement>): (r: seq<Departement>)
    requires SortedByName(s)
    ensures SortedByName(r)
    ensures multiset(r) == multiset(s) + multiset{d}
  {
    if s == [] then [d]
    else if NameLe(d.name, s[0].name) then
      assert forall j :: 0 < j < |s| ==> NameLe(s[0].name, s[j].name);
      SortedCons(d, s);
      [d] + s
    else
      NameLeTotal(d.name, s[0].name);
      var rest := InsertByName(d, s[1..]);
      assert s == [s[0]] + s[1..];
      assert forall x :: x in rest ==> x == d || x in s[1..] by {
        forall x | x in rest ensures x == d || x in s[1..] {
          assert x in multiset(rest);
        }
      }
      assert forall x :: x in rest ==> NameLe(s[0].name, x.name) by {
        forall x | x in rest ensures NameLe(s[0].name, x.name) {
          if x != d {
            var j :| 0 <= j < |s[1..]| && s[1..][j] == x;
            assert s[j + 1] == x;
          }
        }
      }
      SortedConsMembers(s[0], rest);
      [s[0]] + rest
  }

  /** A departement that sorts before the head of a sorted list may lead it. */
  lemma SortedCons(d: Departement, s: seq<Departement>)
    requires SortedByName(s) && s != [] && NameLe(d.name, s[0].name)
    ensures SortedByName([d] + s)
  {
    forall i, j | 0 <= i < j < |[d] + s| ensures NameLe(([d] + s)[i].name, ([d] + s)[j].name) {
      if i == 0 && j > 1 {
        NameLeTransitive(d.name, s[0].name, s[j - 1].name);
      }
    }
  }

  lemma SortedConsMembers(d: Departement, s: seq<Departement>)
    requires SortedByName(s)
    requires forall x :: x in s ==> NameLe(d.name, x.name)
    ensures SortedByName([d] + s)
  {
    forall i, j | 0 <= i < j < |[d] + s| ensures NameLe(([d] + s)[i].name, ([d] + s)[j].name) {
      if i == 0 {
        assert ([d] + s)[j] == s[j - 1];
        assert s[j - 1] in s;
      }
    }
  }

  /** The rows in ascending name order; rows with the same name keep their table order. */
  function SortByName(s: seq<Departement>): (r: seq<Departement>)
    ensures SortedByName(r)
    ensures multiset(r) == multiset(s)
  {
    if s == [] then []
    else
      assert s == [s[0]] + s[1..];
      InsertByName(s[0], SortByName(s[1..]))
  }

  // ---------------------------------------------------------------------------
  // GET

  /** GET; `readFault` is an error of the departements query. */
  function List(user: Option<User>, rows: Members, deps: seq<Departement>, readFault: Option<string>): (r: ListReply)
    ensures r == ListUnauthenticated <==> user.None?
    ensures r.Listed? ==> SortedByName(r.departements) && readFault.None?
  {
    if user.None? then ListUnauthenticated
    else
      var me := FirstOfUser(rows, user.value.id);
      if me.None? then ListNoOrg
      else if readFault.Some? then ListFailed(readFault.value)
      else Listed(SortByName(DepartementsOfOrg(deps, me.value.orgId)))
  }

  /** 401 without a user, 400 without a membership or on a read fault; otherwise the
      listing holds the departements of the caller's first organisation, each as often as
      in the table, in ascending name order. */
  lemma ListScoped(user: Option<User>, rows: Members, deps: seq<Departement>, readFault: Option<string>)
    ensures var r := List(user, rows, deps, readFault);
      (r == ListUnauthenticated <==> user.None?) &&
      (r == ListNoOrg <==> user.Some? && FirstOfUser(rows, user.value.id).None?) &&
      (r.ListFailed? <==> user.Some? && FirstOfUser(rows, user.value.id).Some? && readFault.Some?) &&
      (r.ListFailed? ==> readFault == Some(r.message)) &&
      (r.Listed? ==>
        var org := FirstOfUser(rows, user.value.id).value.orgId;
        SortedByName(r.departements) &&
        multiset(r.departements) == multiset(DepartementsOfOrg(deps, org)) &&
        forall d :: d in r.departements <==> d in deps && d.orgId == org)
  {
    if user.Some? && FirstOfUser(rows, user.value.id).Some? && readFault.None? {
      var org := FirstOfUser(rows, user.value.id).value.orgId;
      DepartementsOfOrgMembers(deps, org);
      var listed := SortByName(DepartementsOfOrg(deps, org));
      forall d ensures d in listed <==> d in DepartementsOfOrg(deps, org) {
        assert d in listed <==> d in multiset(listed);
      }
    }
  }

  /** Rows stored as `Ventes` then `Achats` are listed as `Achats` then `Ventes`. */
  lemma ListOrdersByName(user: User, org: OrgId)
    ensures var rows := [MemberRow(org, user.id, Owner, true)];
      var deps := [Departement(1, org, Some("Ventes")), Departement(2, org, Some("Achats"))];
      List(Some(user), rows, deps, None) ==
        Listed([Departement(2, org, Some("Achats")), Departement(1, org, Some("Ventes"))])
  {
    var rows := [MemberRow(org, user.id, Owner, true)];
    var v := Departement(1, org, Some("Ventes"));
    var a := Departement(2, org, Some("Achats"));
    assert FirstOfUser(rows, user.id) == Some(rows[0]);
    DepartementsOfOrgAll([v, a], org);
    assert SortByName([a]) == [a];
    assert "Ventes"[0] == 'V' && "Achats"[0] == 'A';
    assert !NameLe(v.name, a.name);
    assert InsertByName(v, [a]) == [a] + InsertByName(v, []);
    assert SortByName([v, a]) == InsertByName(v, SortByName([a])) by {
      assert [v, a][0] == v && [v, a][1..] == [a];
    }
  }

  /** `!name || typeof name !== 'string' || name.trim().length < 1` refuses. */
  predicate ValidName(v: Json.Value) {
    v.Str? && v.s != "" && Trim(v.s) != ""
  }

  datatype AddReply = AddUnauthenticated | InvalidName | AddNoOrg | AddForbidden | AddFailed(message: string) | Added(id: int)

  function AddStatus(r: AddReply): int {
    match r
    case AddUnauthenticated => 401
    case AddForbidden => 403
    case Added(_) => 200
    case _ => 400
  }

  /** POST; `newId` is the id the store assigns, `insertFault` an insert error. */
  function Add(user: Option<User>, name: Json.Value, rows: Members, deps: seq<Departement>,
               newId: int, insertFault: Option<string>): (r: (seq<Departement>, AddReply))
    ensures r.1 == AddUnauthenticated <==> user.None?
    ensures !r.1.Added? ==> r.0 == deps
    ensures r.1.Added? ==> |r.0| == |deps| + 1 && r.0[..|deps|] == deps && r.0[|deps|].id == newId == r.1.id
  {
    if user.None? then (deps, AddUnauthenticated)
    else if !ValidName(name) then (deps, InvalidName)
    else
      var me := FirstOfUser(rows, user.value.id);
      if me.None? then (deps, AddNoOrg)
      else if !ManagesOrg(me.value.role) then (deps, AddForbidden)
      else if insertFault.Some? then (deps, AddFailed(insertFault.value))
      else (deps + [Departement(newId, me.value.orgId, Some(Trim(name.s)))], Added(newId))
  }

  /** The name is checked before the membership; blank names are refused; only an owner
      or an editor adds; the row holds the trimmed name and the caller's organisation. */
  lemma AddRules(user: Option<User>, name: Json.Value, rows: Members, deps: seq<Departement>,
                 newId: int, insertFault: Option<string>)
    ensures var (after, reply) := Add(user, name, rows, deps, newId, insertFault);
      (reply == InvalidName <==> user.Some? && !ValidName(name)) &&
      (reply == AddNoOrg <==> user.Some? && ValidName(name) && FirstOfUser(rows, user.value.id).None?) &&
      (reply == AddForbidden <==> (user.Some? && ValidName(name) && FirstOfUser(rows, user.value.id).Some? &&
                                   FirstOfUser(rows, user.value.id).value.role == Viewer)) &&
      (reply.Added? ==> after == deps + [Departement(newId, FirstOfUser(rows, user.value.id).value.orgId, Some(Trim(name.s)))] &&
                        Trim(name.s) != "") &&
      (!reply.Added? ==> after == deps)
  {
    if user.Some? && ValidName(name) {
      var me := FirstOfUser(rows, user.value.id);
      if me.Some? {
        assert ManagesOrg(me.value.role) <==> me.value.role != Viewer;
      }
    }
  }

  /** A name of spaces only is refused. */
  lemma BlankNameRefused(user: User, rows: Members, deps: seq<Departement>, newId: int, insertFault: Option<string>)
    ensures Add(Some(user), Json.Str("  "), rows, deps, newId, insertFault).1 == InvalidName
  {
    assert IsSpace("  "[0]) && IsSpace("  "[1]);
    TrimEmptyIffBlank("  ");
  }

  method AddHandler(db: Database, user: Option<User>, name: Json.Value, newId: int, insertFault: Option<string>)
    returns (reply: AddReply)
    modifies db`departements
    ensures (db.departements, reply) == Add(user, name, db.members, old(db.departements), newId, insertFault)
  {
    if user.None? {
      return AddUnauthenticated;
    }
    if !ValidName(name) {
      return InvalidName;
    }
    var me := FirstOfUser(db.members, user.value.id);
    if me.None? {
      return AddNoOrg;
    }
    if !ManagesOrg(me.value.role) {
      return AddForbidden;
    }
    var err := db.InsertDepartement(Departement(newId, me.value.orgId, Some(Trim(name.s))), insertFault);
    if err.Some? {
      return AddFailed(err.value);
    }
    reply := Added(newId);
  }
}
