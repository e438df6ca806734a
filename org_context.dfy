/** `getOrgContext`: the signed-in user, their first organisation, its subscription and
    its seat counts, as the organisation pages read them. */
module OrgContext {
  import opened Common
  import opened Store

  /** The `organizations` value the client embeds in a membership row: an object, an
      array of objects, or nothing at all. */
  datatype Relation = Missing | One(org: Org) | Many(orgs: seq<Org>)

  /** The relation as one organisation or null. */
  function Normalise(rel: Relation): (r: Option<Org>)
    ensures r.None? <==> rel.Missing? || (rel.Many? && rel.orgs == [])
    ensures r.Some? && rel.Many? ==> r.value == rel.orgs[0]
    ensures r.Some? && rel.One? ==> r.value == rel.org
  {
    match rel
    case Missing => None
    case One(org) => Some(org)
    case Many(orgs) => if orgs == [] then None else Some(orgs[0])
  }

  /** Seat counts and maxima; owners also take editor seats. */
  datatype Counts = Counts(owners: int, editors: int, viewers: int,
                           ownersMax: int, editorsMax: int, viewersMax: int)

  datatype Context = Context(user: Option<User>, org: Option<Org>, sub: Option<Subscription>,
                             counts: Option<Counts>)

  /** `sub?.column ?? 0`. */
  function SeatsOr0(sub: Option<Subscription>, editorColumn: bool): int {
    if sub.None? then 0
    else if editorColumn then sub.value.seatsEditor.GetOr(0)
    else sub.value.seatsViewer.GetOr(0)
  }

  /** The context. `relation` is what the client embeds for the user's first membership
      (ignored when there is none); the subscription and the members are read for the
      normalised organisation. */
  function GetOrgContext(user: Option<User>, rows: Members, relation: Relation,
                         subs: map<OrgId, Subscription>): (c: Context)
    ensures user.None? ==> c == Context(None, None, None, None)
    ensures user.Some? ==> c.user == user
    ensures c.org.None? ==> c.sub.None? && c.counts.None?
    ensures c.counts.Some? <==> c.org.Some?
    ensures user.Some? && FirstOfUser(rows, user.value.id).None? ==> c.org.None?
    ensures c.org.Some? ==> c.sub == SubOf(subs, c.org.value.id)
  {
    if user.None? then Context(None, None, None, None)
    else
      var rel := if FirstOfUser(rows, user.value.id).Some? then relation else Missing;
      match Normalise(rel)
      case None => Context(user, None, None, None)
      case Some(org) =>
        var sub := SubOf(subs, org.id);
        var list := RowsOfOrg(rows, org.id);
        Context(user, Some(org), sub,
                Some(Counts(CountRole(list, Owner), UsedEditors(list), CountRole(list, Viewer),
                            SeatsOr0(sub, true), SeatsOr0(sub, true), SeatsOr0(sub, false))))
  }

  /** The counts describe the organisation's members: editors are the owners plus the
      editors, so never fewer than the owners, and with the viewers they make up the
      whole membership. The maxima are the subscription's seat columns with null and a
      missing subscription read as 0, whatever the subscription's status. */
  lemma ContextCounts(user: Option<User>, rows: Members, relation: Relation, subs: map<OrgId, Subscription>)
    requires GetOrgContext(user, rows, relation, subs).counts.Some?
    ensures var c := GetOrgContext(user, rows, relation, subs);
      var n := c.counts.value;
      var list := RowsOfOrg(rows, c.org.value.id);
      n.owners == CountRole(list, Owner) &&
      n.editors == CountRole(list, Editor) + n.owners && n.owners <= n.editors &&
      n.viewers == CountRole(list, Viewer) && n.editors + n.viewers == |list| &&
      n.ownersMax == n.editorsMax &&
      (c.sub.None? ==> n.ownersMax == 0 && n.viewersMax == 0) &&
      (c.sub.Some? ==> n.editorsMax == c.sub.value.seatsEditor.GetOr(0) &&
                       n.viewersMax == c.sub.value.seatsViewer.GetOr(0))
  {
    var c := GetOrgContext(user, rows, relation, subs);
    SeatsPartition(RowsOfOrg(rows, c.org.value.id));
  }

  /** An organisation given as an object and as a one-element array gives the same
      context. */
  lemma RelationShapes(user: Option<User>, rows: Members, org: Org, more: seq<Org>,
                       subs: map<OrgId, Subscription>)
    ensures GetOrgContext(user, rows, Many([org] + more), subs) == GetOrgContext(user, rows, One(org), subs)
  {
  }
}
