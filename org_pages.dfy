/** The organisation page and the plan page: the plan line and a "full" marker per seat
    tier, from `getOrgContext`. */
module OrgPages {
  import opened Common
  import opened Store
  import opened OrgContext

  datatype Flags = Flags(ownersFull: bool, editorsFull: bool, viewersFull: bool)

  /** `counts && counts.max !== undefined ? counts.used >= (counts.max ?? 0) : false`;
      the maxima are always numbers. */
  function FullFlags(counts: Option<Counts>): (f: Flags)
    ensures counts.None? ==> f == Flags(false, false, false)
    ensures counts.Some? ==>
      (f.ownersFull <==> counts.value.owners >= counts.value.ownersMax) &&
      (f.editorsFull <==> counts.value.editors >= counts.value.editorsMax) &&
      (f.viewersFull <==> counts.value.viewers >= counts.value.viewersMax)
  {
    match counts
    case None => Flags(false, false, false)
    case Some(n) => Flags(n.owners >= n.ownersMax, n.editors >= n.editorsMax, n.viewers >= n.viewersMax)
  }

  /** `value ?? '—'`. */
  function OrDash(s: Option<string>): string {
    s.GetOr("—")
  }

  datatype OrgView =
    | OrgNothing
    | OrgNoOrganization
    | OrgShown(nameInitial: string, plan: string, status: string, flags: Flags)

  /** The organisation page: nothing without a user, a notice without an organisation,
      else the name form (seeded with the name, or '') and the plan card. */
  function OrgPage(c: Context): (v: OrgView)
    ensures v == OrgNothing <==> c.user.None?
    ensures v == OrgNoOrganization <==> c.user.Some? && c.org.None?
    ensures v.OrgShown? ==> v.flags == FullFlags(c.counts) && v.nameInitial == c.org.value.name.GetOr("")
  {
    if c.user.None? then OrgNothing
    else if c.org.None? then OrgNoOrganization
    else
      var plan := if c.sub.Some? then OrDash(c.sub.value.planId) else "—";
      var status := if c.sub.Some? then c.sub.value.status else "—";
      OrgShown(c.org.value.name.GetOr(""), plan, status, FullFlags(c.counts))
  }

  datatype PlanView =
    | PlanNothing
    | PlanNoOrganization
    | PlanShown(plan: string, status: string, flags: Flags)

  /** The plan page: the same checks and the same plan line and flags. */
  function PlanPage(c: Context): (v: PlanView)
    ensures v == PlanNothing <==> c.user.None?
    ensures v == PlanNoOrganization <==> c.user.Some? && c.org.None?
    ensures v.PlanShown? ==> v.flags == FullFlags(c.counts)
  {
    if c.user.None? then PlanNothing
    else if c.org.None? then PlanNoOrganization
    else
      var plan := if c.sub.Some? then OrDash(c.sub.value.planId) else "—";
      var status := if c.sub.Some? then c.sub.value.status else "—";
      PlanShown(plan, status, FullFlags(c.counts))
  }

  /** The two pages show the same plan line and the same markers. */
  lemma PagesAgree(c: Context)
    ensures OrgPage(c).OrgShown? <==> PlanPage(c).PlanShown?
    ensures OrgPage(c).OrgShown? ==>
      OrgPage(c).flags == PlanPage(c).flags && OrgPage(c).plan == PlanPage(c).plan &&
      OrgPage(c).status == PlanPage(c).status
  {
  }

  /** An organisation without a subscription has every maximum at 0, so every tier is
      shown full. */
  lemma NoSubscriptionAllFull(user: Option<User>, rows: Members, relation: Relation,
                              subs: map<OrgId, Subscription>)
    requires GetOrgContext(user, rows, relation, subs).org.Some?
    requires GetOrgContext(user, rows, relation, subs).sub.None?
    ensures FullFlags(GetOrgContext(user, rows, relation, subs).counts) == Flags(true, true, true)
  {
    ContextCounts(user, rows, relation, subs);
  }

  /** Owners and editors share the editor maximum and editors include the owners, so a
      full owner tier means a full editor tier. */
  lemma OwnersFullEditorsFull(user: Option<User>, rows: Members, relation: Relation,
                              subs: map<OrgId, Subscription>)
    ensures var f := FullFlags(GetOrgContext(user, rows, relation, subs).counts);
      f.ownersFull ==> f.editorsFull
  {
    if GetOrgContext(user, rows, relation, subs).counts.Some? {
      ContextCounts(user, rows, relation, subs);
    }
  }
}
