/** One entry of the processes list: its departement caption, its edit mode and the
    update and delete requests it sends. */
module ProcessItem {
  import opened Common
  import opened Text
  import opened UrlCoding
  import opened Store
  import ProcessPreview

  /** The list caption: nothing for a falsy departement id, otherwise the name of the
      first departement of the process's organisation with that id, and `Dept <id>`
      when there is none or it has no name. */
  function DeptName(item: Proc, deps: seq<Departement>): Option<string> {
    if !DepartementIdTruthy(item.departementId) then None
    else
      var id := item.departementId.value;
      match FindDepartement(DepartementsOfOrg(deps, item.orgId), id)
      case Some(d) => Some(d.name.GetOr(ProcessPreview.DeptFallback(id)))
      case None => Some(ProcessPreview.DeptFallback(id))
  }

  /** A departement of another organisation is never named, even when it is listed. */
  lemma ForeignDepartementUnnamed(item: Proc, deps: seq<Departement>)
    requires DepartementIdTruthy(item.departementId)
    requires forall d :: d in deps && d.id == item.departementId.value ==> d.orgId != item.orgId
    ensures DeptName(item, deps) == Some(ProcessPreview.DeptFallback(item.departementId.value))
  {
    DepartementsOfOrgMembers(deps, item.orgId);
  }

  /** The caption is absent exactly for a falsy id, and a named departement of the
      process's own organisation is shown by name. */
  lemma DeptNameCases(item: Proc, deps: seq<Departement>, d: Departement)
    ensures DeptName(item, deps).None? <==> !DepartementIdTruthy(item.departementId)
    ensures (DepartementIdTruthy(item.departementId) && d.id == item.departementId.value &&
      d.orgId == item.orgId && d.name.Some? &&
      FindDepartement(DepartementsOfOrg(deps, item.orgId), d.id) == Some(d)) ==>
      DeptName(item, deps) == d.name
  {
  }

  /** With the organisation's own departements, the list shows the caption the preview
      shows under the diagram (`deptName ?? 'No department'`). */
  lemma ListAgreesWithPreview(item: Proc, deps: seq<Departement>)
    requires forall d :: d in deps ==> d.orgId == item.orgId
    ensures DeptName(item, deps).GetOr("No department") == ProcessPreview.DeptName(item, deps)
  {
    DepartementsOfOrgAll(deps, item.orgId);
  }

  /** The select's starting value: the id as text, or `''`. */
  function InitialDept(item: Proc): string {
    if item.departementId.Some? then IntToString(item.departementId.value) else ""
  }

  /** The PATCH body: `departement_id` is `null` for the empty choice and otherwise
      `Number(dept)`; text that is not a number gives `NaN`, which JSON writes as
      `null`. */
  datatype SaveBody = SaveBody(name: string, departementId: Option<int>)

  function Body(name: string, dept: string): (b: SaveBody)
    ensures b.name == name
    ensures dept == "" ==> b.departementId.None?
    ensures dept != "" ==> b.departementId == ParseInt(dept)
  {
    SaveBody(name, if dept == "" then None else ParseInt(dept))
  }

  /** Saving without touching the form sends the departement back unchanged. */
  lemma SaveKeepsDepartement(item: Proc)
    ensures Body(item.name, InitialDept(item)) == SaveBody(item.name, item.departementId)
  {
    if item.departementId.Some? {
      ParseIntToString(item.departementId.value);
      assert InitialDept(item) != "";
    }
  }

  /** Choosing a departement's option sends its id. */
  lemma OptionSendsId(name: string, d: Departement)
    ensures Body(name, IntToString(d.id)).departementId == Some(d.id)
  {
    ParseIntToString(d.id);
    assert IntToString(d.id) != "";
  }

  /** The classes of the entry, in order. */
  function Classes(selected: bool, editing: bool): seq<string> {
    ["card", "processes-list-item"] + (if selected then ["selected"] else []) + (if editing then ["editing"] else [])
  }

  lemma ClassesPlain(selected: bool, editing: bool)
    ensures forall i :: 0 <= i < |Classes(selected, editing)| ==> ' ' !in Classes(selected, editing)[i]
  {
    assert ' ' !in "card" && ' ' !in "processes-list-item" && ' ' !in "selected" && ' ' !in "editing";
  }

  /** `classes.join(' ')` after the pushes: the attribute reads back as the class list,
      which names `selected` and `editing` exactly when they hold. */
  method ClassName(selected: bool, editing: bool) returns (className: string)
    ensures Split(className, ' ') == Classes(selected, editing)
    ensures "selected" in Split(className, ' ') <==> selected
    ensures "editing" in Split(className, ' ') <==> editing
  {
    var classes := ["card", "processes-list-item"];
    if selected {
      classes := classes + ["selected"];
    }
    if editing {
      classes := classes + ["editing"];
    }
    assert classes == Classes(selected, editing);
    ClassesPlain(selected, editing);
    SplitJoin(classes, ' ');
    className := Join(classes, ' ');
  }

  /** The toast link after an update. */
  function UpdatedTarget(): string {
    "/processes" + "?" + (("toast" + "=" + Encode(Component, "Process updated")) + "&" + ("kind" + "=" + "success"))
  }

  /** The toast link after a deletion. */
  function DeletedTarget(): string {
    "/processes" + "?" + (("toast" + "=" + Encode(Component, "Process deleted")) + "&" + ("kind" + "=" + "success"))
  }

  /** The route a request goes to. */
  function ItemPath(item: Proc): string {
    "/api/processes/" + item.id
  }

  class Item {
    const item: Proc
    var editing: bool
    /** The name field. */
    var name: string
    /** The departement select's value. */
    var dept: string

    constructor (item: Proc)
      ensures this.item == item && !editing && name == item.name && dept == InitialDept(item)
    {
      this.item := item;
      editing := false;
      name := item.name;
      dept := InitialDept(item);
    }

    method Edit()
      modifies this`editing
      ensures editing
    {
      editing := true;
    }

    method Cancel()
      modifies this`editing
      ensures !editing
    {
      editing := false;
    }

    /** `handleSelect`: while editing nothing is selected, otherwise the item's id goes
        to `onSelect`. */
    method HandleSelect() returns (selectedId: Option<string>)
      ensures editing ==> selectedId.None?
      ensures !editing ==> selectedId == Some(item.id)
    {
      if editing {
        return None;
      }
      selectedId := Some(item.id);
    }

    /** `save`: a refused update alerts and stays in edit mode; an accepted one leaves
        it and navigates with a toast. */
    method Save(reply: Outcome) returns (path: string, body: SaveBody, alert: Option<string>, nav: Option<string>)
      modifies this`editing
      ensures path == ItemPath(item) && body == Body(name, dept)
      ensures reply.Failed? ==>
        editing == old(editing) && nav.None? &&
        alert == Some(if reply.message != "" then reply.message else "Failed to update")
      ensures reply.Done? ==> !editing && alert.None? && nav == Some(UpdatedTarget())
    {
      path := ItemPath(item);
      body := Body(name, dept);
      if reply.Failed? {
        alert := Some(if reply.message != "" then reply.message else "Failed to update");
        nav := None;
        return;
      }
      editing := false;
      alert := None;
      nav := Some(UpdatedTarget());
    }

    /** `remove`: nothing is sent unless the user confirms. */
    method Remove(confirmed: bool, reply: Outcome) returns (path: Option<string>, alert: Option<string>, nav: Option<string>)
      ensures !confirmed ==> path.None? && alert.None? && nav.None?
      ensures confirmed ==> path == Some(ItemPath(item))
      ensures confirmed && reply.Failed? ==>
        nav.None? && alert == Some(if reply.message != "" then reply.message else "Failed to delete")
      ensures confirmed && reply.Done? ==> alert.None? && nav == Some(DeletedTarget())
    {
      if !confirmed {
        return None, None, None;
      }
      path := Some(ItemPath(item));
      if reply.Failed? {
        alert := Some(if reply.message != "" then reply.message else "Failed to delete");
        nav := None;
      } else {
        alert := None;
        nav := Some(DeletedTarget());
      }
    }
  }
}
