/** The create-process form: the body it posts to `POST /api/processes` and the error
    it shows when the route refuses. */
module ProcessForm {
  import opened Common
  import opened Text
  import opened UrlCoding
  import opened Store
  import Json
  import ProcessesRoute

  /** `departement_idRaw ? Number(raw) : null`, as `JSON.stringify` writes it: `NaN`
      becomes `null`. */
  function DepartementField(raw: Option<string>): (v: Json.Value)
    ensures v.Null? || v.Num?
    ensures (raw.None? || raw.value == "") ==> v.Null?
    ensures v.Num? ==> raw.Some? && ParseInt(raw.value) == Some(v.n)
  {
    if raw.Some? && raw.value != "" then
      match ParseInt(raw.value)
      case Some(n) => Json.Num(n)
      case None => Json.Null
    else Json.Null
  }

  /** The posted body: `name` (empty when the field is missing) and `departement_id`;
      there is no organisation field, the route takes the organisation from the
      membership. */
  function FormBody(nameField: Option<string>, departementField: Option<string>): ProcessesRoute.ProcessBody {
    var name := if nameField.Some? && nameField.value != "" then nameField.value else "";
    ProcessesRoute.ProcessBody(Json.Str(name), DepartementField(departementField))
  }

  /** The route reads the trimmed name back from the body. */
  lemma NameAsTheRouteReadsIt(nameField: Option<string>)
    ensures ProcessesRoute.NameOf(FormBody(nameField, None).name) == Some(Trim(nameField.GetOr("")))
  {
  }

  /** The route reads no departement for the empty choice and the chosen
      departement's id otherwise. */
  lemma DepartementAsTheRouteReadsIt(nameField: Option<string>, d: Departement)
    ensures ProcessesRoute.DepartementIdOf(FormBody(nameField, Some("")).departementId).None?
    ensures ProcessesRoute.DepartementIdOf(FormBody(nameField, None).departementId).None?
    ensures ProcessesRoute.DepartementIdOf(FormBody(nameField, Some(IntToString(d.id))).departementId) == Some(d.id)
  {
    ParseIntToString(d.id);
    assert IntToString(d.id) != "";
    assert DepartementField(Some(IntToString(d.id))) == Json.Num(d.id);
  }

  /** Submitting a name and one of the organisation's departements creates exactly
      that process in the member's organisation. */
  lemma FormCreatesProcess(name: string, d: Departement, user: User, rows: Members,
                           deps: seq<Departement>, processes: seq<ProcessRow>, newId: string)
    requires Trim(name) != ""
    requires FirstOfUser(rows, user.id).Some? && d.orgId == FirstOfUser(rows, user.id).value.orgId
    requires DepartementById(deps, d.id) == Some(d)
    ensures ProcessesRoute.Create(Some(FormBody(Some(name), Some(IntToString(d.id)))), Some(user), rows, deps,
                                  processes, false, newId, None) ==
      (processes + [ProcessRow(newId, Trim(name), d.orgId, Some(d.id), "{}", user.id, user.id)],
       ProcessesRoute.Created(newId))
  {
    NameAsTheRouteReadsIt(Some(name));
    DepartementAsTheRouteReadsIt(Some(name), d);
    assert name != "";
  }

  /** A blank name is refused by the route with 400. */
  lemma BlankNameRefused(name: string, raw: Option<string>, user: User, rows: Members,
                         deps: seq<Departement>, processes: seq<ProcessRow>, newId: string)
    requires Trim(name) == ""
    ensures ProcessesRoute.Create(Some(FormBody(Some(name), raw)), Some(user), rows, deps,
                                  processes, false, newId, None) == (processes, ProcessesRoute.MissingName)
  {
  }

  /** The toast link after a creation. */
  function CreatedTarget(): string {
    "/processes" + "?" + (("toast" + "=" + Encode(Component, "Process created")) + "&" + ("kind" + "=" + "success"))
  }

  class Form {
    var pending: bool
    var error: Option<string>

    constructor ()
      ensures !pending && error.None?
    {
      pending := false;
      error := None;
    }

    /** `onSubmit`: the body is posted; a refusal shows the route's error (or a
        fallback) and keeps the fields, success resets the form and navigates. */
    method Submit(nameField: Option<string>, departementField: Option<string>, reply: Outcome)
      returns (body: ProcessesRoute.ProcessBody, reset: bool, nav: Option<string>)
      modifies this
      ensures body == FormBody(nameField, departementField)
      ensures !pending
      ensures reply.Done? ==> error.None? && reset && nav == Some(CreatedTarget())
      ensures reply.Failed? ==>
        !reset && nav.None? &&
        error == Some(if reply.message != "" then reply.message else "Failed to create process")
    {
      pending := true;
      error := None;
      body := FormBody(nameField, departementField);
      if reply.Failed? {
        error := Some(if reply.message != "" then reply.message else "Failed to create process");
        reset := false;
        nav := None;
      } else {
        reset := true;
        nav := Some(CreatedTarget());
      }
      pending := false;
    }
  }
}
