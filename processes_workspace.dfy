/** The processes page: which process the preview shows, the list's selection marks,
    the process count, and the side panel whose open flag is kept in `localStorage`. */
module ProcessesWorkspace {
  import opened Common
  import opened Text
  import opened Store
  import opened Browser

  /** `processes[0]?.id ?? null`. */
  function InitialSelection(ps: seq<Proc>): (r: Option<string>)
    ensures r.None? <==> ps == []
    ensures ps != [] ==> r == Some(ps[0].id)
  {
    if ps == [] then None else Some(ps[0].id)
  }

  /** `processes.find(p => p.id === selectedId) ?? null`. */
  function SelectedProcess(ps: seq<Proc>, selectedId: Option<string>): (r: Option<Proc>)
    ensures r.Some? ==> r.value in ps && selectedId == Some(r.value.id)
    ensures r.None? <==> forall p :: p in ps ==> selectedId != Some(p.id)
  {
    if ps == [] then None
    else if selectedId == Some(ps[0].id) then Some(ps[0])
    else SelectedProcess(ps[1..], selectedId)
  }

  /** Process ids are primary keys. */
  predicate UniqueIds(ps: seq<Proc>) {
    forall i, j :: 0 <= i < j < |ps| ==> ps[i].id != ps[j].id
  }

  /** The page opens on the first process, or on nothing for an empty list. */
  lemma InitialShowsFirst(ps: seq<Proc>)
    ensures SelectedProcess(ps, InitialSelection(ps)) == if ps == [] then None else Some(ps[0])
  {
  }

  /** Selecting an entry shows that process. */
  lemma {:induction false} SelectShows(ps: seq<Proc>, k: nat)
    requires UniqueIds(ps) && k < |ps|
    ensures SelectedProcess(ps, Some(ps[k].id)) == Some(ps[k])
  {
    if k > 0 {
      assert UniqueIds(ps[1..]);
      assert ps[1..][k - 1] == ps[k];
      SelectShows(ps[1..], k - 1);
    }
  }

  /** The `selected` mark an entry receives. */
  predicate Marked(p: Proc, selectedId: Option<string>) {
    selectedId == Some(p.id)
  }

  /** With unique ids at most one entry is marked, and the marked one is the preview's. */
  lemma OneMarked(ps: seq<Proc>, selectedId: Option<string>, i: nat, j: nat)
    requires UniqueIds(ps) && i < |ps| && j < |ps|
    requires Marked(ps[i], selectedId) && Marked(ps[j], selectedId)
    ensures i == j
    ensures SelectedProcess(ps, selectedId) == Some(ps[i])
  {
    SelectShows(ps, i);
  }

  /** `{n} process` or `{n} processes`. */
  function CountLabel(n: nat): string {
    NatToString(n) + " " + (if n == 1 then "process" else "processes")
  }

  /** The singular is used exactly for one process. */
  lemma CountLabelSingular(n: nat)
    ensures CountLabel(n) == NatToString(n) + " process" <==> n == 1
  {
    if n != 1 {
      assert |CountLabel(n)| == |NatToString(n) + " process"| + 2;
    }
  }

  /** The storage key of the panel flag. */
  const PanelKey := "processes-panel:open"

  /** The text stored for a flag. */
  function Stored(open: bool): string {
    if open then "1" else "0"
  }

  class Workspace {
    var selectedId: Option<string>
    var panelOpen: bool

    /** The first render: the first process is selected and the panel is open. */
    constructor (ps: seq<Proc>)
      ensures selectedId == InitialSelection(ps) && panelOpen
    {
      selectedId := InitialSelection(ps);
      panelOpen := true;
    }

    /** The storage holds `'1'` or `'0'` matching the flag. */
    predicate Persisted(w: Window)
      reads this, w
    {
      PanelKey in w.storage && w.storage[PanelKey] == Stored(panelOpen)
    }

    /** The mount effects: a stored value decides the flag (`'1'` opens, anything else
        closes, nothing keeps the flag), then the flag is written back. */
    method Mount(w: Window)
      modifies this`panelOpen, w`storage
      ensures panelOpen == if PanelKey in old(w.storage) then old(w.storage)[PanelKey] == "1" else old(panelOpen)
      ensures w.storage == old(w.storage)[PanelKey := Stored(panelOpen)]
      ensures Persisted(w)
    {
      if PanelKey in w.storage {
        panelOpen := w.storage[PanelKey] == "1";
      }
      w.storage := w.storage[PanelKey := Stored(panelOpen)];
    }

    /** The toggle button: the flag flips and is written back. */
    method Toggle(w: Window)
      modifies this`panelOpen, w`storage
      ensures panelOpen == !old(panelOpen)
      ensures w.storage == old(w.storage)[PanelKey := Stored(panelOpen)]
      ensures Persisted(w)
    {
      panelOpen := !panelOpen;
      w.storage := w.storage[PanelKey := Stored(panelOpen)];
    }

    /** `onSelect` of an entry. */
    method Select(id: string)
      modifies this`selectedId
      ensures selectedId == Some(id)
    {
      selectedId := Some(id);
    }
  }

  /** A flag written by the page reads back as itself on the next mount. */
  lemma StoredReadsBack(open: bool)
    ensures (Stored(open) == "1") == open
  {
  }
}
