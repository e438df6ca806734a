/** The process preview: the Mermaid flowchart text built for the selected process, the
    escaping of its node label, and the departement caption under the diagram. */
module ProcessPreview {
  import opened Common
  import opened Text
  import opened Store

  // ---------------------------------------------------------------------------
  // Label escaping

  /** `s.replace(/c/g, rep)` for a single character `c`. */
  function ReplaceChar(s: string, c: char, rep: string): string {
    if s == [] then [] else (if s[0] == c then rep else [s[0]]) + ReplaceChar(s[1..], c, rep)
  }

  lemma {:induction false} ReplaceAppend(a: string, b: string, c: char, rep: string)
    ensures ReplaceChar(a + b, c, rep) == ReplaceChar(a, c, rep) + ReplaceChar(b, c, rep)
  {
    if a == [] {
      assert a + b == b;
    } else {
      ReplaceAppend(a[1..], b, c, rep);
      var ab := a + b;
      assert ab[0] == a[0];
      assert ab[1..] == a[1..] + b;
      var h := if a[0] == c then rep else [a[0]];
      calc {
        ReplaceChar(ab, c, rep);
        h + ReplaceChar(ab[1..], c, rep);
        h + (ReplaceChar(a[1..], c, rep) + ReplaceChar(b, c, rep));
        (h + ReplaceChar(a[1..], c, rep)) + ReplaceChar(b, c, rep);
        ReplaceChar(a, c, rep) + ReplaceChar(b, c, rep);
      }
    }
  }

  /** `escapeMermaidLabel`: backslashes doubled, then newlines written `\n`, then quotes
      written `\"`, then `trim`. The chain escapes each character on its own, and the
      label stays on one line and cannot close the quoted Mermaid text it is written in. */
  function EscapeLabel(v: string): (r: string)
    ensures r == Trim(EscapeAll(v))
    ensures '\n' !in r && QuotesEscaped(r)
  {
    ChainIsEscapeAll(v);
    EscapeAllNoNewline(v);
    EscapeAllQuotes(v);
    TrimKeepsEscapes(EscapeAll(v));
    Trim(ReplaceChar(ReplaceChar(ReplaceChar(v, '\\', "\\\\"), '\n', "\\n"), '"', "\\\""))
  }

  /** What the three replacements do to one character. */
  function EscapeChar(c: char): string {
    if c == '\\' then ['\\', '\\'] else if c == '\n' then ['\\', 'n'] else if c == '"' then ['\\', '"'] else [c]
  }

  /** Every character escaped in one pass. */
  function EscapeAll(s: string): string {
    if s == [] then [] else EscapeChar(s[0]) + EscapeAll(s[1..])
  }

  lemma ChainChar(c: char)
    ensures ReplaceChar(ReplaceChar(ReplaceChar([c], '\\', "\\\\"), '\n', "\\n"), '"', "\\\"") == EscapeChar(c)
  {
    assert [c][1..] == [];
    if c == '\\' {
      assert ReplaceChar([c], '\\', "\\\\") == "\\\\";
      assert ReplaceChar("\\\\", '\n', "\\n") == "\\\\";
    } else if c == '\n' {
      assert ReplaceChar(ReplaceChar([c], '\\', "\\\\"), '\n', "\\n") == "\\n";
    } else if c == '"' {
      assert ReplaceChar(ReplaceChar([c], '\\', "\\\\"), '\n', "\\n") == [c];
    }
  }

  /** Because backslashes are doubled first, the chain of replacements escapes each
      character once: the `\` that the later steps introduce is never doubled. */
  lemma {:induction false} ChainIsEscapeAll(s: string)
    ensures ReplaceChar(ReplaceChar(ReplaceChar(s, '\\', "\\\\"), '\n', "\\n"), '"', "\\\"") == EscapeAll(s)
  {
    if s != [] {
      ChainIsEscapeAll(s[1..]);
      var head := [s[0]];
      assert s == head + s[1..];
      ReplaceAppend(head, s[1..], '\\', "\\\\");
      var r1h := ReplaceChar(head, '\\', "\\\\");
      var r1t := ReplaceChar(s[1..], '\\', "\\\\");
      ReplaceAppend(r1h, r1t, '\n', "\\n");
      var r2h := ReplaceChar(r1h, '\n', "\\n");
      var r2t := ReplaceChar(r1t, '\n', "\\n");
      ReplaceAppend(r2h, r2t, '"', "\\\"");
      ChainChar(s[0]);
    }
  }

  /** No line break survives escaping. */
  lemma {:induction false} EscapeAllNoNewline(s: string)
    ensures '\n' !in EscapeAll(s)
  {
    if s != [] {
      EscapeAllNoNewline(s[1..]);
    }
  }

  /** Every `"` is preceded by a backslash. */
  predicate QuotesEscaped(t: string) {
    forall i :: 0 <= i < |t| && t[i] == '"' ==> i > 0 && t[i - 1] == '\\'
  }

  lemma QuotesEscapedAppend(a: string, b: string)
    requires QuotesEscaped(a) && QuotesEscaped(b)
    ensures QuotesEscaped(a + b)
  {
    forall i | 0 <= i < |a + b| && (a + b)[i] == '"'
      ensures i > 0 && (a + b)[i - 1] == '\\'
    {
      if i >= |a| {
        assert b[i - |a|] == '"';
      }
    }
  }

  lemma {:induction false} EscapeAllQuotes(s: string)
    ensures QuotesEscaped(EscapeAll(s))
  {
    if s != [] {
      EscapeAllQuotes(s[1..]);
      QuotesEscapedAppend(EscapeChar(s[0]), EscapeAll(s[1..]));
    }
  }

  /** Trimming keeps both properties: it takes an infix, and a backslash is not trimmed
      away from in front of a quote. */
  lemma TrimKeepsEscapes(t: string)
    requires '\n' !in t && QuotesEscaped(t)
    ensures '\n' !in Trim(t) && QuotesEscaped(Trim(t))
  {
    var r := Trim(t);
    var lead := LeadingSpaces(t);
    TrimInfix(t);
    assert r == t[lead..lead + |r|];
    forall i | 0 <= i < |r| && r[i] == '"'
      ensures i > 0 && r[i - 1] == '\\'
    {
      assert r[i] == t[lead + i];
      assert lead + i > 0 && t[lead + i - 1] == '\\';
      assert !IsSpace(t[lead + i - 1]);
      assert i > 0;
      assert r[i - 1] == t[lead + i - 1];
    }
  }

  /** Reading an escaped label back: `\n` is a line break, `\` followed by another
      character stands for that character. */
  function Unescape(t: string): string
    decreases |t|
  {
    if t == [] then []
    else if t[0] == '\\' && |t| >= 2 then (if t[1] == 'n' then "\n" else [t[1]]) + Unescape(t[2..])
    else [t[0]] + Unescape(t[1..])
  }

  lemma UnescapeChar(c: char, t: string)
    ensures Unescape(EscapeChar(c) + t) == [c] + Unescape(t)
  {
    if c == '\\' || c == '\n' || c == '"' {
      assert (EscapeChar(c) + t)[2..] == t;
    } else {
      assert (EscapeChar(c) + t)[1..] == t;
    }
  }

  /** Escaping loses nothing. */
  lemma {:induction false} UnescapeEscapeAll(s: string)
    ensures Unescape(EscapeAll(s)) == s
  {
    if s != [] {
      UnescapeEscapeAll(s[1..]);
      UnescapeChar(s[0], EscapeAll(s[1..]));
      assert [s[0]] + s[1..] == s;
    }
  }

  lemma TrimUnchanged(t: string)
    requires t == [] || (!IsSpace(t[0]) && !IsSpace(t[|t| - 1]))
    ensures Trim(t) == t
  {
  }

  /** Escaping keeps the first character, or writes a backslash for it. */
  lemma EscapeAllFirst(v: string)
    requires v != []
    ensures EscapeAll(v) != [] && EscapeAll(v)[0] == EscapeChar(v[0])[0]
  {
  }

  /** The last character of an escape is the last of the last character's escape. */
  lemma {:induction false} EscapeAllLast(v: string)
    requires v != []
    ensures EscapeAll(v) != [] && EscapeAll(v)[|EscapeAll(v)| - 1] == EscapeChar(v[|v| - 1])[|EscapeChar(v[|v| - 1])| - 1]
  {
    var h := EscapeChar(v[0]);
    var t := EscapeAll(v[1..]);
    assert EscapeAll(v) == h + t;
    if |v| == 1 {
      assert t == [];
    } else {
      EscapeAllLast(v[1..]);
      assert v[1..][|v[1..]| - 1] == v[|v| - 1];
      assert (h + t)[|h + t| - 1] == t[|t| - 1];
    }
  }

  /** A name without surrounding whitespace is read back exactly from its label. */
  lemma EscapeLabelLossless(v: string)
    requires v == [] || (!IsSpace(v[0]) && !IsSpace(v[|v| - 1]))
    ensures Unescape(EscapeLabel(v)) == v
  {
    ChainIsEscapeAll(v);
    UnescapeEscapeAll(v);
    if v != [] {
      EscapeAllFirst(v);
      EscapeAllLast(v);
    }
    TrimUnchanged(EscapeAll(v));
  }

  // ---------------------------------------------------------------------------
  // The flowchart

  /** `` `Dept ${id}` ``. */
  function DeptFallback(id: int): string {
    "Dept " + IntToString(id)
  }

  /** The departement a process names, looked up only for a truthy id. */
  function ProcessDepartement(p: Proc, deps: seq<Departement>): (r: Option<Departement>)
    ensures r.Some? ==> DepartementIdTruthy(p.departementId) && r == FindDepartement(deps, p.departementId.value)
    ensures !DepartementIdTruthy(p.departementId) ==> r.None?
  {
    if DepartementIdTruthy(p.departementId) then FindDepartement(deps, p.departementId.value) else None
  }

  /** The text inside `step_0["…"]`. */
  function NodeLabel(p: Proc, deps: seq<Departement>): string {
    var dept := ProcessDepartement(p, deps);
    var title := EscapeLabel(p.name);
    if dept.Some? && EscapeLabel(Caption(dept.value)) != "" then title + "\\n" + EscapeLabel(Caption(dept.value))
    else title
  }

  /** `dept.name ?? `Dept ${dept.id}``. */
  function Caption(d: Departement): string {
    d.name.GetOr(DeptFallback(d.id))
  }

  /** Mermaid's `\n` joins two safe labels into a safe one. */
  lemma TwoLinesSafe(title: string, caption: string)
    requires '\n' !in title && QuotesEscaped(title)
    requires '\n' !in caption && QuotesEscaped(caption)
    ensures '\n' !in title + "\\n" + caption && QuotesEscaped(title + "\\n" + caption)
  {
    assert QuotesEscaped("\\n");
    QuotesEscapedAppend(title, "\\n");
    QuotesEscapedAppend(title + "\\n", caption);
  }

  /** The node label stays on one line and cannot end the quoted text early. */
  lemma NodeLabelSafe(p: Proc, deps: seq<Departement>)
    ensures '\n' !in NodeLabel(p, deps) && QuotesEscaped(NodeLabel(p, deps))
  {
    var dept := ProcessDepartement(p, deps);
    if dept.Some? && EscapeLabel(Caption(dept.value)) != "" {
      TwoLinesSafe(EscapeLabel(p.name), EscapeLabel(Caption(dept.value)));
    }
  }

  /** The six lines of the flowchart. */
  function Lines(nodeLabel: string): seq<string> {
    ["graph TD", "  start([Start])", "  step_0[\"" + nodeLabel + "\"]", "  finish([End])",
      "  start --> step_0", "  step_0 --> finish"]
  }

  /** `buildDefinition`: the definition reads back as exactly its six lines, a header,
      the three nodes and the two edges start → step_0 → finish. */
  function BuildDefinition(p: Proc, deps: seq<Departement>): (r: string)
    ensures Split(r, '\n') == Lines(NodeLabel(p, deps))
  {
    var node := NodeLabel(p, deps);
    NodeLabelSafe(p, deps);
    LinesPlain(node);
    SplitJoin(Lines(node), '\n');
    Join(Lines(NodeLabel(p, deps)), '\n')
  }

  /** The `definition` memo: no diagram without a process. */
  function Definition(process: Option<Proc>, deps: seq<Departement>): (r: Option<string>)
    ensures r.None? <==> process.None?
    ensures process.Some? ==> r == Some(BuildDefinition(process.value, deps))
  {
    if process.Some? then Some(BuildDefinition(process.value, deps)) else None
  }

  lemma FixedLinesPlain()
    ensures '\n' !in "graph TD" && '\n' !in "  start([Start])" && '\n' !in "  finish([End])"
    ensures '\n' !in "  start --> step_0" && '\n' !in "  step_0 --> finish"
    ensures '\n' !in "  step_0[\"" && '\n' !in "\"]"
  {
  }

  /** No line breaks inside a line when the node label has none. */
  lemma LinesPlain(node: string)
    requires '\n' !in node
    ensures forall i :: 0 <= i < |Lines(node)| ==> '\n' !in Lines(node)[i]
  {
    var lines := Lines(node);
    FixedLinesPlain();
    assert '\n' !in lines[2] by {
      assert lines[2] == "  step_0[\"" + node + "\"]";
    }
  }

  /** The node label: the escaped name, then the escaped departement caption on a
      second line when a departement is found and its caption is not blank. */
  lemma NodeLabelCases(p: Proc, deps: seq<Departement>)
    ensures ProcessDepartement(p, deps).None? ==> NodeLabel(p, deps) == EscapeLabel(p.name)
    ensures ProcessDepartement(p, deps).Some? ==>
      var d := ProcessDepartement(p, deps).value;
      var caption := EscapeLabel(Caption(d));
      NodeLabel(p, deps) == (if caption != "" then EscapeLabel(p.name) + "\\n" + caption else EscapeLabel(p.name))
  {
  }

  // ---------------------------------------------------------------------------
  // The meta line

  /** The `deptName` memo shown under the diagram. */
  function DeptName(p: Proc, deps: seq<Departement>): string {
    if !DepartementIdTruthy(p.departementId) then "No department"
    else
      match FindDepartement(deps, p.departementId.value)
      case Some(d) => d.name.GetOr(DeptFallback(p.departementId.value))
      case None => DeptFallback(p.departementId.value)
  }

  /** The caption: "No department" for a falsy id, the found departement's name, and
      `Dept <id>` for an unknown departement or one without a name. */
  lemma DeptNameCases(p: Proc, deps: seq<Departement>)
    ensures !DepartementIdTruthy(p.departementId) ==> DeptName(p, deps) == "No department"
    ensures (DepartementIdTruthy(p.departementId) &&
      (FindDepartement(deps, p.departementId.value).None? || FindDepartement(deps, p.departementId.value).value.name.None?)) ==>
      DeptName(p, deps) == DeptFallback(p.departementId.value)
    ensures (DepartementIdTruthy(p.departementId) && FindDepartement(deps, p.departementId.value).Some? &&
      FindDepartement(deps, p.departementId.value).value.name.Some?) ==>
      DeptName(p, deps) == FindDepartement(deps, p.departementId.value).value.name.value
  {
  }

  /** The diagram's second line shows the same caption as the meta line. */
  lemma DiagramMatchesMeta(p: Proc, deps: seq<Departement>)
    requires ProcessDepartement(p, deps).Some?
    requires EscapeLabel(DeptName(p, deps)) != ""
    ensures NodeLabel(p, deps) == EscapeLabel(p.name) + "\\n" + EscapeLabel(DeptName(p, deps))
  {
  }
}
