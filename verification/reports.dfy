/**
 `validate_governed_report`: structural checks, then a walk over everything reachable for
 secret material and absolute paths.
 */
module Reports {
  import opened Order
  import opened Text
  import opened Wrappers
  import opened Walk

  /** The `report.*` diagnostic codes. */
  datatype Code =
    | InputInvalid | RequiredMissing | FieldTypeInvalid | SchemaUnsupported | ReportIdInvalid | ProducerInvalid
    | OutcomeInvalid | EvidenceRefInvalid | EvidenceRefDuplicate | LimitationInvalid
    | SecretMaterialDetected | AbsolutePathDetected

  datatype Diagnostic = Diagnostic(code: Code, path: string)

  datatype Status = Pass | Invalid

  datatype Result = Result(status: Status, diagnostics: seq<Diagnostic>)

  /** The two text tests, kept arbitrary: secret-like material and absolute paths. */
  datatype Tests = Tests(secret: string -> bool, absolute: string -> bool)

  datatype Shape = StringShape | MappingShape | ListShape

  const REQUIRED: seq<(string, Shape)> := [
    ("schema", StringShape), ("report_id", StringShape), ("producer", MappingShape), ("subject", MappingShape),
    ("operation", MappingShape), ("outcome", MappingShape), ("evidence_refs", ListShape),
    ("diagnostics", ListShape), ("limitations", ListShape), ("provenance", MappingShape)]

  const SCHEMA := "l9.evidence-report/v1"

  type Entries = seq<(string, Value)>

  /** `mapping.get(name)`. */
  function Lookup(entries: Entries, name: string): Option<Value> {
    if entries == [] then None
    else if entries[0].0 == name then Some(entries[0].1)
    else Lookup(entries[1..], name)
  }

  predicate IsMapping(g: Graph, v: Value) { v.Container? && v.id in g && g[v.id].Mapping? }

  predicate IsList(g: Graph, v: Value) { v.Container? && v.id in g && g[v.id].List? }

  predicate HasShape(g: Graph, v: Value, shape: Shape) {
    match shape
    case StringShape => v.Str?
    case MappingShape => IsMapping(g, v)
    case ListShape => IsList(g, v)
  }

  predicate NonBlank(v: Value) { v.Str? && !Blank(v.s) }

  function FieldCheck(g: Graph, entries: Entries): ((string, Shape)) -> seq<Diagnostic> {
    (field: (string, Shape)) =>
      match Lookup(entries, field.0)
      case None => [Diagnostic(RequiredMissing, field.0)]
      case Some(v) => if HasShape(g, v, field.1) then [] else [Diagnostic(FieldTypeInvalid, field.0)]
  }

  function FieldChecks(g: Graph, entries: Entries): seq<Diagnostic> { Collect(REQUIRED, FieldCheck(g, entries)) }

  function When(c: bool, code: Code, path: string): seq<Diagnostic> {
    if c then [Diagnostic(code, path)] else []
  }

  /** The mapping stored under a name, if it is one. */
  function SubMapping(g: Graph, entries: Entries, name: string): Option<Entries> {
    match Lookup(entries, name)
    case Some(v) => if IsMapping(g, v) then Some(g[v.id].entries) else None
    case None => None
  }

  function SubList(g: Graph, entries: Entries, name: string): Option<seq<Value>> {
    match Lookup(entries, name)
    case Some(v) => if IsList(g, v) then Some(g[v.id].items) else None
    case None => None
  }

  predicate AllNonBlank(items: seq<Value>) { forall i | 0 <= i < |items| :: NonBlank(items[i]) }

  predicate Unique(items: seq<Value>) { forall i, j | 0 <= i < j < |items| :: items[i] != items[j] }

  predicate HasId(producer: Entries) { match Lookup(producer, "id") case Some(v) => NonBlank(v) case None => false }

  predicate KnownStatus(outcome: Entries) {
    Lookup(outcome, "status") in {Some(Str("pass")), Some(Str("fail")), Some(Str("incomplete")), Some(Str("invalid"))}
  }

  /** Hashing raises on mappings and lists, and on tuples that hold such a value at some depth. */
  predicate Unhashable(g: Graph, v: Value, within: set<nat>)
    decreases g.Keys - within
  {
    && v.Container? && v.id in g && v.id !in within
    && (g[v.id].Tuple? ==> exists i | 0 <= i < |g[v.id].items| :: Unhashable(g, g[v.id].items[i], within + {v.id}))
  }

  /** Testing an unhashable status for membership in a set raises. */
  predicate StatusUnhashable(g: Graph, entries: Entries) {
    match SubMapping(g, entries, "outcome")
    case Some(outcome) => (match Lookup(outcome, "status") case Some(v) => Unhashable(g, v, {}) case None => false)
    case None => false
  }

  function ReportIdCheck(entries: Entries): seq<Diagnostic> {
    match Lookup(entries, "report_id")
    case Some(v) => When(v.Str? && Blank(v.s), ReportIdInvalid, "report_id")
    case None => []
  }

  function ProducerCheck(g: Graph, entries: Entries): seq<Diagnostic> {
    match SubMapping(g, entries, "producer")
    case Some(p) => When(!HasId(p), ProducerInvalid, "producer.id")
    case None => []
  }

  function OutcomeCheck(g: Graph, entries: Entries): seq<Diagnostic> {
    match SubMapping(g, entries, "outcome")
    case Some(o) => When(!KnownStatus(o), OutcomeInvalid, "outcome.status")
    case None => []
  }

  function RefsCheck(g: Graph, entries: Entries): seq<Diagnostic> {
    match SubList(g, entries, "evidence_refs")
    case Some(items) =>
      if !AllNonBlank(items) then [Diagnostic(EvidenceRefInvalid, "evidence_refs")]
      else When(!Unique(items), EvidenceRefDuplicate, "evidence_refs")
    case None => []
  }

  function LimitationsCheck(g: Graph, entries: Entries): seq<Diagnostic> {
    match SubList(g, entries, "limitations")
    case Some(items) => When(!AllNonBlank(items), LimitationInvalid, "limitations")
    case None => []
  }

  /** The checks after the required fields, in order. */
  function ContentChecks(g: Graph, entries: Entries): seq<Diagnostic> {
    When(Lookup(entries, "schema") != Some(Str(SCHEMA)), SchemaUnsupported, "schema")
    + ReportIdCheck(entries) + ProducerCheck(g, entries) + OutcomeCheck(g, entries)
    + RefsCheck(g, entries) + LimitationsCheck(g, entries)
  }

  function TextChecks(t: Tests): Visit -> seq<Diagnostic> {
    (v: Visit) =>
      if v.value.Str? then
        When(t.secret(v.value.s), SecretMaterialDetected, v.path)
        + When(t.absolute(v.value.s), AbsolutePathDetected, v.path)
      else []
  }

  /** The diagnostics of a mapping report, in the order they are appended. */
  function Diagnostics(g: Graph, root: Value, t: Tests): seq<Diagnostic>
    requires IsMapping(g, root)
  {
    FieldChecks(g, g[root.id].entries) + ContentChecks(g, g[root.id].entries)
    + Collect(Walking(g, Visit("", root), {}).visited, TextChecks(t))
  }

  method CheckFields(g: Graph, entries: Entries) returns (diagnostics: seq<Diagnostic>)
    ensures diagnostics == FieldChecks(g, entries)
  {
    diagnostics := [];
    var required := REQUIRED;
    for i := 0 to |required|
      invariant diagnostics == Collect(required[..i], FieldCheck(g, entries))
    {
      CollectStep(required, i, FieldCheck(g, entries));
      diagnostics := diagnostics + FieldCheck(g, entries)(required[i]);
    }
    assert required[..|required|] == required;
  }

  method CheckTexts(visited: seq<Visit>, t: Tests) returns (diagnostics: seq<Diagnostic>)
    ensures diagnostics == Collect(visited, TextChecks(t))
  {
    diagnostics := [];
    for i := 0 to |visited|
      invariant diagnostics == Collect(visited[..i], TextChecks(t))
    {
      CollectStep(visited, i, TextChecks(t));
      if !visited[i].value.Str? { continue; }
      var text, found := visited[i].value.s, [];
      if t.secret(text) { found := found + [Diagnostic(SecretMaterialDetected, visited[i].path)]; }
      if t.absolute(text) { found := found + [Diagnostic(AbsolutePathDetected, visited[i].path)]; }
      diagnostics := diagnostics + found;
    }
    assert visited[..|visited|] == visited;
  }

  method CheckReachable(g: Graph, root: Value, t: Tests) returns (diagnostics: seq<Diagnostic>)
    requires Closed(g) && InGraph(g, root)
    ensures diagnostics == Collect(Walking(g, Visit("", root), {}).visited, TextChecks(t))
  {
    var walker := new Walker(g);
    walker.Step(Visit("", root));
    assert walker.visited == Walking(g, Visit("", root), {}).visited;
    diagnostics := CheckTexts(walker.visited, t);
  }

  method ValidateGovernedReport(g: Graph, root: Value, t: Tests) returns (r: Outcome<Result>)
    requires Closed(g) && InGraph(g, root)
    ensures r.Raised? <==> IsMapping(g, root) && StatusUnhashable(g, g[root.id].entries)
    ensures r.Returned? && !IsMapping(g, root) ==> r.value == Result(Invalid, [Diagnostic(InputInvalid, "")])
    ensures r.Returned? && IsMapping(g, root) ==>
              r.value == Result(if Diagnostics(g, root, t) == [] then Pass else Invalid, Diagnostics(g, root, t))
  {
    if !IsMapping(g, root) { return Returned(Result(Invalid, [Diagnostic(InputInvalid, "")])); }
    var entries := g[root.id].entries;
    var diagnostics := CheckFields(g, entries);
    if StatusUnhashable(g, entries) { return Raised; }
    var content := ContentChecks(g, entries);
    var texts := CheckReachable(g, root, t);
    diagnostics := diagnostics + content + texts;
    r := Returned(Result(if diagnostics == [] then Pass else Invalid, diagnostics));
  }

  // ------------------------------------------------------------- properties

  /** Every required field is present with its type. */
  ghost predicate FieldsSound(g: Graph, entries: Entries) {
    forall f :: f in REQUIRED ==> Lookup(entries, f.0).Some? && HasShape(g, Lookup(entries, f.0).value, f.1)
  }

  /** What a sound report looks like, whatever else it holds. */
  ghost predicate Sound(g: Graph, entries: Entries) {
    && FieldsSound(g, entries)
    && Lookup(entries, "schema") == Some(Str(SCHEMA))
    && (Lookup(entries, "report_id").Some? && NonBlank(Lookup(entries, "report_id").value))
    && (SubMapping(g, entries, "producer").Some? && HasId(SubMapping(g, entries, "producer").value))
    && (SubMapping(g, entries, "outcome").Some? && KnownStatus(SubMapping(g, entries, "outcome").value))
    && (SubList(g, entries, "evidence_refs").Some? && AllNonBlank(SubList(g, entries, "evidence_refs").value)
        && Unique(SubList(g, entries, "evidence_refs").value))
    && (SubList(g, entries, "limitations").Some? && AllNonBlank(SubList(g, entries, "limitations").value))
  }

  lemma FieldQuiet(g: Graph, entries: Entries, f: (string, Shape))
    ensures FieldCheck(g, entries)(f) == []
       <==> Lookup(entries, f.0).Some? && HasShape(g, Lookup(entries, f.0).value, f.1)
  {
  }

  lemma FieldsQuiet(g: Graph, entries: Entries, fields: seq<(string, Shape)>)
    ensures Collect(fields, FieldCheck(g, entries)) == []
       <==> forall f :: f in fields ==> Lookup(entries, f.0).Some? && HasShape(g, Lookup(entries, f.0).value, f.1)
  {
    CollectEmpty(fields, FieldCheck(g, entries));
    forall f ensures FieldCheck(g, entries)(f) == []
                <==> Lookup(entries, f.0).Some? && HasShape(g, Lookup(entries, f.0).value, f.1) {
      FieldQuiet(g, entries, f);
    }
  }

  lemma FieldsSoundIff(g: Graph, entries: Entries)
    ensures FieldChecks(g, entries) == [] <==> FieldsSound(g, entries)
  {
    FieldsQuiet(g, entries, REQUIRED);
  }

  lemma FieldOf(g: Graph, entries: Entries, i: nat)
    requires i < |REQUIRED| && FieldsSound(g, entries)
    ensures Lookup(entries, REQUIRED[i].0).Some? && HasShape(g, Lookup(entries, REQUIRED[i].0).value, REQUIRED[i].1)
  {
    assert REQUIRED[i] in REQUIRED;
  }

  lemma SoundShapes(g: Graph, entries: Entries)
    requires FieldsSound(g, entries)
    ensures Lookup(entries, "report_id").Some? && Lookup(entries, "report_id").value.Str?
    ensures SubMapping(g, entries, "producer").Some? && SubMapping(g, entries, "outcome").Some?
    ensures SubList(g, entries, "evidence_refs").Some? && SubList(g, entries, "limitations").Some?
  {
    FieldOf(g, entries, 1);
    FieldOf(g, entries, 2);
    FieldOf(g, entries, 5);
    FieldOf(g, entries, 6);
    FieldOf(g, entries, 8);
  }

  lemma ContentEmpty(g: Graph, entries: Entries)
    ensures ContentChecks(g, entries) == []
       <==> && Lookup(entries, "schema") == Some(Str(SCHEMA)) && ReportIdCheck(entries) == []
            && ProducerCheck(g, entries) == [] && OutcomeCheck(g, entries) == []
            && RefsCheck(g, entries) == [] && LimitationsCheck(g, entries) == []
  {
    var a := When(Lookup(entries, "schema") != Some(Str(SCHEMA)), SchemaUnsupported, "schema");
    var (b, c, d) := (ReportIdCheck(entries), ProducerCheck(g, entries), OutcomeCheck(g, entries));
    var (e, f) := (RefsCheck(g, entries), LimitationsCheck(g, entries));
    assert |a + b + c + d + e + f| == |a| + |b| + |c| + |d| + |e| + |f|;
  }

  lemma SoundIff(g: Graph, entries: Entries)
    ensures FieldChecks(g, entries) == [] && ContentChecks(g, entries) == [] <==> Sound(g, entries)
  {
    FieldsSoundIff(g, entries);
    ContentEmpty(g, entries);
    if FieldsSound(g, entries) { SoundShapes(g, entries); }
  }

  /** No string reachable from the report is flagged by either test. */
  ghost predicate NothingFlagged(g: Graph, root: Value, t: Tests) {
    forall s :: Reaches(g, root, Str(s)) ==> !t.secret(s) && !t.absolute(s)
  }

  lemma TextIff(g: Graph, root: Value, t: Tests)
    requires Closed(g) && InGraph(g, root)
    ensures Collect(Walking(g, Visit("", root), {}).visited, TextChecks(t)) == [] <==> NothingFlagged(g, root, t)
  {
    var vs := Walking(g, Visit("", root), {}).visited;
    WalkComplete(g, Visit("", root));
    CollectEmpty(vs, TextChecks(t));
    if NothingFlagged(g, root, t) {
      forall v | v in vs ensures TextChecks(t)(v) == [] {
        var i :| 0 <= i < |vs| && vs[i] == v;
        if v.value.Str? { assert Yields(vs, v.value); assert Reaches(g, root, Str(v.value.s)); }
      }
    }
    if forall v :: v in vs ==> TextChecks(t)(v) == [] {
      forall s | Reaches(g, root, Str(s)) ensures !t.secret(s) && !t.absolute(s) {
        assert Yields(vs, Str(s));
        var i :| 0 <= i < |vs| && vs[i].value == Str(s);
        assert vs[i] in vs && TextChecks(t)(vs[i]) == [];
      }
    }
  }

  /**
   A mapping report has no diagnostics, and so passes, exactly when it is sound and no
   string reachable through any chain of containers, however cyclic, is flagged.
   */
  lemma ReportPassesIff(g: Graph, root: Value, t: Tests)
    requires Closed(g) && IsMapping(g, root)
    ensures Diagnostics(g, root, t) == [] <==> Sound(g, g[root.id].entries) && NothingFlagged(g, root, t)
  {
    SoundIff(g, g[root.id].entries);
    TextIff(g, root, t);
  }

  /** A report whose outcome status is a list. */
  function ListStatus(): Graph {
    map[0 := Mapping([("outcome", Container(1))]), 1 := Mapping([("status", Container(2))]), 2 := List([])]
  }

  /** Its validation raises instead of reporting an invalid outcome. */
  lemma ListStatusRaises()
    ensures Closed(ListStatus()) && IsMapping(ListStatus(), Container(0))
    ensures StatusUnhashable(ListStatus(), ListStatus()[0].entries)
  {
    var g := ListStatus();
    assert g[0].entries[0] == ("outcome", Container(1)) && g[1].entries[0] == ("status", Container(2));
    assert Kids(g[2]) == [];
  }

  /** A report whose outcome status is a tuple of a string. */
  function TupleStatus(): Graph { ListStatus()[2 := Tuple([Str("pass")])] }

  /** A tuple of strings can be looked up: the status is reported as invalid, and validation does not raise. */
  lemma TupleStatusReported()
    ensures Closed(TupleStatus()) && IsMapping(TupleStatus(), Container(0))
    ensures !StatusUnhashable(TupleStatus(), TupleStatus()[0].entries)
    ensures OutcomeCheck(TupleStatus(), TupleStatus()[0].entries) == [Diagnostic(OutcomeInvalid, "outcome.status")]
  {
    var g := TupleStatus();
    assert g[0].entries[0] == ("outcome", Container(1)) && g[1].entries[0] == ("status", Container(2));
    assert Kids(g[2]) == [Str("pass")];
    assert Lookup(g[1].entries, "status") == Some(Container(2));
  }
}
