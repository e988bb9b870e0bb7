/**
 The Semgrep adapter: report shape, normalisation of results, report errors and scanned
 paths into canonical records with a coverage verdict.
 */
module Semgrep {
  import opened Order
  import opened Text
  import opened Json
  import opened Wrappers
  import opened Contracts
  import opened BundleIdentity
  import opened Identities
  import opened Serializer

  /**
   The adapter's identity map, and its surroundings, all arbitrary: the digest, `normalize_repository_path`
   (which may reject), severity, remaining record fields and texts.
   */
  datatype Adapter = Adapter(
    sha: Hash, normalizePath: string -> Option<string>, identityMap: Option<IdentityMap>,
    severity: Json -> Severity, evidenceExtra: Json -> seq<Field>, findingExtra: Json -> seq<Field>,
    resultLimitations: Json -> seq<string>, errorMessage: (Json, nat) -> string,
    shapeErrors: Json -> Texts, inventoryNote: bool -> string)

  /** At least one text: a rejected report names what is wrong. */
  type Texts = s: seq<string> | s != [] witness [""]

  /** `RuleIdentityMap`: the canonical rule of a provider's rule. */
  datatype IdentityMap = IdentityMap(providerId: string, rules: map<string, string>)

  datatype Context = Context(snapshotId: string, providerVersion: Option<string>, required: bool)

  datatype Normalization = Normalization(
    evidence: seq<Evidence>, findings: seq<Finding>, coverage: Coverage, failures: seq<ProviderFailure>,
    limitations: seq<string>)

  // ------------------------------------------------------------ report shape

  predicate NonBlankString(j: Option<Json>) { j.Some? && j.value.Str? && !Blank(j.value.s) }

  /** `isinstance(value, int)`: booleans are integers. */
  function AsInt(j: Option<Json>): Option<int> {
    match j
    case Some(Num(n)) => Some(n)
    case Some(Bool(b)) => Some(if b then 1 else 0)
    case _ => None
  }

  predicate Positive(j: Option<Json>) { AsInt(j).Some? && AsInt(j).value >= 1 }

  predicate GoodPosition(j: Option<Json>) {
    j.Some? && j.value.Obj? && Positive(Get(j.value, "line")) && Positive(Get(j.value, "col"))
  }

  predicate GoodExtra(j: Option<Json>) {
    && j.Some? && j.value.Obj?
    && NonBlankString(Get(j.value, "message"))
    && (match Get(j.value, "severity") case None => true case Some(v) => v.Null? || v.Str?)
    && (match Get(j.value, "metadata") case None => true case Some(v) => v.Null? || v.Obj?)
  }

  predicate GoodResult(r: Json) {
    && r.Obj?
    && NonBlankString(Get(r, "check_id")) && NonBlankString(Get(r, "path"))
    && GoodPosition(Get(r, "start")) && GoodPosition(Get(r, "end"))
    && GoodExtra(Get(r, "extra"))
  }

  /** `validate_semgrep_report(report).valid`. */
  predicate WellShaped(report: Json) {
    && (match Get(report, "results")
        case Some(Arr(items)) => forall i | 0 <= i < |items| :: GoodResult(items[i])
        case _ => false)
    && (match Get(report, "errors") case None => true case Some(v) => v.Arr?)
  }

  function Items(j: Option<Json>): seq<Json> {
    match j
    case Some(Arr(items)) => items
    case _ => []
  }

  function Results(report: Json): seq<Json> { Items(Get(report, "results")) }

  function Errors(report: Json): seq<Json> { Items(Get(report, "errors")) }

  // ------------------------------------------------------------- one result

  /** Python truth of `mapping.get(...)`. */
  predicate Truthy(j: Option<Json>) {
    match j
    case None => false
    case Some(Null) => false
    case Some(Bool(b)) => b
    case Some(Num(n)) => n != 0
    case Some(Str(s)) => s != ""
    case Some(Arr(items)) => items != []
    case Some(Obj(fields)) => fields != []
  }

  /** `_optional_string(extra.get("fingerprint") or result.get("fingerprint"))`. */
  function ProviderFingerprint(result: Json): Option<string>
    requires GoodResult(result)
  {
    var own := Get(Get(result, "extra").value, "fingerprint");
    var chosen := if Truthy(own) then own else Get(result, "fingerprint");
    if NonBlankString(chosen) then Some(Strip(chosen.value.s)) else None
  }

  /** The identity of a result, or a raise when its location is not a repository range. */
  function KeyOf(a: Adapter, result: Json): Outcome<MatchKey>
    requires GoodResult(result)
  {
    var (start, end) := (Get(result, "start").value, Get(result, "end").value);
    var startLine := AsInt(Get(start, "line")).value;
    var endLine := AsInt(Get(end, "line")).value;
    match a.normalizePath(Get(result, "path").value.s)
    case None => Raised
    case Some(path) =>
      if endLine < startLine then Raised else
      Returned(MatchKey(
        Get(result, "check_id").value.s, path, startLine, AsInt(Get(start, "col")).value,
        endLine, AsInt(Get(end, "col")).value,
        Discriminator(ProviderFingerprint(result), Get(Get(result, "extra").value, "message").value.s)))
  }

  function GetIn(j: Option<Json>, key: string): Option<Json> { if j.Some? then Get(j.value, key) else None }

  /** `_trusted_canonical_rule_id`: the canonical rule the rule's own metadata names. */
  function TrustedId(result: Json): Option<string> {
    var id := GetIn(GetIn(GetIn(Get(result, "extra"), "metadata"), "l9"), "canonical_rule_id");
    if NonBlankString(id) then Some(Strip(id.value.s)) else None
  }

  /** `resolve_rule_identity`: trusted metadata first, then the map, which must be this provider's. */
  function CanonicalId(a: Adapter, ruleId: string, result: Json): Outcome<Option<string>> {
    match (TrustedId(result), a.identityMap)
    case (Some(id), _) => Returned(Some(id))
    case (None, None) => Returned(None)
    case (None, Some(m)) =>
      if m.providerId != PROVIDER then Raised
      else if ruleId in m.rules && m.rules[ruleId] != "" then Returned(Some(m.rules[ruleId]))
      else Returned(None)
  }

  /** The identity a finding carries; none when resolution raised. */
  function IdOf(a: Adapter, ruleId: string, result: Json): Option<string> {
    match CanonicalId(a, ruleId, result) case Returned(id) => id case Raised => None
  }

  /** Resolution raises exactly under another provider's map and without trusted metadata. */
  lemma IdentityRaisesIff(a: Adapter, ruleId: string, result: Json)
    ensures CanonicalId(a, ruleId, result).Raised?
       <==> TrustedId(result).None? && a.identityMap.Some? && a.identityMap.value.providerId != PROVIDER
  {}

  function EvidenceOf(a: Adapter, ctx: Context, k: MatchKey, result: Json): Evidence {
    Evidence(EvidenceIdOf(a.sha, ctx.snapshotId, k), ctx.snapshotId, PROVIDER, k.ruleId, a.evidenceExtra(result))
  }

  function FindingOf(a: Adapter, ctx: Context, k: MatchKey, result: Json): Finding {
    Finding(FindingIdOf(a.sha, ctx.snapshotId, k), ctx.snapshotId, PROVIDER, k.ruleId,
            [EvidenceIdOf(a.sha, ctx.snapshotId, k)], FingerprintOf(a.sha, k), [k.path],
            IdOf(a, k.ruleId, result), Some(a.severity(result)), a.findingExtra(result))
  }

  /** A result raises on its location, on its rule identity, or because records reject a blank snapshot id. */
  predicate ResultRaises(a: Adapter, ctx: Context, result: Json)
    requires GoodResult(result)
  {
    KeyOf(a, result).Raised? || CanonicalId(a, KeyOf(a, result).value.ruleId, result).Raised? || Blank(ctx.snapshotId)
  }

  // ---------------------------------------------------------- report errors

  /** `_semgrep_error_level`. */
  function ErrorLevel(error: Json): Option<string> {
    if NonBlankString(Get(error, "level")) then Some(Lower(Strip(Get(error, "level").value.s))) else None
  }

  /** `_semgrep_error_is_fatal`: everything but level "warn". */
  predicate Fatal(error: Json) { ErrorLevel(error) != Some("warn") }

  function FailureOf(a: Adapter, ctx: Context, error: Json, index: nat): ProviderFailure {
    var level := match ErrorLevel(error) case Some(s) => Str(s) case None => Null;
    var diagnostics := [Field("report_error_index", Num(index)), Field("semgrep_level", level)];
    ProviderFailure(PROVIDER, ExecutionError, a.errorMessage(error, index), ctx.required, ctx.required,
                    FailureExtra(diagnostics, ctx.providerVersion, None))
  }

  function FatalFailures(a: Adapter, ctx: Context, errors: seq<Json>): seq<ProviderFailure> {
    if errors == [] then [] else
    var last := |errors| - 1;
    FatalFailures(a, ctx, errors[..last]) + if Fatal(errors[last]) then [FailureOf(a, ctx, errors[last], last)] else []
  }

  /** The text of every report error, fatal or not. */
  function ErrorTexts(a: Adapter, errors: seq<Json>): seq<string> {
    if errors == [] then [] else
    var last := |errors| - 1;
    ErrorTexts(a, errors[..last]) + [a.errorMessage(errors[last], last)]
  }

  // ---------------------------------------------------------- scanned paths

  /** The path an inventory item names, if any. */
  function ScannedPath(item: Json): Option<string> { if item.Str? then Some(item.s) else None }

  function SkippedPath(item: Json): Option<string> {
    match item
    case Str(s) => Some(s)
    case Obj(fields) => (match Lookup(fields, "path") case Some(Str(s)) => Some(s) case _ => None)
    case _ => None
  }

  /** The normalised paths of an inventory; an unacceptable path raises. */
  function Paths(a: Adapter, items: seq<Json>, pathOf: Json -> Option<string>): Outcome<set<string>> {
    if items == [] then Returned({}) else
    match (Paths(a, items[..|items| - 1], pathOf), pathOf(items[|items| - 1]))
    case (Raised, _) => Raised
    case (Returned(sofar), None) => Returned(sofar)
    case (Returned(sofar), Some(raw)) =>
      match a.normalizePath(raw)
      case None => Raised
      case Some(p) => Returned(sofar + {p})
  }

  function Scanned(a: Adapter, report: Json): Outcome<set<string>> {
    match Get(report, "paths")
    case Some(Obj(fields)) => Paths(a, Items(Lookup(fields, "scanned")), ScannedPath)
    case _ => Returned({})
  }

  function SkippedPaths(a: Adapter, report: Json): Outcome<set<string>> {
    match Get(report, "paths")
    case Some(Obj(fields)) => Paths(a, Items(Lookup(fields, "skipped")), SkippedPath)
    case _ => Returned({})
  }

  datatype Inventory = Inventory(considered: set<string>, analyzed: set<string>, notes: seq<string>, verified: bool)

  function FindingPaths(findings: seq<Finding>): set<string> { set f, p | f in findings && p in f.paths :: p }

  /** `_coverage_paths`: verified only by a non-empty scanned inventory. */
  function CoveragePaths(a: Adapter, report: Json, findings: seq<Finding>): Outcome<Inventory> {
    match (Get(report, "paths"), Scanned(a, report), SkippedPaths(a, report))
    case (Some(Obj(_)), Returned(scanned), Returned(skipped)) =>
      var notes := if scanned == {} then [a.inventoryNote(true)] else [];
      Returned(Inventory(scanned + skipped, scanned, notes, scanned != {}))
    case (Some(Obj(_)), _, _) => Raised
    case _ => Returned(Inventory(FindingPaths(findings), FindingPaths(findings), [a.inventoryNote(false)], false))
  }

  // --------------------------------------------------------- the whole report

  /** The identity of a result of whatever shape. */
  function KeyIn(a: Adapter): Json -> Outcome<MatchKey> { r => if GoodResult(r) then KeyOf(a, r) else Raised }

  function RaisesIn(a: Adapter, ctx: Context): Json -> bool { r => !GoodResult(r) || ResultRaises(a, ctx, r) }

  /** One record per result, in the order of the results. */
  function RecordList<R>(results: seq<Json>, keyOf: Json -> Outcome<MatchKey>, make: (MatchKey, Json) -> R): (r: seq<R>)
    requires forall r :: r in results ==> keyOf(r).Returned?
    ensures |r| == |results|
    ensures forall i :: 0 <= i < |r| ==> r[i] == make(keyOf(results[i]).value, results[i])
  {
    if results == [] then [] else
    var last := results[|results| - 1];
    var init := results[..|results| - 1];
    assert results == init + [last];
    RecordList(init, keyOf, make) + [make(keyOf(last).value, last)]
  }

  function EvidenceMaker(a: Adapter, ctx: Context): (MatchKey, Json) -> Evidence { (k, r) => EvidenceOf(a, ctx, k, r) }

  function FindingMaker(a: Adapter, ctx: Context): (MatchKey, Json) -> Finding { (k, r) => FindingOf(a, ctx, k, r) }

  function EvidenceList(a: Adapter, ctx: Context, results: seq<Json>): (r: seq<Evidence>)
    requires forall r :: r in results ==> GoodResult(r) && KeyOf(a, r).Returned?
    ensures |r| == |results|
    ensures forall i :: 0 <= i < |r| ==> r[i] == EvidenceOf(a, ctx, KeyOf(a, results[i]).value, results[i])
  {
    RecordList(results, KeyIn(a), EvidenceMaker(a, ctx))
  }

  function FindingList(a: Adapter, ctx: Context, results: seq<Json>): (r: seq<Finding>)
    requires forall r :: r in results ==> GoodResult(r) && KeyOf(a, r).Returned?
    ensures |r| == |results|
    ensures forall i :: 0 <= i < |r| ==> r[i] == FindingOf(a, ctx, KeyOf(a, results[i]).value, results[i])
  {
    RecordList(results, KeyIn(a), FindingMaker(a, ctx))
  }

  const SHAPE_MESSAGE := "Semgrep report failed structural validation"

  function Malformed(ctx: Context, errors: seq<string>): Normalization {
    Normalization([], [], Coverage(PROVIDER, Failed, 0, 0, errors),
                  [ProviderFailure(PROVIDER, ReportMalformed, SHAPE_MESSAGE, ctx.required, ctx.required,
                                   FailureExtra([Field("errors", Arr(Strings(errors)))], ctx.providerVersion, None))],
                  errors)
  }

  /** `tuple(sorted(set(limitations)))`, over results, errors and inventory. */
  function Limitations(a: Adapter, report: Json, notes: seq<string>): seq<string> {
    SortedSet(Members(Collect(Results(report), a.resultLimitations) + ErrorTexts(a, Errors(report)) + notes))
  }

  /** Some result cannot be made into records. */
  predicate SomeResultRaises(a: Adapter, ctx: Context, results: seq<Json>)
    requires forall r :: r in results ==> GoodResult(r)
  {
    exists r | r in results :: ResultRaises(a, ctx, r)
  }

  lemma ShapedResults(report: Json)
    requires WellShaped(report)
    ensures forall r :: r in Results(report) ==> GoodResult(r)
  {}

  /** What a report whose results and paths convert is normalised to. */
  function Converted(evidence: seq<Evidence>, findings: seq<Finding>, inv: Inventory, failures: seq<ProviderFailure>,
                     limitations: seq<string>): Normalization {
    var status := if failures != [] || !inv.verified then Partial else Complete;
    Normalization(SortBy(evidence, EvidenceKey), SortBy(findings, FindingKey),
                  Coverage(PROVIDER, status, |inv.considered|, |inv.analyzed|, limitations), failures, limitations)
  }

  /** `normalize`. */
  function Normalize(a: Adapter, ctx: Context, report: Json): Outcome<Normalization> {
    if !WellShaped(report) then Returned(Malformed(ctx, a.shapeErrors(report))) else
    ShapedResults(report);
    var results := Results(report);
    if SomeResultRaises(a, ctx, results) then Raised else
    var findings := FindingList(a, ctx, results);
    match CoveragePaths(a, report, findings)
    case Raised => Raised
    case Returned(inv) =>
      Returned(Converted(EvidenceList(a, ctx, results), findings, inv, FatalFailures(a, ctx, Errors(report)),
                         Limitations(a, report, inv.notes)))
  }

  // -------------------------------------------------------------- algorithm

  method CollectPaths(a: Adapter, items: seq<Json>, pathOf: Json -> Option<string>) returns (r: Outcome<set<string>>)
    ensures r == Paths(a, items, pathOf)
  {
    var paths := {};
    for i := 0 to |items|
      invariant Paths(a, items[..i], pathOf) == Returned(paths)
    {
      assert items[..i + 1][..i] == items[..i];
      var named := pathOf(items[i]);
      if named.None? { continue; }
      var path := a.normalizePath(named.value);
      if path.None? {
        PathsRaised(a, items, pathOf, i + 1);
        return Raised;
      }
      paths := paths + {path.value};
    }
    assert items[..|items|] == items;
    r := Returned(paths);
  }

  lemma {:induction false} PathsRaised(a: Adapter, items: seq<Json>, pathOf: Json -> Option<string>, i: nat)
    requires i <= |items| && Paths(a, items[..i], pathOf).Raised?
    ensures Paths(a, items, pathOf).Raised?
    decreases |items|
  {
    if i < |items| {
      assert items[..|items| - 1][..i] == items[..i];
      PathsRaised(a, items[..|items| - 1], pathOf, i);
    } else {
      assert items[..i] == items;
    }
  }

  /** The inventory item names a path that the path rule rejects. */
  predicate BadPath(a: Adapter, pathOf: Json -> Option<string>, item: Json) {
    pathOf(item).Some? && a.normalizePath(pathOf(item).value).None?
  }

  /** The inventory item names a path that normalises to `p`. */
  predicate NamesPath(a: Adapter, pathOf: Json -> Option<string>, item: Json, p: string) {
    pathOf(item).Some? && a.normalizePath(pathOf(item).value) == Some(p)
  }

  /** An inventory raises exactly on a rejected path. */
  lemma {:induction false} PathsRaisedIff(a: Adapter, items: seq<Json>, pathOf: Json -> Option<string>)
    ensures Paths(a, items, pathOf).Raised? <==> exists item :: item in items && BadPath(a, pathOf, item)
  {
    if items != [] {
      var (init, last) := (items[..|items| - 1], items[|items| - 1]);
      PathsRaisedIff(a, init, pathOf);
      assert items == init + [last];
      assert forall item :: item in items <==> item in init || item == last;
      assert Paths(a, items, pathOf).Raised? <==> Paths(a, init, pathOf).Raised? || BadPath(a, pathOf, last);
    }
  }

  /** Otherwise it holds exactly the normalised paths its items name. */
  lemma {:induction false} PathsExact(a: Adapter, items: seq<Json>, pathOf: Json -> Option<string>, p: string)
    requires Paths(a, items, pathOf).Returned?
    ensures p in Paths(a, items, pathOf).value <==> exists item :: item in items && NamesPath(a, pathOf, item, p)
  {
    if items != [] {
      var (init, last) := (items[..|items| - 1], items[|items| - 1]);
      PathsExact(a, init, pathOf, p);
      assert items == init + [last];
      assert forall item :: item in items <==> item in init || item == last;
      assert p in Paths(a, items, pathOf).value <==> p in Paths(a, init, pathOf).value || NamesPath(a, pathOf, last, p);
    }
  }

  method BuildInventory(a: Adapter, report: Json, findings: seq<Finding>) returns (r: Outcome<Inventory>)
    ensures r == CoveragePaths(a, report, findings)
  {
    match Get(report, "paths")
    case Some(Obj(fields)) =>
      var scanned := CollectPaths(a, Items(Lookup(fields, "scanned")), ScannedPath);
      if scanned.Raised? { return Raised; }
      var skipped := CollectPaths(a, Items(Lookup(fields, "skipped")), SkippedPath);
      if skipped.Raised? { return Raised; }
      var notes := if scanned.value == {} then [a.inventoryNote(true)] else [];
      r := Returned(Inventory(scanned.value + skipped.value, scanned.value, notes, scanned.value != {}));
    case _ =>
      r := Returned(Inventory(FindingPaths(findings), FindingPaths(findings), [a.inventoryNote(false)], false));
  }

  lemma RecordsStep<R>(results: seq<Json>, i: nat, keyOf: Json -> Outcome<MatchKey>, make: (MatchKey, Json) -> R)
    requires i < |results| && forall r :: r in results[..i + 1] ==> keyOf(r).Returned?
    ensures forall r :: r in results[..i] ==> r in results[..i + 1]
    ensures RecordList(results[..i + 1], keyOf, make)
         == RecordList(results[..i], keyOf, make) + [make(keyOf(results[i]).value, results[i])]
  {
    assert results[..i + 1] == results[..i] + [results[i]];
  }

  /** The results loop: appends one evidence record, one finding and the result's limitations. */
  method BuildRecords(
      results: seq<Json>, raises: Json -> bool, keyOf: Json -> Outcome<MatchKey>,
      evidenceOf: (MatchKey, Json) -> Evidence, findingOf: (MatchKey, Json) -> Finding,
      limitationsOf: Json -> seq<string>)
    returns (raised: bool, evidence: seq<Evidence>, findings: seq<Finding>, limitations: seq<string>)
    requires forall r :: !raises(r) ==> keyOf(r).Returned?
    ensures raised <==> exists r :: r in results && raises(r)
    ensures !raised ==> forall r :: r in results ==> keyOf(r).Returned?
    ensures !raised ==> evidence == RecordList(results, keyOf, evidenceOf)
    ensures !raised ==> findings == RecordList(results, keyOf, findingOf)
    ensures !raised ==> limitations == Collect(results, limitationsOf)
  {
    raised, evidence, findings, limitations := false, [], [], [];
    for i := 0 to |results|
      invariant forall r :: r in results[..i] ==> keyOf(r).Returned? && !raises(r)
      invariant evidence == RecordList(results[..i], keyOf, evidenceOf)
      invariant findings == RecordList(results[..i], keyOf, findingOf)
      invariant limitations == Collect(results[..i], limitationsOf)
    {
      var result := results[i];
      if raises(result) { return true, [], [], []; }
      assert results[..i + 1] == results[..i] + [result];
      CollectStep(results, i, limitationsOf);
      RecordsStep(results, i, keyOf, evidenceOf);
      RecordsStep(results, i, keyOf, findingOf);
      var key := keyOf(result).value;
      evidence := evidence + [evidenceOf(key, result)];
      findings := findings + [findingOf(key, result)];
      limitations := limitations + limitationsOf(result);
    }
    assert results[..|results|] == results;
  }

  /** The range of a result ends before it starts. */
  predicate Backwards(result: Json)
    requires GoodResult(result)
  {
    AsInt(Get(Get(result, "end").value, "line")).value < AsInt(Get(Get(result, "start").value, "line")).value
  }

  /**
   The causes: the path rule rejects the path, the range runs backwards, identity resolution meets another provider's
   map, or the snapshot id is blank.
   */
  lemma ResultRaisesIff(a: Adapter, ctx: Context, result: Json)
    requires GoodResult(result)
    ensures ResultRaises(a, ctx, result)
       <==> || a.normalizePath(Get(result, "path").value.s).None? || Backwards(result)
            || (TrustedId(result).None? && a.identityMap.Some? && a.identityMap.value.providerId != PROVIDER)
            || Blank(ctx.snapshotId)
  {
    IdentityRaisesIff(a, Get(result, "check_id").value.s, result);
  }

  /** The loop under the adapter's own rules raises exactly when some result does. */
  lemma RaisesWhenSomeResultDoes(a: Adapter, ctx: Context, results: seq<Json>)
    requires forall r :: r in results ==> GoodResult(r)
    ensures forall r :: !RaisesIn(a, ctx)(r) ==> KeyIn(a)(r).Returned?
    ensures SomeResultRaises(a, ctx, results) <==> exists r :: r in results && RaisesIn(a, ctx)(r)
  {
    assert forall r :: r in results ==> (RaisesIn(a, ctx)(r) <==> ResultRaises(a, ctx, r));
  }

  /** The errors loop: every text is a limitation, every error but a warning a failure. */
  method BuildFailures(a: Adapter, ctx: Context, errors: seq<Json>)
    returns (failures: seq<ProviderFailure>, texts: seq<string>)
    ensures failures == FatalFailures(a, ctx, errors) && texts == ErrorTexts(a, errors)
  {
    failures, texts := [], [];
    for i := 0 to |errors|
      invariant failures == FatalFailures(a, ctx, errors[..i]) && texts == ErrorTexts(a, errors[..i])
    {
      assert errors[..i + 1][..i] == errors[..i];
      texts := texts + [a.errorMessage(errors[i], i)];
      if !Fatal(errors[i]) { continue; }
      failures := failures + [FailureOf(a, ctx, errors[i], i)];
    }
    assert errors[..|errors|] == errors;
  }

  method NormalizeReport(a: Adapter, ctx: Context, report: Json) returns (r: Outcome<Normalization>)
    ensures r == Normalize(a, ctx, report)
  {
    if !WellShaped(report) { return Returned(Malformed(ctx, a.shapeErrors(report))); }
    ShapedResults(report);
    RaisesWhenSomeResultDoes(a, ctx, Results(report));
    var raised, evidence, findings, limitations := BuildRecords(
      Results(report), RaisesIn(a, ctx), KeyIn(a), EvidenceMaker(a, ctx), FindingMaker(a, ctx), a.resultLimitations);
    if raised { return Raised; }
    var failures, texts := BuildFailures(a, ctx, Errors(report));
    var inventory := BuildInventory(a, report, findings);
    if inventory.Raised? { return Raised; }
    var inv := inventory.value;
    var status := if failures != [] || !inv.verified then Partial else Complete;
    var sorted := SortedSet(Members(limitations + texts + inv.notes));
    r := Returned(Normalization(
      SortBy(evidence, EvidenceKey), SortBy(findings, FindingKey),
      Coverage(PROVIDER, status, |inv.considered|, |inv.analyzed|, sorted), failures, sorted));
  }

  // ------------------------------------------------------------- properties

  lemma {:induction false} NoFatalFailures(a: Adapter, ctx: Context, errors: seq<Json>)
    ensures FatalFailures(a, ctx, errors) == [] <==> forall e :: e in errors ==> !Fatal(e)
    ensures forall f :: f in FatalFailures(a, ctx, errors) ==> f.required == f.fatal == ctx.required
  {
    if errors != [] {
      NoFatalFailures(a, ctx, errors[..|errors| - 1]);
      assert errors == errors[..|errors| - 1] + [errors[|errors| - 1]];
    }
  }

  lemma InventoryCounts(a: Adapter, report: Json, findings: seq<Finding>)
    requires CoveragePaths(a, report, findings).Returned?
    ensures var inv := CoveragePaths(a, report, findings).value;
            |inv.analyzed| <= |inv.considered| && (inv.verified ==> |inv.analyzed| > 0)
  {
    var inv := CoveragePaths(a, report, findings).value;
    WithinSize(inv.analyzed, inv.considered);
  }

  /** The counts never violate the coverage record's own contract, and complete coverage analysed something. */
  lemma CoverageCounts(a: Adapter, ctx: Context, report: Json)
    requires Normalize(a, ctx, report).Returned?
    ensures var c := Normalize(a, ctx, report).value.coverage;
            c.analyzed <= c.considered && (c.status == Complete ==> c.analyzed > 0)
  {
    if WellShaped(report) {
      ShapedResults(report);
      InventoryCounts(a, report, FindingList(a, ctx, Results(report)));
    }
  }

  lemma WithinSize(s: set<string>, t: set<string>)
    requires s <= t
    ensures |s| <= |t| && (s != {} ==> |s| > 0)
  {
    assert |t| == |s| + |t - s| by { assert t == s + (t - s); }
  }

  /**
   The report was well formed, no result raised on its location or rule identity, no path raised, something was scanned,
   and every error is a warning.
   */
  ghost predicate Verified(a: Adapter, ctx: Context, report: Json) {
    && WellShaped(report)
    && (forall r :: r in Results(report) ==> GoodResult(r) && !ResultRaises(a, ctx, r))
    && Scanned(a, report).Returned? && SkippedPaths(a, report).Returned?
    && Scanned(a, report).value != {}
    && (forall e :: e in Errors(report) ==> !Fatal(e))
  }

  /** Normalisation reports complete coverage exactly on verified reports, and then without failures. */
  lemma CompleteIffVerified(a: Adapter, ctx: Context, report: Json)
    ensures var n := Normalize(a, ctx, report);
            && (n.Returned? && n.value.coverage.status == Complete <==> Verified(a, ctx, report))
            && (n.Returned? && n.value.coverage.status == Complete ==> n.value.failures == [])
            && (n.Returned? && n.value.coverage.status != Complete ==> n.value.coverage.status in {Failed, Partial})
  {
    if WellShaped(report) {
      ShapedResults(report);
      if SomeResultRaises(a, ctx, Results(report)) {
        RaisingUnverified(a, ctx, report);
      } else {
        ConvertedStatus(a, ctx, report);
        ConvertedVerified(a, ctx, report);
      }
    }
  }

  lemma RaisingUnverified(a: Adapter, ctx: Context, report: Json)
    requires WellShaped(report) && (forall r :: r in Results(report) ==> GoodResult(r))
    requires SomeResultRaises(a, ctx, Results(report))
    ensures Normalize(a, ctx, report).Raised? && !Verified(a, ctx, report)
  {
    var r :| r in Results(report) && ResultRaises(a, ctx, r);
  }

  lemma ConvertedVerified(a: Adapter, ctx: Context, report: Json)
    requires WellShaped(report) && (forall r :: r in Results(report) ==> GoodResult(r))
    requires !SomeResultRaises(a, ctx, Results(report))
    ensures Verified(a, ctx, report)
       <==> && Scanned(a, report).Returned? && SkippedPaths(a, report).Returned? && Scanned(a, report).value != {}
            && FatalFailures(a, ctx, Errors(report)) == []
  {
    NoFatalFailures(a, ctx, Errors(report));
    assert forall r :: r in Results(report) ==> !ResultRaises(a, ctx, r);
  }

  /** Once every result is converted, inventory and errors decide. */
  lemma ConvertedStatus(a: Adapter, ctx: Context, report: Json)
    requires WellShaped(report) && (forall r :: r in Results(report) ==> GoodResult(r))
    requires !SomeResultRaises(a, ctx, Results(report))
    ensures var n := Normalize(a, ctx, report);
            && (n.Returned? <==> Scanned(a, report).Returned? && SkippedPaths(a, report).Returned?)
            && (n.Returned? ==> n.value.failures == FatalFailures(a, ctx, Errors(report)))
            && (n.Returned? ==> n.value.coverage.status == if FatalFailures(a, ctx, Errors(report)) != []
                                || Scanned(a, report).value == {} then Partial else Complete)
  {
    InventoryOf(a, report, FindingList(a, ctx, Results(report)));
  }

  lemma InventoryOf(a: Adapter, report: Json, findings: seq<Finding>)
    ensures var inv := CoveragePaths(a, report, findings);
            && (inv.Returned? <==> Scanned(a, report).Returned? && SkippedPaths(a, report).Returned?)
            && (inv.Returned? ==> (inv.value.verified <==> Scanned(a, report).value != {}))
  {}
}
