/** Semantic validation of a finding bundle (`l9_ci/artifacts/validator.py`). */
module Validator {
  import opened Order
  import opened Contracts

  function EvidenceId(e: Evidence): string { e.evidenceId }
  function FindingId(f: Finding): string { f.findingId }
  function ClassificationId(c: Classification): string { c.findingId }
  function ProviderId(p: ProviderRun): string { p.providerId }
  function CoverageId(c: Coverage): string { c.providerId }

  ghost predicate DistinctBy<T>(s: seq<T>, id: T -> string) {
    forall i, j :: 0 <= i < j < |s| ==> id(s[i]) != id(s[j])
  }

  function IdsOf<T>(s: seq<T>, id: T -> string): (r: seq<string>)
    ensures |r| == |s| && forall i :: 0 <= i < |s| ==> r[i] == id(s[i])
  {
    if s == [] then [] else [id(s[0])] + IdsOf(s[1..], id)
  }

  lemma IdsMembers<T>(s: seq<T>, id: T -> string)
    ensures forall x :: x in s ==> id(x) in IdsOf(s, id)
    ensures forall n :: n in IdsOf(s, id) ==> exists x :: x in s && id(x) == n
    ensures Distinct(IdsOf(s, id)) <==> DistinctBy(s, id)
  {
    var r := IdsOf(s, id);
    forall x | x in s ensures id(x) in r {
      var i :| 0 <= i < |s| && s[i] == x;
      assert r[i] == id(x);
    }
    forall n | n in r ensures exists x :: x in s && id(x) == n {
      var i :| 0 <= i < |r| && r[i] == n;
      assert s[i] in s;
    }
    if Distinct(r) {
      forall i, j | 0 <= i < j < |s| ensures id(s[i]) != id(s[j]) { assert r[i] != r[j]; }
    }
  }

  datatype SemanticError =
    | EvidenceIdsRepeat | FindingIdsRepeat | ClassificationsRepeat | ProvidersRepeat | CoverageRepeats
    | EvidenceSnapshot(id: string) | EvidenceProvider(id: string)
    | FindingSnapshot(id: string) | FindingProvider(id: string) | FindingEvidence(id: string, missing: set<string>)
    | ClassificationFinding(id: string) | CoverageProvider(id: string)
    | CoverageMissing(ids: set<string>) | CoverageUnexpected(ids: set<string>)

  function Report(c: bool, e: SemanticError): seq<SemanticError> { if c then [e] else [] }

  function EvidenceErrors(snapshotId: string, providers: set<string>): Evidence -> seq<SemanticError> {
    (e: Evidence) =>
      Report(e.snapshotId != snapshotId, EvidenceSnapshot(e.evidenceId))
      + Report(e.providerId !in providers, EvidenceProvider(e.evidenceId))
  }

  function FindingErrors(snapshotId: string, providers: set<string>,
                         evidence: set<string>): Finding -> seq<SemanticError> {
    (f: Finding) =>
      Report(f.snapshotId != snapshotId, FindingSnapshot(f.findingId))
      + Report(f.providerId !in providers, FindingProvider(f.findingId))
      + Report(Members(f.evidenceIds) - evidence != {}, FindingEvidence(f.findingId, Members(f.evidenceIds) - evidence))
  }

  function ClassificationErrors(findings: set<string>): Classification -> seq<SemanticError> {
    (c: Classification) => Report(c.findingId !in findings, ClassificationFinding(c.findingId))
  }

  function CoverageErrors(providers: set<string>): Coverage -> seq<SemanticError> {
    (c: Coverage) => Report(c.providerId !in providers, CoverageProvider(c.providerId))
  }

  function Ids<T>(s: seq<T>, id: T -> string): set<string> { Members(IdsOf(s, id)) }

  /** `len(ids) != len(set(ids))`. */
  predicate Repeats<T>(s: seq<T>, id: T -> string) { |Ids(s, id)| != |s| }

  function RepeatErrors(b: Bundle): seq<SemanticError> {
    Report(Repeats(b.evidence, EvidenceId), EvidenceIdsRepeat)
    + Report(Repeats(b.findings, FindingId), FindingIdsRepeat)
    + Report(Repeats(b.classifications, ClassificationId), ClassificationsRepeat)
    + Report(Repeats(b.providers, ProviderId), ProvidersRepeat)
    + Report(Repeats(b.coverage, CoverageId), CoverageRepeats)
  }

  function ReferenceErrors(b: Bundle): seq<SemanticError> {
    var providers := Ids(b.providers, ProviderId);
    Collect(b.evidence, EvidenceErrors(b.snapshot.snapshotId, providers))
    + Collect(b.findings, FindingErrors(b.snapshot.snapshotId, providers, Ids(b.evidence, EvidenceId)))
    + Collect(b.classifications, ClassificationErrors(Ids(b.findings, FindingId)))
    + Collect(b.coverage, CoverageErrors(providers))
  }

  function CoverageSetErrors(b: Bundle): seq<SemanticError> {
    var (requested, covered) := (Ids(b.providers, ProviderId), Ids(b.coverage, CoverageId));
    Report(requested - covered != {}, CoverageMissing(requested - covered))
    + Report(covered - requested != {}, CoverageUnexpected(covered - requested))
  }

  /** The errors in the order they are found. */
  function SemanticErrors(b: Bundle): seq<SemanticError> {
    RepeatErrors(b) + ReferenceErrors(b) + CoverageSetErrors(b)
  }

  method ValidateBundleSemantics(b: Bundle) returns (valid: bool, errors: seq<SemanticError>)
    ensures errors == SemanticErrors(b) && valid == (errors == [])
  {
    var references := ResolveReferences(b);
    var sets := CompareProviders(Ids(b.providers, ProviderId), Ids(b.coverage, CoverageId));
    errors := RepeatErrors(b) + references + sets;
    valid := errors == [];
  }

  /** The four loops over the records. */
  method ResolveReferences(b: Bundle) returns (errors: seq<SemanticError>)
    ensures errors == ReferenceErrors(b)
  {
    var evidence, findings, providers := Ids(b.evidence, EvidenceId), Ids(b.findings, FindingId),
      Ids(b.providers, ProviderId);
    var snapshot := b.snapshot.snapshotId;
    var evidenceErrors := CollectEach(b.evidence, EvidenceErrors(snapshot, providers));
    var findingErrors := CollectEach(b.findings, FindingErrors(snapshot, providers, evidence));
    var classificationErrors := CollectEach(b.classifications, ClassificationErrors(findings));
    var coverageErrors := CollectEach(b.coverage, CoverageErrors(providers));
    errors := evidenceErrors + findingErrors + classificationErrors + coverageErrors;
  }

  method CompareProviders(requested: set<string>, covered: set<string>) returns (errors: seq<SemanticError>)
    ensures errors == Report(requested - covered != {}, CoverageMissing(requested - covered))
                    + Report(covered - requested != {}, CoverageUnexpected(covered - requested))
  {
    errors := [];
    if requested != covered {
      if requested - covered != {} { errors := errors + [CoverageMissing(requested - covered)]; }
      if covered - requested != {} { errors := errors + [CoverageUnexpected(covered - requested)]; }
    }
  }

  ghost predicate UniqueIds(b: Bundle) {
    && DistinctBy(b.evidence, EvidenceId) && DistinctBy(b.findings, FindingId)
    && DistinctBy(b.classifications, ClassificationId)
    && DistinctBy(b.providers, ProviderId) && DistinctBy(b.coverage, CoverageId)
  }

  ghost predicate FindingResolves(b: Bundle, f: Finding) {
    && f.snapshotId == b.snapshot.snapshotId && Registered(b, f.providerId)
    && forall id :: id in f.evidenceIds ==> HasEvidence(b, id)
  }

  /** One snapshot, and every reference leads to a record. */
  ghost predicate ReferencesResolve(b: Bundle) {
    && (forall e :: e in b.evidence ==> e.snapshotId == b.snapshot.snapshotId && Registered(b, e.providerId))
    && (forall f :: f in b.findings ==> FindingResolves(b, f))
    && (forall c :: c in b.classifications ==> HasFinding(b, c.findingId))
    && (forall c :: c in b.coverage ==> Registered(b, c.providerId))
  }

  /** Unique ids, resolved references, and coverage for every provider. */
  ghost predicate SemanticallyValid(b: Bundle) {
    UniqueIds(b) && ReferencesResolve(b) && forall p :: p in b.providers ==> Covered(b, p.providerId)
  }

  ghost predicate Registered(b: Bundle, id: string) { exists p :: p in b.providers && p.providerId == id }
  ghost predicate HasEvidence(b: Bundle, id: string) { exists e :: e in b.evidence && e.evidenceId == id }
  ghost predicate HasFinding(b: Bundle, id: string) { exists f :: f in b.findings && f.findingId == id }
  ghost predicate Covered(b: Bundle, id: string) { exists c :: c in b.coverage && c.providerId == id }

  lemma RepeatsIff<T>(s: seq<T>, id: T -> string)
    ensures Repeats(s, id) <==> !DistinctBy(s, id)
    ensures forall n :: n in Ids(s, id) <==> exists x :: x in s && id(x) == n
  {
    DistinctBySize(IdsOf(s, id));
    IdsMembers(s, id);
  }

  lemma NoRepeats(b: Bundle)
    ensures RepeatErrors(b) == [] <==> UniqueIds(b)
  {
    RepeatsIff(b.evidence, EvidenceId);
    RepeatsIff(b.findings, FindingId);
    RepeatsIff(b.classifications, ClassificationId);
    RepeatsIff(b.providers, ProviderId);
    RepeatsIff(b.coverage, CoverageId);
    assert |RepeatErrors(b)| == |Report(Repeats(b.evidence, EvidenceId), EvidenceIdsRepeat)|
      + |Report(Repeats(b.findings, FindingId), FindingIdsRepeat)|
      + |Report(Repeats(b.classifications, ClassificationId), ClassificationsRepeat)|
      + |Report(Repeats(b.providers, ProviderId), ProvidersRepeat)|
      + |Report(Repeats(b.coverage, CoverageId), CoverageRepeats)|;
  }

  lemma RegisteredIff(b: Bundle, id: string)
    ensures id in Ids(b.providers, ProviderId) <==> Registered(b, id)
    ensures id in Ids(b.evidence, EvidenceId) <==> HasEvidence(b, id)
    ensures id in Ids(b.findings, FindingId) <==> HasFinding(b, id)
    ensures id in Ids(b.coverage, CoverageId) <==> Covered(b, id)
  {
    RepeatsIff(b.providers, ProviderId);
    RepeatsIff(b.evidence, EvidenceId);
    RepeatsIff(b.findings, FindingId);
    RepeatsIff(b.coverage, CoverageId);
    if p :| p in b.providers && ProviderId(p) == id { assert Registered(b, id); }
    if p :| p in b.providers && p.providerId == id { assert ProviderId(p) == id; }
    if e :| e in b.evidence && EvidenceId(e) == id { assert HasEvidence(b, id); }
    if e :| e in b.evidence && e.evidenceId == id { assert EvidenceId(e) == id; }
    if f :| f in b.findings && FindingId(f) == id { assert HasFinding(b, id); }
    if f :| f in b.findings && f.findingId == id { assert FindingId(f) == id; }
    if c :| c in b.coverage && CoverageId(c) == id { assert Covered(b, id); }
    if c :| c in b.coverage && c.providerId == id { assert CoverageId(c) == id; }
  }

  lemma NoDangling(b: Bundle)
    ensures ReferenceErrors(b) == [] <==> ReferencesResolve(b)
  {
    var (snapshot, providers) := (b.snapshot.snapshotId, Ids(b.providers, ProviderId));
    var (fe, ff) := (EvidenceErrors(snapshot, providers),
                     FindingErrors(snapshot, providers, Ids(b.evidence, EvidenceId)));
    var (fc, fv) := (ClassificationErrors(Ids(b.findings, FindingId)), CoverageErrors(providers));
    CollectEmpty(b.evidence, fe);
    CollectEmpty(b.findings, ff);
    CollectEmpty(b.classifications, fc);
    CollectEmpty(b.coverage, fv);
    assert |ReferenceErrors(b)|
      == |Collect(b.evidence, fe)| + |Collect(b.findings, ff)| + |Collect(b.classifications, fc)|
       + |Collect(b.coverage, fv)|;
    forall e | e in b.evidence ensures fe(e) == [] <==> e.snapshotId == snapshot && Registered(b, e.providerId) {
      RegisteredIff(b, e.providerId);
    }
    forall f | f in b.findings ensures ff(f) == [] <==> FindingResolves(b, f) { FindingQuiet(b, f); }
    forall c | c in b.classifications ensures fc(c) == [] <==> HasFinding(b, c.findingId) {
      RegisteredIff(b, c.findingId);
    }
    forall c | c in b.coverage ensures fv(c) == [] <==> Registered(b, c.providerId) { RegisteredIff(b, c.providerId); }
  }

  lemma FindingQuiet(b: Bundle, f: Finding)
    ensures FindingErrors(b.snapshot.snapshotId, Ids(b.providers, ProviderId), Ids(b.evidence, EvidenceId))(f) == []
       <==> FindingResolves(b, f)
  {
    RegisteredIff(b, f.providerId);
    var missing := Members(f.evidenceIds) - Ids(b.evidence, EvidenceId);
    forall id | id in f.evidenceIds ensures id in missing <==> !HasEvidence(b, id) { RegisteredIff(b, id); }
    assert missing == {} <==> forall id :: id in f.evidenceIds ==> id !in missing;
  }

  lemma CoverageComplete(b: Bundle)
    requires forall c :: c in b.coverage ==> Registered(b, c.providerId)
    ensures CoverageSetErrors(b) == [] <==> forall p :: p in b.providers ==> Covered(b, p.providerId)
  {
    var (requested, covered) := (Ids(b.providers, ProviderId), Ids(b.coverage, CoverageId));
    forall id | id in covered ensures id in requested {
      RegisteredIff(b, id);
      var c :| c in b.coverage && c.providerId == id;
    }
    assert covered - requested == {};
    forall p | p in b.providers
      ensures p.providerId in requested && (p.providerId in covered <==> Covered(b, p.providerId))
    {
      RegisteredIff(b, p.providerId);
    }
    if requested - covered != {} {
      var id :| id in requested - covered;
      RegisteredIff(b, id);
      var p :| p in b.providers && p.providerId == id;
    } else {
      forall p | p in b.providers ensures Covered(b, p.providerId) { assert p.providerId !in requested - covered; }
    }
  }

  lemma SplitErrors(b: Bundle)
    ensures SemanticErrors(b) == [] <==> RepeatErrors(b) == [] && ReferenceErrors(b) == [] && CoverageSetErrors(b) == []
  {
    assert |SemanticErrors(b)| == |RepeatErrors(b)| + |ReferenceErrors(b)| + |CoverageSetErrors(b)|;
  }

  /** Validation is silent exactly on semantically valid bundles. */
  lemma ValidIff(b: Bundle)
    ensures SemanticErrors(b) == [] <==> SemanticallyValid(b)
  {
    NoRepeats(b);
    NoDangling(b);
    if ReferencesResolve(b) { CoverageComplete(b); }
    SplitErrors(b);
  }
}
