/**
 The executed Semgrep pipeline end to end: run, normalise, classify, assemble, validate,
 and what a passing gate then proves.
 */
module Pipeline {
  import opened Order
  import opened Text
  import opened Json
  import opened Wrappers
  import opened Contracts
  import opened BundleIdentity
  import opened Identities
  import opened Validator
  import opened Serializer
  import opened Semgrep
  import opened Runner
  import opened Classifier
  import opened Gate

  /** One request; `versionSupported` says whether the detected version, if any, passed its check. */
  datatype Request = Request(
    snapshotId: string, providerVersion: Option<string>, versionSupported: bool,
    required: bool, strict: bool, policy: Option<Policy>,
    sdkVersion: string, adapterVersion: string, generatedAt: string, revision: Option<string>, dirty: Option<bool>,
    findingLimit: Limit, evidenceLimit: Limit, timeoutSeconds: int, outputLimit: int)

  /** `OperationalLimits` holds positive limits only. */
  type Limit = n: int | n > 0 witness 1

  function ContextOf(req: Request): Context { Context(req.snapshotId, req.providerVersion, req.required) }

  /** The bundle `run_semgrep_pipeline` assembles from its parts. */
  function Assemble(req: Request, n: Normalization, cs: seq<Classification>): Bundle {
    Bundle("l9.finding-bundle/v1", "1.0.0", req.sdkVersion, req.generatedAt,
           Snapshot(req.snapshotId, ".", req.revision, req.dirty),
           [ProviderRun(PROVIDER, req.adapterVersion, req.providerVersion, "execute", req.required)],
           n.evidence, n.findings, cs, n.failures, [n.coverage], n.limitations)
  }

  /** The classifications of a normalisation, or a raise. */
  method Classifications(req: Request, n: Normalization) returns (r: Outcome<seq<Classification>>)
    ensures r == ClassificationsOf(req, n)
  {
    match req.policy
    case Some(policy) =>
      r := ClassifyFindings(n.findings, policy, req.strict);
    case None =>
      r := if req.strict && n.findings != [] then Raised else Returned([]);
  }

  ghost function ClassificationsOf(req: Request, n: Normalization): Outcome<seq<Classification>> {
    match req.policy
    case Some(policy) =>
      if ClassifyRaises(n.findings, policy, req.strict) then Raised
      else
        SortMembers(n.findings, FindingKey);
        Returned(Classified(policy, SortBy(n.findings, FindingKey)))
    case None => if req.strict && n.findings != [] then Raised else Returned([])
  }

  /** The refusals between normalisation and classification: record limits and strict identity. */
  predicate Refused(req: Request, n: Normalization) {
    || |n.findings| > req.findingLimit || |n.evidence| > req.evidenceLimit
    || (req.strict && exists f | f in n.findings :: f.canonicalRuleId.None?)
  }

  /** Refused before anything runs: an empty snapshot id, an unsupported version, or execution bounds below one. */
  predicate RefusedEarly(req: Request) {
    || req.snapshotId == "" || (req.providerVersion.Some? && !req.versionSupported)
    || req.timeoutSeconds <= 0 || req.outputLimit <= 0
  }

  /** The record contracts of snapshot, provider run and bundle reject blank labels. */
  predicate Unlabelled(req: Request) { Blank(req.snapshotId) || Blank(req.adapterVersion) || Blank(req.sdkVersion) }

  /** The checks on a whole bundle beside its semantics (compatibility, JSON Schema, redaction), all arbitrary. */
  type Checks = Bundle -> bool

  /** From a normalisation to the bundle, or a raise. */
  ghost function BundleFrom(req: Request, accepts: Checks, n: Normalization): Outcome<Bundle> {
    if Refused(req, n) then Raised else
    match ClassificationsOf(req, n)
    case Raised => Raised
    case Returned(cs) =>
      var b := Assemble(req, n, cs);
      if Unlabelled(req) || SemanticErrors(b) != [] || !accepts(b) then Raised else Returned(b)
  }

  ghost function BundleOf(a: Adapter, w: World, req: Request, accepts: Checks): Outcome<Bundle> {
    if RefusedEarly(req) then Raised else
    match ExecuteAndNormalize(SemgrepProvider(a, w), ContextOf(req))
    case Raised => Raised
    case Returned(n) => BundleFrom(req, accepts, n)
  }

  /** `run_semgrep_pipeline` in execute mode, up to the bundle it writes. */
  method RunPipeline(a: Adapter, w: World, req: Request, accepts: Checks) returns (r: Outcome<Bundle>)
    ensures r == BundleOf(a, w, req, accepts)
  {
    if RefusedEarly(req) { return Raised; }
    var normalization := ExecuteAndNormalize(SemgrepProvider(a, w), ContextOf(req));
    if normalization.Raised? { return Raised; }
    if Refused(req, normalization.value) { return Raised; }
    var classifications := Classifications(req, normalization.value);
    if classifications.Raised? || Unlabelled(req) { return Raised; }
    var b := Assemble(req, normalization.value, classifications.value);
    var valid, errors := ValidateBundleSemantics(b);
    if !valid || !accepts(b) { return Raised; }
    r := Returned(b);
  }

  // ------------------------------------------- validity of assembled bundles

  /** The records of well-shaped results, before sorting. */
  ghost predicate RecordsOf(a: Adapter, ctx: Context, results: seq<Json>, n: Normalization) {
    && (forall r :: r in results ==> GoodResult(r) && !ResultRaises(a, ctx, r))
    && n.evidence == SortBy(EvidenceList(a, ctx, results), EvidenceKey)
    && n.findings == SortBy(FindingList(a, ctx, results), FindingKey)
  }

  /** The results differ pairwise in rule, normalised path, range or discriminator. */
  ghost predicate DistinctMatches(a: Adapter, results: seq<Json>)
    requires forall r :: r in results ==> GoodResult(r)
  {
    forall i, j :: 0 <= i < j < |results| ==> KeyOf(a, results[i]) != KeyOf(a, results[j])
  }

  lemma {:induction false} DistinctByPermutation<T>(s: seq<T>, t: seq<T>, id: T -> string)
    requires multiset(s) == multiset(t)
    ensures DistinctBy(s, id) <==> DistinctBy(t, id)
  {
    IdsMembers(s, id);
    IdsMembers(t, id);
    IdsPermutation(s, t, id);
    DistinctPermutation(IdsOf(s, id), IdsOf(t, id));
  }

  function IdList<T>(id: T -> string): T -> seq<string> { x => [id(x)] }

  lemma {:induction false} IdsAreCollected<T>(s: seq<T>, id: T -> string)
    ensures IdsOf(s, id) == Collect(s, IdList(id))
  {
    if s != [] { IdsAreCollected(s[1..], id); }
  }

  lemma IdsPermutation<T>(s: seq<T>, t: seq<T>, id: T -> string)
    requires multiset(s) == multiset(t)
    ensures multiset(IdsOf(s, id)) == multiset(IdsOf(t, id))
  {
    IdsAreCollected(s, id);
    IdsAreCollected(t, id);
    CollectPermutation(s, t, IdList(id));
  }

  /** The digest keeps the matches of these results apart. */
  ghost predicate SeparatesResults(a: Adapter, ctx: Context, results: seq<Json>) {
    forall r, q | r in results && q in results && KeyIn(a)(r).Returned? && KeyIn(a)(q).Returned? ::
      Separates(a.sha, ctx.snapshotId, KeyIn(a)(r).value, ctx.snapshotId, KeyIn(a)(q).value)
  }

  /** Evidence ids repeat exactly when matches do, and so do finding ids. */
  lemma RecordIdsDistinct(a: Adapter, ctx: Context, results: seq<Json>)
    requires SeparatesResults(a, ctx, results) && forall r :: r in results ==> GoodResult(r) && KeyOf(a, r).Returned?
    ensures DistinctBy(EvidenceList(a, ctx, results), EvidenceId) <==> DistinctMatches(a, results)
    ensures DistinctBy(FindingList(a, ctx, results), FindingId) <==> DistinctMatches(a, results)
  {
    var (es, fs) := (EvidenceList(a, ctx, results), FindingList(a, ctx, results));
    forall i, j | 0 <= i < j < |results|
      ensures EvidenceId(es[i]) == EvidenceId(es[j]) <==> KeyOf(a, results[i]) == KeyOf(a, results[j])
      ensures FindingId(fs[i]) == FindingId(fs[j]) <==> KeyOf(a, results[i]) == KeyOf(a, results[j])
    {
      SeparatesPair(a, ctx, results, results[i], results[j]);
      MatchIdsDecide(a.sha, ctx.snapshotId, KeyOf(a, results[i]).value, KeyOf(a, results[j]).value);
    }
  }

  lemma SeparatesPair(a: Adapter, ctx: Context, results: seq<Json>, r: Json, q: Json)
    requires SeparatesResults(a, ctx, results) && r in results && q in results
    requires GoodResult(r) && GoodResult(q) && KeyOf(a, r).Returned? && KeyOf(a, q).Returned?
    ensures Separates(a.sha, ctx.snapshotId, KeyOf(a, r).value, ctx.snapshotId, KeyOf(a, q).value)
  {
    assert KeyIn(a)(r) == KeyOf(a, r) && KeyIn(a)(q) == KeyOf(a, q);
  }

  lemma MatchIdsDecide(sha: Hash, s: string, k: MatchKey, l: MatchKey)
    requires Separates(sha, s, k, s, l)
    ensures EvidenceIdOf(sha, s, k) == EvidenceIdOf(sha, s, l) <==> k == l
    ensures FindingIdOf(sha, s, k) == FindingIdOf(sha, s, l) <==> k == l
  {
    EvidenceIdDecides(sha, s, k, l);
    FindingIdDecides(sha, s, k, s, l);
  }

  lemma RecordMembers(a: Adapter, ctx: Context, results: seq<Json>, n: Normalization)
    requires RecordsOf(a, ctx, results, n)
    ensures forall e :: e in n.evidence ==> e.snapshotId == ctx.snapshotId && e.providerId == PROVIDER
    ensures forall f :: f in n.findings ==> f.snapshotId == ctx.snapshotId && f.providerId == PROVIDER
    ensures forall f, id :: f in n.findings && id in f.evidenceIds ==> exists e :: e in n.evidence && e.evidenceId == id
    ensures forall f :: f in n.findings <==> f in FindingList(a, ctx, results)
  {
    var (es, fs) := (EvidenceList(a, ctx, results), FindingList(a, ctx, results));
    SortMembers(es, EvidenceKey);
    SortMembers(fs, FindingKey);
    ListedRecords(a, ctx, results);
    forall f, id | f in n.findings && id in f.evidenceIds ensures exists e :: e in n.evidence && e.evidenceId == id {
      assert f in fs;
      var e :| e in es && e.evidenceId == id;
    }
  }

  lemma ListedRecords(a: Adapter, ctx: Context, results: seq<Json>)
    requires forall r :: r in results ==> GoodResult(r) && KeyOf(a, r).Returned?
    ensures forall e :: e in EvidenceList(a, ctx, results) ==>
            e.snapshotId == ctx.snapshotId && e.providerId == PROVIDER
    ensures forall f :: f in FindingList(a, ctx, results) ==> f.snapshotId == ctx.snapshotId && f.providerId == PROVIDER
    ensures forall f, id :: f in FindingList(a, ctx, results) && id in f.evidenceIds ==>
              exists e :: e in EvidenceList(a, ctx, results) && e.evidenceId == id
  {
    forall f, id | f in FindingList(a, ctx, results) && id in f.evidenceIds
      ensures exists e :: e in EvidenceList(a, ctx, results) && e.evidenceId == id
    {
      ListedEvidence(a, ctx, results, f, id);
    }
  }

  lemma ListedEvidence(a: Adapter, ctx: Context, results: seq<Json>, f: Finding, id: string)
    requires forall r :: r in results ==> GoodResult(r) && KeyOf(a, r).Returned?
    requires f in FindingList(a, ctx, results) && id in f.evidenceIds
    ensures exists e :: e in EvidenceList(a, ctx, results) && e.evidenceId == id
  {
    var (es, fs) := (EvidenceList(a, ctx, results), FindingList(a, ctx, results));
    var i :| 0 <= i < |fs| && fs[i] == f;
    assert es[i] in es && es[i].evidenceId == id;
  }

  /** The classifications an assembled bundle can carry. */
  ghost predicate ClassifiedFor(req: Request, n: Normalization, cs: seq<Classification>) {
    ClassificationsOf(req, n) == Returned(cs)
  }

  lemma ClassificationRecords(req: Request, n: Normalization, cs: seq<Classification>)
    requires ClassifiedFor(req, n, cs) && DistinctBy(n.findings, FindingId)
    ensures DistinctBy(cs, ClassificationId)
    ensures forall c :: c in cs ==> exists f :: f in n.findings && f.findingId == c.findingId
  {
    if req.policy.Some? {
      var policy, sorted := req.policy.value, SortBy(n.findings, FindingKey);
      SortMembers(n.findings, FindingKey);
      SortMultiset(n.findings, FindingKey);
      DistinctByPermutation(n.findings, sorted, FindingId);
      ClassifiedIds(policy, sorted);
    }
  }

  lemma ClassifiedIds(policy: Policy, findings: seq<Finding>)
    requires DistinctBy(findings, FindingId) && forall f :: f in findings ==> ClassifyOne(policy, f).Returned?
    ensures DistinctBy(Classified(policy, findings), ClassificationId)
    ensures forall c :: c in Classified(policy, findings) ==> exists f :: f in findings && f.findingId == c.findingId
  {
    var cs := Classified(policy, findings);
    forall i | 0 <= i < |cs| ensures cs[i].findingId == findings[i].findingId { ClassifyKeepsId(policy, findings[i]); }
    forall i, j | 0 <= i < j < |cs| ensures ClassificationId(cs[i]) != ClassificationId(cs[j]) {
      assert FindingId(findings[i]) != FindingId(findings[j]);
    }
    forall c | c in cs ensures exists f :: f in findings && f.findingId == c.findingId {
      var i :| 0 <= i < |cs| && cs[i] == c;
      assert findings[i] in findings;
    }
  }

  lemma ClassifyKeepsId(policy: Policy, f: Finding)
    requires ClassifyOne(policy, f).Returned?
    ensures ClassifyOne(policy, f).value.findingId == f.findingId
  {}

  lemma ReferencesOfAssembled(a: Adapter, req: Request, results: seq<Json>, n: Normalization, cs: seq<Classification>)
    requires RecordsOf(a, ContextOf(req), results, n) && n.coverage.providerId == PROVIDER
    requires ClassifiedFor(req, n, cs) && DistinctBy(n.findings, FindingId)
    ensures ReferencesResolve(Assemble(req, n, cs))
    ensures forall p :: p in Assemble(req, n, cs).providers ==> Covered(Assemble(req, n, cs), p.providerId)
  {
    var b := Assemble(req, n, cs);
    RecordMembers(a, ContextOf(req), results, n);
    ClassificationRecords(req, n, cs);
    assert b.providers[0] in b.providers && b.coverage[0] in b.coverage;
    assert Registered(b, PROVIDER) && Covered(b, PROVIDER);
    forall f | f in b.findings ensures FindingResolves(b, f) {
      forall id | id in f.evidenceIds ensures HasEvidence(b, id) {}
    }
    forall c | c in b.classifications ensures HasFinding(b, c.findingId) {}
  }

  lemma RecordsDistinctIff(a: Adapter, ctx: Context, results: seq<Json>, n: Normalization)
    requires SeparatesResults(a, ctx, results) && RecordsOf(a, ctx, results, n)
    ensures DistinctBy(n.evidence, EvidenceId) <==> DistinctMatches(a, results)
    ensures DistinctBy(n.findings, FindingId) <==> DistinctMatches(a, results)
  {
    var (es, fs) := (EvidenceList(a, ctx, results), FindingList(a, ctx, results));
    RecordIdsDistinct(a, ctx, results);
    SortMultiset(es, EvidenceKey);
    SortMultiset(fs, FindingKey);
    DistinctByPermutation(es, n.evidence, EvidenceId);
    DistinctByPermutation(fs, n.findings, FindingId);
  }

  lemma UniqueIdsAssembled(req: Request, n: Normalization, cs: seq<Classification>)
    requires ClassifiedFor(req, n, cs)
    ensures UniqueIds(Assemble(req, n, cs)) <==> DistinctBy(n.evidence, EvidenceId) && DistinctBy(n.findings, FindingId)
  {
    if DistinctBy(n.findings, FindingId) { ClassificationRecords(req, n, cs); }
  }

  /**
   A bundle assembled from a normalised and classified report passes semantic validation
   exactly when its results are pairwise distinct.
   */
  lemma AssembledValidIff(a: Adapter, req: Request, results: seq<Json>, n: Normalization, cs: seq<Classification>)
    requires SeparatesResults(a, ContextOf(req), results)
    requires RecordsOf(a, ContextOf(req), results, n) && n.coverage.providerId == PROVIDER
    requires ClassifiedFor(req, n, cs)
    ensures SemanticErrors(Assemble(req, n, cs)) == [] <==> DistinctMatches(a, results)
  {
    ValidIff(Assemble(req, n, cs));
    RecordsDistinctIff(a, ContextOf(req), results, n);
    UniqueIdsAssembled(req, n, cs);
    if DistinctMatches(a, results) { ReferencesOfAssembled(a, req, results, n, cs); }
  }

  // ------------------------------------------------------------ end to end

  /** Every finding has a rule or default that neither blocks nor, when strict, leaves it unresolved. */
  ghost predicate PolicyAccepts(policy: Policy, findings: seq<Finding>, strict: bool) {
    forall f :: f in findings ==>
      && ClassifyOne(policy, f).Returned? && ClassifyOne(policy, f).value.mode != Blocking
      && !(strict && LeftUnresolved(policy, f))
  }

  /** What a verified report must satisfy for the gate to pass. */
  ghost predicate Acceptable(a: Adapter, req: Request, accepts: Checks, gateStrict: bool, report: Json)
    requires Verified(a, ContextOf(req), report)
  {
    var results := Results(report);
    && !RefusedEarly(req) && !Unlabelled(req)
    && DistinctMatches(a, results)
    && Admitted(a, req, results)
    && PolicyLets(req, FindingList(a, ContextOf(req), results), gateStrict)
    && PassesChecks(a, req, accepts, report)
  }

  /** The bundle the report leads to is accepted by the remaining checks. */
  ghost predicate PassesChecks(a: Adapter, req: Request, accepts: Checks, report: Json) {
    match Normalize(a, ContextOf(req), report)
    case Raised => false
    case Returned(n) => Checked(req, accepts, n)
  }

  ghost predicate Checked(req: Request, accepts: Checks, n: Normalization) {
    match ClassificationsOf(req, n)
    case Raised => false
    case Returned(cs) => accepts(Assemble(req, n, cs))
  }

  /** The policy, or its absence, lets the findings through classification and gate. */
  ghost predicate PolicyLets(req: Request, findings: seq<Finding>, gateStrict: bool) {
    match req.policy
    case Some(policy) => PolicyAccepts(policy, findings, req.strict || gateStrict)
    case None => findings == []
  }

  lemma PolicyLetsMembers(req: Request, a: seq<Finding>, b: seq<Finding>, gateStrict: bool)
    requires |a| == |b| && forall f :: f in a <==> f in b
    ensures PolicyLets(req, a, gateStrict) <==> PolicyLets(req, b, gateStrict)
  {
  }

  lemma NormalizedRecords(a: Adapter, req: Request, report: Json)
    requires Verified(a, ContextOf(req), report)
    ensures Normalize(a, ContextOf(req), report).Returned?
    ensures var n := Normalize(a, ContextOf(req), report).value;
            && RecordsOf(a, ContextOf(req), Results(report), n) && n.coverage.providerId == PROVIDER
            && n.coverage.status == Complete && n.failures == []
            && |n.findings| == |n.evidence| == |Results(report)|
  {
    CompleteIffVerified(a, ContextOf(req), report);
    SortMembers(EvidenceList(a, ContextOf(req), Results(report)), EvidenceKey);
    SortMembers(FindingList(a, ContextOf(req), Results(report)), FindingKey);
  }

  /** The canonical rule of a result, if resolution finds one. */
  function ResolvedId(a: Adapter, r: Json): Option<string>
    requires GoodResult(r)
  {
    IdOf(a, Get(r, "check_id").value.s, r)
  }

  lemma FindingIdentity(a: Adapter, ctx: Context, results: seq<Json>)
    requires forall r :: r in results ==> GoodResult(r) && KeyOf(a, r).Returned?
    ensures var fs := FindingList(a, ctx, results);
            forall i :: 0 <= i < |fs| ==> fs[i].canonicalRuleId == ResolvedId(a, results[i])
  {
    forall r | r in results ensures KeyOf(a, r).value.ruleId == Get(r, "check_id").value.s {}
  }

  lemma UnresolvedListed(a: Adapter, ctx: Context, results: seq<Json>, r: Json)
    requires (forall r :: r in results ==> GoodResult(r) && KeyOf(a, r).Returned?) && r in results
    ensures exists f :: f in FindingList(a, ctx, results) && f.canonicalRuleId == ResolvedId(a, r)
  {
    var fs := FindingList(a, ctx, results);
    FindingIdentity(a, ctx, results);
    var j :| 0 <= j < |results| && results[j] == r;
    assert fs[j] in fs;
  }

  lemma ListedUnresolved(a: Adapter, ctx: Context, results: seq<Json>, f: Finding)
    requires (forall r :: r in results ==> GoodResult(r) && KeyOf(a, r).Returned?) && f in FindingList(a, ctx, results)
    ensures exists r :: r in results && ResolvedId(a, r) == f.canonicalRuleId
  {
    var fs := FindingList(a, ctx, results);
    FindingIdentity(a, ctx, results);
    var j :| 0 <= j < |fs| && fs[j] == f;
    assert results[j] in results;
  }

  lemma StrictIdentityIff(a: Adapter, ctx: Context, results: seq<Json>, n: Normalization)
    requires RecordsOf(a, ctx, results, n)
    ensures (exists f :: f in n.findings && f.canonicalRuleId.None?)
       <==> exists r :: r in results && ResolvedId(a, r).None?
  {
    SortMembers(FindingList(a, ctx, results), FindingKey);
    if f :| f in n.findings && f.canonicalRuleId.None? { ListedUnresolved(a, ctx, results, f); }
    if r :| r in results && ResolvedId(a, r).None? { UnresolvedListed(a, ctx, results, r); }
  }

  /** The record limits and strict identity hold of the results. */
  ghost predicate Admitted(a: Adapter, req: Request, results: seq<Json>)
    requires forall r :: r in results ==> GoodResult(r)
  {
    && |results| <= req.findingLimit && |results| <= req.evidenceLimit
    && (req.strict ==> forall r :: r in results ==> ResolvedId(a, r).Some?)
  }

  lemma RefusedIff(a: Adapter, req: Request, report: Json)
    requires Verified(a, ContextOf(req), report)
    ensures Normalize(a, ContextOf(req), report).Returned?
    ensures Refused(req, Normalize(a, ContextOf(req), report).value) <==> !Admitted(a, req, Results(report))
  {
    NormalizedRecords(a, req, report);
    StrictIdentityIff(a, ContextOf(req), Results(report), Normalize(a, ContextOf(req), report).value);
  }

  /** The gate's view of an assembled bundle with complete coverage and no failures. */
  lemma GateOfAssembled(req: Request, n: Normalization, cs: seq<Classification>, gateStrict: bool)
    requires n.coverage.providerId == PROVIDER && n.coverage.status == Complete && n.failures == []
    requires ClassifiedFor(req, n, cs)
    ensures Evaluate(Assemble(req, n, cs), gateStrict).status == Pass
       <==> match req.policy
            case Some(policy) =>
              && !SomeFindingHas(policy, n.findings, Blocking)
              && !(gateStrict && SomeFindingHas(policy, n.findings, Unresolved))
            case None => n.findings == []
  {
    match req.policy
    case Some(policy) => GateUnderPolicy(req, n, cs, policy, gateStrict);
    case None =>
      var b := Assemble(req, n, cs);
      GateDecision(b, gateStrict);
      SoundAssembled(req, n, cs);
      if n.findings != [] { assert n.findings[0] in b.findings; }
  }

  lemma SoundAssembled(req: Request, n: Normalization, cs: seq<Classification>)
    requires n.coverage.providerId == PROVIDER && n.coverage.status == Complete && n.failures == []
    ensures RequiredSound(Assemble(req, n, cs))
  {
    var b := Assemble(req, n, cs);
    assert b.coverage == [n.coverage] && LastCoverage(b.coverage, PROVIDER) == Some(n.coverage);
  }

  lemma GateUnderPolicy(req: Request, n: Normalization, cs: seq<Classification>, policy: Policy, gateStrict: bool)
    requires n.coverage.providerId == PROVIDER && n.coverage.status == Complete && n.failures == []
    requires ClassifiedFor(req, n, cs) && req.policy == Some(policy)
    ensures Evaluate(Assemble(req, n, cs), gateStrict).status == Pass
       <==> !SomeFindingHas(policy, n.findings, Blocking)
            && !(gateStrict && SomeFindingHas(policy, n.findings, Unresolved))
  {
    var b, sorted := Assemble(req, n, cs), SortBy(n.findings, FindingKey);
    GateDecision(b, gateStrict);
    SoundAssembled(req, n, cs);
    SortMembers(n.findings, FindingKey);
    forall f | f in b.findings ensures exists c :: c in b.classifications && c.findingId == f.findingId {
      ClassifiedCovers(policy, sorted, f);
    }
    ClassifiedModes(policy, sorted, Blocking);
    ClassifiedModes(policy, sorted, Unresolved);
    assert forall mode :: SomeFindingHas(policy, sorted, mode) <==> SomeFindingHas(policy, n.findings, mode);
  }

  /** Classification goes through and the gate passes exactly when the policy accepts the findings. */
  lemma PolicyDecides(req: Request, n: Normalization, policy: Policy, gateStrict: bool)
    requires req.policy == Some(policy)
    ensures ClassificationsOf(req, n).Returned?
            && !SomeFindingHas(policy, n.findings, Blocking)
            && !(gateStrict && SomeFindingHas(policy, n.findings, Unresolved))
       <==> PolicyAccepts(policy, n.findings, req.strict || gateStrict)
  {
    UnresolvedIff(policy, n.findings);
  }

  lemma PolicyLetsIff(req: Request, n: Normalization, gateStrict: bool)
    requires n.coverage.providerId == PROVIDER && n.coverage.status == Complete && n.failures == []
    ensures PolicyLets(req, n.findings, gateStrict)
       <==> ClassificationsOf(req, n).Returned?
            && Evaluate(Assemble(req, n, ClassificationsOf(req, n).value), gateStrict).status == Pass
  {
    if req.policy.Some? { PolicyDecides(req, n, req.policy.value, gateStrict); }
    if ClassificationsOf(req, n).Returned? { GateOfAssembled(req, n, ClassificationsOf(req, n).value, gateStrict); }
  }

  /** From a verified normalisation on, the bundle exists and the gate passes exactly on accepted findings. */
  lemma BundleDecision(a: Adapter, req: Request, accepts: Checks, gateStrict: bool, report: Json, n: Normalization)
    requires SeparatesResults(a, ContextOf(req), Results(report)) && Verified(a, ContextOf(req), report)
    requires Normalize(a, ContextOf(req), report) == Returned(n)
    ensures BundleFrom(req, accepts, n).Returned?
            && Evaluate(BundleFrom(req, accepts, n).value, gateStrict).status == Pass
       <==> && !Unlabelled(req) && DistinctMatches(a, Results(report)) && Admitted(a, req, Results(report))
            && PolicyLets(req, n.findings, gateStrict) && Checked(req, accepts, n)
  {
    NormalizedRecords(a, req, report);
    RefusedIff(a, req, report);
    PolicyLetsIff(req, n, gateStrict);
    if ClassificationsOf(req, n).Returned? {
      AssembledValidIff(a, req, Results(report), n, ClassificationsOf(req, n).value);
    }
  }

  lemma FindingsAlike(a: Adapter, req: Request, gateStrict: bool, report: Json, n: Normalization)
    requires Verified(a, ContextOf(req), report) && Normalize(a, ContextOf(req), report) == Returned(n)
    ensures PolicyLets(req, n.findings, gateStrict)
       <==> PolicyLets(req, FindingList(a, ContextOf(req), Results(report)), gateStrict)
  {
    NormalizedRecords(a, req, report);
    RecordMembers(a, ContextOf(req), Results(report), n);
    PolicyLetsMembers(req, n.findings, FindingList(a, ContextOf(req), Results(report)), gateStrict);
  }

  lemma VerifiedDecision(a: Adapter, w: World, req: Request, accepts: Checks, gateStrict: bool, report: Json)
    requires SeparatesResults(a, ContextOf(req), Results(report))
    requires RanTo(w, ContextOf(req), report) && Verified(a, ContextOf(req), report)
    ensures PassesGate(a, w, req, accepts, gateStrict) <==> Acceptable(a, req, accepts, gateStrict, report)
  {
    RanVerifiedCompletes(a, w, ContextOf(req), report);
    CompleteIffVerified(a, ContextOf(req), report);
    var n := Normalize(a, ContextOf(req), report).value;
    BundleDecision(a, req, accepts, gateStrict, report, n);
    FindingsAlike(a, req, gateStrict, report, n);
  }

  lemma LastOfSingle(c: Coverage, id: string)
    ensures LastCoverage([c], id) == if c.providerId == id then Some(c) else None
  {
    assert [c][..0] == [];
  }

  /** A required provider without complete coverage never passes the gate. */
  lemma IncompleteNeverPasses(req: Request, n: Normalization, cs: seq<Classification>, gateStrict: bool)
    requires req.required && n.coverage.status != Complete
    ensures Evaluate(Assemble(req, n, cs), gateStrict).status != Pass
  {
    var b := Assemble(req, n, cs);
    GateDecision(b, gateStrict);
    assert b.providers[0] in b.providers;
    LastOfSingle(n.coverage, PROVIDER);
  }

  /** Every failed exit of the runner, for whatever provider and reason, leads to a non-passing gate. */
  lemma FailedExitNeverPasses(p: Provider, f: ProviderFailure, req: Request, cs: seq<Classification>, gateStrict: bool)
    requires req.required
    ensures Evaluate(Assemble(req, FailedWith(p, f), cs), gateStrict).status != Pass
  {
    IncompleteNeverPasses(req, FailedWith(p, f), cs, gateStrict);
  }

  /** The pipeline writes a bundle, and the gate passes it. */
  ghost predicate PassesGate(a: Adapter, w: World, req: Request, accepts: Checks, gateStrict: bool) {
    var b := BundleOf(a, w, req, accepts);
    b.Returned? && Evaluate(b.value, gateStrict).status == Pass
  }

  lemma PassingIsComplete(a: Adapter, w: World, req: Request, accepts: Checks, gateStrict: bool)
    requires req.required && PassesGate(a, w, req, accepts, gateStrict)
    ensures Completes(a, w, ContextOf(req))
  {
    var n := ExecuteAndNormalize(SemgrepProvider(a, w), ContextOf(req)).value;
    if n.coverage.status != Complete {
      IncompleteNeverPasses(req, n, ClassificationsOf(req, n).value, gateStrict);
    }
  }

  /**
   End to end: a required Semgrep execution passes the gate exactly when Semgrep ran to a
   verified report (well formed, identities resolved, something scanned, warnings only), the
   request is labelled and supported, and the results are distinct, within limits, accepted
   by the policy, and lead to a bundle the remaining checks accept.
   */
  lemma PassesIff(a: Adapter, w: World, req: Request, accepts: Checks, gateStrict: bool)
    requires req.required
    requires forall report | RanTo(w, ContextOf(req), report) :: SeparatesResults(a, ContextOf(req), Results(report))
    ensures PassesGate(a, w, req, accepts, gateStrict)
       <==> exists report :: RanTo(w, ContextOf(req), report) && Verified(a, ContextOf(req), report)
                             && Acceptable(a, req, accepts, gateStrict, report)
  {
    CompleteIffRan(a, w, ContextOf(req));
    if PassesGate(a, w, req, accepts, gateStrict) {
      PassingIsComplete(a, w, req, accepts, gateStrict);
      var report :| RanTo(w, ContextOf(req), report) && Verified(a, ContextOf(req), report);
      VerifiedDecision(a, w, req, accepts, gateStrict, report);
    }
    if report :| RanTo(w, ContextOf(req), report) && Verified(a, ContextOf(req), report)
                 && Acceptable(a, req, accepts, gateStrict, report) {
      VerifiedDecision(a, w, req, accepts, gateStrict, report);
    }
  }

  /** A blank label is refused whatever was scanned, even when the report is empty. */
  lemma BlankLabelsNeverPass(a: Adapter, w: World, req: Request, accepts: Checks, gateStrict: bool)
    requires Blank(req.snapshotId) || Blank(req.adapterVersion) || Blank(req.sdkVersion)
    ensures !PassesGate(a, w, req, accepts, gateStrict)
  {
  }
}
