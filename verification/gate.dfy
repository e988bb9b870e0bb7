/** The precedence-ordered gate decision of `l9_ci/gates/evaluator.py`. */
module Gate {
  import opened Wrappers
  import opened Contracts
  import opened Validator

  datatype GateStatus = Pass | Fail | Incomplete | Invalid

  datatype Reason =
    | MissingClassifications | RequiredFailed | RequiredNonFatal | CoverageIncomplete | BlockingExist | UnresolvedStrict

  /** Id tuples are sorted and duplicate-free, so they are sets here. */
  datatype GateResult = GateResult(
    status: GateStatus, blocking: set<string>, unresolved: set<string>, fatal: set<string>, incomplete: set<string>,
    reasons: set<Reason>)

  /** The record a dict built over the list ends up with for an id. */
  function LastCoverage(coverage: seq<Coverage>, id: string): Option<Coverage> {
    if coverage == [] then None
    else if coverage[|coverage| - 1].providerId == id then Some(coverage[|coverage| - 1])
    else LastCoverage(coverage[..|coverage| - 1], id)
  }

  function FatalIds(b: Bundle): set<string> { set f | f in b.failures && f.required && f.fatal :: f.providerId }

  function NonFatalIds(b: Bundle): set<string> {
    (set f | f in b.failures && f.required && !f.fatal :: f.providerId) - FatalIds(b)
  }

  function RequiredIds(b: Bundle): set<string> { set p | p in b.providers && p.required :: p.providerId }

  predicate CoverageMissing(b: Bundle, id: string) {
    match LastCoverage(b.coverage, id)
    case None => true
    case Some(c) => c.status in {Failed, Partial, Skipped, Unsupported}
  }

  function IncompleteIds(b: Bundle): set<string> { set id | id in RequiredIds(b) && CoverageMissing(b, id) }

  function ModeIds(b: Bundle, mode: Mode): set<string> {
    set c | c in b.classifications && c.mode == mode :: c.findingId
  }

  function Unclassified(b: Bundle): set<string> {
    Ids(b.findings, FindingId) - Ids(b.classifications, ClassificationId)
  }

  function Evaluate(b: Bundle, strict: bool): GateResult {
    if Unclassified(b) != {} then GateResult(Invalid, {}, Unclassified(b), {}, {}, {MissingClassifications})
    else if FatalIds(b) != {} || IncompleteIds(b) + NonFatalIds(b) != {} then
      GateResult(Incomplete, {}, {}, FatalIds(b), IncompleteIds(b) + NonFatalIds(b),
                 (if FatalIds(b) != {} then {RequiredFailed} else {})
                 + (if NonFatalIds(b) != {} then {RequiredNonFatal} else {})
                 + (if IncompleteIds(b) != {} then {CoverageIncomplete} else {}))
    else if ModeIds(b, Blocking) != {}
      then GateResult(Fail, ModeIds(b, Blocking), ModeIds(b, Unresolved), {}, {}, {BlockingExist})
    else if strict && ModeIds(b, Unresolved) != {}
      then GateResult(Incomplete, {}, ModeIds(b, Unresolved), {}, {}, {UnresolvedStrict})
    else GateResult(Pass, {}, ModeIds(b, Unresolved), {}, {}, {})
  }

  /** `coverage_by_provider`: later records replace earlier ones. */
  method IndexCoverage(coverage: seq<Coverage>) returns (byProvider: map<string, Coverage>)
    ensures forall id :: LastCoverage(coverage, id) == if id in byProvider then Some(byProvider[id]) else None
  {
    byProvider := map[];
    for i := 0 to |coverage|
      invariant forall id :: LastCoverage(coverage[..i], id) == if id in byProvider then Some(byProvider[id]) else None
    {
      assert coverage[..i + 1][..i] == coverage[..i];
      byProvider := byProvider[coverage[i].providerId := coverage[i]];
    }
    assert coverage[..|coverage|] == coverage;
  }

  method FindIncomplete(b: Bundle, required: set<string>) returns (incomplete: set<string>)
    requires required == RequiredIds(b)
    ensures incomplete == IncompleteIds(b)
  {
    var byProvider := IndexCoverage(b.coverage);
    incomplete := {};
    var todo := required;
    while todo != {}
      invariant todo <= required
      invariant incomplete == set id | id in required - todo && CoverageMissing(b, id)
      decreases todo
    {
      var id :| id in todo;
      todo := todo - {id};
      if id !in byProvider {
        incomplete := incomplete + {id};
      } else if byProvider[id].status in {Failed, Partial, Skipped, Unsupported} {
        incomplete := incomplete + {id};
      }
    }
  }

  method EvaluateGate(b: Bundle, strict: bool) returns (r: GateResult)
    ensures r == Evaluate(b, strict)
  {
    var missing := Ids(b.findings, FindingId) - Ids(b.classifications, ClassificationId);
    if missing != {} { return GateResult(Invalid, {}, missing, {}, {}, {MissingClassifications}); }
    var fatal, nonFatal := FatalIds(b), NonFatalIds(b);
    var coverageIncomplete := FindIncomplete(b, RequiredIds(b));
    var incomplete := coverageIncomplete + nonFatal;
    var reasons := {};
    if fatal != {} { reasons := reasons + {RequiredFailed}; }
    if nonFatal != {} { reasons := reasons + {RequiredNonFatal}; }
    if coverageIncomplete != {} { reasons := reasons + {CoverageIncomplete}; }
    if fatal != {} || incomplete != {} { return GateResult(Incomplete, {}, {}, fatal, incomplete, reasons); }
    var blocking, unresolved := ModeIds(b, Blocking), ModeIds(b, Unresolved);
    if blocking != {} { return GateResult(Fail, blocking, unresolved, {}, {}, {BlockingExist}); }
    if strict && unresolved != {} { return GateResult(Incomplete, {}, unresolved, {}, {}, {UnresolvedStrict}); }
    r := GateResult(Pass, {}, unresolved, {}, {}, {});
  }

  // ------------------------------------------------------------- properties

  ghost predicate AllClassified(b: Bundle) {
    forall f :: f in b.findings ==> exists c :: c in b.classifications && c.findingId == f.findingId
  }

  /** No required provider failed in any way, and each one's coverage is complete. */
  ghost predicate RequiredSound(b: Bundle) {
    && (forall f :: f in b.failures ==> !f.required)
    && (forall p :: p in b.providers && p.required ==>
          LastCoverage(b.coverage, p.providerId).Some?
            && LastCoverage(b.coverage, p.providerId).value.status == Complete)
  }

  lemma UnclassifiedIff(b: Bundle)
    ensures Unclassified(b) == {} <==> AllClassified(b)
  {
    RepeatsIff(b.findings, FindingId);
    RepeatsIff(b.classifications, ClassificationId);
    forall f | f in b.findings
      ensures f.findingId in Unclassified(b) <==> !exists c :: c in b.classifications && c.findingId == f.findingId
    {
      assert FindingId(f) in Ids(b.findings, FindingId);
      forall c | c in b.classifications && c.findingId == f.findingId ensures f.findingId !in Unclassified(b) {
        assert ClassificationId(c) == f.findingId;
      }
    }
    forall id | id in Unclassified(b) ensures exists f :: f in b.findings && f.findingId == id {
      var f :| f in b.findings && FindingId(f) == id;
    }
  }

  lemma SoundIff(b: Bundle)
    ensures FatalIds(b) == {} && IncompleteIds(b) + NonFatalIds(b) == {} <==> RequiredSound(b)
  {
    forall f | f in b.failures && f.required ensures f.providerId in FatalIds(b) + NonFatalIds(b) {}
    forall id | id in FatalIds(b) + NonFatalIds(b) ensures exists f :: f in b.failures && f.required {}
    assert FatalIds(b) + NonFatalIds(b) == {} <==> forall f :: f in b.failures ==> !f.required;
    forall p | p in b.providers && p.required
      ensures p.providerId in IncompleteIds(b) <==> CoverageMissing(b, p.providerId)
    {
      assert p.providerId in RequiredIds(b);
    }
    forall id | id in IncompleteIds(b)
      ensures exists p :: p in b.providers && p.required && p.providerId == id && CoverageMissing(b, id)
    {}
  }

  /**
   The four outcomes, exactly: an unclassified finding makes the bundle invalid; then an
   unsound required provider makes it incomplete; then a blocking finding fails it; then,
   strictly, an unresolved one leaves it incomplete; otherwise it passes.
   */
  lemma GateDecision(b: Bundle, strict: bool)
    ensures var status := Evaluate(b, strict).status;
            var blocked := exists c :: c in b.classifications && c.mode == Blocking;
            var open := exists c :: c in b.classifications && c.mode == Unresolved;
            && (status == Invalid <==> !AllClassified(b))
            && (status == Fail <==> AllClassified(b) && RequiredSound(b) && blocked)
            && (status == Incomplete <==> AllClassified(b) && (!RequiredSound(b) || (!blocked && strict && open)))
            && (status == Pass <==> AllClassified(b) && RequiredSound(b) && !blocked && !(strict && open))
  {
    UnclassifiedIff(b);
    SoundIff(b);
    ModeIff(b, Blocking);
    ModeIff(b, Unresolved);
  }

  lemma ModeIff(b: Bundle, mode: Mode)
    ensures ModeIds(b, mode) != {} <==> exists c :: c in b.classifications && c.mode == mode
  {
    if c :| c in b.classifications && c.mode == mode { assert c.findingId in ModeIds(b, mode); }
  }

  /** The ids and reasons of a result explain its status and nothing else. */
  lemma ResultExplains(b: Bundle, strict: bool)
    ensures var r := Evaluate(b, strict);
            && (r.reasons == {} <==> r.status == Pass)
            && (r.blocking != {} <==> r.status == Fail)
            && (r.fatal + r.incomplete != {} ==> r.status == Incomplete)
            && (r.status == Incomplete ==> r.fatal + r.incomplete != {} || (strict && r.unresolved != {}))
            && (r.status == Fail ==> r.blocking == ModeIds(b, Blocking))
            && (r.status == Invalid <==> r.reasons == {MissingClassifications})
  {
    var r := Evaluate(b, strict);
    assert MissingClassifications in {MissingClassifications} && BlockingExist in {BlockingExist};
    assert r.status == Incomplete && RequiredFailed !in r.reasons && RequiredNonFatal !in r.reasons ==>
      CoverageIncomplete in r.reasons || UnresolvedStrict in r.reasons;
  }
}
