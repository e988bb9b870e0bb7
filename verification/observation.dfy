/** The content-addressed observation and its count guards (`l9_ci/integration/observation.py`). */
module Observation {
  import opened Order
  import opened Json
  import opened Canonical
  import opened Wrappers
  import opened Contracts
  import opened BundleIdentity
  import opened Serializer

  const ID_KEY := "observationId"

  predicate NotId(f: Field) { f.key != ID_KEY }

  /** `{key: value for key, value in payload.items() if key != "observationId"}`. */
  function WithoutId(payload: seq<Field>): seq<Field> { Filter(payload, NotId) }

  /** `_observation_id`. */
  function ObservationId(sha: Hash, fields: seq<Field>): string { "sha256:" + HashText(sha, Encode(Obj(fields))) }

  /** The declared id is the content address of the rest of the payload; a payload without one raises. */
  function IntegrityHolds(sha: Hash, payload: seq<Field>): Outcome<bool> {
    match Lookup(payload, ID_KEY)
    case None => Raised
    case Some(declared) => Returned(declared == Str(ObservationId(sha, WithoutId(payload))))
  }

  /** `payload["observationId"] = _observation_id(payload)`. */
  function Seal(sha: Hash, fields: seq<Field>): seq<Field> {
    fields + [Field(ID_KEY, Str(ObservationId(sha, fields)))]
  }

  lemma {:induction false} LookupAppended(fields: seq<Field>, f: Field)
    requires forall g :: g in fields ==> g.key != f.key
    ensures Lookup(fields + [f], f.key) == Some(f.value)
  {
    if fields != [] {
      assert (fields + [f])[1..] == fields[1..] + [f];
      LookupAppended(fields[1..], f);
    }
  }

  /** A freshly built observation passes its own content-address check. */
  lemma SealedHolds(sha: Hash, fields: seq<Field>)
    requires forall f :: f in fields ==> NotId(f)
    ensures IntegrityHolds(sha, Seal(sha, fields)) == Returned(true)
  {
    var id := Field(ID_KEY, Str(ObservationId(sha, fields)));
    LookupAppended(fields, id);
    FilterAll(fields, NotId);
    FilterSingleton(id, NotId);
    FilterAppend(fields, [id], NotId);
    assert WithoutId(Seal(sha, fields)) == fields;
  }

  /**
   A payload that carries the id of an observation is accepted exactly when the rest of it
   is that observation up to the order of object keys: every other change is rejected.
   */
  lemma TamperingDetected(sha: Hash, fields: seq<Field>, other: seq<Field>)
    requires WellFormed(Obj(fields)) && WellFormed(Obj(WithoutId(other)))
    requires NoCollision(sha, Encode(Obj(fields)), Encode(Obj(WithoutId(other))))
    requires Lookup(other, ID_KEY) == Some(Str(ObservationId(sha, fields)))
    ensures IntegrityHolds(sha, other) == Returned(Same(Obj(fields), Obj(WithoutId(other)), false))
  {
    var (x, y) := (HashText(sha, Encode(Obj(fields))), HashText(sha, Encode(Obj(WithoutId(other)))));
    HashDecidesText(sha, Encode(Obj(fields)), Encode(Obj(WithoutId(other))));
    EncodeDecidesKeyOrder(Obj(fields), Obj(WithoutId(other)));
    if "sha256:" + x == "sha256:" + y { Text.PrefixCancels("sha256:", x, y); }
  }

  // ------------------------------------------------------------ count guards

  datatype Counts = Counts(errors: int, warnings: int, informational: int)

  /** The summary guards of `build_observation` for the given number of findings. */
  predicate CountsAccepted(findingCount: int, c: Counts, findings: nat) {
    && findingCount >= 0 && c.errors >= 0 && c.warnings >= 0 && c.informational >= 0
    && findingCount == findings
    && findingCount == c.errors + c.warnings + c.informational
  }

  predicate Projectable(f: Finding) { f.severity.Some? && f.severity.value != UnknownSeverity }

  predicate IsError(f: Finding) { f.severity == Some(Critical) || f.severity == Some(High) }
  predicate IsWarning(f: Finding) { f.severity == Some(Medium) || f.severity == Some(Low) }
  predicate IsInformational(f: Finding) { f.severity == Some(Informational) }

  /** The findings of each category. */
  function Tally(findings: seq<Finding>): Counts {
    Counts(|Filter(findings, IsError)|, |Filter(findings, IsWarning)|, |Filter(findings, IsInformational)|)
  }

  lemma TallyStep(findings: seq<Finding>, i: nat)
    requires i < |findings|
    ensures Tally(findings[..i + 1]).errors
         == Tally(findings[..i]).errors + (if IsError(findings[i]) then 1 else 0)
    ensures Tally(findings[..i + 1]).warnings
         == Tally(findings[..i]).warnings + (if IsWarning(findings[i]) then 1 else 0)
    ensures Tally(findings[..i + 1]).informational
         == Tally(findings[..i]).informational + (if IsInformational(findings[i]) then 1 else 0)
  {
    FilterStep(findings, i, IsError);
    FilterStep(findings, i, IsWarning);
    FilterStep(findings, i, IsInformational);
  }

  lemma TallyPermutation(a: seq<Finding>, b: seq<Finding>)
    requires multiset(a) == multiset(b)
    ensures Tally(a) == Tally(b)
  {
    FilterPermutation(a, b, IsError);
    FilterPermutation(a, b, IsWarning);
    FilterPermutation(a, b, IsInformational);
  }

  /** The severity loop over the sorted findings. */
  method CountSeverities(sorted: seq<Finding>, failures: nat) returns (r: Outcome<Counts>)
    ensures r.Raised? <==> exists f :: f in sorted && !Projectable(f)
    ensures r.Returned? ==> r.value == Tally(sorted).(errors := failures + Tally(sorted).errors)
  {
    var errors, warnings, informational := failures, 0, 0;
    for i := 0 to |sorted|
      invariant forall f :: f in sorted[..i] ==> Projectable(f)
      invariant Counts(errors - failures, warnings, informational) == Tally(sorted[..i])
    {
      TallyStep(sorted, i);
      assert sorted[..i + 1] == sorted[..i] + [sorted[i]];
      var f := sorted[i];
      assert f in sorted;
      if f.severity.None? || f.severity.value == UnknownSeverity { return Raised; }
      if f.severity.value == Critical || f.severity.value == High {
        errors := errors + 1;
      } else if f.severity.value == Medium || f.severity.value == Low {
        warnings := warnings + 1;
      } else if f.severity.value == Informational {
        informational := informational + 1;
      }
    }
    assert sorted[..|sorted|] == sorted;
    r := Returned(Counts(errors, warnings, informational));
  }

  /** The counts of a projected bundle: errors start from the provider failures. */
  function ProjectedCounts(b: Bundle): Counts {
    Tally(b.findings).(errors := |b.failures| + Tally(b.findings).errors)
  }

  method ProjectCounts(b: Bundle) returns (r: Outcome<Counts>)
    ensures r.Raised? <==> b.snapshot.revision.GetOr("") == "" || exists f :: f in b.findings && !Projectable(f)
    ensures r.Returned? ==> r.value == ProjectedCounts(b)
  {
    if b.snapshot.revision.GetOr("") == "" { return Raised; }
    var sorted := SortBy(b.findings, FindingKey);
    SortMultiset(b.findings, FindingKey);
    SortMembers(b.findings, FindingKey);
    TallyPermutation(b.findings, sorted);
    r := CountSeverities(sorted, |b.failures|);
  }

  lemma {:induction false} SeveritiesPartition(findings: seq<Finding>)
    requires forall f :: f in findings ==> Projectable(f)
    ensures var c := Tally(findings); c.errors + c.warnings + c.informational == |findings|
  {
    if findings != [] {
      SeveritiesPartition(findings[1..]);
      var f := findings[0];
      assert Projectable(f);
      assert f.severity.value == Critical || f.severity.value == High || f.severity.value == Medium
          || f.severity.value == Low || f.severity.value == Informational;
    }
  }

  /**
   The counts of a projected bundle pass the builder's sum guard exactly when the bundle
   carries no provider failure, so the "error" status the projection chooses for bundles
   with failures is never part of an accepted observation.
   */
  lemma ProjectionAcceptedIff(b: Bundle)
    requires forall f :: f in b.findings ==> Projectable(f)
    ensures CountsAccepted(|b.findings|, ProjectedCounts(b), |b.findings|) <==> b.failures == []
  {
    SeveritiesPartition(b.findings);
  }

  /** A concrete rejected projection: no finding and one provider failure give one error for zero findings. */
  lemma FailureBlocksProjection(b: Bundle, f: ProviderFailure)
    requires b.findings == [] && b.failures == [f]
    ensures ProjectedCounts(b) == Counts(1, 0, 0) && !CountsAccepted(|b.findings|, ProjectedCounts(b), |b.findings|)
  {
    ProjectionAcceptedIff(b);
  }
}
