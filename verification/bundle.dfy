/**
 The content identity of a finding bundle (`canonical_digest`) and its canonical bytes
 (`bundle_bytes`).
 */
module BundleIdentity {
  import opened Order
  import opened Json
  import opened Canonical
  import opened Contracts
  import Utf8

  /** A digest of bytes, rendered as text. */
  type Hash = Utf8.Bytes -> string

  /** `sha256(text.encode("utf-8")).hexdigest()`. */
  function HashText(sha: Hash, text: string): string { sha(Utf8.Encode(text)) }

  /** The digest function maps the encodings of these two texts together only when they are equal. */
  ghost predicate NoCollision(sha: Hash, a: string, b: string) {
    HashText(sha, a) == HashText(sha, b) ==> Utf8.Encode(a) == Utf8.Encode(b)
  }

  /** UTF-8 loses nothing, so the digest then decides the text. */
  lemma HashDecidesText(sha: Hash, a: string, b: string)
    requires NoCollision(sha, a, b)
    ensures HashText(sha, a) == HashText(sha, b) <==> a == b
  {
    if HashText(sha, a) == HashText(sha, b) { Utf8.EncodeInjective(a, b); }
  }

  /** `canonical_digest()`: the timestamp is popped before hashing. */
  function CanonicalDigest(sha: Hash, b: Bundle): string { HashText(sha, CanonicalText(Obj(b.Content()))) }

  /** Everything but `generated_at`, with every list taken without order at every depth. */
  ghost predicate SameContent(a: Bundle, b: Bundle) {
    && a.schema == b.schema && a.schemaVersion == b.schemaVersion && a.sdkVersion == b.sdkVersion
    && Same(a.snapshot.ToDict(), b.snapshot.ToDict(), true)
    && Same(Dicts(a.providers, ProviderDict), Dicts(b.providers, ProviderDict), true)
    && Same(Dicts(a.evidence, EvidenceDict), Dicts(b.evidence, EvidenceDict), true)
    && Same(Dicts(a.findings, FindingDict), Dicts(b.findings, FindingDict), true)
    && Same(Dicts(a.classifications, ClassificationDict), Dicts(b.classifications, ClassificationDict), true)
    && Same(Dicts(a.failures, FailureDict), Dicts(b.failures, FailureDict), true)
    && Same(Dicts(a.coverage, CoverageDict), Dicts(b.coverage, CoverageDict), true)
    && Same(Arr(Strings(a.limitations)), Arr(Strings(b.limitations)), true)
  }

  /** Dicts with the same keys in the same places agree exactly when their values do. */
  lemma {:induction false} SameFieldsAligned(fs: seq<Field>, gs: seq<Field>, reorder: bool)
    requires |fs| == |gs| && DistinctKeys(fs)
    requires forall i :: 0 <= i < |fs| ==> fs[i].key == gs[i].key
    ensures SameFields(fs, gs, reorder) <==> forall i :: 0 <= i < |fs| ==> Same(fs[i].value, gs[i].value, reorder)
  {
    if fs != [] {
      SameFieldsAligned(fs[1..], gs[1..], reorder);
      assert Without(gs, 0) == gs[1..];
      assert SameFields(fs, gs, reorder) <==> FieldPairs(fs, gs, 0, reorder) by {
        forall j | 0 <= j < |gs| && FieldPairs(fs, gs, j, reorder) ensures j == 0 {}
      }
      assert forall i :: 0 < i < |fs| ==> fs[i] == fs[1..][i - 1] && gs[i] == gs[1..][i - 1];
    }
  }

  lemma ContentAligned(a: Bundle, b: Bundle)
    ensures |a.Content()| == 12 == |b.Content()|
    ensures forall i :: 0 <= i < 12 ==> a.Content()[i].key == b.Content()[i].key
  {}

  lemma SameLength(a: Json, b: Json)
    requires a.Arr? && b.Arr? && Same(a, b, true)
    ensures |a.items| == |b.items|
  {}

  lemma SameSummary(a: Bundle, b: Bundle)
    requires SameContent(a, b)
    ensures a.Summary() == b.Summary()
  {
    SameLength(Dicts(a.providers, ProviderDict), Dicts(b.providers, ProviderDict));
    SameLength(Dicts(a.evidence, EvidenceDict), Dicts(b.evidence, EvidenceDict));
    SameLength(Dicts(a.findings, FindingDict), Dicts(b.findings, FindingDict));
    SameLength(Dicts(a.classifications, ClassificationDict), Dicts(b.classifications, ClassificationDict));
    SameLength(Dicts(a.failures, FailureDict), Dicts(b.failures, FailureDict));
    SameLength(Dicts(a.coverage, CoverageDict), Dicts(b.coverage, CoverageDict));
  }

  lemma {:induction false} SameReflexive(j: Json, reorder: bool)
    requires WellFormed(j)
    ensures Same(j, j, reorder)
  {
    NormalDecidesSame(j, j, reorder);
  }

  /** All twelve values agree. */
  ghost predicate SameValues(f: seq<Json>, g: seq<Json>)
    requires |f| == |g| == 12
  {
    SameEarly(f, g) && SameLate(f, g)
  }

  ghost predicate SameEarly(f: seq<Json>, g: seq<Json>)
    requires |f| == |g| == 12
  {
    && Same(f[0], g[0], true) && Same(f[1], g[1], true) && Same(f[2], g[2], true) && Same(f[3], g[3], true)
    && Same(f[4], g[4], true) && Same(f[5], g[5], true)
  }

  ghost predicate SameLate(f: seq<Json>, g: seq<Json>)
    requires |f| == |g| == 12
  {
    && Same(f[6], g[6], true) && Same(f[7], g[7], true) && Same(f[8], g[8], true) && Same(f[9], g[9], true)
    && Same(f[10], g[10], true) && Same(f[11], g[11], true)
  }

  /** The values of `Content()`, in order. */
  function Values(b: Bundle): seq<Json> {
    [Str(b.schema), Str(b.schemaVersion), Str(b.sdkVersion), b.snapshot.ToDict(), Dicts(b.providers, ProviderDict),
     Dicts(b.evidence, EvidenceDict), Dicts(b.findings, FindingDict), Dicts(b.classifications, ClassificationDict),
     Dicts(b.failures, FailureDict), Dicts(b.coverage, CoverageDict), Arr(Strings(b.limitations)), b.Summary()]
  }

  lemma ValuesOfContent(b: Bundle)
    ensures |b.Content()| == 12 == |Values(b)|
    ensures forall i :: 0 <= i < 12 ==> b.Content()[i].value == Values(b)[i]
  {}

  lemma SameStr(x: string, y: string)
    ensures Same(Str(x), Str(y), true) <==> x == y
  {}

  lemma EarlyValues(a: Bundle, b: Bundle)
    ensures SameEarly(Values(a), Values(b))
       <==> && a.schema == b.schema && a.schemaVersion == b.schemaVersion && a.sdkVersion == b.sdkVersion
            && Same(a.snapshot.ToDict(), b.snapshot.ToDict(), true)
            && Same(Dicts(a.providers, ProviderDict), Dicts(b.providers, ProviderDict), true)
            && Same(Dicts(a.evidence, EvidenceDict), Dicts(b.evidence, EvidenceDict), true)
  {
    SameStr(a.schema, b.schema);
    SameStr(a.schemaVersion, b.schemaVersion);
    SameStr(a.sdkVersion, b.sdkVersion);
  }

  lemma LateValues(a: Bundle, b: Bundle)
    ensures SameLate(Values(a), Values(b))
       <==> && Same(Dicts(a.findings, FindingDict), Dicts(b.findings, FindingDict), true)
            && Same(Dicts(a.classifications, ClassificationDict), Dicts(b.classifications, ClassificationDict), true)
            && Same(Dicts(a.failures, FailureDict), Dicts(b.failures, FailureDict), true)
            && Same(Dicts(a.coverage, CoverageDict), Dicts(b.coverage, CoverageDict), true)
            && Same(Arr(Strings(a.limitations)), Arr(Strings(b.limitations)), true)
            && Same(a.Summary(), b.Summary(), true)
  {}

  lemma ContentValues(a: Bundle, b: Bundle)
    requires WellFormed(a.Summary())
    ensures SameValues(Values(a), Values(b)) <==> SameContent(a, b)
  {
    EarlyValues(a, b);
    LateValues(a, b);
    if SameContent(a, b) {
      SameSummary(a, b);
      SameReflexive(a.Summary(), true);
    }
  }

  lemma AlignedValues(f: seq<Field>, g: seq<Field>, vf: seq<Json>, vg: seq<Json>)
    requires |f| == |g| == |vf| == |vg| == 12
    requires forall i :: 0 <= i < 12 ==> f[i].value == vf[i] && g[i].value == vg[i]
    ensures (forall i :: 0 <= i < 12 ==> Same(f[i].value, g[i].value, true)) <==> SameValues(vf, vg)
  {
    if forall i :: 0 <= i < 12 ==> Same(f[i].value, g[i].value, true) {
      forall i | 0 <= i < 12 ensures Same(vf[i], vg[i], true) { assert Same(f[i].value, g[i].value, true); }
    }
    if SameValues(vf, vg) {
      forall i | 0 <= i < 12 ensures Same(f[i].value, g[i].value, true) { assert Same(vf[i], vg[i], true); }
    }
  }

  lemma FieldsDecideContent(a: Bundle, b: Bundle)
    requires WellFormed(Obj(a.Content()))
    ensures SameFields(a.Content(), b.Content(), true) <==> SameContent(a, b)
  {
    ContentAligned(a, b);
    ValuesOfContent(a);
    ValuesOfContent(b);
    SameFieldsAligned(a.Content(), b.Content(), true);
    AlignedValues(a.Content(), b.Content(), Values(a), Values(b));
    assert WellFormed(a.Content()[11].value);
    assert a.Content()[11].value == Values(a)[11] == a.Summary();
    ContentValues(a, b);
  }

  /** Two bundles share a digest exactly when they differ only in timestamp and list order. */
  lemma DigestDecidesContent(sha: Hash, a: Bundle, b: Bundle)
    requires WellFormed(Obj(a.Content())) && WellFormed(Obj(b.Content()))
    requires NoCollision(sha, CanonicalText(Obj(a.Content())), CanonicalText(Obj(b.Content())))
    ensures CanonicalDigest(sha, a) == CanonicalDigest(sha, b) <==> SameContent(a, b)
  {
    HashDecidesText(sha, CanonicalText(Obj(a.Content())), CanonicalText(Obj(b.Content())));
    CanonicalTextDecidesReordering(Obj(a.Content()), Obj(b.Content()));
    FieldsDecideContent(a, b);
  }
}
