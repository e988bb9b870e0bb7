/** Canonical artifact bytes of `l9_ci/artifacts/serializer.py`. */
module Serializer {
  import opened Order
  import opened Json
  import opened Canonical
  import opened Contracts
  import opened Validator

  /** `canonicalize`: dicts rebuilt in key order at every depth, lists kept in theirs. */
  function SortedKeys(j: Json): Json { Normal(j, false) }

  /** `canonical_json_bytes`, as text. */
  function CanonicalJson(j: Json): string { Encode(SortedKeys(j)) + "\n" }

  lemma {:induction false} NormalIdempotent(j: Json)
    ensures Normal(Normal(j, false), false) == Normal(j, false)
    decreases j, 1
  {
    match j
    case Arr(items) => NormalItemsIdempotent(items);
    case Obj(fields) =>
      var nf := NormalFields(fields, false);
      NormalFieldsIdempotent(fields);
      NormalFieldsSorted(nf, fields);
      SortOrdered(nf, FieldKey);
      SortOfOrdered(SortBy(nf, FieldKey), FieldKey);
    case _ =>
  }

  lemma {:induction false} NormalItemsIdempotent(items: seq<Json>)
    ensures NormalItems(NormalItems(items, false), false) == NormalItems(items, false)
    decreases items, 0
  {
    if items != [] {
      NormalIdempotent(items[0]);
      NormalItemsIdempotent(items[1..]);
      assert NormalItems(items, false)[1..] == NormalItems(items[1..], false);
    }
  }

  /** The value of every normalised field is a fixed point. */
  lemma {:induction false} NormalFieldsIdempotent(fields: seq<Field>)
    ensures forall f :: f in NormalFields(fields, false) ==> Normal(f.value, false) == f.value
    decreases fields, 0
  {
    if fields != [] {
      NormalIdempotent(fields[0].value);
      NormalFieldsIdempotent(fields[1..]);
    }
  }

  lemma NormalFieldsSorted(nf: seq<Field>, fields: seq<Field>)
    requires forall f :: f in nf ==> Normal(f.value, false) == f.value
    ensures NormalFields(SortBy(nf, FieldKey), false) == SortBy(nf, FieldKey)
  {
    var s := SortBy(nf, FieldKey);
    SortMembers(nf, FieldKey);
    forall i | 0 <= i < |s| ensures NormalFields(s, false)[i] == s[i] {
      NormalFieldsAt(s, false, i);
      assert s[i] in s;
    }
  }

  /** Canonical bytes decide values up to the order of object keys. */
  lemma CanonicalJsonDecidesKeyOrder(a: Json, b: Json)
    requires WellFormed(a) && WellFormed(b)
    ensures CanonicalJson(a) == CanonicalJson(b) <==> Same(a, b, false)
  {
    NormalIdempotent(a);
    NormalIdempotent(b);
    EncodeDecidesKeyOrder(a, b);
    var (x, y) := (Encode(SortedKeys(a)), Encode(SortedKeys(b)));
    if CanonicalJson(a) == CanonicalJson(b) { assert x == (x + "\n")[..|x|] && y == (y + "\n")[..|y|]; }
  }

  // ----------------------------------------------------------- bundle bytes

  function ProviderKey(p: ProviderRun): Key { [p.providerId, p.adapterVersion, p.mode] }
  function EvidenceKey(e: Evidence): Key { [e.evidenceId] }
  function FindingKey(f: Finding): Key { [f.findingId] }
  function ClassificationKey(c: Classification): Key { [c.findingId] }
  function FailureKey(f: ProviderFailure): Key { [f.providerId, f.failureType.Text(), f.message] }
  function CoverageKey(c: Coverage): Key { [c.providerId] }

  /** The bundle with every record list sorted by its identifying fields. */
  function SortRecords(b: Bundle): Bundle {
    b.(providers := SortBy(b.providers, ProviderKey), evidence := SortBy(b.evidence, EvidenceKey),
       findings := SortBy(b.findings, FindingKey), classifications := SortBy(b.classifications, ClassificationKey),
       failures := SortBy(b.failures, FailureKey), coverage := SortBy(b.coverage, CoverageKey),
       limitations := Sorted(b.limitations))
  }

  function BundleText(b: Bundle): string { CanonicalJson(SortRecords(b).ToDict()) }

  /** `bundle_bytes`: reassigns the record lists one by one, then encodes. */
  method BundleBytes(b: Bundle) returns (text: string)
    ensures text == BundleText(b)
  {
    var payload := b;
    payload := payload.(providers := SortBy(payload.providers, ProviderKey));
    payload := payload.(evidence := SortBy(payload.evidence, EvidenceKey));
    payload := payload.(findings := SortBy(payload.findings, FindingKey));
    payload := payload.(classifications := SortBy(payload.classifications, ClassificationKey));
    payload := payload.(failures := SortBy(payload.failures, FailureKey));
    payload := payload.(coverage := SortBy(payload.coverage, CoverageKey));
    payload := payload.(limitations := Sorted(payload.limitations));
    text := CanonicalJson(payload.ToDict());
  }

  /** The same bundle with its top-level record lists in another order. */
  ghost predicate Rearranged(a: Bundle, b: Bundle) {
    && b == a.(providers := b.providers, evidence := b.evidence, findings := b.findings,
               classifications := b.classifications, failures := b.failures, coverage := b.coverage,
               limitations := b.limitations)
    && multiset(a.providers) == multiset(b.providers) && multiset(a.evidence) == multiset(b.evidence)
    && multiset(a.findings) == multiset(b.findings) && multiset(a.classifications) == multiset(b.classifications)
    && multiset(a.failures) == multiset(b.failures) && multiset(a.coverage) == multiset(b.coverage)
    && multiset(a.limitations) == multiset(b.limitations)
  }

  /** Records whose identifying field repeats nowhere are determined by their sort key. */
  lemma DistinctDetermines<T(!new)>(s: seq<T>, id: T -> string, key: T -> Key)
    requires DistinctBy(s, id)
    requires forall x, y :: x in s && y in s && key(x) == key(y) ==> id(x) == id(y)
    ensures KeyDetermines(s, key)
  {
    forall x, y | x in s && y in s && key(x) == key(y) ensures x == y {
      var i :| 0 <= i < |s| && s[i] == x;
      var j :| 0 <= j < |s| && s[j] == y;
      if i < j { assert id(s[i]) != id(s[j]); }
      if j < i { assert id(s[j]) != id(s[i]); }
    }
  }

  lemma ProvidersIgnoreOrder(a: Bundle, b: Bundle)
    requires Rearranged(a, b) && SemanticallyValid(a)
    ensures SortBy(a.providers, ProviderKey) == SortBy(b.providers, ProviderKey)
  {
    forall x, y | x in a.providers && y in a.providers && ProviderKey(x) == ProviderKey(y)
      ensures ProviderId(x) == ProviderId(y)
    {
      assert ProviderKey(x)[0] == ProviderKey(y)[0];
    }
    DistinctDetermines(a.providers, ProviderId, ProviderKey);
    SortPermutation(a.providers, b.providers, ProviderKey);
  }

  lemma RecordsByIdIgnoreOrder(a: Bundle, b: Bundle)
    requires Rearranged(a, b) && SemanticallyValid(a)
    ensures SortBy(a.evidence, EvidenceKey) == SortBy(b.evidence, EvidenceKey)
    ensures SortBy(a.findings, FindingKey) == SortBy(b.findings, FindingKey)
    ensures SortBy(a.classifications, ClassificationKey) == SortBy(b.classifications, ClassificationKey)
    ensures SortBy(a.coverage, CoverageKey) == SortBy(b.coverage, CoverageKey)
  {
    SingleKey(a.evidence, EvidenceId, EvidenceKey);
    SingleKey(a.findings, FindingId, FindingKey);
    SingleKey(a.classifications, ClassificationId, ClassificationKey);
    SingleKey(a.coverage, CoverageId, CoverageKey);
    SortPermutation(a.evidence, b.evidence, EvidenceKey);
    SortPermutation(a.findings, b.findings, FindingKey);
    SortPermutation(a.classifications, b.classifications, ClassificationKey);
    SortPermutation(a.coverage, b.coverage, CoverageKey);
  }

  lemma SingleKey<T(!new)>(s: seq<T>, id: T -> string, key: T -> Key)
    requires DistinctBy(s, id) && forall x :: key(x) == [id(x)]
    ensures KeyDetermines(s, key)
  {
    forall x, y | x in s && y in s && key(x) == key(y) ensures id(x) == id(y) {
      assert key(x)[0] == key(y)[0];
    }
    DistinctDetermines(s, id, key);
  }
}
