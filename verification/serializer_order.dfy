/** Exactly when `bundle_bytes` of `l9_ci/artifacts/serializer.py` forgets the order of the records. */
module SerializerOrder {
  import opened Order
  import opened Json
  import opened Wrappers
  import opened Canonical
  import opened Contracts
  import opened Validator
  import opened Serializer

  /** Failures that share a sort key have the same canonical text. */
  ghost predicate FailuresAgree(s: seq<ProviderFailure>) {
    forall f, g | f in s && g in s && FailureKey(f) == FailureKey(g) :: Encode(FailureDict(f)) == Encode(FailureDict(g))
  }

  lemma EncodeDecidesNormal(a: Json, b: Json)
    ensures Encode(a) == Encode(b) <==> Normal(a, false) == Normal(b, false)
  {
    if Encode(a) == Encode(b) { PrintInjective(Normal(a, false), Normal(b, false)); }
  }

  /** The canonical values of a list of failures, in order. */
  function Images(s: seq<ProviderFailure>): seq<Json> { NormalItems(Dicts(s, FailureDict).items, false) }

  lemma ImageAt(s: seq<ProviderFailure>, i: nat)
    requires i < |s|
    ensures |Images(s)| == |s| && Images(s)[i] == Normal(FailureDict(s[i]), false)
  {
    NormalItemsAt(Dicts(s, FailureDict).items, false, i);
  }

  // ------------------------------------------------ only the failures matter

  /** The index of the failures among the fields of a bundle. */
  const FAILURES := 9

  lemma DictFields(b: Bundle)
    ensures b.ToDict().Obj? && |b.ToDict().fields| == 13
    ensures b.ToDict().fields[FAILURES] == Field("provider_failures", Dicts(b.failures, FailureDict))
    ensures forall i | 0 <= i < 13 && i != FAILURES :: b.ToDict().fields[i].key != "provider_failures"
  {
  }

  lemma DictsAlike(a: Bundle, b: Bundle)
    requires b == a.(failures := b.failures) && |a.failures| == |b.failures|
    ensures forall i | 0 <= i < 13 && i != FAILURES :: a.ToDict().fields[i] == b.ToDict().fields[i]
  {
  }

  lemma NormalFieldsFailure(b: Bundle, f: Field)
    requires f in NormalFields(b.ToDict().fields, false) && f.key == "provider_failures"
    ensures f.value == Arr(Images(b.failures))
  {
    DictFields(b);
    var fields := b.ToDict().fields;
    var i :| 0 <= i < 13 && NormalFields(fields, false)[i] == f;
    NormalFieldsAt(fields, false, i);
  }

  lemma SameTextSameFailures(a: Bundle, b: Bundle)
    requires CanonicalJson(a.ToDict()) == CanonicalJson(b.ToDict())
    ensures Images(a.failures) == Images(b.failures)
  {
    var x, y := a.ToDict(), b.ToDict();
    CanonicalJsonDecidesNormal(x, y);
    DictFields(a);
    DictFields(b);
    var nx, ny := NormalFields(x.fields, false), NormalFields(y.fields, false);
    assert SortBy(nx, FieldKey) == SortBy(ny, FieldKey);
    NormalFieldsAt(x.fields, false, FAILURES);
    SortMembers(nx, FieldKey);
    SortMembers(ny, FieldKey);
    assert nx[FAILURES] in nx;
    NormalFieldsFailure(a, nx[FAILURES]);
    NormalFieldsFailure(b, nx[FAILURES]);
  }

  lemma CanonicalJsonDecidesNormal(x: Json, y: Json)
    ensures CanonicalJson(x) == CanonicalJson(y) <==> Normal(x, false) == Normal(y, false)
  {
    NormalIdempotent(x);
    NormalIdempotent(y);
    EncodeDecidesNormal(SortedKeys(x), SortedKeys(y));
    var (s, t) := (Encode(SortedKeys(x)), Encode(SortedKeys(y)));
    if CanonicalJson(x) == CanonicalJson(y) { assert s == (s + "\n")[..|s|] && t == (t + "\n")[..|t|]; }
  }

  lemma SameFailuresSameText(a: Bundle, b: Bundle)
    requires b == a.(failures := b.failures) && Images(a.failures) == Images(b.failures)
    ensures CanonicalJson(a.ToDict()) == CanonicalJson(b.ToDict())
  {
    assert |Images(a.failures)| == |a.failures| && |Images(b.failures)| == |b.failures|;
    DictFields(a);
    DictFields(b);
    DictsAlike(a, b);
    SameNormalFields(a.ToDict().fields, b.ToDict().fields);
    CanonicalJsonDecidesNormal(a.ToDict(), b.ToDict());
  }

  lemma SameNormalFields(fs: seq<Field>, gs: seq<Field>)
    requires |fs| == |gs|
    requires forall i | 0 <= i < |fs| :: fs[i].key == gs[i].key
    requires forall i | 0 <= i < |fs| :: Normal(fs[i].value, false) == Normal(gs[i].value, false)
    ensures NormalFields(fs, false) == NormalFields(gs, false)
  {
    forall i | 0 <= i < |fs| ensures NormalFields(fs, false)[i] == NormalFields(gs, false)[i] {
      NormalFieldsAt(fs, false, i);
      NormalFieldsAt(gs, false, i);
    }
  }

  /** In a semantically valid bundle every other list is determined by its keys. */
  lemma OthersSorted(a: Bundle, b: Bundle)
    requires Rearranged(a, b) && SemanticallyValid(a)
    ensures SortRecords(b) == SortRecords(a).(failures := SortBy(b.failures, FailureKey))
  {
    SortedPermutation(a.limitations, b.limitations);
    ProvidersIgnoreOrder(a, b);
    RecordsByIdIgnoreOrder(a, b);
  }

  lemma TextIff(a: Bundle, b: Bundle)
    requires Rearranged(a, b) && SemanticallyValid(a)
    ensures BundleText(a) == BundleText(b)
       <==> Images(SortBy(a.failures, FailureKey)) == Images(SortBy(b.failures, FailureKey))
  {
    OthersSorted(a, b);
    var x, y := SortRecords(a), SortRecords(b);
    if Images(x.failures) == Images(y.failures) { SameFailuresSameText(x, y); }
    if BundleText(a) == BundleText(b) { SameTextSameFailures(x, y); }
  }

  // --------------------------------------------------------- agreement suffices

  function First(p: (Key, Json)): Key { p.0 }

  function PairOf(f: ProviderFailure): (Key, Json) { (FailureKey(f), Normal(FailureDict(f), false)) }

  function ToPair(f: ProviderFailure): seq<(Key, Json)> { [PairOf(f)] }

  lemma {:induction false} PairsAt(s: seq<ProviderFailure>)
    ensures var ps := Collect(s, ToPair); |ps| == |s| && forall i | 0 <= i < |s| :: ps[i] == PairOf(s[i])
  {
    if s != [] { PairsAt(s[1..]); }
  }

  lemma PairsOrdered(s: seq<ProviderFailure>)
    requires Ordered(s, FailureKey)
    ensures Ordered(Collect(s, ToPair), First)
  {
    PairsAt(s);
  }

  lemma AgreeDetermines(s: seq<ProviderFailure>, t: seq<ProviderFailure>)
    requires FailuresAgree(s) && multiset(s) == multiset(t)
    ensures KeyDetermines(Collect(t, ToPair), First)
  {
    PairsAt(t);
    forall p, q | p in Collect(t, ToPair) && q in Collect(t, ToPair) && First(p) == First(q) ensures p == q {
      var i :| 0 <= i < |t| && Collect(t, ToPair)[i] == p;
      var j :| 0 <= j < |t| && Collect(t, ToPair)[j] == q;
      assert t[i] in multiset(s) && t[j] in multiset(s);
      EncodeDecidesNormal(FailureDict(t[i]), FailureDict(t[j]));
    }
  }

  lemma AgreeingImages(s: seq<ProviderFailure>, t: seq<ProviderFailure>)
    requires FailuresAgree(s) && multiset(s) == multiset(t)
    ensures Images(SortBy(s, FailureKey)) == Images(SortBy(t, FailureKey))
  {
    var x, y := SortBy(s, FailureKey), SortBy(t, FailureKey);
    SortMultiset(s, FailureKey);
    SortMultiset(t, FailureKey);
    SortOrdered(s, FailureKey);
    SortOrdered(t, FailureKey);
    PairsOrdered(x);
    PairsOrdered(y);
    CollectPermutation(x, y, ToPair);
    AgreeDetermines(s, x);
    OrderedUnique(Collect(x, ToPair), Collect(y, ToPair), First);
    PairsAt(x);
    PairsAt(y);
    forall i | 0 <= i < |x| ensures Images(x)[i] == Images(y)[i] {
      ImageAt(x, i);
      ImageAt(y, i);
      assert PairOf(x[i]) == PairOf(y[i]);
    }
    assert |Images(x)| == |x| && |Images(y)| == |y|;
  }

  // -------------------------------------------------------- agreement is needed

  function KeyOnly(f: ProviderFailure): seq<Key> { [FailureKey(f)] }

  function Itself(k: Key): Key { k }

  /** Where insertion puts a key into a sorted list of keys. */
  function Place(k: Key, ks: seq<Key>): nat {
    if ks == [] || KeyLe(k, ks[0]) then 0 else 1 + Place(k, ks[1..])
  }

  lemma {:induction false} KeysAt(s: seq<ProviderFailure>)
    ensures var ks := Collect(s, KeyOnly); |ks| == |s| && forall i | 0 <= i < |s| :: ks[i] == FailureKey(s[i])
  {
    if s != [] { KeysAt(s[1..]); }
  }

  lemma {:induction false} InsertedAt(f: ProviderFailure, s: seq<ProviderFailure>)
    ensures var p := Place(FailureKey(f), Collect(s, KeyOnly));
            p < |Insert(f, s, FailureKey)| && Insert(f, s, FailureKey)[p] == f
  {
    if s != [] {
      InsertedAt(f, s[1..]);
      assert Collect(s, KeyOnly) == [FailureKey(s[0])] + Collect(s[1..], KeyOnly);
      assert Collect(s, KeyOnly)[1..] == Collect(s[1..], KeyOnly);
    }
  }

  /** Taking either of two failures with the same key out of a list leaves the same sorted keys. */
  lemma SameRemainingKeys(s: seq<ProviderFailure>, i: nat, j: nat)
    requires i < |s| && j < |s| && FailureKey(s[i]) == FailureKey(s[j])
    ensures Collect(SortBy(Without(s, i), FailureKey), KeyOnly) == Collect(SortBy(Without(s, j), FailureKey), KeyOnly)
  {
    RemainingKeys(s, i);
    RemainingKeys(s, j);
    OrderedUnique(Collect(SortBy(Without(s, i), FailureKey), KeyOnly),
                  Collect(SortBy(Without(s, j), FailureKey), KeyOnly), Itself);
  }

  lemma RemainingKeys(s: seq<ProviderFailure>, i: nat)
    requires i < |s|
    ensures var x := Collect(SortBy(Without(s, i), FailureKey), KeyOnly);
            multiset(x) == multiset(Collect(s, KeyOnly)) - multiset{FailureKey(s[i])} && Ordered(x, Itself)
  {
    CollectAround(s, i, KeyOnly);
    SortedKeysOf(Without(s, i));
  }

  lemma SortedKeysOf(s: seq<ProviderFailure>)
    ensures multiset(Collect(SortBy(s, FailureKey), KeyOnly)) == multiset(Collect(s, KeyOnly))
    ensures Ordered(Collect(SortBy(s, FailureKey), KeyOnly), Itself)
  {
    SortMultiset(s, FailureKey);
    SortOrdered(s, FailureKey);
    CollectPermutation(SortBy(s, FailureKey), s, KeyOnly);
    KeysAt(SortBy(s, FailureKey));
  }

  /** The list with its element `i` moved to the front. */
  function Fronted(s: seq<ProviderFailure>, i: nat): seq<ProviderFailure>
    requires i < |s|
  {
    [s[i]] + Without(s, i)
  }

  lemma FrontedFacts(s: seq<ProviderFailure>, i: nat)
    requires i < |s|
    ensures multiset(Fronted(s, i)) == multiset(s)
    ensures SortBy(Fronted(s, i), FailureKey) == Insert(s[i], SortBy(Without(s, i), FailureKey), FailureKey)
  {
    WithoutMultiset(s, i);
    assert Fronted(s, i)[0] == s[i] && Fronted(s, i)[1..] == Without(s, i);
  }

  lemma FrontedImage(s: seq<ProviderFailure>, i: nat)
    requires i < |s|
    ensures var p := Place(FailureKey(s[i]), Collect(SortBy(Without(s, i), FailureKey), KeyOnly));
            p < |Images(SortBy(Fronted(s, i), FailureKey))|
            && Images(SortBy(Fronted(s, i), FailureKey))[p] == Normal(FailureDict(s[i]), false)
  {
    FrontedFacts(s, i);
    var r := SortBy(Without(s, i), FailureKey);
    InsertedAt(s[i], r);
    ImageAt(SortBy(Fronted(s, i), FailureKey), Place(FailureKey(s[i]), Collect(r, KeyOnly)));
  }

  lemma SameImagesAgree(s: seq<ProviderFailure>)
    requires forall t | multiset(t) == multiset(s) :: Images(SortBy(t, FailureKey)) == Images(SortBy(s, FailureKey))
    ensures FailuresAgree(s)
  {
    forall f, g | f in s && g in s && FailureKey(f) == FailureKey(g)
      ensures Encode(FailureDict(f)) == Encode(FailureDict(g))
    {
      var i :| 0 <= i < |s| && s[i] == f;
      var j :| 0 <= j < |s| && s[j] == g;
      FrontedFacts(s, i);
      FrontedFacts(s, j);
      FrontedImage(s, i);
      FrontedImage(s, j);
      SameRemainingKeys(s, i, j);
      EncodeDecidesNormal(FailureDict(f), FailureDict(g));
    }
  }

  // -------------------------------------------------------------- main result

  /**
   The bytes of a semantically valid bundle forget the order of all its record lists exactly when failures that share
   provider, type and message have the same canonical text.
   */
  lemma BytesOrderFreeIff(a: Bundle)
    requires SemanticallyValid(a)
    ensures (forall b | Rearranged(a, b) :: BundleText(b) == BundleText(a)) <==> FailuresAgree(a.failures)
  {
    if FailuresAgree(a.failures) {
      forall b | Rearranged(a, b) ensures BundleText(b) == BundleText(a) {
        TextIff(a, b);
        AgreeingImages(a.failures, b.failures);
      }
    }
    if forall b | Rearranged(a, b) :: BundleText(b) == BundleText(a) {
      forall t | multiset(t) == multiset(a.failures)
        ensures Images(SortBy(t, FailureKey)) == Images(SortBy(a.failures, FailureKey))
      {
        var b := a.(failures := t);
        assert Rearranged(a, b);
        TextIff(a, b);
      }
      SameImagesAgree(a.failures);
    }
  }

  // ------------------------------------------------- a bundle whose bytes differ

  function TiedFailure(fatal: bool): ProviderFailure { ProviderFailure("p", Timeout, "m", true, fatal, []) }

  /** A partially covered provider with two failures that differ only in being fatal. */
  function TiedBundle(): Bundle {
    Bundle("l9.finding-bundle/v1", "1.0.0", "1", "", Snapshot("s", ".", None, None),
           [ProviderRun("p", "1", None, "execute", true)], [], [], [],
           [TiedFailure(true), TiedFailure(false)], [Coverage("p", Partial, 0, 0, [])], [])
  }

  lemma TiedBundleValid()
    ensures SemanticallyValid(TiedBundle())
  {
    var b := TiedBundle();
    assert b.providers[0] in b.providers && b.coverage[0] in b.coverage;
    assert Registered(b, "p") && Covered(b, "p");
  }

  lemma NormalHas(fs: seq<Field>, i: nat)
    requires i < |fs|
    ensures Field(fs[i].key, Normal(fs[i].value, false)) in SortBy(NormalFields(fs, false), FieldKey)
  {
    NormalFieldsAt(fs, false, i);
    SortMembers(NormalFields(fs, false), FieldKey);
    assert NormalFields(fs, false)[i] in NormalFields(fs, false);
  }

  lemma NormalFrom(fs: seq<Field>, f: Field) returns (i: nat)
    requires f in NormalFields(fs, false)
    ensures i < |fs| && fs[i].key == f.key && Normal(fs[i].value, false) == f.value
  {
    i :| 0 <= i < |NormalFields(fs, false)| && NormalFields(fs, false)[i] == f;
    NormalFieldsAt(fs, false, i);
  }

  lemma NormalOnly(fs: seq<Field>, f: Field) returns (i: nat)
    requires f in SortBy(NormalFields(fs, false), FieldKey)
    ensures i < |fs| && fs[i].key == f.key && Normal(fs[i].value, false) == f.value
  {
    SortMembers(NormalFields(fs, false), FieldKey);
    i := NormalFrom(fs, f);
  }

  lemma FatalOnly(fatal: bool, i: nat)
    requires i < |FailureDict(TiedFailure(fatal)).fields| && FailureDict(TiedFailure(fatal)).fields[i].key == "fatal"
    ensures i == 4
  {
    var fs := FailureDict(TiedFailure(fatal)).fields;
    assert fs[0].key[0] == 'p' && fs[1].key[1] == 'a' && fs[1].key[2] == 'i' && fs[2].key[0] == 'm';
    assert fs[3].key[0] == 'r';
  }

  /** A field that no field of the same key matches sets two dicts apart. */
  lemma NormalsDiffer(x: seq<Field>, y: seq<Field>, i: nat)
    requires i < |x|
    requires forall j | 0 <= j < |y| && y[j].key == x[i].key :: Normal(y[j].value, false) != Normal(x[i].value, false)
    ensures Normal(Obj(x), false) != Normal(Obj(y), false)
  {
    NormalHas(x, i);
    if Normal(Obj(x), false) == Normal(Obj(y), false) {
      var j := NormalOnly(y, Field(x[i].key, Normal(x[i].value, false)));
    }
  }

  lemma TiedFailuresDiffer()
    ensures Normal(FailureDict(TiedFailure(true)), false) != Normal(FailureDict(TiedFailure(false)), false)
  {
    var x, y := FailureDict(TiedFailure(true)).fields, FailureDict(TiedFailure(false)).fields;
    assert x[4] == Field("fatal", Bool(true)) && y[4] == Field("fatal", Bool(false));
    forall j | 0 <= j < |y| && y[j].key == "fatal" ensures y[j].value == Bool(false) { FatalOnly(false, j); }
    NormalsDiffer(x, y, 4);
  }

  /** A semantically valid bundle and an arrangement of it with other bytes. */
  lemma TiedFailuresChangeBytes()
    ensures SemanticallyValid(TiedBundle()) && !FailuresAgree(TiedBundle().failures)
    ensures exists b :: Rearranged(TiedBundle(), b) && BundleText(b) != BundleText(TiedBundle())
  {
    var b := TiedBundle();
    TiedBundleValid();
    TiedFailuresDiffer();
    EncodeDecidesNormal(FailureDict(b.failures[0]), FailureDict(b.failures[1]));
    assert b.failures[0] in b.failures && b.failures[1] in b.failures;
    BytesOrderFreeIff(b);
  }
}
