/** Normalisation does not depend on the order in which a report lists distinct results. */
module ResultOrder {
  import opened Order
  import opened Json
  import opened Wrappers
  import opened Contracts
  import opened Identities
  import opened Validator
  import opened Serializer
  import opened Semgrep
  import opened Pipeline

  /** The same report with its results in another order. */
  ghost predicate Shuffled(r: Json, q: Json) {
    && Get(q, "results").Some? && Get(q, "results").value.Arr?
    && multiset(Results(r)) == multiset(Results(q))
    && Get(r, "errors") == Get(q, "errors") && Get(r, "paths") == Get(q, "paths")
  }

  lemma ShuffledMembers(r: Json, q: Json)
    requires Shuffled(r, q)
    ensures forall x :: x in Results(r) <==> x in Results(q)
  {
    forall x ensures x in Results(r) <==> x in Results(q) {
      assert x in Results(r) <==> x in multiset(Results(r));
      assert x in Results(q) <==> x in multiset(Results(q));
    }
  }

  lemma ShuffledShape(r: Json, q: Json)
    requires Shuffled(r, q) && WellShaped(r)
    ensures WellShaped(q)
  {
    ShuffledMembers(r, q);
    ShapedResults(r);
    forall i | 0 <= i < |Results(q)| ensures GoodResult(Results(q)[i]) { assert Results(q)[i] in Results(q); }
  }

  /** The record of one result, as a list for the fold. */
  function MadeBy<R>(keyOf: Json -> Outcome<MatchKey>, make: (MatchKey, Json) -> R): Json -> seq<R> {
    r => match keyOf(r) case Returned(k) => [make(k, r)] case Raised => []
  }

  lemma {:induction false} RecordsCollected<R>(
      results: seq<Json>, keyOf: Json -> Outcome<MatchKey>, make: (MatchKey, Json) -> R)
    requires forall r :: r in results ==> keyOf(r).Returned?
    ensures RecordList(results, keyOf, make) == Collect(results, MadeBy(keyOf, make))
  {
    if results != [] {
      var (init, last) := (results[..|results| - 1], results[|results| - 1]);
      assert results == init + [last];
      RecordsCollected(init, keyOf, make);
      CollectAppend(init, [last], MadeBy(keyOf, make));
      CollectOne(last, MadeBy(keyOf, make));
    }
  }

  lemma CollectOne<T, U>(x: T, f: T -> seq<U>)
    ensures Collect([x], f) == f(x)
  {
    assert [x][1..] == [];
  }

  lemma RecordsShuffled<R>(s: seq<Json>, t: seq<Json>, keyOf: Json -> Outcome<MatchKey>, make: (MatchKey, Json) -> R)
    requires multiset(s) == multiset(t)
    requires (forall r :: r in s ==> keyOf(r).Returned?) && (forall r :: r in t ==> keyOf(r).Returned?)
    ensures multiset(RecordList(s, keyOf, make)) == multiset(RecordList(t, keyOf, make))
  {
    RecordsCollected(s, keyOf, make);
    RecordsCollected(t, keyOf, make);
    CollectPermutation(s, t, MadeBy(keyOf, make));
  }

  /** The results can all be recorded, are distinct, and are kept apart by the digest. */
  ghost predicate Recordable(a: Adapter, ctx: Context, results: seq<Json>) {
    && (forall r :: r in results ==> GoodResult(r) && KeyOf(a, r).Returned?)
    && DistinctMatches(a, results) && SeparatesResults(a, ctx, results)
  }

  lemma KeysReturned(a: Adapter, results: seq<Json>)
    requires forall r :: r in results ==> GoodResult(r) && KeyOf(a, r).Returned?
    ensures forall r :: r in results ==> KeyIn(a)(r).Returned?
  {
    forall r | r in results ensures KeyIn(a)(r).Returned? { assert KeyIn(a)(r) == KeyOf(a, r); }
  }

  lemma EvidenceShuffled(a: Adapter, ctx: Context, s: seq<Json>, t: seq<Json>)
    requires multiset(s) == multiset(t) && Recordable(a, ctx, s)
    requires forall r :: r in t ==> GoodResult(r) && KeyOf(a, r).Returned?
    ensures SortBy(EvidenceList(a, ctx, s), EvidenceKey) == SortBy(EvidenceList(a, ctx, t), EvidenceKey)
  {
    KeysReturned(a, s);
    KeysReturned(a, t);
    RecordsShuffled(s, t, KeyIn(a), EvidenceMaker(a, ctx));
    RecordIdsDistinct(a, ctx, s);
    SingleKey(EvidenceList(a, ctx, s), EvidenceId, EvidenceKey);
    SortPermutation(EvidenceList(a, ctx, s), EvidenceList(a, ctx, t), EvidenceKey);
  }

  lemma FindingsShuffled(a: Adapter, ctx: Context, s: seq<Json>, t: seq<Json>)
    requires multiset(s) == multiset(t) && Recordable(a, ctx, s)
    requires forall r :: r in t ==> GoodResult(r) && KeyOf(a, r).Returned?
    ensures SortBy(FindingList(a, ctx, s), FindingKey) == SortBy(FindingList(a, ctx, t), FindingKey)
    ensures FindingPaths(FindingList(a, ctx, s)) == FindingPaths(FindingList(a, ctx, t))
  {
    KeysReturned(a, s);
    KeysReturned(a, t);
    RecordsShuffled(s, t, KeyIn(a), FindingMaker(a, ctx));
    RecordIdsDistinct(a, ctx, s);
    SingleKey(FindingList(a, ctx, s), FindingId, FindingKey);
    SortPermutation(FindingList(a, ctx, s), FindingList(a, ctx, t), FindingKey);
    SamePaths(FindingList(a, ctx, s), FindingList(a, ctx, t));
  }

  lemma SamePaths(s: seq<Finding>, t: seq<Finding>)
    requires multiset(s) == multiset(t)
    ensures FindingPaths(s) == FindingPaths(t)
  {
    forall f ensures f in s <==> f in t { assert f in s <==> f in multiset(s); assert f in t <==> f in multiset(t); }
  }

  lemma InventoryShuffled(a: Adapter, r: Json, q: Json, s: seq<Finding>, t: seq<Finding>)
    requires Get(r, "paths") == Get(q, "paths") && FindingPaths(s) == FindingPaths(t)
    ensures CoveragePaths(a, r, s) == CoveragePaths(a, q, t)
  {
  }

  lemma LimitationsShuffled(a: Adapter, r: Json, q: Json, notes: seq<string>)
    requires Shuffled(r, q)
    ensures Limitations(a, r, notes) == Limitations(a, q, notes)
  {
    CollectPermutation(Results(r), Results(q), a.resultLimitations);
    SameTexts(Collect(Results(r), a.resultLimitations), Collect(Results(q), a.resultLimitations),
              ErrorTexts(a, Errors(r)), notes);
  }

  lemma SameTexts(x: seq<string>, y: seq<string>, errors: seq<string>, notes: seq<string>)
    requires multiset(x) == multiset(y)
    ensures Members(x + errors + notes) == Members(y + errors + notes)
  {
    forall t ensures t in x <==> t in y { assert t in x <==> t in multiset(x); assert t in y <==> t in multiset(y); }
  }

  lemma RaisesShuffled(a: Adapter, ctx: Context, s: seq<Json>, t: seq<Json>)
    requires forall r :: r in s ==> GoodResult(r)
    requires forall r :: r in s <==> r in t
    ensures SomeResultRaises(a, ctx, s) <==> SomeResultRaises(a, ctx, t)
  {
  }

  /** The sorted records of two reports and their findings' paths agree. */
  ghost predicate SameRecords(a: Adapter, ctx: Context, s: seq<Json>, t: seq<Json>) {
    && (forall r :: r in s ==> GoodResult(r) && KeyOf(a, r).Returned?)
    && (forall r :: r in t ==> GoodResult(r) && KeyOf(a, r).Returned?)
    && SortBy(EvidenceList(a, ctx, s), EvidenceKey) == SortBy(EvidenceList(a, ctx, t), EvidenceKey)
    && SortBy(FindingList(a, ctx, s), FindingKey) == SortBy(FindingList(a, ctx, t), FindingKey)
    && FindingPaths(FindingList(a, ctx, s)) == FindingPaths(FindingList(a, ctx, t))
  }

  lemma RecordsAlike(a: Adapter, ctx: Context, s: seq<Json>, t: seq<Json>)
    requires multiset(s) == multiset(t) && Recordable(a, ctx, s)
    requires forall r :: r in t ==> GoodResult(r) && KeyOf(a, r).Returned?
    ensures SameRecords(a, ctx, s, t)
  {
    EvidenceShuffled(a, ctx, s, t);
    FindingsShuffled(a, ctx, s, t);
  }

  lemma ConvertedAlike(a: Adapter, ctx: Context, r: Json, q: Json)
    requires Shuffled(r, q) && WellShaped(r) && WellShaped(q) && SameRecords(a, ctx, Results(r), Results(q))
    requires !SomeResultRaises(a, ctx, Results(r)) && !SomeResultRaises(a, ctx, Results(q))
    ensures Normalize(a, ctx, r) == Normalize(a, ctx, q)
  {
    var (f, g) := (FindingList(a, ctx, Results(r)), FindingList(a, ctx, Results(q)));
    InventoryShuffled(a, r, q, f, g);
    assert Errors(r) == Errors(q);
    if CoveragePaths(a, r, f).Returned? {
      LimitationsShuffled(a, r, q, CoveragePaths(a, r, f).value.notes);
    }
  }

  /** Reports that list the same distinct results in another order normalise alike, records, coverage and all. */
  lemma ResultOrderIrrelevant(a: Adapter, ctx: Context, r: Json, q: Json)
    requires Shuffled(r, q) && WellShaped(r)
    requires SeparatesResults(a, ctx, Results(r))
    requires (forall x :: x in Results(r) ==> GoodResult(x)) && DistinctMatches(a, Results(r))
    ensures Normalize(a, ctx, r) == Normalize(a, ctx, q)
  {
    var (s, t) := (Results(r), Results(q));
    ShuffledMembers(r, q);
    ShuffledShape(r, q);
    ShapedResults(q);
    RaisesShuffled(a, ctx, s, t);
    if !SomeResultRaises(a, ctx, s) {
      assert forall x :: x in s ==> !ResultRaises(a, ctx, x);
      RecordsAlike(a, ctx, s, t);
      ConvertedAlike(a, ctx, r, q);
    }
  }
}
