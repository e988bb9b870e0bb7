/**
 What the ratchet promises: exactly when a run passes, what one ratchet step changes, that
 no observation is lost, and that input order does not matter.
 */
module Ratchet {
  import opened Order
  import opened Wrappers
  import opened Comparator

  // ------------------------------------------------------- when a run passes

  lemma {:induction false} KeptDistinct(entries: seq<Entry>)
    requires DistinctFps(entries)
    ensures Kept(entries) == entries
  {
    if entries != [] {
      var (init, last) := (entries[..|entries| - 1], entries[|entries| - 1]);
      KeptDistinct(init);
      assert forall e :: e in init ==> e.fingerprint != last.fingerprint;
      assert entries == init + [last];
    }
  }

  lemma DistinctFpsSnoc(init: seq<Entry>, last: Entry)
    ensures DistinctFps(init + [last]) <==> DistinctFps(init) && last.fingerprint !in EntryFps(init)
  {
    var all := init + [last];
    if DistinctFps(all) {
      forall e | e in init ensures e.fingerprint != last.fingerprint {
        var i :| 0 <= i < |init| && init[i] == e;
        assert all[i].fingerprint != all[|init|].fingerprint;
      }
      forall i, j | 0 <= i < j < |init| ensures init[i].fingerprint != init[j].fingerprint {
        assert all[i].fingerprint != all[j].fingerprint;
      }
    } else if DistinctFps(init) {
      var i, j :| 0 <= i < j < |all| && all[i].fingerprint == all[j].fingerprint;
      assert j == |init| && init[i] in init;
    }
  }

  lemma {:induction false} DuplicatesEmpty(s: Setting, entries: seq<Entry>)
    ensures Duplicates(s, entries) == [] <==> DistinctFps(entries)
  {
    if entries != [] {
      var (init, last) := (entries[..|entries| - 1], entries[|entries| - 1]);
      DuplicatesEmpty(s, init);
      DistinctFpsSnoc(init, last);
      assert entries == init + [last];
    }
  }

  predicate DistinctObserved(obs: seq<Observed>) {
    forall i, j | 0 <= i < j < |obs| :: obs[i].fingerprint != obs[j].fingerprint
  }

  lemma {:induction false} WithFpOnce(obs: seq<Observed>, fp: string)
    ensures |WithFp(obs, fp)| > 1
       <==> exists i, j :: 0 <= i < j < |obs| && obs[i].fingerprint == fp == obs[j].fingerprint
    ensures |WithFp(obs, fp)| > 0 <==> exists i :: 0 <= i < |obs| && obs[i].fingerprint == fp
  {
    if obs != [] {
      var rest := obs[1..];
      WithFpOnce(rest, fp);
      if obs[0].fingerprint == fp && |WithFp(rest, fp)| > 0 {
        var j :| 0 <= j < |rest| && rest[j].fingerprint == fp;
        assert obs[j + 1].fingerprint == fp;
      }
      if |WithFp(rest, fp)| > 1 {
        var i, j :| 0 <= i < j < |rest| && rest[i].fingerprint == fp == rest[j].fingerprint;
        assert obs[i + 1].fingerprint == fp == obs[j + 1].fingerprint;
      }
      if i, j :| 0 <= i < j < |obs| && obs[i].fingerprint == fp == obs[j].fingerprint {
        assert rest[j - 1].fingerprint == fp;
        if i > 0 { assert rest[i - 1].fingerprint == fp; }
      }
      if i :| 0 <= i < |obs| && obs[i].fingerprint == fp {
        if i > 0 { assert rest[i - 1].fingerprint == fp; }
      }
    }
  }

  /** An unexpired entry tolerates the observation. */
  ghost predicate Tolerated(today: int, entries: seq<Entry>, f: Observed) {
    exists e :: e in entries && e.fingerprint == f.fingerprint && !e.Expired(today)
  }

  /** The condition under which `compare` reports nothing. */
  ghost predicate Clean(s: Setting, obs: seq<Observed>, entries: seq<Entry>) {
    && DistinctFps(entries)
    && DistinctObserved(obs)
    && (forall f :: f in obs ==> Tolerated(s.today, entries, f))
    && (s.removalRequired ==>
          forall e :: e in entries ==> e.fingerprint in ObservedFps(obs) || e.Identity() in ObservedIds(obs))
  }

  lemma FindDistinct(entries: seq<Entry>, e: Entry)
    requires DistinctFps(entries) && e in entries
    ensures Find(entries, e.fingerprint) == Some(e)
  {
    assert e.fingerprint in EntryFps(entries);
  }

  lemma JudgeQuiet(s: Setting, obs: seq<Observed>, entries: seq<Entry>)
    requires DistinctFps(entries)
    ensures Collect(obs, Judge(s, entries)) == [] <==> forall f :: f in obs ==> Tolerated(s.today, entries, f)
  {
    CollectEmpty(obs, Judge(s, entries));
    forall f | f in obs ensures Judge(s, entries)(f) == [] <==> Tolerated(s.today, entries, f) {
      if e :| e in entries && e.fingerprint == f.fingerprint { FindDistinct(entries, e); }
    }
  }

  ghost predicate SeenTwice(obs: seq<Observed>, fp: string) {
    exists i, j :: 0 <= i < j < |obs| && obs[i].fingerprint == fp == obs[j].fingerprint
  }

  lemma IncreasedAtQuiet(s: Setting, obs: seq<Observed>, entries: seq<Entry>, fp: string)
    requires fp in EntryFps(entries)
    ensures Increased(s, entries, obs)(fp) == [] <==> !SeenTwice(obs, fp)
  {
    WithFpOnce(obs, fp);
  }

  lemma IncreasedQuiet(s: Setting, obs: seq<Observed>, entries: seq<Entry>)
    requires forall f :: f in obs ==> f.fingerprint in EntryFps(entries)
    ensures Collect(SortedSet(ObservedFps(obs)), Increased(s, entries, obs)) == [] <==> DistinctObserved(obs)
  {
    var fps := SortedSet(ObservedFps(obs));
    CollectEmpty(fps, Increased(s, entries, obs));
    forall fp | fp in fps ensures Increased(s, entries, obs)(fp) == [] <==> !SeenTwice(obs, fp) {
      IncreasedAtQuiet(s, obs, entries, fp);
    }
    if !DistinctObserved(obs) {
      var i, j :| 0 <= i < j < |obs| && obs[i].fingerprint == obs[j].fingerprint;
      assert SeenTwice(obs, obs[i].fingerprint) && obs[i] in obs;
      assert obs[i].fingerprint in fps;
    }
  }

  lemma PromptsQuiet(s: Setting, obs: seq<Observed>, entries: seq<Entry>)
    requires DistinctFps(entries)
    ensures Collect(SortedSet(EntryFps(entries)), Prompts(s, entries, obs)) == []
       <==> (s.removalRequired ==> forall e :: e in entries ==> !Resolved(e, obs))
  {
    var fps := SortedSet(EntryFps(entries));
    CollectEmpty(fps, Prompts(s, entries, obs));
    forall e | e in entries
      ensures e.fingerprint in fps
      ensures Prompts(s, entries, obs)(e.fingerprint) == [] <==> (s.removalRequired ==> !Resolved(e, obs))
    {
      FindDistinct(entries, e);
    }
  }

  /** A run passes exactly when the ledger and the observations tolerate each other. */
  lemma PassesIffClean(s: Setting, obs: seq<Observed>, entries: seq<Entry>)
    ensures Comparing(s, obs, entries).passed <==> Clean(s, obs, entries)
  {
    var raw := Raw(s, obs, entries);
    SortMultiset(raw, ViolationKey);
    DuplicatesEmpty(s, entries);
    if DistinctFps(entries) {
      KeptDistinct(entries);
      JudgeQuiet(s, obs, entries);
      PromptsQuiet(s, obs, entries);
      if forall f :: f in obs ==> Tolerated(s.today, entries, f) { IncreasedQuiet(s, obs, entries); }
    }
  }

  // ------------------------------------------------------------ a ratchet step

  function NotIn(ids: seq<string>): Entry -> bool { (e: Entry) => e.id !in ids }

  /** The ledger after a human deletes the entries with the given ids. */
  function RemoveEntries(entries: seq<Entry>, ids: seq<string>): seq<Entry> { Filter(entries, NotIn(ids)) }

  predicate DistinctIds(entries: seq<Entry>) {
    forall i, j | 0 <= i < j < |entries| :: entries[i].id != entries[j].id
  }

  /** Neither a stale-entry nor a resolved-not-removed violation. */
  predicate NotPrompt(v: Violation) { v.kind != StaleEntry && v.kind != ResolvedNotRemoved }

  lemma {:induction false} FilterKeepsDistinctFps(entries: seq<Entry>, p: Entry -> bool)
    requires DistinctFps(entries)
    ensures DistinctFps(Filter(entries, p))
  {
    if entries != [] {
      FilterKeepsDistinctFps(entries[1..], p);
      var r := Filter(entries[1..], p);
      forall j | 0 <= j < |r| ensures r[j].fingerprint != entries[0].fingerprint {
        FilterMember(entries[1..], p, r[j]);
      }
    }
  }

  lemma ResolvedIdMember(obs: seq<Observed>, entries: seq<Entry>, id: string)
    requires DistinctFps(entries)
    ensures id in AllResolved(obs, entries) <==> exists e :: e in entries && e.id == id && Resolved(e, obs)
  {
    KeptDistinct(entries);
    CollectMember(SortedSet(EntryFps(entries)), ResolvedIds(entries, obs), id);
    if fp :| fp in SortedSet(EntryFps(entries)) && id in ResolvedIds(entries, obs)(fp) {
      ResolvedAtFp(obs, entries, fp, id);
    }
    if e :| e in entries && e.id == id && Resolved(e, obs) { ResolvedListed(obs, entries, e); }
  }

  lemma ResolvedAtFp(obs: seq<Observed>, entries: seq<Entry>, fp: string, id: string)
    requires id in ResolvedIds(entries, obs)(fp)
    ensures exists e :: e in entries && e.id == id && Resolved(e, obs)
  {
    var e := Find(entries, fp).value;
    assert e in entries && e.id == id && Resolved(e, obs);
  }

  lemma ResolvedListed(obs: seq<Observed>, entries: seq<Entry>, e: Entry)
    requires DistinctFps(entries) && e in entries && Resolved(e, obs)
    ensures e.fingerprint in SortedSet(EntryFps(entries)) && e.id in ResolvedIds(entries, obs)(e.fingerprint)
  {
    FindDistinct(entries, e);
  }

  lemma SuggestedIffResolved(obs: seq<Observed>, entries: seq<Entry>, e: Entry)
    requires DistinctFps(entries) && DistinctIds(entries) && e in entries
    ensures e.id in Sorted(AllResolved(obs, entries)) <==> Resolved(e, obs)
  {
    SortMembers(AllResolved(obs, entries), StrKey);
    ResolvedIdMember(obs, entries, e.id);
  }

  /** Deleting the resolved entries leaves every lookup an observation makes unchanged. */
  lemma LookupsSurvive(obs: seq<Observed>, entries: seq<Entry>, after: seq<Entry>, f: Observed)
    requires DistinctFps(entries) && DistinctIds(entries) && f in obs
    requires after == RemoveEntries(entries, Sorted(AllResolved(obs, entries)))
    ensures Find(after, f.fingerprint) == Find(entries, f.fingerprint)
    ensures WithIdentity(after, f.identity) == WithIdentity(entries, f.identity)
  {
    var ids := Sorted(AllResolved(obs, entries));
    var keep := NotIn(ids);
    assert f.fingerprint in ObservedFps(obs) && f.identity in ObservedIds(obs);
    FilterKeepsDistinctFps(entries, keep);
    if e :| e in entries && e.fingerprint == f.fingerprint {
      SuggestedIffResolved(obs, entries, e);
      FilterMember(entries, keep, e);
      FindDistinct(entries, e);
      FindDistinct(after, e);
    } else {
      if e :| e in after && e.fingerprint == f.fingerprint { FilterMember(entries, keep, e); }
    }
    forall e | e in entries && HasIdentity(f.identity)(e) ensures keep(e) {
      SuggestedIffResolved(obs, entries, e);
    }
    FilterImplied(entries, HasIdentity(f.identity), keep);
  }

  /** Filtering by `p` first loses nothing `q` keeps, when `q` implies `p`. */
  lemma {:induction false} FilterImplied<T>(s: seq<T>, q: T -> bool, p: T -> bool)
    requires forall x :: x in s && q(x) ==> p(x)
    ensures Filter(Filter(s, p), q) == Filter(s, q)
  {
    if s != [] {
      FilterImplied(s[1..], q, p);
      var r := Filter(s[1..], p);
      if p(s[0]) {
        FilterCons(s[0], r, q);
        assert Filter(s, p) == [s[0]] + r;
      } else {
        assert Filter(s, p) == r;
      }
    }
  }

  /** What the observations themselves cause. */
  function Caused(s: Setting, obs: seq<Observed>, entries: seq<Entry>): seq<Violation> {
    Collect(SortedSet(ObservedFps(obs)), Increased(s, entries, obs)) + Collect(obs, Judge(s, entries))
  }

  function Prompted(s: Setting, obs: seq<Observed>, entries: seq<Entry>): seq<Violation> {
    Collect(SortedSet(EntryFps(entries)), Prompts(s, entries, obs))
  }

  lemma CausedIsNoPrompt(s: Setting, obs: seq<Observed>, entries: seq<Entry>, v: Violation)
    requires v in Caused(s, obs, entries)
    ensures NotPrompt(v)
  {
    if v in Collect(obs, Judge(s, entries)) {
      JudgedIsNoPrompt(s, obs, entries, v);
    } else {
      IncreasedIsNoPrompt(s, obs, entries, SortedSet(ObservedFps(obs)), v);
    }
  }

  lemma JudgedIsNoPrompt(s: Setting, obs: seq<Observed>, entries: seq<Entry>, v: Violation)
    requires v in Collect(obs, Judge(s, entries))
    ensures NotPrompt(v)
  {
    CollectMember(obs, Judge(s, entries), v);
    var f :| f in obs && v in Judge(s, entries)(f);
    assert v in JudgeOne(s, entries, f);
  }

  lemma IncreasedIsNoPrompt(s: Setting, obs: seq<Observed>, entries: seq<Entry>, fps: seq<string>, v: Violation)
    requires v in Collect(fps, Increased(s, entries, obs))
    ensures NotPrompt(v)
  {
    CollectMember(fps, Increased(s, entries, obs), v);
    var fp :| fp in fps && v in Increased(s, entries, obs)(fp);
    assert v in IncreasedAt(s, entries, obs, fp);
  }

  lemma PromptedIsPrompt(s: Setting, obs: seq<Observed>, entries: seq<Entry>, v: Violation)
    requires v in Prompted(s, obs, entries)
    ensures !NotPrompt(v)
  {
    CollectMember(SortedSet(EntryFps(entries)), Prompts(s, entries, obs), v);
    var fp :| fp in EntryFps(entries) && v in Prompts(s, entries, obs)(fp);
    assert v in PromptAt(s, entries, obs, fp);
  }

  lemma RawSplit(s: Setting, obs: seq<Observed>, entries: seq<Entry>)
    requires DistinctFps(entries)
    ensures Raw(s, obs, entries) == Caused(s, obs, entries) + Prompted(s, obs, entries)
  {
    KeptDistinct(entries);
    DuplicatesEmpty(s, entries);
    var a := Collect(SortedSet(ObservedFps(obs)), Increased(s, entries, obs));
    assert Duplicates(s, entries) + a == a;
  }

  /** The prompts are exactly what the filter drops. */
  lemma PromptFilter(s: Setting, obs: seq<Observed>, entries: seq<Entry>)
    requires DistinctFps(entries)
    ensures Raw(s, obs, entries) == Caused(s, obs, entries) + Prompted(s, obs, entries)
    ensures Filter(Raw(s, obs, entries), NotPrompt) == Caused(s, obs, entries)
  {
    RawSplit(s, obs, entries);
    var a, c := Caused(s, obs, entries), Prompted(s, obs, entries);
    forall v | v in a ensures NotPrompt(v) { CausedIsNoPrompt(s, obs, entries, v); }
    forall v | v in c ensures !NotPrompt(v) { PromptedIsPrompt(s, obs, entries, v); }
    FilterAll(a, NotPrompt);
    FilterNone(c, NotPrompt);
    FilterAppend(a, c, NotPrompt);
  }

  lemma CausedSurvives(s: Setting, obs: seq<Observed>, entries: seq<Entry>, after: seq<Entry>)
    requires DistinctFps(entries) && DistinctIds(entries)
    requires after == RemoveEntries(entries, Sorted(AllResolved(obs, entries)))
    ensures Caused(s, obs, after) == Caused(s, obs, entries)
  {
    JudgedSurvives(s, obs, entries, after);
    IncreasedSurvives(s, obs, entries, after);
  }

  lemma JudgedByLookups(s: Setting, a: seq<Entry>, b: seq<Entry>, f: Observed)
    requires Find(a, f.fingerprint) == Find(b, f.fingerprint)
    requires WithIdentity(a, f.identity) == WithIdentity(b, f.identity)
    ensures Judge(s, a)(f) == Judge(s, b)(f)
  {
  }

  lemma IncreasedByLookup(s: Setting, a: seq<Entry>, b: seq<Entry>, obs: seq<Observed>, fp: string)
    requires Find(a, fp) == Find(b, fp)
    ensures Increased(s, a, obs)(fp) == Increased(s, b, obs)(fp)
  {
  }

  lemma JudgedSurvives(s: Setting, obs: seq<Observed>, entries: seq<Entry>, after: seq<Entry>)
    requires DistinctFps(entries) && DistinctIds(entries)
    requires after == RemoveEntries(entries, Sorted(AllResolved(obs, entries)))
    ensures Collect(obs, Judge(s, after)) == Collect(obs, Judge(s, entries))
  {
    forall f | f in obs ensures Judge(s, after)(f) == Judge(s, entries)(f) {
      LookupsSurvive(obs, entries, after, f);
      JudgedByLookups(s, after, entries, f);
    }
    CollectSame(obs, Judge(s, after), Judge(s, entries));
  }

  lemma IncreasedSurvives(s: Setting, obs: seq<Observed>, entries: seq<Entry>, after: seq<Entry>)
    requires DistinctFps(entries) && DistinctIds(entries)
    requires after == RemoveEntries(entries, Sorted(AllResolved(obs, entries)))
    ensures Collect(SortedSet(ObservedFps(obs)), Increased(s, after, obs))
         == Collect(SortedSet(ObservedFps(obs)), Increased(s, entries, obs))
  {
    forall fp | fp in SortedSet(ObservedFps(obs))
      ensures Increased(s, after, obs)(fp) == Increased(s, entries, obs)(fp)
    {
      var f :| f in obs && f.fingerprint == fp;
      LookupsSurvive(obs, entries, after, f);
      IncreasedByLookup(s, after, entries, obs, fp);
    }
    CollectSame(SortedSet(ObservedFps(obs)), Increased(s, after, obs), Increased(s, entries, obs));
  }

  lemma StatusSurvives(s: Setting, obs: seq<Observed>, entries: seq<Entry>, after: seq<Entry>, st: Status)
    requires DistinctFps(entries) && DistinctIds(entries)
    requires after == RemoveEntries(entries, Sorted(AllResolved(obs, entries)))
    ensures WithStatus(s.today, after, obs, st) == WithStatus(s.today, entries, obs, st)
  {
    forall f | f in obs ensures StatusOf(s.today, after, f) == StatusOf(s.today, entries, f) {
      LookupsSurvive(obs, entries, after, f);
    }
    FilterSame(obs, StatusIs(s.today, after, st), StatusIs(s.today, entries, st));
  }

  /**
   One ratchet step. Deleting exactly the suggested removals and comparing the same
   observations again leaves the old violations, in order, without the removal prompts,
   and nothing further to remove.
   */
  lemma RatchetStep(s: Setting, obs: seq<Observed>, entries: seq<Entry>)
    requires DistinctFps(entries) && DistinctIds(entries)
    ensures var old_ := Comparing(s, obs, entries);
            var now := Comparing(s, obs, RemoveEntries(entries, old_.suggestedRemovals));
            && now.violations == Filter(old_.violations, NotPrompt)
            && now.resolvedEntryIds == now.suggestedRemovals == []
            && now.known == old_.known && now.new_ == old_.new_
  {
    var ids := Sorted(AllResolved(obs, entries));
    var after := RemoveEntries(entries, ids);
    KeptDistinct(entries);
    FilterKeepsDistinctFps(entries, NotIn(ids));
    KeptDistinct(after);
    PromptFilter(s, obs, entries);
    CausedSurvives(s, obs, entries, after);
    StatusSurvives(s, obs, entries, after, Known);
    StatusSurvives(s, obs, entries, after, New);
    NothingResolved(s, obs, entries, after);
    SortFilter(Raw(s, obs, entries), ViolationKey, NotPrompt);
    assert Raw(s, obs, after) == Caused(s, obs, entries);
  }

  lemma {:induction false} FilterSame<T>(s: seq<T>, p: T -> bool, q: T -> bool)
    requires forall x :: x in s ==> p(x) == q(x)
    ensures Filter(s, p) == Filter(s, q)
  {
    if s != [] { FilterSame(s[1..], p, q); }
  }

  lemma NothingResolved(s: Setting, obs: seq<Observed>, entries: seq<Entry>, after: seq<Entry>)
    requires DistinctFps(entries) && DistinctIds(entries)
    requires after == RemoveEntries(entries, Sorted(AllResolved(obs, entries)))
    ensures AllResolved(obs, after) == []
    ensures Raw(s, obs, after) == Caused(s, obs, after)
  {
    var keep := NotIn(Sorted(AllResolved(obs, entries)));
    FilterKeepsDistinctFps(entries, keep);
    KeptDistinct(after);
    forall e | e in after ensures !Resolved(e, obs) {
      FilterMember(entries, keep, e);
      SuggestedIffResolved(obs, entries, e);
    }
    var fps := SortedSet(EntryFps(after));
    CollectEmpty(fps, ResolvedIds(after, obs));
    PromptsQuiet(s, obs, after);
    PromptFilter(s, obs, after);
  }
}
