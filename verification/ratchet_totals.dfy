/**
 The totals of a comparison: every observation is accounted for once, every violation
 kind is counted by its summary line, and neither depends on input order.
 */
module RatchetTotals {
  import opened Order
  import opened Comparator
  import opened Ratchet

  // ------------------------------------------------------------ conservation

  lemma {:induction false} StatusesPartition(today: int, kept: seq<Entry>, obs: seq<Observed>)
    ensures multiset(obs) == multiset(WithStatus(today, kept, obs, Known)) + multiset(WithStatus(today, kept, obs, New))
                           + multiset(WithStatus(today, kept, obs, Changed))
                           + multiset(WithStatus(today, kept, obs, ExpiredMatch))
  {
    if obs != [] {
      StatusesPartition(today, kept, obs[1..]);
      MultisetHead(obs);
      FilterHead(obs, StatusIs(today, kept, Known));
      FilterHead(obs, StatusIs(today, kept, New));
      FilterHead(obs, StatusIs(today, kept, Changed));
      FilterHead(obs, StatusIs(today, kept, ExpiredMatch));
    }
  }

  /** The violation kind an observation's status causes. */
  function KindOf(st: Status): Kind
    requires st != Known
  {
    match st
    case ExpiredMatch => ExpiredException
    case Changed => ChangedSignature
    case New => NewFinding
  }

  lemma {:induction false} JudgedCount(s: Setting, kept: seq<Entry>, obs: seq<Observed>, st: Status)
    requires st != Known
    ensures CountKind(Collect(obs, Judge(s, kept)), KindOf(st)) == |WithStatus(s.today, kept, obs, st)|
  {
    if obs != [] {
      JudgedCount(s, kept, obs[1..], st);
      FilterAppend(Judge(s, kept)(obs[0]), Collect(obs[1..], Judge(s, kept)), OfKind(KindOf(st)));
      JudgedOneCount(s, kept, obs[0], st);
    }
  }

  lemma JudgedOneCount(s: Setting, kept: seq<Entry>, f: Observed, st: Status)
    requires st != Known
    ensures CountKind(Judge(s, kept)(f), KindOf(st)) == if StatusOf(s.today, kept, f) == st then 1 else 0
  {
    var one := JudgeOne(s, kept, f);
    if one != [] {
      assert one == [one[0]];
      FilterSingleton(one[0], OfKind(KindOf(st)));
    }
  }

  lemma CountNone(vs: seq<Violation>, kind: Kind)
    requires forall v :: v in vs ==> v.kind != kind
    ensures CountKind(vs, kind) == 0
  {
    FilterNone(vs, OfKind(kind));
  }

  lemma CountAppend(a: seq<Violation>, b: seq<Violation>, kind: Kind)
    ensures CountKind(a + b, kind) == CountKind(a, kind) + CountKind(b, kind)
  {
    FilterAppend(a, b, OfKind(kind));
  }

  lemma {:induction false} DuplicatesKind(s: Setting, entries: seq<Entry>, v: Violation)
    requires v in Duplicates(s, entries)
    ensures v.kind == MalformedBaseline
  {
    var init := entries[..|entries| - 1];
    if v in Duplicates(s, init) { DuplicatesKind(s, init, v); }
  }

  lemma IncreasedAtKind(s: Setting, kept: seq<Entry>, obs: seq<Observed>, fp: string, v: Violation)
    requires v in IncreasedAt(s, kept, obs, fp)
    ensures v.kind == IncreasedFinding
  {
  }

  lemma IncreasedKind(s: Setting, kept: seq<Entry>, obs: seq<Observed>, v: Violation)
    requires v in Collect(SortedSet(ObservedFps(obs)), Increased(s, kept, obs))
    ensures v.kind == IncreasedFinding
  {
    CollectMember(SortedSet(ObservedFps(obs)), Increased(s, kept, obs), v);
    var fp :| fp in ObservedFps(obs) && v in Increased(s, kept, obs)(fp);
    IncreasedAtKind(s, kept, obs, fp, v);
  }

  lemma JudgedKind(s: Setting, kept: seq<Entry>, obs: seq<Observed>, v: Violation)
    requires v in Collect(obs, Judge(s, kept))
    ensures v.kind == ExpiredException || v.kind == ChangedSignature || v.kind == NewFinding
  {
    CollectMember(obs, Judge(s, kept), v);
    var f :| f in obs && v in Judge(s, kept)(f);
    assert v in JudgeOne(s, kept, f);
  }

  lemma CountRaw(s: Setting, obs: seq<Observed>, entries: seq<Entry>, kind: Kind)
    ensures CountKind(Comparing(s, obs, entries).violations, kind)
         == CountKind(Duplicates(s, entries), kind)
          + CountKind(Collect(SortedSet(ObservedFps(obs)), Increased(s, Kept(entries), obs)), kind)
          + CountKind(Collect(obs, Judge(s, Kept(entries))), kind)
          + CountKind(Prompted(s, obs, Kept(entries)), kind)
  {
    var kept := Kept(entries);
    var raw := Raw(s, obs, entries);
    SortMultiset(raw, ViolationKey);
    FilterPermutation(SortViolations(raw), raw, OfKind(kind));
    var a := Duplicates(s, entries);
    var b := Collect(SortedSet(ObservedFps(obs)), Increased(s, kept, obs));
    var c := Collect(obs, Judge(s, kept));
    CountAppend(a + b + c, Prompted(s, obs, kept), kind);
    CountAppend(a + b, c, kind);
    CountAppend(a, b, kind);
  }

  /** Duplicate reports, increases and removal prompts never carry the kind of another pass. */
  lemma CountOthers(s: Setting, obs: seq<Observed>, entries: seq<Entry>, kind: Kind)
    ensures CountKind(Duplicates(s, entries), kind) == if kind == MalformedBaseline then |Duplicates(s, entries)| else 0
    ensures kind != IncreasedFinding ==>
              CountKind(Collect(SortedSet(ObservedFps(obs)), Increased(s, Kept(entries), obs)), kind) == 0
    ensures kind != StaleEntry && kind != ResolvedNotRemoved ==> CountKind(Prompted(s, obs, Kept(entries)), kind) == 0
  {
    var a := Duplicates(s, entries);
    forall v | v in a ensures v.kind == MalformedBaseline { DuplicatesKind(s, entries, v); }
    if kind == MalformedBaseline { FilterAll(a, OfKind(kind)); } else { CountNone(a, kind); }
    var b := Collect(SortedSet(ObservedFps(obs)), Increased(s, Kept(entries), obs));
    forall v | v in b ensures v.kind == IncreasedFinding { IncreasedKind(s, Kept(entries), obs, v); }
    if kind != IncreasedFinding { CountNone(b, kind); }
    var d := Prompted(s, obs, Kept(entries));
    forall v | v in d ensures !NotPrompt(v) { PromptedIsPrompt(s, obs, Kept(entries), v); }
    if kind != StaleEntry && kind != ResolvedNotRemoved { CountNone(d, kind); }
  }

  /** Duplicated fingerprints are all the malformed-baseline violations. */
  lemma CountMalformed(s: Setting, obs: seq<Observed>, entries: seq<Entry>)
    ensures CountKind(Comparing(s, obs, entries).violations, MalformedBaseline) == |Duplicates(s, entries)|
  {
    CountRaw(s, obs, entries, MalformedBaseline);
    CountOthers(s, obs, entries, MalformedBaseline);
    var c := Collect(obs, Judge(s, Kept(entries)));
    forall v | v in c ensures v.kind != MalformedBaseline { JudgedKind(s, Kept(entries), obs, v); }
    CountNone(c, MalformedBaseline);
  }

  /** An observation's own kind is reported by the judging pass alone. */
  lemma CountJudged(s: Setting, obs: seq<Observed>, entries: seq<Entry>, st: Status)
    requires st != Known
    ensures CountKind(Comparing(s, obs, entries).violations, KindOf(st))
         == |WithStatus(s.today, Kept(entries), obs, st)|
  {
    CountRaw(s, obs, entries, KindOf(st));
    CountOthers(s, obs, entries, KindOf(st));
    JudgedCount(s, Kept(entries), obs, st);
  }

  /**
   Conservation: each observation is known, new, changed or matched to an expired entry,
   exactly once, and the last three are counted by the violations they cause.
   */
  lemma ObservationsConserved(s: Setting, obs: seq<Observed>, entries: seq<Entry>)
    ensures var r := Comparing(s, obs, entries);
            var kept := Kept(entries);
            && multiset(obs) == multiset(r.known) + multiset(r.new_) + multiset(WithStatus(s.today, kept, obs, Changed))
                              + multiset(WithStatus(s.today, kept, obs, ExpiredMatch))
            && r.summary.observedTotal == r.summary.knownTotal + r.summary.newTotal + r.summary.changedTotal
                                        + CountKind(r.violations, ExpiredException)
            && r.summary.newTotal == CountKind(r.violations, NewFinding)
            && r.summary.changedTotal == CountKind(r.violations, ChangedSignature)
  {
    var kept := Kept(entries);
    StatusesPartition(s.today, kept, obs);
    assert |multiset(obs)| == |obs|;
    CountJudged(s, obs, entries, ExpiredMatch);
    CountJudged(s, obs, entries, New);
    CountJudged(s, obs, entries, Changed);
  }

  // -------------------------------------------------- independence of order

  lemma SameMembers<T>(a: seq<T>, b: seq<T>)
    requires multiset(a) == multiset(b)
    ensures forall x :: x in a <==> x in b
    ensures |a| == |b|
  {
    assert |multiset(a)| == |a| && |multiset(b)| == |b|;
    forall x ensures x in a <==> x in b {
      assert x in a <==> x in multiset(a);
      assert x in b <==> x in multiset(b);
    }
  }

  /** Everything a decision reads: the verdict, every total and the resolved ids. */
  ghost predicate SameVerdict(a: Comparison, b: Comparison) {
    && a.passed == b.passed && a.summary == b.summary
    && a.resolvedEntryIds == b.resolvedEntryIds && a.suggestedRemovals == b.suggestedRemovals
  }

  /** The number of violations pass by pass. */
  lemma RawLength(s: Setting, obs: seq<Observed>, entries: seq<Entry>)
    ensures |Comparing(s, obs, entries).violations|
         == |Duplicates(s, entries)| + |Collect(SortedSet(ObservedFps(obs)), Increased(s, Kept(entries), obs))|
          + |Collect(obs, Judge(s, Kept(entries)))|
          + |Collect(SortedSet(EntryFps(Kept(entries))), Prompts(s, Kept(entries), obs))|
  {
    SortMultiset(Raw(s, obs, entries), ViolationKey);
  }

  lemma IncreasedLengthSame(s: Setting, kept: seq<Entry>, a: seq<Observed>, b: seq<Observed>)
    requires multiset(a) == multiset(b)
    ensures ObservedFps(a) == ObservedFps(b) && ObservedIds(a) == ObservedIds(b)
    ensures |Collect(SortedSet(ObservedFps(a)), Increased(s, kept, a))|
         == |Collect(SortedSet(ObservedFps(b)), Increased(s, kept, b))|
  {
    SameMembers(a, b);
    var fps := SortedSet(ObservedFps(a));
    forall fp | fp in fps ensures |Increased(s, kept, a)(fp)| == |Increased(s, kept, b)(fp)| {
      FilterPermutation(a, b, HasFp(fp));
    }
    CollectSameLength(fps, Increased(s, kept, a), Increased(s, kept, b));
  }

  /** Prompts and resolved ids only depend on what is observed somewhere. */
  lemma SameResolution(s: Setting, kept: seq<Entry>, a: seq<Observed>, b: seq<Observed>)
    requires ObservedFps(a) == ObservedFps(b) && ObservedIds(a) == ObservedIds(b)
    ensures Collect(SortedSet(EntryFps(kept)), Prompts(s, kept, a))
         == Collect(SortedSet(EntryFps(kept)), Prompts(s, kept, b))
    ensures Collect(SortedSet(EntryFps(kept)), ResolvedIds(kept, a))
         == Collect(SortedSet(EntryFps(kept)), ResolvedIds(kept, b))
  {
    var fps := SortedSet(EntryFps(kept));
    CollectSame(fps, Prompts(s, kept, a), Prompts(s, kept, b));
    CollectSame(fps, ResolvedIds(kept, a), ResolvedIds(kept, b));
  }

  /** The verdict does not depend on the order in which findings are observed. */
  lemma ObservationOrderIrrelevant(s: Setting, a: seq<Observed>, b: seq<Observed>, entries: seq<Entry>)
    requires multiset(a) == multiset(b)
    ensures SameVerdict(Comparing(s, a, entries), Comparing(s, b, entries))
  {
    var kept := Kept(entries);
    SameMembers(a, b);
    IncreasedLengthSame(s, kept, a, b);
    CollectPermutation(a, b, Judge(s, kept));
    SameResolution(s, kept, a, b);
    FilterPermutation(a, b, StatusIs(s.today, kept, Known));
    FilterPermutation(a, b, StatusIs(s.today, kept, New));
    FilterPermutation(a, b, StatusIs(s.today, kept, Changed));
    RawLength(s, a, entries);
    RawLength(s, b, entries);
    CountMalformed(s, a, entries);
    CountMalformed(s, b, entries);
  }

  lemma {:induction false} DistinctFpsByCount(entries: seq<Entry>)
    ensures DistinctFps(entries)
       <==> Distinct(entries) && forall x, y :: x in entries && y in entries && x.fingerprint == y.fingerprint ==>
            x == y
  {
    if DistinctFps(entries) {
      forall x, y | x in entries && y in entries && x.fingerprint == y.fingerprint ensures x == y {
        var i :| 0 <= i < |entries| && entries[i] == x;
        var j :| 0 <= j < |entries| && entries[j] == y;
        assert i == j;
      }
    }
  }

  lemma LedgerOrderLookups(s: Setting, obs: seq<Observed>, a: seq<Entry>, b: seq<Entry>)
    requires multiset(a) == multiset(b) && DistinctFps(a)
    ensures DistinctFps(b)
    ensures forall fp :: Find(a, fp) == Find(b, fp)
    ensures forall f :: StatusOf(s.today, a, f) == StatusOf(s.today, b, f)
  {
    SameMembers(a, b);
    DistinctFpsByCount(a);
    DistinctFpsByCount(b);
    DistinctPermutation(a, b);
    forall fp ensures Find(a, fp) == Find(b, fp) {
      if e :| e in a && e.fingerprint == fp { FindDistinct(a, e); FindDistinct(b, e); }
    }
    forall f ensures StatusOf(s.today, a, f) == StatusOf(s.today, b, f) {
      FilterPermutation(a, b, HasIdentity(f.identity));
    }
  }

  lemma LedgerOrderPrompts(s: Setting, obs: seq<Observed>, a: seq<Entry>, b: seq<Entry>)
    requires EntryFps(a) == EntryFps(b) && forall fp :: Find(a, fp) == Find(b, fp)
    ensures Prompted(s, obs, a) == Prompted(s, obs, b)
    ensures Collect(SortedSet(EntryFps(a)), ResolvedIds(a, obs)) == Collect(SortedSet(EntryFps(b)), ResolvedIds(b, obs))
  {
    var fps := SortedSet(EntryFps(a));
    CollectSame(fps, Prompts(s, a, obs), Prompts(s, b, obs));
    CollectSame(fps, ResolvedIds(a, obs), ResolvedIds(b, obs));
  }

  lemma LedgerOrderCaused(s: Setting, obs: seq<Observed>, a: seq<Entry>, b: seq<Entry>)
    requires forall fp :: Find(a, fp) == Find(b, fp)
    requires forall f :: StatusOf(s.today, a, f) == StatusOf(s.today, b, f)
    ensures |Caused(s, obs, a)| == |Caused(s, obs, b)|
  {
    LedgerOrderIncreased(s, obs, a, b);
    LedgerOrderJudged(s, obs, a, b);
  }

  lemma LedgerOrderIncreased(s: Setting, obs: seq<Observed>, a: seq<Entry>, b: seq<Entry>)
    requires forall fp :: Find(a, fp) == Find(b, fp)
    ensures Collect(SortedSet(ObservedFps(obs)), Increased(s, a, obs))
         == Collect(SortedSet(ObservedFps(obs)), Increased(s, b, obs))
  {
    forall fp ensures Increased(s, a, obs)(fp) == Increased(s, b, obs)(fp) { assert Find(a, fp) == Find(b, fp); }
    CollectSame(SortedSet(ObservedFps(obs)), Increased(s, a, obs), Increased(s, b, obs));
  }

  lemma LedgerOrderJudged(s: Setting, obs: seq<Observed>, a: seq<Entry>, b: seq<Entry>)
    requires forall f :: StatusOf(s.today, a, f) == StatusOf(s.today, b, f)
    ensures |Collect(obs, Judge(s, a))| == |Collect(obs, Judge(s, b))|
  {
    forall f ensures |Judge(s, a)(f)| == |Judge(s, b)(f)| { JudgedByStatus(s, a, b, f); }
    CollectSameLength(obs, Judge(s, a), Judge(s, b));
  }

  lemma JudgedByStatus(s: Setting, a: seq<Entry>, b: seq<Entry>, f: Observed)
    requires StatusOf(s.today, a, f) == StatusOf(s.today, b, f)
    ensures |Judge(s, a)(f)| == |Judge(s, b)(f)|
  {
    assert |JudgeOne(s, a, f)| == |JudgeOne(s, b, f)|;
  }

  /** With distinct fingerprints the violations are the caused ones and the prompts. */
  lemma ViolationCount(s: Setting, obs: seq<Observed>, entries: seq<Entry>)
    requires DistinctFps(entries)
    ensures var r := Comparing(s, obs, entries);
            && |r.violations| == |Caused(s, obs, entries)| + |Prompted(s, obs, entries)|
            && r.summary.malformedTotal == 0
  {
    PromptFilter(s, obs, entries);
    SortMultiset(Raw(s, obs, entries), ViolationKey);
    DuplicatesEmpty(s, entries);
    CountMalformed(s, obs, entries);
  }

  lemma LedgerOrderParts(s: Setting, obs: seq<Observed>, a: seq<Entry>, b: seq<Entry>)
    requires multiset(a) == multiset(b) && DistinctFps(a)
    ensures DistinctFps(b)
    ensures EntryFps(a) == EntryFps(b) && ExpiredFps(a, s.today) == ExpiredFps(b, s.today)
    ensures Prompted(s, obs, a) == Prompted(s, obs, b)
    ensures Collect(SortedSet(EntryFps(a)), ResolvedIds(a, obs)) == Collect(SortedSet(EntryFps(b)), ResolvedIds(b, obs))
    ensures |Caused(s, obs, a)| == |Caused(s, obs, b)|
    ensures forall st :: WithStatus(s.today, a, obs, st) == WithStatus(s.today, b, obs, st)
  {
    LedgerOrderLookups(s, obs, a, b);
    SameMembers(a, b);
    LedgerOrderPrompts(s, obs, a, b);
    LedgerOrderCaused(s, obs, a, b);
    forall st ensures WithStatus(s.today, a, obs, st) == WithStatus(s.today, b, obs, st) {
      FilterSame(obs, StatusIs(s.today, a, st), StatusIs(s.today, b, st));
    }
  }

  /** With distinct fingerprints, the verdict does not depend on the order of the ledger. */
  lemma LedgerOrderIrrelevant(s: Setting, obs: seq<Observed>, a: seq<Entry>, b: seq<Entry>)
    requires multiset(a) == multiset(b) && DistinctFps(a)
    ensures SameVerdict(Comparing(s, obs, a), Comparing(s, obs, b))
  {
    LedgerOrderParts(s, obs, a, b);
    KeptDistinct(a);
    KeptDistinct(b);
    ViolationCount(s, obs, a);
    ViolationCount(s, obs, b);
  }
}
