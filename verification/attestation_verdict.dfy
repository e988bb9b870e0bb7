/** What the verdict of `l9_ci/governance/attestation.py` means. */
module AttestationVerdict {
  import opened Order
  import opened Wrappers
  import opened Attestation

  // ---------------------------------------------------------------- pass iff

  predicate Met(expected: Option<string>, observed: Option<string>) { expected.Some? ==> observed == expected }

  predicate HashesAgree(a: Attested, e: Expected) {
    e.hashes.Some? && e.hashes.value.Hashes? && a.hashes.Hashes? ==>
      HashMap(e.hashes.value.entries) == HashMap(a.hashes.entries)
  }

  predicate ScalarsAgree(c: Constitution, a: Attested, e: Expected) {
    && c.node.Node? && c.node.id == a.nodeId && Met(c.node.version, a.nodeVersion)
    && Met(c.node.contractVersion, a.contractVersion)
    && Met(e.digest, a.digest) && Met(e.mode, a.policyMode)
  }

  predicate InventoriesAgree(c: Constitution, a: Attested) {
    KindsAgree(KINDS, c, a)
  }

  predicate KindsAgree(kinds: seq<Kind>, c: Constitution, a: Attested) {
    forall k | k in kinds :: KeysOf(Declared(c, k)) == ItemsOf(Inventory(a, k))
  }

  predicate FlagsAgree(c: Constitution, r: map<string, Evidence>) {
    forall d | d in Dependencies(c) :: !FlagDiffers(r, d)
  }

  /** Some declared dependency lists the mode. */
  ghost predicate ModeDeclared(c: Constitution, m: string) {
    exists d :: d in Dependencies(c) && d.declaration.Declaration? && Some(m) in d.declaration.modes
  }

  ghost predicate Agrees(c: Constitution, a: Attested, e: Expected) {
    && ScalarsAgree(c, a, e) && HashesAgree(a, e) && InventoriesAgree(c, a) && FlagsAgree(c, Evidenced(a))
    && Evidenced(a).Keys <= DeclaredNames(c)
    && forall m | m in ItemsOf(a.degraded) :: ModeDeclared(c, m)
  }

  /** The dependency is required and is not attested as ready. */
  predicate Unready(r: map<string, Evidence>, d: Dependency) {
    GoodDependency(d) && d.declaration.required.value
    && (d.name.value !in r || (r[d.name.value].Evidence? && r[d.name.value].ready != Some(true)))
  }

  predicate AllReady(c: Constitution, a: Attested) { forall d | d in Dependencies(c) :: !Unready(Evidenced(a), d) }

  lemma ScalarsIff(c: Constitution, a: Attested, e: Expected)
    requires c.node.Node?
    ensures ScalarDrift(c, a, e) == [] <==> ScalarsAgree(c, a, e)
  {
    NodeIff(c.node, a);
  }

  lemma NodeIff(node: Node, a: Attested)
    requires node.Node?
    ensures NodeDrift(node, a) == []
       <==> node.id == a.nodeId && Met(node.version, a.nodeVersion) && Met(node.contractVersion, a.contractVersion)
  {
  }

  lemma SameLookups<V>(m: map<string, V>, n: map<string, V>)
    requires forall x | x in m.Keys + n.Keys :: Lookup(m, x) == Lookup(n, x)
    ensures m == n
  {
    assert forall x :: x in m <==> x in n by {
      forall x ensures x in m <==> x in n {
        if x in m.Keys + n.Keys { assert Lookup(m, x) == Lookup(n, x); }
      }
    }
    forall x | x in m ensures m[x] == n[x] { assert x in m.Keys + n.Keys; assert Lookup(m, x) == Lookup(n, x); }
  }

  lemma HashesIff(e: map<string, string>, h: map<string, string>)
    ensures HashesDrift(e, h) == [] <==> e == h
  {
    CollectEmpty(SortedSet(e.Keys + h.Keys), PathDrift(e, h));
    PathDriftIff(e, h);
    if HashesDrift(e, h) == [] { SameLookups(e, h); }
  }

  lemma PathDriftIff(e: map<string, string>, h: map<string, string>)
    ensures (forall x | x in SortedSet(e.Keys + h.Keys) :: PathDrift(e, h)(x) == [])
       <==> forall x | x in e.Keys + h.Keys :: Lookup(e, x) == Lookup(h, x)
  {
    forall x ensures PathDrift(e, h)(x) == [] <==> Lookup(e, x) == Lookup(h, x) {
      assert PathDrift(e, h)(x) == When(Differs(e, h)(x), HashMismatch(x));
    }
  }

  lemma KindIff(k: Kind, declared: set<string>, attested: set<string>)
    ensures KindDrift(k, declared, attested) == [] <==> declared == attested
  {
    var p, q := SortedSet(declared - attested), SortedSet(attested - declared);
    CollectEmpty(p, Absences(k));
    CollectEmpty(q, Surpluses(k));
    assert p == [] <==> declared - attested == {};
    assert q == [] <==> attested - declared == {};
    assert forall x :: Absences(k)(x) != [] && Surpluses(k)(x) != [];
    assert p != [] ==> p[0] in p;
    assert q != [] ==> q[0] in q;
  }

  lemma KindsQuiet(kinds: seq<Kind>, c: Constitution, a: Attested)
    ensures Collect(kinds, InventoryDrift(c, a)) == [] <==> KindsAgree(kinds, c, a)
  {
    CollectEmpty(kinds, InventoryDrift(c, a));
    forall k ensures InventoryDrift(c, a)(k) == [] <==> KeysOf(Declared(c, k)) == ItemsOf(Inventory(a, k)) {
      KindIff(k, KeysOf(Declared(c, k)), ItemsOf(Inventory(a, k)));
    }
  }

  lemma FlagsIff(c: Constitution, r: map<string, Evidence>)
    ensures Collect(Dependencies(c), FlagDrift(r)) == [] <==> FlagsAgree(c, r)
  {
    CollectEmpty(Dependencies(c), FlagDrift(r));
  }

  lemma ReportedIff(s: set<string>, f: string -> seq<Drift>)
    requires forall x :: f(x) != []
    ensures Collect(SortedSet(s), f) == [] <==> s == {}
  {
    CollectEmpty(SortedSet(s), f);
    if s != {} { var x :| x in s; assert x in SortedSet(s); }
  }

  lemma {:induction false} ModesMember(s: seq<Dependency>, m: string)
    ensures m in ModesOf(s) <==> exists d :: d in s && d.declaration.Declaration? && Some(m) in d.declaration.modes
  {
    if s != [] {
      var last := s[|s| - 1];
      ModesMember(s[..|s| - 1], m);
      assert s == s[..|s| - 1] + [last];
      assert m in OwnModes(last) <==> last.declaration.Declaration? && Some(m) in last.declaration.modes;
    }
  }

  lemma NothingLeft(s: set<string>, t: set<string>)
    ensures s - t == {} <==> forall x :: x in s ==> x in t
  {
    forall x ensures x in s - t <==> x in s && x !in t {}
  }

  lemma ModesIff(c: Constitution, a: Attested)
    ensures Collect(SortedSet(ItemsOf(a.degraded) - DeclaredModes(c)), ModeDrift()) == []
       <==> forall m | m in ItemsOf(a.degraded) :: ModeDeclared(c, m)
  {
    ReportedIff(ItemsOf(a.degraded) - DeclaredModes(c), ModeDrift());
    forall m ensures m in DeclaredModes(c) <==> ModeDeclared(c, m) { ModesMember(Dependencies(c), m); }
    NothingLeft(ItemsOf(a.degraded), DeclaredModes(c));
  }

  /** The four parts of the declared differences, over any list of kinds. */
  lemma PartsQuiet(kinds: seq<Kind>, c: Constitution, a: Attested)
    ensures DriftOver(kinds, c, a) == []
       <==> && KindsAgree(kinds, c, a)
            && FlagsAgree(c, Evidenced(a)) && Evidenced(a).Keys <= DeclaredNames(c)
            && forall m | m in ItemsOf(a.degraded) :: ModeDeclared(c, m)
  {
    KindsQuiet(kinds, c, a);
    FlagsIff(c, Evidenced(a));
    StrangersIff(c, a);
    ModesIff(c, a);
    FourEmpty(Collect(kinds, InventoryDrift(c, a)), Collect(Dependencies(c), FlagDrift(Evidenced(a))),
              Collect(SortedSet(Evidenced(a).Keys - DeclaredNames(c)), StrangerDrift()),
              Collect(SortedSet(ItemsOf(a.degraded) - DeclaredModes(c)), ModeDrift()));
  }

  lemma DeclaredIff(c: Constitution, a: Attested)
    ensures DeclaredDrift(c, a) == []
       <==> InventoriesAgree(c, a) && FlagsAgree(c, Evidenced(a)) && Evidenced(a).Keys <= DeclaredNames(c)
            && forall m | m in ItemsOf(a.degraded) :: ModeDeclared(c, m)
  {
    PartsQuiet(KINDS, c, a);
  }

  lemma StrangersIff(c: Constitution, a: Attested)
    ensures Collect(SortedSet(Evidenced(a).Keys - DeclaredNames(c)), StrangerDrift()) == []
       <==> Evidenced(a).Keys <= DeclaredNames(c)
  {
    ReportedIff(Evidenced(a).Keys - DeclaredNames(c), StrangerDrift());
    NothingLeft(Evidenced(a).Keys, DeclaredNames(c));
  }

  lemma FourEmpty(w: seq<Drift>, x: seq<Drift>, y: seq<Drift>, z: seq<Drift>)
    ensures w + x + y + z == [] <==> w == [] && x == [] && y == [] && z == []
  {
    assert |w + x + y + z| == |w| + |x| + |y| + |z|;
  }

  lemma DriftIff(c: Constitution, a: Attested, e: Expected)
    requires c.node.Node?
    ensures AllDrift(c, a, e) == [] <==> Agrees(c, a, e)
  {
    ScalarsIff(c, a, e);
    HashDriftIff(a, e);
    DeclaredIff(c, a);
  }

  lemma HashDriftIff(a: Attested, e: Expected)
    ensures HashDrift(a, e) == [] <==> HashesAgree(a, e)
  {
    if e.hashes.Some? && e.hashes.value.Hashes? && a.hashes.Hashes? {
      HashesIff(HashMap(e.hashes.value.entries), HashMap(a.hashes.entries));
    }
  }

  lemma GapsIff(c: Constitution, a: Attested)
    ensures Gaps(c, a) == [] <==> AllReady(c, a)
  {
    CollectEmpty(Dependencies(c), DependencyGap(Evidenced(a)));
  }

  /** The exact meaning of each verdict on well-formed input. */
  lemma VerdictIff(safe: string -> bool, c: Constitution, a: Attested, e: Expected)
    requires WellFormed(safe, c, a, e)
    ensures Evaluate(safe, c, a, e).Evaluated?
    ensures Evaluate(safe, c, a, e).status == Pass <==> Agrees(c, a, e) && AllReady(c, a)
    ensures Evaluate(safe, c, a, e).status == Incomplete <==> Agrees(c, a, e) && !AllReady(c, a)
    ensures Evaluate(safe, c, a, e).status == Fail <==> !Agrees(c, a, e)
  {
    DriftIff(c, a, e);
    GapsIff(c, a);
  }

  /** A pass leaves no required dependency without evidence, unready, or with a missing variable. */
  lemma PassMeansReady(safe: string -> bool, c: Constitution, a: Attested, e: Expected, d: Dependency)
    requires Evaluate(safe, c, a, e).Evaluated? && Evaluate(safe, c, a, e).status == Pass
    requires d in Dependencies(c) && d.declaration.required == Some(true)
    ensures d.name.Some? && d.name.value in Evidenced(a)
    ensures Evidenced(a)[d.name.value].Evidence? && Evidenced(a)[d.name.value].ready == Some(true)
            && Evidenced(a)[d.name.value].required == Some(true) && ItemsOf(Evidenced(a)[d.name.value].missing) == {}
  {
    DriftIff(c, a, e);
    GapsIff(c, a);
    EvidenceIsGood(a.readiness.entries);
    assert !Unready(Evidenced(a), d) && !FlagDiffers(Evidenced(a), d);
  }

  // ----------------------------------------------------------------- counts

  /** The elements of `s` that `p` selects. */
  function Selected<T>(s: seq<T>, p: T -> bool): set<T> { set x | x in s && p(x) }

  lemma SelectedTail<T>(s: seq<T>, p: T -> bool)
    requires s != [] && Distinct(s)
    ensures Distinct(s[1..]) && s[0] !in s[1..]
    ensures Selected(s, p) == Selected(s[1..], p) + if p(s[0]) then {s[0]} else {}
  {
    assert forall k :: 0 <= k < |s| - 1 ==> s[1..][k] == s[k + 1];
    assert s == [s[0]] + s[1..];
  }

  lemma {:induction false} CountCollect<T, U>(s: seq<T>, f: T -> seq<U>, p: T -> bool)
    requires Distinct(s) && forall x | x in s :: |f(x)| == if p(x) then 1 else 0
    ensures |Collect(s, f)| == |Selected(s, p)|
  {
    if s != [] {
      SelectedTail(s, p);
      CountCollect(s[1..], f, p);
    }
  }

  function Always(): string -> bool { x => true }

  lemma CountReported(s: set<string>, f: string -> seq<Drift>)
    requires forall x :: |f(x)| == 1
    ensures |Collect(SortedSet(s), f)| == |s|
  {
    CountCollect(SortedSet(s), f, Always());
    assert Selected(SortedSet(s), Always()) == s;
  }

  function Bit(p: bool): nat { if p then 1 else 0 }

  function KindCount(declared: set<string>, attested: set<string>): nat {
    |declared - attested| + |attested - declared|
  }

  function DifferingPaths(e: map<string, string>, h: map<string, string>): set<string> {
    set p | p in e.Keys + h.Keys && Differs(e, h)(p)
  }

  function HashCount(a: Attested, e: Expected): nat {
    if e.hashes.Some? && e.hashes.value.Hashes? && a.hashes.Hashes?
    then |DifferingPaths(HashMap(e.hashes.value.entries), HashMap(a.hashes.entries))| else 0
  }

  function ScalarCount(c: Constitution, a: Attested, e: Expected): nat
    requires c.node.Node?
  {
    Bit(c.node.id != a.nodeId) + Bit(!Met(c.node.version, a.nodeVersion))
    + Bit(!Met(c.node.contractVersion, a.contractVersion))
    + Bit(!Met(e.digest, a.digest)) + Bit(!Met(e.mode, a.policyMode))
  }

  /** How many names of a kind are declared or attested, but not both. */
  function KindSize(c: Constitution, a: Attested): Kind -> nat {
    k => KindCount(KeysOf(Declared(c, k)), ItemsOf(Inventory(a, k)))
  }

  function SumOf<T>(s: seq<T>, size: T -> nat): nat { if s == [] then 0 else size(s[0]) + SumOf(s[1..], size) }

  /** The total over the three kinds. */
  function InventoryCount(c: Constitution, a: Attested): nat { SumOf(KINDS, KindSize(c, a)) }

  lemma CountScalars(c: Constitution, a: Attested, e: Expected)
    requires c.node.Node?
    ensures |ScalarDrift(c, a, e)| == ScalarCount(c, a, e)
  {
    CountNode(c.node, a);
  }

  lemma CountNode(node: Node, a: Attested)
    requires node.Node?
    ensures |NodeDrift(node, a)|
         == Bit(node.id != a.nodeId) + Bit(!Met(node.version, a.nodeVersion))
          + Bit(!Met(node.contractVersion, a.contractVersion))
  {
  }

  lemma CountHashes(e: map<string, string>, h: map<string, string>)
    ensures |HashesDrift(e, h)| == |DifferingPaths(e, h)|
  {
    CountCollect(SortedSet(e.Keys + h.Keys), PathDrift(e, h), Differs(e, h));
    SelectedSorted(e.Keys + h.Keys, Differs(e, h));
  }

  lemma SelectedSorted(s: set<string>, p: string -> bool)
    ensures Selected(SortedSet(s), p) == set x | x in s && p(x)
  {
  }

  lemma CountKind(k: Kind, declared: set<string>, attested: set<string>)
    ensures |KindDrift(k, declared, attested)| == KindCount(declared, attested)
  {
    CountReported(declared - attested, Absences(k));
    CountReported(attested - declared, Surpluses(k));
  }

  lemma {:induction false} CollectLength<T, U>(s: seq<T>, f: T -> seq<U>, size: T -> nat)
    requires forall x | x in s :: |f(x)| == size(x)
    ensures |Collect(s, f)| == SumOf(s, size)
  {
    if s != [] { CollectLength(s[1..], f, size); }
  }

  lemma CountInventories(kinds: seq<Kind>, c: Constitution, a: Attested)
    ensures |Collect(kinds, InventoryDrift(c, a))| == SumOf(kinds, KindSize(c, a))
  {
    forall k | k in kinds ensures |InventoryDrift(c, a)(k)| == KindSize(c, a)(k) {
      CountKind(k, KeysOf(Declared(c, k)), ItemsOf(Inventory(a, k)));
    }
    CollectLength(kinds, InventoryDrift(c, a), KindSize(c, a));
  }

  function Contradicts(r: map<string, Evidence>): Dependency -> bool { d => FlagDiffers(r, d) }

  function Lacks(r: map<string, Evidence>): Dependency -> bool { d => Unready(r, d) }

  function ContradictedFlags(c: Constitution, r: map<string, Evidence>): set<Dependency> {
    Selected(Dependencies(c), Contradicts(r))
  }

  function UnreadyOnes(c: Constitution, r: map<string, Evidence>): set<Dependency> {
    Selected(Dependencies(c), Lacks(r))
  }

  lemma CountFlags(c: Constitution, r: map<string, Evidence>)
    requires Distinct(Dependencies(c))
    ensures |Collect(Dependencies(c), FlagDrift(r))| == |ContradictedFlags(c, r)|
  {
    CountCollect(Dependencies(c), FlagDrift(r), Contradicts(r));
  }

  /** `incomplete_count` is the number of required dependencies without readiness. */
  lemma CountGaps(c: Constitution, a: Attested)
    requires Distinct(Dependencies(c))
    ensures |Gaps(c, a)| == |UnreadyOnes(c, Evidenced(a))|
  {
    CountCollect(Dependencies(c), DependencyGap(Evidenced(a)), Lacks(Evidenced(a)));
  }

  /** `drift_count` is the total size of all the differences: nothing is reported twice, nothing is merged. */
  lemma CountDrift(c: Constitution, a: Attested, e: Expected)
    requires c.node.Node? && Distinct(Dependencies(c))
    ensures |AllDrift(c, a, e)|
         == ScalarCount(c, a, e) + HashCount(a, e) + InventoryCount(c, a) + |ContradictedFlags(c, Evidenced(a))|
          + |Evidenced(a).Keys - DeclaredNames(c)| + |ItemsOf(a.degraded) - DeclaredModes(c)|
  {
    CountScalars(c, a, e);
    if e.hashes.Some? && e.hashes.value.Hashes? && a.hashes.Hashes? {
      CountHashes(HashMap(e.hashes.value.entries), HashMap(a.hashes.entries));
    }
    CountDeclared(c, a);
  }

  lemma CountDeclared(c: Constitution, a: Attested)
    requires Distinct(Dependencies(c))
    ensures |DeclaredDrift(c, a)|
         == InventoryCount(c, a) + |ContradictedFlags(c, Evidenced(a))|
          + |Evidenced(a).Keys - DeclaredNames(c)| + |ItemsOf(a.degraded) - DeclaredModes(c)|
  {
    CountInventories(KINDS, c, a);
    CountFlags(c, Evidenced(a));
    CountReported(Evidenced(a).Keys - DeclaredNames(c), StrangerDrift());
    CountReported(ItemsOf(a.degraded) - DeclaredModes(c), ModeDrift());
  }

  // ------------------------------------------------------------ list order

  /** The same list up to order. */
  ghost predicate SameNames(n: Names, m: Names) {
    n.List? == m.List? && (n.List? ==> multiset(n.items) == multiset(m.items))
  }

  lemma SameNamesRead(n: Names, m: Names)
    requires SameNames(n, m)
    ensures GoodNames(n) <==> GoodNames(m)
    ensures ItemsOf(n) == ItemsOf(m)
  {
    if n.List? {
      assert forall x :: x in n.items <==> x in multiset(n.items);
      assert forall x :: x in m.items <==> x in multiset(m.items);
      assert |multiset(n.items)| == |n.items| && |multiset(m.items)| == |m.items|;
      assert Members(n.items) == Members(m.items);
    }
  }

  ghost predicate SameEvidence(x: Evidence, y: Evidence) {
    x.Evidence? == y.Evidence?
    && (x.Evidence? ==>
          x.required == y.required && x.ready == y.ready && SameNames(x.env, y.env) && SameNames(x.missing, y.missing))
  }

  ghost predicate SameEntries(s: seq<ReadinessEntry>, t: seq<ReadinessEntry>) {
    |s| == |t| && forall k | 0 <= k < |s| :: s[k].name == t[k].name && SameEvidence(s[k].evidence, t[k].evidence)
  }

  /** Two attestations that differ at most in the order of their lists. */
  ghost predicate SameUpToListOrder(a: Attested, b: Attested) {
    && a.nodeId == b.nodeId && a.nodeVersion == b.nodeVersion && a.contractVersion == b.contractVersion
    && a.policyMode == b.policyMode
    && a.digest == b.digest && a.timestampValid == b.timestampValid && a.hashes == b.hashes
    && SameNames(a.actions, b.actions) && SameNames(a.tools, b.tools) && SameNames(a.events, b.events)
    && SameNames(a.degraded, b.degraded)
    && a.readiness.Readiness? == b.readiness.Readiness?
    && (a.readiness.Readiness? ==> SameEntries(a.readiness.entries, b.readiness.entries))
  }

  lemma SameEvidenceRead(x: Evidence, y: Evidence)
    requires SameEvidence(x, y)
    ensures GoodEvidence(x) <==> GoodEvidence(y)
  {
    if x.Evidence? {
      SameNamesRead(x.env, y.env);
      SameNamesRead(x.missing, y.missing);
    }
  }

  lemma SameEntriesGood(s: seq<ReadinessEntry>, t: seq<ReadinessEntry>)
    requires SameEntries(s, t)
    ensures (forall e | e in s :: GoodEntry(e)) <==> (forall e | e in t :: GoodEntry(e))
  {
    forall k | 0 <= k < |s| ensures GoodEntry(s[k]) <==> GoodEntry(t[k]) {
      SameEvidenceRead(s[k].evidence, t[k].evidence);
    }
    assert (forall e | e in s :: GoodEntry(e)) <==> forall k | 0 <= k < |s| :: GoodEntry(s[k]);
    assert (forall e | e in t :: GoodEntry(e)) <==> forall k | 0 <= k < |t| :: GoodEntry(t[k]);
  }

  ghost predicate SameFlags(x: Evidence, y: Evidence) {
    x.Evidence? == y.Evidence? && (x.Evidence? ==> x.required == y.required && x.ready == y.ready)
  }

  ghost predicate SameMaps(m: map<string, Evidence>, n: map<string, Evidence>) {
    m.Keys == n.Keys && forall x | x in m :: SameFlags(m[x], n[x])
  }

  lemma {:induction false} SameEntriesMap(s: seq<ReadinessEntry>, t: seq<ReadinessEntry>)
    requires SameEntries(s, t)
    ensures SameMaps(ReadinessMap(s), ReadinessMap(t))
  {
    if s != [] {
      var n := |s| - 1;
      SameEntriesMap(s[..n], t[..n]);
      assert s[n].name == t[n].name && SameEvidence(s[n].evidence, t[n].evidence);
    }
  }

  lemma SameDeclaredDrift(c: Constitution, a: Attested, b: Attested)
    requires ItemsOf(a.actions) == ItemsOf(b.actions) && ItemsOf(a.tools) == ItemsOf(b.tools)
    requires ItemsOf(a.events) == ItemsOf(b.events)
    requires ItemsOf(a.degraded) == ItemsOf(b.degraded) && SameMaps(Evidenced(a), Evidenced(b))
    ensures DeclaredDrift(c, a) == DeclaredDrift(c, b) && Gaps(c, a) == Gaps(c, b)
  {
    SameInventories(c, a, b);
    SameJudgements(Dependencies(c), Evidenced(a), Evidenced(b));
  }

  lemma SameInventories(c: Constitution, a: Attested, b: Attested)
    requires ItemsOf(a.actions) == ItemsOf(b.actions) && ItemsOf(a.tools) == ItemsOf(b.tools)
    requires ItemsOf(a.events) == ItemsOf(b.events)
    ensures Collect(KINDS, InventoryDrift(c, a)) == Collect(KINDS, InventoryDrift(c, b))
  {
    SameKinds(KINDS, c, a, b);
  }

  lemma SameKinds(kinds: seq<Kind>, c: Constitution, a: Attested, b: Attested)
    requires forall k | k in kinds :: ItemsOf(Inventory(a, k)) == ItemsOf(Inventory(b, k))
    ensures Collect(kinds, InventoryDrift(c, a)) == Collect(kinds, InventoryDrift(c, b))
  {
    CollectSame(kinds, InventoryDrift(c, a), InventoryDrift(c, b));
  }

  lemma SameJudgements(s: seq<Dependency>, q: map<string, Evidence>, r: map<string, Evidence>)
    requires SameMaps(q, r)
    ensures Collect(s, FlagDrift(q)) == Collect(s, FlagDrift(r))
    ensures Collect(s, DependencyGap(q)) == Collect(s, DependencyGap(r))
  {
    forall d ensures FlagDrift(q)(d) == FlagDrift(r)(d) && DependencyGap(q)(d) == DependencyGap(r)(d) {
      if d.name.Some? && d.name.value in q { assert SameFlags(q[d.name.value], r[d.name.value]); }
    }
    CollectSame(s, FlagDrift(q), FlagDrift(r));
    CollectSame(s, DependencyGap(q), DependencyGap(r));
  }

  lemma SameGood(safe: string -> bool, a: Attested, b: Attested)
    requires SameUpToListOrder(a, b)
    ensures GoodAttested(safe, a) <==> GoodAttested(safe, b)
  {
    SameNamesRead(a.actions, b.actions);
    SameNamesRead(a.tools, b.tools);
    SameNamesRead(a.events, b.events);
    SameNamesRead(a.degraded, b.degraded);
    if a.readiness.Readiness? { SameEntriesGood(a.readiness.entries, b.readiness.entries); }
  }

  lemma SameDrift(c: Constitution, a: Attested, b: Attested, e: Expected)
    requires SameUpToListOrder(a, b)
    ensures AllDrift(c, a, e) == AllDrift(c, b, e) && Gaps(c, a) == Gaps(c, b)
  {
    SameScalarDrift(c, a, b, e);
    SameItems(a, b);
    SameEvidenced(a, b);
    SameDeclaredDrift(c, a, b);
  }

  lemma SameEvidenced(a: Attested, b: Attested)
    requires SameUpToListOrder(a, b)
    ensures SameMaps(Evidenced(a), Evidenced(b))
  {
    if a.readiness.Readiness? { SameEntriesMap(a.readiness.entries, b.readiness.entries); }
  }

  lemma SameScalarDrift(c: Constitution, a: Attested, b: Attested, e: Expected)
    requires SameUpToListOrder(a, b)
    ensures ScalarDrift(c, a, e) == ScalarDrift(c, b, e) && HashDrift(a, e) == HashDrift(b, e)
  {
  }

  lemma SameItems(a: Attested, b: Attested)
    requires SameUpToListOrder(a, b)
    ensures ItemsOf(a.actions) == ItemsOf(b.actions) && ItemsOf(a.tools) == ItemsOf(b.tools)
    ensures ItemsOf(a.events) == ItemsOf(b.events)
    ensures ItemsOf(a.degraded) == ItemsOf(b.degraded)
  {
    SameNamesRead(a.actions, b.actions);
    SameNamesRead(a.tools, b.tools);
    SameNamesRead(a.events, b.events);
    SameNamesRead(a.degraded, b.degraded);
  }

  /** The order of the attested lists never matters: the whole result is the same. */
  lemma ListOrderIrrelevant(safe: string -> bool, c: Constitution, a: Attested, b: Attested, e: Expected)
    requires SameUpToListOrder(a, b)
    ensures Evaluate(safe, c, a, e) == Evaluate(safe, c, b, e)
  {
    SameGood(safe, a, b);
    SameDrift(c, a, b, e);
    assert WellFormed(safe, c, a, e) <==> WellFormed(safe, c, b, e);
  }
}
