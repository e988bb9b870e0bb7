/** Declared constitution against supplied attestation: `l9_ci/governance/attestation.py`. */
module Attestation {
  import opened Order
  import opened Text
  import opened Wrappers

  // -------------------------------------------------------------- documents

  /** A list of strings; an item that is no string is `None`, an absent or ill-typed list is `NotList`. */
  datatype Names = NotList | List(items: seq<Option<string>>)

  /** A mapping of contract paths to digests, in insertion order. */
  datatype Hashes = NotHashes | Hashes(entries: seq<HashEntry>)

  datatype HashEntry = HashEntry(path: Option<string>, digest: Option<string>)

  datatype Readiness = NotReadiness | Readiness(entries: seq<ReadinessEntry>)

  datatype ReadinessEntry = ReadinessEntry(name: Option<string>, evidence: Evidence)

  /** A missing or ill-typed flag is `None`, a missing list is `NotList`. */
  datatype Evidence = NotEvidence | Evidence(required: Option<bool>, ready: Option<bool>, env: Names, missing: Names)

  /** The attested document; a required field that is absent reads as its ill-typed value, invalid either way. */
  datatype Attested = Attested(
    nodeId: Option<string>, nodeVersion: Option<string>, contractVersion: Option<string>, policyMode: Option<string>,
    digest: Option<string>, timestampValid: bool, actions: Names, tools: Names, events: Names,
    hashes: Hashes, degraded: Names, readiness: Readiness)

  /** `constitution.node`: the id when it is a string, `str` of the two versions when they are not null. */
  datatype Node = NotNode | Node(id: Option<string>, version: Option<string>, contractVersion: Option<string>)

  /** The key set of a mapping; a key that is no string is `None`. */
  datatype Keys = NotKeys | Keys(names: set<Option<string>>)

  datatype Dependency = Dependency(name: Option<string>, declaration: Declaration)

  /** `modes` is empty when `degraded_modes` is no list. */
  datatype Declaration = NotDeclaration | Declaration(required: Option<bool>, modes: seq<Option<string>>)

  datatype Constitution = Constitution(node: Node, actions: Keys, tools: Keys, events: Keys,
                                       dependencies: Option<seq<Dependency>>)

  /** The three optional expectations of the caller. */
  datatype Expected = Expected(digest: Option<string>, hashes: Option<Hashes>, mode: Option<string>)

  datatype Kind = ActionKind | ToolKind | EventKind

  const KINDS: seq<Kind> := [ActionKind, ToolKind, EventKind]

  function Inventory(a: Attested, k: Kind): Names {
    match k case ActionKind => a.actions case ToolKind => a.tools case EventKind => a.events
  }

  function Declared(c: Constitution, k: Kind): Keys {
    match k case ActionKind => c.actions case ToolKind => c.tools case EventKind => c.events
  }

  // --------------------------------------------------------------- validity

  predicate Text_(v: Option<string>) { v.Some? && !Blank(v.value) }

  predicate GoodNames(n: Names) {
    n.List? && (forall x | x in n.items :: Text_(x)) && |Members(n.items)| == |n.items|
  }

  /** The strings of a list. */
  function ItemsOf(n: Names): set<string> {
    if n.List? then set x | x in n.items && x.Some? :: x.value else {}
  }

  predicate IsHex(c: char) { '0' <= c <= '9' || 'a' <= c <= 'f' }

  /** `sha256:` and 64 lower-case hexadecimal digits. */
  predicate IsDigest(s: string) {
    |s| == 71 && s[..7] == "sha256:" && forall i | 7 <= i < 71 :: IsHex(s[i])
  }

  predicate GoodHash(safe: string -> bool, e: HashEntry) {
    e.path.Some? && safe(e.path.value) && e.digest.Some? && IsDigest(e.digest.value)
  }

  predicate GoodHashes(safe: string -> bool, h: Hashes) {
    h.Hashes? && forall e | e in h.entries :: GoodHash(safe, e)
  }

  /** `path.replace("\\", "/")`. */
  function Slashed(s: string): string {
    if s == [] then [] else [if s[0] == '\\' then '/' else s[0]] + Slashed(s[1..])
  }

  /** The recorded digests: a later path overwrites an earlier one with the same spelling. */
  function HashMap(s: seq<HashEntry>): map<string, string> {
    if s == [] then map[] else
    var (m, e) := (HashMap(s[..|s| - 1]), s[|s| - 1]);
    if e.path.Some? && e.digest.Some? then m[Slashed(e.path.value) := e.digest.value] else m
  }

  predicate GoodEvidence(e: Evidence) {
    && e.Evidence? && e.required.Some? && e.ready.Some? && GoodNames(e.env) && GoodNames(e.missing)
    && ItemsOf(e.missing) <= ItemsOf(e.env)
    && (e.ready.value ==> ItemsOf(e.missing) == {})
  }

  predicate GoodEntry(e: ReadinessEntry) { Text_(e.name) && GoodEvidence(e.evidence) }

  predicate GoodReadiness(r: Readiness) { r.Readiness? && forall e | e in r.entries :: GoodEntry(e) }

  function ReadinessMap(s: seq<ReadinessEntry>): map<string, Evidence> {
    if s == [] then map[] else
    var (m, e) := (ReadinessMap(s[..|s| - 1]), s[|s| - 1]);
    if e.name.Some? then m[e.name.value := e.evidence] else m
  }

  predicate GoodAttested(safe: string -> bool, a: Attested) {
    && Text_(a.nodeId) && Text_(a.nodeVersion) && Text_(a.contractVersion) && Text_(a.policyMode)
    && a.digest.Some? && IsDigest(a.digest.value) && a.timestampValid
    && GoodNames(a.actions) && GoodNames(a.tools) && GoodNames(a.events)
    && GoodHashes(safe, a.hashes) && GoodNames(a.degraded) && GoodReadiness(a.readiness)
  }

  predicate GoodKeys(k: Keys) { k.Keys? && forall x | x in k.names :: Text_(x) }

  function KeysOf(k: Keys): set<string> { if k.Keys? then set x | x in k.names && x.Some? :: x.value else {} }

  predicate GoodDependency(d: Dependency) {
    Text_(d.name) && d.declaration.Declaration? && d.declaration.required.Some?
  }

  predicate GoodDependencies(c: Constitution) {
    c.dependencies.Some? && forall d | d in c.dependencies.value :: GoodDependency(d)
  }

  predicate GoodExpected(safe: string -> bool, e: Expected) {
    (e.digest.Some? ==> IsDigest(e.digest.value)) && (e.hashes.Some? ==> GoodHashes(safe, e.hashes.value))
  }

  predicate GoodDeclared(c: Constitution) {
    GoodKeys(c.actions) && GoodKeys(c.tools) && GoodKeys(c.events) && GoodDependencies(c)
  }

  predicate WellFormed(safe: string -> bool, c: Constitution, a: Attested, e: Expected) {
    && c.node.Node? && GoodAttested(safe, a) && GoodExpected(safe, e)
    && GoodDeclared(c)
  }

  // ----------------------------------------------------------- differences

  datatype Drift =
    | NodeMismatch | NodeVersionMismatch | ContractVersionMismatch | DigestMismatch | PolicyModeMismatch
    | HashMismatch(path: string)
    | Absent(kind: Kind, name: string) | Undeclared(kind: Kind, name: string)
    | RequiredMismatch(name: string) | DependencyUndeclared(name: string) | ModeUndeclared(name: string)

  datatype Gap = DependencyMissing(name: string) | DependencyUnready(name: string)

  datatype Status = Fail | Incomplete | Pass

  datatype Result = Invalid | Evaluated(status: Status, drift: seq<Drift>, incomplete: seq<Gap>)

  function When(p: bool, d: Drift): seq<Drift> { if p then [d] else [] }

  /** An expectation that is given and not met. */
  predicate Unmet(expected: Option<string>, observed: Option<string>) { expected.Some? && expected != observed }

  function NodeDrift(node: Node, a: Attested): seq<Drift> {
    if node.NotNode? then [] else
    When(node.id != a.nodeId, NodeMismatch) + When(Unmet(node.version, a.nodeVersion), NodeVersionMismatch)
    + When(Unmet(node.contractVersion, a.contractVersion), ContractVersionMismatch)
  }

  function ScalarDrift(c: Constitution, a: Attested, e: Expected): seq<Drift> {
    NodeDrift(c.node, a) + When(Unmet(e.digest, a.digest), DigestMismatch)
    + When(Unmet(e.mode, a.policyMode), PolicyModeMismatch)
  }

  function Lookup<V>(m: map<string, V>, x: string): Option<V> { if x in m then Some(m[x]) else None }

  function Differs(e: map<string, string>, h: map<string, string>): string -> bool { p => Lookup(e, p) != Lookup(h, p) }

  function PathDrift(e: map<string, string>, h: map<string, string>): string -> seq<Drift> {
    p => When(Differs(e, h)(p), HashMismatch(p))
  }

  function HashesDrift(e: map<string, string>, h: map<string, string>): seq<Drift> {
    Collect(SortedSet(e.Keys + h.Keys), PathDrift(e, h))
  }

  function HashDrift(a: Attested, e: Expected): seq<Drift> {
    if e.hashes.Some? && e.hashes.value.Hashes? && a.hashes.Hashes?
    then HashesDrift(HashMap(e.hashes.value.entries), HashMap(a.hashes.entries)) else []
  }

  function Absences(k: Kind): string -> seq<Drift> { x => [Absent(k, x)] }

  function Surpluses(k: Kind): string -> seq<Drift> { x => [Undeclared(k, x)] }

  function KindDrift(k: Kind, declared: set<string>, attested: set<string>): seq<Drift> {
    Collect(SortedSet(declared - attested), Absences(k)) + Collect(SortedSet(attested - declared), Surpluses(k))
  }

  function InventoryDrift(c: Constitution, a: Attested): Kind -> seq<Drift> {
    k => KindDrift(k, KeysOf(Declared(c, k)), ItemsOf(Inventory(a, k)))
  }

  /** The attested flag of a declared dependency contradicts its declaration. */
  predicate FlagDiffers(r: map<string, Evidence>, d: Dependency) {
    GoodDependency(d) && d.name.value in r && r[d.name.value].Evidence?
    && r[d.name.value].required != d.declaration.required
  }

  function FlagDrift(r: map<string, Evidence>): Dependency -> seq<Drift> {
    d => if FlagDiffers(r, d) then [RequiredMismatch(d.name.value)] else []
  }

  function DependencyGap(r: map<string, Evidence>): Dependency -> seq<Gap> {
    d => if !(GoodDependency(d) && d.declaration.required.value) then []
         else if d.name.value !in r then [DependencyMissing(d.name.value)]
         else if r[d.name.value].Evidence? && r[d.name.value].ready != Some(true) then [DependencyUnready(d.name.value)]
         else []
  }

  function Evidenced(a: Attested): map<string, Evidence> {
    if a.readiness.Readiness? then ReadinessMap(a.readiness.entries) else map[]
  }

  function Dependencies(c: Constitution): seq<Dependency> { c.dependencies.GetOr([]) }

  function DeclaredNames(c: Constitution): set<string> { set d | d in Dependencies(c) && d.name.Some? :: d.name.value }

  function DeclaredModes(c: Constitution): set<string> { ModesOf(Dependencies(c)) }

  function ModesOf(s: seq<Dependency>): set<string> {
    if s == [] then {} else ModesOf(s[..|s| - 1]) + OwnModes(s[|s| - 1])
  }

  function OwnModes(d: Dependency): set<string> {
    if d.declaration.Declaration? then set m | m in d.declaration.modes && m.Some? :: m.value else {}
  }

  function StrangerDrift(): string -> seq<Drift> { x => [DependencyUndeclared(x)] }

  function ModeDrift(): string -> seq<Drift> { x => [ModeUndeclared(x)] }

  function DeclaredDrift(c: Constitution, a: Attested): seq<Drift> { DriftOver(KINDS, c, a) }

  /** The differences of some inventories, then of dependencies and degraded modes. */
  function DriftOver(kinds: seq<Kind>, c: Constitution, a: Attested): seq<Drift> {
    Collect(kinds, InventoryDrift(c, a))
    + Collect(Dependencies(c), FlagDrift(Evidenced(a)))
    + Collect(SortedSet(Evidenced(a).Keys - DeclaredNames(c)), StrangerDrift())
    + Collect(SortedSet(ItemsOf(a.degraded) - DeclaredModes(c)), ModeDrift())
  }

  /** Every difference, in the order it is reported. */
  function AllDrift(c: Constitution, a: Attested, e: Expected): seq<Drift> {
    ScalarDrift(c, a, e) + HashDrift(a, e) + DeclaredDrift(c, a)
  }

  function Gaps(c: Constitution, a: Attested): seq<Gap> { Collect(Dependencies(c), DependencyGap(Evidenced(a))) }

  function StatusOf(drift: seq<Drift>, incomplete: seq<Gap>): Status {
    if drift != [] then Fail else if incomplete != [] then Incomplete else Pass
  }

  function Evaluate(safe: string -> bool, c: Constitution, a: Attested, e: Expected): Result {
    if !WellFormed(safe, c, a, e) then Invalid
    else Evaluated(StatusOf(AllDrift(c, a, e), Gaps(c, a)), AllDrift(c, a, e), Gaps(c, a))
  }

  // -------------------------------------------------------------- algorithm

  method StringSet(n: Names) returns (ok: bool, r: set<string>)
    ensures ok == GoodNames(n)
    ensures ok ==> r == ItemsOf(n)
  {
    if n.NotList? || exists x | x in n.items :: !Text_(x) { return false, {}; }
    ok, r := |n.items| == |Members(n.items)|, ItemsOf(n);
  }

  method ValidateHashes(safe: string -> bool, h: Hashes) returns (ok: bool, r: map<string, string>)
    ensures ok == GoodHashes(safe, h)
    ensures ok ==> r == HashMap(h.entries)
  {
    if h.NotHashes? { return false, map[]; }
    ok, r := true, map[];
    var s := h.entries;
    for i := 0 to |s|
      invariant ok == forall k :: 0 <= k < i ==> GoodHash(safe, s[k])
      invariant ok ==> r == HashMap(s[..i])
    {
      assert s[..i + 1][..i] == s[..i];
      if !GoodHash(safe, s[i]) { ok := false; continue; }
      r := r[Slashed(s[i].path.value) := s[i].digest.value];
    }
    assert s[..|s|] == s;
  }

  method ValidateEvidence(e: Evidence) returns (ok: bool)
    ensures ok == GoodEvidence(e)
  {
    if e.NotEvidence? { return false; }
    var envOk, env := StringSet(e.env);
    var missingOk, missing := StringSet(e.missing);
    if e.required.None? || e.ready.None? || !envOk || !missingOk { return false; }
    ok := missing <= env && !(e.ready.value && missing != {});
  }

  method ValidateReadiness(d: Readiness) returns (ok: bool, r: map<string, Evidence>)
    ensures ok == GoodReadiness(d)
    ensures ok ==> r == ReadinessMap(d.entries)
  {
    if d.NotReadiness? { return false, map[]; }
    ok, r := true, map[];
    var s := d.entries;
    for i := 0 to |s|
      invariant ok == forall k :: 0 <= k < i ==> GoodEntry(s[k])
      invariant ok ==> r == ReadinessMap(s[..i])
    {
      assert s[..i + 1][..i] == s[..i];
      var good := ValidateEvidence(s[i].evidence);
      if !Text_(s[i].name) || !good { ok := false; continue; }
      r := r[s[i].name.value := s[i].evidence];
    }
    assert s[..|s|] == s;
  }

  method CompareScalars(c: Constitution, a: Attested, e: Expected) returns (drift: seq<Drift>)
    requires c.node.Node?
    ensures drift == ScalarDrift(c, a, e)
  {
    drift := CompareNode(c.node, a);
    if e.digest.Some? && a.digest != e.digest { drift := drift + [DigestMismatch]; }
    if e.mode.Some? && a.policyMode != e.mode { drift := drift + [PolicyModeMismatch]; }
  }

  method CompareNode(node: Node, a: Attested) returns (drift: seq<Drift>)
    requires node.Node?
    ensures drift == NodeDrift(node, a)
  {
    drift := if node.id != a.nodeId then [NodeMismatch] else [];
    if node.version.Some? && node.version != a.nodeVersion { drift := drift + [NodeVersionMismatch]; }
    if node.contractVersion.Some? && node.contractVersion != a.contractVersion {
      drift := drift + [ContractVersionMismatch];
    }
  }

  method CompareInventories(kinds: seq<Kind>, c: Constitution, a: Attested) returns (ok: bool, drift: seq<Drift>)
    ensures ok == forall k :: k in kinds ==> GoodKeys(Declared(c, k))
    ensures ok ==> drift == Collect(kinds, InventoryDrift(c, a))
  {
    drift := [];
    for i := 0 to |kinds|
      invariant forall k :: k in kinds[..i] ==> GoodKeys(Declared(c, k))
      invariant drift == Collect(kinds[..i], InventoryDrift(c, a))
    {
      CollectStep(kinds, i, InventoryDrift(c, a));
      var kind := kinds[i];
      if !GoodKeys(Declared(c, kind)) { return false, []; }
      var declared, attested := KeysOf(Declared(c, kind)), ItemsOf(Inventory(a, kind));
      var absent := CollectEach(SortedSet(declared - attested), Absences(kind));
      var surplus := CollectEach(SortedSet(attested - declared), Surpluses(kind));
      drift := drift + (absent + surplus);
    }
    assert kinds[..|kinds|] == kinds;
    ok := true;
  }

  /** The loop over the declared dependencies. */
  method JudgeDependencies(s: seq<Dependency>, r: map<string, Evidence>)
    returns (ok: bool, drift: seq<Drift>, gaps: seq<Gap>)
    requires forall x | x in r :: r[x].Evidence?
    ensures ok == forall d :: d in s ==> GoodDependency(d)
    ensures ok ==> drift == Collect(s, FlagDrift(r)) && gaps == Collect(s, DependencyGap(r))
  {
    drift, gaps := [], [];
    for i := 0 to |s|
      invariant forall d :: d in s[..i] ==> GoodDependency(d)
      invariant drift == Collect(s[..i], FlagDrift(r)) && gaps == Collect(s[..i], DependencyGap(r))
    {
      CollectStep(s, i, FlagDrift(r));
      CollectStep(s, i, DependencyGap(r));
      if !GoodDependency(s[i]) { return false, [], []; }
      var name, required := s[i].name.value, s[i].declaration.required.value;
      if name !in r {
        if required { gaps := gaps + [DependencyMissing(name)]; }
        continue;
      }
      if r[name].required != Some(required) { drift := drift + [RequiredMismatch(name)]; }
      if required && r[name].ready != Some(true) { gaps := gaps + [DependencyUnready(name)]; }
    }
    assert s[..|s|] == s;
    ok := true;
  }

  method CollectModes(s: seq<Dependency>) returns (r: set<string>)
    ensures r == ModesOf(s)
  {
    r := {};
    for i := 0 to |s|
      invariant r == ModesOf(s[..i])
    {
      assert s[..i + 1][..i] == s[..i];
      r := r + OwnModes(s[i]);
    }
    assert s[..|s|] == s;
  }

  lemma {:induction false} EvidenceIsGood(s: seq<ReadinessEntry>)
    requires forall e | e in s :: GoodEntry(e)
    ensures forall x | x in ReadinessMap(s) :: GoodEvidence(ReadinessMap(s)[x])
  {
    if s != [] {
      EvidenceIsGood(s[..|s| - 1]);
      assert s[|s| - 1] in s;
    }
  }

  /** The validation half: what the attestation says, or nothing when it is malformed. */
  method ReadAttested(safe: string -> bool, a: Attested)
    returns (ok: bool, hashes: map<string, string>, readiness: map<string, Evidence>)
    ensures ok == GoodAttested(safe, a)
    ensures ok ==> hashes == HashMap(a.hashes.entries) && readiness == Evidenced(a)
    ensures ok ==> forall x | x in readiness :: readiness[x].Evidence?
  {
    var scalars := Text_(a.nodeId) && Text_(a.nodeVersion) && Text_(a.contractVersion) && Text_(a.policyMode)
      && a.digest.Some? && IsDigest(a.digest.value) && a.timestampValid;
    var ok1, _ := StringSet(a.actions);
    var ok2, _ := StringSet(a.tools);
    var ok3, _ := StringSet(a.events);
    var ok4, h := ValidateHashes(safe, a.hashes);
    var ok5, _ := StringSet(a.degraded);
    var ok6, r := ValidateReadiness(a.readiness);
    ok, hashes, readiness := scalars && ok1 && ok2 && ok3 && ok4 && ok5 && ok6, h, r;
    if ok { EvidenceIsGood(a.readiness.entries); }
  }

  method CompareHashes(safe: string -> bool, observed: map<string, string>, e: Expected)
    returns (ok: bool, drift: seq<Drift>)
    ensures ok == (e.hashes.Some? ==> GoodHashes(safe, e.hashes.value))
    ensures ok ==> drift == if e.hashes.Some? then HashesDrift(HashMap(e.hashes.value.entries), observed) else []
  {
    if e.hashes.None? { return true, []; }
    var expected;
    ok, expected := ValidateHashes(safe, e.hashes.value);
    if !ok { return false, []; }
    drift := CollectEach(SortedSet(expected.Keys + observed.Keys), PathDrift(expected, observed));
  }

  /** The declared half: inventories, dependencies and degraded modes. */
  method CompareDeclared(c: Constitution, a: Attested, readiness: map<string, Evidence>)
    returns (ok: bool, drift: seq<Drift>, gaps: seq<Gap>)
    requires readiness == Evidenced(a) && forall x | x in readiness :: readiness[x].Evidence?
    ensures ok == GoodDeclared(c)
    ensures ok ==> drift == DeclaredDrift(c, a) && gaps == Gaps(c, a)
  {
    AllKinds(c);
    var kindOk, kindDrift := CompareInventories(KINDS, c, a);
    if !kindOk || c.dependencies.None? { return false, [], []; }
    var dependencyOk, flagDrift;
    dependencyOk, flagDrift, gaps := JudgeDependencies(c.dependencies.value, readiness);
    if !dependencyOk { return false, [], []; }
    var strangerDrift := CollectEach(SortedSet(readiness.Keys - DeclaredNames(c)), StrangerDrift());
    var modes := CollectModes(c.dependencies.value);
    var modeDrift := CollectEach(SortedSet(ItemsOf(a.degraded) - modes), ModeDrift());
    ok, drift := true, kindDrift + flagDrift + strangerDrift + modeDrift;
  }

  /** The comparisons after the attestation was read. */
  method CompareRead(safe: string -> bool, c: Constitution, a: Attested, e: Expected, hashes: map<string, string>,
                     readiness: map<string, Evidence>)
    returns (ok: bool, drift: seq<Drift>, gaps: seq<Gap>)
    requires c.node.Node? && a.hashes.Hashes? && hashes == HashMap(a.hashes.entries)
    requires readiness == Evidenced(a) && forall x | x in readiness :: readiness[x].Evidence?
    ensures ok == (GoodExpected(safe, e) && GoodDeclared(c))
    ensures ok ==> drift == AllDrift(c, a, e) && gaps == Gaps(c, a)
  {
    var scalarDrift := CompareScalars(c, a, e);
    if e.digest.Some? && !IsDigest(e.digest.value) { return false, [], []; }
    var hashOk, hashDrift := CompareHashes(safe, hashes, e);
    if !hashOk { return false, [], []; }
    var declaredDrift;
    ok, declaredDrift, gaps := CompareDeclared(c, a, readiness);
    drift := scalarDrift + hashDrift + declaredDrift;
  }

  method CompareAttestation(safe: string -> bool, constitution: Option<Constitution>, attestation: Option<Attested>,
                            e: Expected)
    returns (r: Result)
    ensures r == if constitution.None? || attestation.None? then Invalid
                 else Evaluate(safe, constitution.value, attestation.value, e)
  {
    if constitution.None? || attestation.None? { return Invalid; }
    var c, a := constitution.value, attestation.value;
    var ok, hashes, readiness := ReadAttested(safe, a);
    if !ok || c.node.NotNode? { return Invalid; }
    var drift, gaps;
    ok, drift, gaps := CompareRead(safe, c, a, e, hashes, readiness);
    if !ok { return Invalid; }
    r := Evaluated(if drift != [] then Fail else if gaps != [] then Incomplete else Pass, drift, gaps);
  }

  lemma AllKinds(c: Constitution)
    ensures (forall k :: k in KINDS ==> GoodKeys(Declared(c, k)))
       <==> GoodKeys(c.actions) && GoodKeys(c.tools) && GoodKeys(c.events)
  {
    assert ActionKind in KINDS && ToolKind in KINDS && EventKind in KINDS;
    assert Declared(c, ActionKind) == c.actions && Declared(c, ToolKind) == c.tools;
    assert Declared(c, EventKind) == c.events;
  }
}
