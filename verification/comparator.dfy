/**
 The baseline ratchet of `l9_ci/baseline/comparator.py`: `compare` with its dictionaries
 and loops, and the functional specification it is proved against.
 */
module Comparator {
  import opened Order
  import opened Wrappers

  /** A ledger entry; dates are day numbers. */
  datatype Entry =
    | ScannerEntry(id: string, gate: string, rule: string, fingerprint: string, path: string, expires: int)
    | QuarantineEntry(id: string, testNodeId: string, fingerprint: string, expires: int)
  {
    function Identity(): string {
      if QuarantineEntry? then testNodeId else rule + "::" + path
    }

    function RuleOr(defaultRule: string): string {
      if ScannerEntry? then rule else defaultRule
    }

    predicate Expired(today: int) { today > expires }
  }

  datatype Observed = Observed(gate: string, rule: string, fingerprint: string, path: string, identity: string)

  datatype Kind =
    | NewFinding | IncreasedFinding | ChangedSignature | ExpiredException | MissingOwner | MissingIssue
    | StaleEntry | ResolvedNotRemoved | MalformedBaseline
  {
    function Text(): string {
      match this
      case NewFinding => "new-finding"
      case IncreasedFinding => "increased-finding"
      case ChangedSignature => "changed-signature"
      case ExpiredException => "expired-exception"
      case MissingOwner => "missing-owner"
      case MissingIssue => "missing-issue"
      case StaleEntry => "stale-entry"
      case ResolvedNotRemoved => "resolved-not-removed"
      case MalformedBaseline => "malformed-baseline"
    }
  }

  datatype Violation = Violation(
    kind: Kind, gate: string, rule: string, identity: string,
    fingerprint: Option<string>, entryId: Option<string>, path: Option<string>)

  function ViolationKey(v: Violation): Key { [v.kind.Text(), v.gate, v.rule, v.identity] }

  function SortViolations(vs: seq<Violation>): seq<Violation> { SortBy(vs, ViolationKey) }

  datatype Summary = Summary(
    observedTotal: nat, knownTotal: nat, newTotal: nat, changedTotal: nat, resolvedTotal: nat,
    expiredTotal: nat, malformedTotal: nat, violationsTotal: nat)

  datatype Comparison = Comparison(
    passed: bool, summary: Summary, violations: seq<Violation>, known: seq<Observed>, new_: seq<Observed>,
    resolvedEntryIds: seq<string>, suggestedRemovals: seq<string>)

  /** The inputs of one comparison other than the observations and the ledger. */
  datatype Setting = Setting(gate: string, today: int, removalRequired: bool, defaultRule: string, passing: set<string>)

  // ---------------------------------------------------------- specification

  function EntryFps(entries: seq<Entry>): set<string> { set e | e in entries :: e.fingerprint }

  function ObservedFps(obs: seq<Observed>): set<string> { set f | f in obs :: f.fingerprint }

  function ObservedIds(obs: seq<Observed>): set<string> { set f | f in obs :: f.identity }

  /** The ledger with later entries of an already seen fingerprint dropped. */
  function Kept(entries: seq<Entry>): (r: seq<Entry>)
    ensures EntryFps(r) == EntryFps(entries)
    ensures forall e :: e in r ==> e in entries
    ensures DistinctFps(r)
  {
    if entries == [] then [] else
    var (init, last) := (entries[..|entries| - 1], entries[|entries| - 1]);
    var r := Kept(init);
    assert entries == init + [last];
    EntryFpsSnoc(init, last);
    EntryFpsSnoc(r, last);
    assert forall e :: e in r ==> e.fingerprint in EntryFps(r);
    if last.fingerprint in EntryFps(r) then r else r + [last]
  }

  lemma EntryFpsSnoc(init: seq<Entry>, last: Entry)
    ensures EntryFps(init + [last]) == EntryFps(init) + {last.fingerprint}
  {
    EntryFpsAppend(init, [last]);
    assert EntryFps([last]) == {last.fingerprint} by { assert last in [last]; }
  }

  lemma EntryFpsAppend(a: seq<Entry>, b: seq<Entry>)
    ensures EntryFps(a + b) == EntryFps(a) + EntryFps(b)
  {
    forall fp ensures fp in EntryFps(a + b) <==> fp in EntryFps(a) || fp in EntryFps(b) {
      if e :| e in a + b && e.fingerprint == fp { assert e in a || e in b; }
      if e :| e in a && e.fingerprint == fp { assert e in a + b; }
      if e :| e in b && e.fingerprint == fp { assert e in a + b; }
    }
  }

  predicate DistinctFps(entries: seq<Entry>) {
    forall i, j | 0 <= i < j < |entries| :: entries[i].fingerprint != entries[j].fingerprint
  }

  /** The entry a fingerprint is filed under. */
  function Find(kept: seq<Entry>, fp: string): (r: Option<Entry>)
    ensures r.Some? <==> fp in EntryFps(kept)
    ensures r.Some? ==> r.value in kept && r.value.fingerprint == fp
  {
    if kept == [] then None
    else if kept[0].fingerprint == fp then Some(kept[0])
    else
      assert kept == [kept[0]] + kept[1..];
      Find(kept[1..], fp)
  }

  function HasIdentity(id: string): Entry -> bool { (e: Entry) => e.Identity() == id }

  function WithIdentity(kept: seq<Entry>, id: string): seq<Entry> { Filter(kept, HasIdentity(id)) }

  function HasFp(fp: string): Observed -> bool { (f: Observed) => f.fingerprint == fp }

  function WithFp(obs: seq<Observed>, fp: string): seq<Observed> { Filter(obs, HasFp(fp)) }

  function Duplicates(s: Setting, entries: seq<Entry>): seq<Violation> {
    if entries == [] then [] else
    var (init, last) := (entries[..|entries| - 1], entries[|entries| - 1]);
    Duplicates(s, init) + if last.fingerprint in EntryFps(init) then [DuplicateOf(s, last)] else []
  }

  function DuplicateOf(s: Setting, e: Entry): Violation {
    Violation(MalformedBaseline, s.gate, e.RuleOr(s.defaultRule), e.Identity(), Some(e.fingerprint), Some(e.id), None)
  }

  function IncreasedAt(s: Setting, kept: seq<Entry>, obs: seq<Observed>, fp: string): seq<Violation> {
    var seen := WithFp(obs, fp);
    var entry := Find(kept, fp);
    if entry.Some? && |seen| > 1 then
      [Violation(IncreasedFinding, s.gate, seen[0].rule, seen[0].identity, Some(fp), Some(entry.value.id),
                 Some(seen[0].path))]
    else []
  }

  function Increased(s: Setting, kept: seq<Entry>, obs: seq<Observed>): string -> seq<Violation> {
    fp => IncreasedAt(s, kept, obs, fp)
  }

  /** What one observation is to the ledger. */
  datatype Status = Known | ExpiredMatch | Changed | New

  function StatusOf(today: int, kept: seq<Entry>, f: Observed): Status {
    match Find(kept, f.fingerprint)
    case Some(e) => if e.Expired(today) then ExpiredMatch else Known
    case None => if WithIdentity(kept, f.identity) != [] then Changed else New
  }

  function StatusIs(today: int, kept: seq<Entry>, st: Status): Observed -> bool {
    (f: Observed) => StatusOf(today, kept, f) == st
  }

  function WithStatus(today: int, kept: seq<Entry>, obs: seq<Observed>, st: Status): seq<Observed> {
    Filter(obs, StatusIs(today, kept, st))
  }

  function JudgeOne(s: Setting, kept: seq<Entry>, f: Observed): seq<Violation> {
    match StatusOf(s.today, kept, f)
    case Known => []
    case ExpiredMatch =>
      [Violation(ExpiredException, s.gate, f.rule, f.identity, Some(f.fingerprint),
                 Some(Find(kept, f.fingerprint).value.id), Some(f.path))]
    case Changed =>
      [Violation(ChangedSignature, s.gate, f.rule, f.identity, Some(f.fingerprint),
                 Some(WithIdentity(kept, f.identity)[0].id), Some(f.path))]
    case New =>
      [Violation(NewFinding, s.gate, f.rule, f.identity, Some(f.fingerprint), None, Some(f.path))]
  }

  function Judge(s: Setting, kept: seq<Entry>): Observed -> seq<Violation> {
    (f: Observed) => JudgeOne(s, kept, f)
  }

  /** The entry's fingerprint and identity are both unobserved. */
  predicate Resolved(e: Entry, obs: seq<Observed>) {
    e.fingerprint !in ObservedFps(obs) && e.Identity() !in ObservedIds(obs)
  }

  function PromptFor(s: Setting, e: Entry): Violation {
    match e
    case ScannerEntry(id, _, rule, fp, path, _) =>
      Violation(StaleEntry, s.gate, rule, e.Identity(), Some(fp), Some(id), Some(path))
    case QuarantineEntry(id, node, fp, _) =>
      Violation(if node in s.passing then ResolvedNotRemoved else StaleEntry,
                s.gate, s.defaultRule, node, Some(fp), Some(id), None)
  }

  function PromptAt(s: Setting, kept: seq<Entry>, obs: seq<Observed>, fp: string): seq<Violation> {
    match Find(kept, fp)
    case Some(e) => if Resolved(e, obs) && s.removalRequired then [PromptFor(s, e)] else []
    case None => []
  }

  function Prompts(s: Setting, kept: seq<Entry>, obs: seq<Observed>): string -> seq<Violation> {
    fp => PromptAt(s, kept, obs, fp)
  }

  function ResolvedAt(kept: seq<Entry>, obs: seq<Observed>, fp: string): seq<string> {
    match Find(kept, fp)
    case Some(e) => if Resolved(e, obs) then [e.id] else []
    case None => []
  }

  function ResolvedIds(kept: seq<Entry>, obs: seq<Observed>): string -> seq<string> {
    fp => ResolvedAt(kept, obs, fp)
  }

  /** The violations in the order `compare` appends them. */
  function Raw(s: Setting, obs: seq<Observed>, entries: seq<Entry>): seq<Violation> {
    var kept := Kept(entries);
    Duplicates(s, entries)
    + Collect(SortedSet(ObservedFps(obs)), Increased(s, kept, obs))
    + Collect(obs, Judge(s, kept))
    + Collect(SortedSet(EntryFps(kept)), Prompts(s, kept, obs))
  }

  function AllResolved(obs: seq<Observed>, entries: seq<Entry>): seq<string> {
    Collect(SortedSet(EntryFps(Kept(entries))), ResolvedIds(Kept(entries), obs))
  }

  function ExpiredFps(kept: seq<Entry>, today: int): set<string> {
    set e | e in kept && e.Expired(today) :: e.fingerprint
  }

  function OfKind(kind: Kind): Violation -> bool { (v: Violation) => v.kind == kind }

  function CountKind(vs: seq<Violation>, kind: Kind): nat { |Filter(vs, OfKind(kind))| }

  /** The result of `compare` as one expression. */
  function Comparing(s: Setting, obs: seq<Observed>, entries: seq<Entry>): Comparison {
    var kept := Kept(entries);
    var violations := SortViolations(Raw(s, obs, entries));
    var resolved := AllResolved(obs, entries);
    Comparison(
      violations == [],
      Summary(|obs|, |WithStatus(s.today, kept, obs, Known)|, |WithStatus(s.today, kept, obs, New)|,
              |WithStatus(s.today, kept, obs, Changed)|, |resolved|, |ExpiredFps(kept, s.today)|,
              CountKind(violations, MalformedBaseline), |violations|),
      violations,
      WithStatus(s.today, kept, obs, Known), WithStatus(s.today, kept, obs, New),
      Sorted(resolved), Sorted(resolved))
  }

  // ------------------------------------------------------------- algorithm

  /** The fingerprint dictionary files exactly the kept entries. */
  ghost predicate FilesFps(byFp: map<string, Entry>, kept: seq<Entry>) {
    byFp.Keys == EntryFps(kept) && forall fp :: fp in byFp ==> Find(kept, fp) == Some(byFp[fp])
  }

  /** The identity dictionary groups exactly the kept entries. */
  ghost predicate FilesIds(byId: map<string, seq<Entry>>, kept: seq<Entry>) {
    && (forall id :: WithIdentity(kept, id) == if id in byId then byId[id] else [])
    && (forall id :: id in byId ==> byId[id] != [])
  }

  lemma FilesFpsStep(byFp: map<string, Entry>, kept: seq<Entry>, e: Entry)
    requires FilesFps(byFp, kept) && e.fingerprint !in byFp
    ensures FilesFps(byFp[e.fingerprint := e], kept + [e])
  {
    var next := byFp[e.fingerprint := e];
    EntryFpsAppend(kept, [e]);
    assert EntryFps([e]) == {e.fingerprint} by { assert e in [e]; }
    forall fp | fp in next ensures Find(kept + [e], fp) == Some(next[fp]) {
      FindAppend(kept, e, fp);
    }
  }

  lemma FilesIdsStep(byId: map<string, seq<Entry>>, kept: seq<Entry>, e: Entry)
    requires FilesIds(byId, kept)
    ensures FilesIds(byId[e.Identity() := (if e.Identity() in byId then byId[e.Identity()] else []) + [e]], kept + [e])
  {
    forall id ensures WithIdentity(kept + [e], id) == WithIdentity(kept, id) + if e.Identity() == id then [e] else [] {
      FilterAppend(kept, [e], HasIdentity(id));
    }
  }

  lemma {:induction false} FindAppend(kept: seq<Entry>, e: Entry, fp: string)
    ensures Find(kept + [e], fp)
         == if Find(kept, fp).Some? then Find(kept, fp) else if e.fingerprint == fp then Some(e) else None
  {
    if kept != [] {
      FindAppend(kept[1..], e, fp);
      assert (kept + [e])[1..] == kept[1..] + [e];
    }
  }

  /** The first loop: files the ledger and reports duplicated fingerprints. */
  method IndexLedger(s: Setting, entries: seq<Entry>)
    returns (byFp: map<string, Entry>, byId: map<string, seq<Entry>>, violations: seq<Violation>)
    ensures FilesFps(byFp, Kept(entries)) && FilesIds(byId, Kept(entries))
    ensures violations == Duplicates(s, entries)
  {
    byFp, byId, violations := map[], map[], [];
    for i := 0 to |entries|
      invariant FilesFps(byFp, Kept(entries[..i])) && FilesIds(byId, Kept(entries[..i]))
      invariant violations == Duplicates(s, entries[..i])
    {
      var entry := entries[i];
      assert entries[..i + 1][..i] == entries[..i];
      if entry.fingerprint in byFp {
        violations := violations + [DuplicateOf(s, entry)];
      } else {
        FilesFpsStep(byFp, Kept(entries[..i]), entry);
        FilesIdsStep(byId, Kept(entries[..i]), entry);
        byFp := byFp[entry.fingerprint := entry];
        var filed := if entry.Identity() in byId then byId[entry.Identity()] else [];
        byId := byId[entry.Identity() := filed + [entry]];
      }
    }
    assert entries[..|entries|] == entries;
  }

  lemma WithFpStep(obs: seq<Observed>, i: nat)
    requires i < |obs|
    ensures forall fp ::
              WithFp(obs[..i + 1], fp) == WithFp(obs[..i], fp) + if obs[i].fingerprint == fp then [obs[i]] else []
  {
    forall fp
      ensures WithFp(obs[..i + 1], fp) == WithFp(obs[..i], fp) + if obs[i].fingerprint == fp then [obs[i]] else []
    {
      FilterStep(obs, i, HasFp(fp));
    }
  }

  /** `defaultdict(list)`: the group of the finding's fingerprint grows by the finding. */
  function Grouped(byFp: map<string, seq<Observed>>, f: Observed): map<string, seq<Observed>> {
    byFp[f.fingerprint := (if f.fingerprint in byFp then byFp[f.fingerprint] else []) + [f]]
  }

  function Group(byFp: map<string, seq<Observed>>, fp: string): seq<Observed> { if fp in byFp then byFp[fp] else [] }

  lemma GroupStep(obs: seq<Observed>, i: nat, byFp: map<string, seq<Observed>>)
    requires i < |obs| && forall fp :: WithFp(obs[..i], fp) == Group(byFp, fp)
    ensures forall fp :: WithFp(obs[..i + 1], fp) == Group(Grouped(byFp, obs[i]), fp)
  {
    WithFpStep(obs, i);
    var f := obs[i];
    forall fp ensures WithFp(obs[..i + 1], fp) == Group(Grouped(byFp, f), fp) {
      assert Group(Grouped(byFp, f), fp) == Group(byFp, fp) + if f.fingerprint == fp then [f] else [];
    }
  }

  lemma ObservedStep(obs: seq<Observed>, i: nat)
    requires i < |obs|
    ensures ObservedFps(obs[..i + 1]) == ObservedFps(obs[..i]) + {obs[i].fingerprint}
    ensures ObservedIds(obs[..i + 1]) == ObservedIds(obs[..i]) + {obs[i].identity}
  {
    assert obs[..i + 1] == obs[..i] + [obs[i]];
  }

  /** The dictionary groups exactly the observations of each fingerprint, in order. */
  ghost predicate FilesObserved(byFp: map<string, seq<Observed>>, obs: seq<Observed>) {
    byFp.Keys == ObservedFps(obs) && forall fp :: fp in byFp ==> byFp[fp] == WithFp(obs, fp)
  }

  /** Groups the observations by fingerprint and collects their identities. */
  method IndexObserved(obs: seq<Observed>) returns (byFp: map<string, seq<Observed>>, identities: set<string>)
    ensures FilesObserved(byFp, obs) && identities == ObservedIds(obs)
  {
    byFp, identities := map[], {};
    for i := 0 to |obs|
      invariant byFp.Keys == ObservedFps(obs[..i]) && identities == ObservedIds(obs[..i])
      invariant forall fp :: WithFp(obs[..i], fp) == Group(byFp, fp)
    {
      var f := obs[i];
      ObservedStep(obs, i);
      GroupStep(obs, i, byFp);
      byFp := Grouped(byFp, f);
      identities := identities + {f.identity};
    }
    assert obs[..|obs|] == obs;
    assert forall fp :: fp in byFp ==> byFp[fp] == Group(byFp, fp);
  }

  /** Reports every ledgered fingerprint observed more than once. */
  method ReportIncreased(s: Setting, ghost kept: seq<Entry>, ghost obs: seq<Observed>, byFp: map<string, Entry>,
                         observedByFp: map<string, seq<Observed>>)
    returns (violations: seq<Violation>)
    requires FilesFps(byFp, kept) && FilesObserved(observedByFp, obs)
    ensures violations == Collect(SortedSet(ObservedFps(obs)), Increased(s, kept, obs))
  {
    violations := [];
    var fps := SortedSet(observedByFp.Keys);
    for i := 0 to |fps|
      invariant violations == Collect(fps[..i], Increased(s, kept, obs))
    {
      CollectStep(fps, i, Increased(s, kept, obs));
      assert fps[i] in fps;
      var increase := ReportIncrease(s, kept, obs, byFp, observedByFp, fps[i]);
      violations := violations + increase;
    }
    assert fps[..|fps|] == fps;
  }

  /** The report for one fingerprint and its group of observations. */
  method ReportIncrease(
      s: Setting, ghost kept: seq<Entry>, ghost obs: seq<Observed>, byFp: map<string, Entry>,
      observedByFp: map<string, seq<Observed>>, fp: string)
    returns (violations: seq<Violation>)
    requires FilesFps(byFp, kept) && FilesObserved(observedByFp, obs) && fp in observedByFp
    ensures violations == Increased(s, kept, obs)(fp)
  {
    violations := [];
    var seen := observedByFp[fp];
    if fp in byFp && |seen| > 1 {
      var sample := seen[0];
      violations := [Violation(IncreasedFinding, s.gate, sample.rule, sample.identity, Some(fp), Some(byFp[fp].id),
                               Some(sample.path))];
    }
  }

  /** Judges one observation by the two dictionaries. */
  method JudgeFinding(s: Setting, ghost kept: seq<Entry>, f: Observed, byFp: map<string, Entry>,
                      byId: map<string, seq<Entry>>)
    returns (status: Status, violations: seq<Violation>)
    requires FilesFps(byFp, kept) && FilesIds(byId, kept)
    ensures status == StatusOf(s.today, kept, f)
    ensures violations == Judge(s, kept)(f)
  {
    if f.fingerprint in byFp {
      var matched := byFp[f.fingerprint];
      if !matched.Expired(s.today) { return Known, []; }
      return ExpiredMatch, [Violation(ExpiredException, s.gate, f.rule, f.identity, Some(f.fingerprint),
                                      Some(matched.id), Some(f.path))];
    }
    assert WithIdentity(kept, f.identity) == if f.identity in byId then byId[f.identity] else [];
    if f.identity in byId {
      var group: seq<Entry> := byId[f.identity];
      return Changed, [Violation(ChangedSignature, s.gate, f.rule, f.identity, Some(f.fingerprint), Some(group[0].id),
                                 Some(f.path))];
    }
    return New, [Violation(NewFinding, s.gate, f.rule, f.identity, Some(f.fingerprint), None, Some(f.path))];
  }

  /** Classifies every observation as known, expired, changed or new. */
  method JudgeObserved(s: Setting, ghost kept: seq<Entry>, obs: seq<Observed>, byFp: map<string, Entry>,
                       byId: map<string, seq<Entry>>)
    returns (violations: seq<Violation>, known: seq<Observed>, new_: seq<Observed>, changed: seq<Observed>)
    requires FilesFps(byFp, kept) && FilesIds(byId, kept)
    ensures violations == Collect(obs, Judge(s, kept))
    ensures known == WithStatus(s.today, kept, obs, Known)
    ensures new_ == WithStatus(s.today, kept, obs, New)
    ensures changed == WithStatus(s.today, kept, obs, Changed)
  {
    violations, known, new_, changed := [], [], [], [];
    for i := 0 to |obs|
      invariant violations == Collect(obs[..i], Judge(s, kept))
      invariant known == WithStatus(s.today, kept, obs[..i], Known)
      invariant new_ == WithStatus(s.today, kept, obs[..i], New)
      invariant changed == WithStatus(s.today, kept, obs[..i], Changed)
    {
      CollectStep(obs, i, Judge(s, kept));
      FilterStep(obs, i, StatusIs(s.today, kept, Known));
      FilterStep(obs, i, StatusIs(s.today, kept, New));
      FilterStep(obs, i, StatusIs(s.today, kept, Changed));
      var status, reported := JudgeFinding(s, kept, obs[i], byFp, byId);
      violations := violations + reported;
      match status
      case Known => known := known + [obs[i]];
      case Changed => changed := changed + [obs[i]];
      case New => new_ := new_ + [obs[i]];
      case ExpiredMatch =>
    }
    assert obs[..|obs|] == obs;
  }

  /** Lists the entries whose debt is gone and, when required, prompts for their removal. */
  method ReportResolved(s: Setting, ghost kept: seq<Entry>, ghost obs: seq<Observed>, byFp: map<string, Entry>,
                        observedFps: set<string>, identities: set<string>)
    returns (violations: seq<Violation>, resolved: seq<string>)
    requires FilesFps(byFp, kept) && observedFps == ObservedFps(obs) && identities == ObservedIds(obs)
    ensures violations == Collect(SortedSet(EntryFps(kept)), Prompts(s, kept, obs))
    ensures resolved == Collect(SortedSet(EntryFps(kept)), ResolvedIds(kept, obs))
  {
    violations, resolved := [], [];
    var fps := SortedSet(byFp.Keys);
    for i := 0 to |fps|
      invariant violations == Collect(fps[..i], Prompts(s, kept, obs))
      invariant resolved == Collect(fps[..i], ResolvedIds(kept, obs))
    {
      CollectStep(fps, i, Prompts(s, kept, obs));
      CollectStep(fps, i, ResolvedIds(kept, obs));
      var prompts, ids := ReportEntry(s, kept, obs, byFp, fps[i], observedFps, identities);
      violations, resolved := violations + prompts, resolved + ids;
    }
    assert fps[..|fps|] == fps;
  }

  /** One ledgered fingerprint: what it resolves, and the prompt for it. */
  method ReportEntry(s: Setting, ghost kept: seq<Entry>, ghost obs: seq<Observed>, byFp: map<string, Entry>, fp: string,
                     observedFps: set<string>, identities: set<string>)
    returns (violations: seq<Violation>, resolved: seq<string>)
    requires FilesFps(byFp, kept) && fp in byFp && observedFps == ObservedFps(obs) && identities == ObservedIds(obs)
    ensures violations == Prompts(s, kept, obs)(fp) && resolved == ResolvedIds(kept, obs)(fp)
  {
    var entry := byFp[fp];
    assert Find(kept, fp) == Some(entry);
    if fp in observedFps { return [], []; }
    if entry.Identity() in identities { return [], []; }
    if !s.removalRequired { return [], [entry.id]; }
    return [PromptFor(s, entry)], [entry.id];
  }

  /** `compare`: the ratchet decision over one run. */
  method Compare(s: Setting, obs: seq<Observed>, entries: seq<Entry>) returns (r: Comparison)
    ensures r == Comparing(s, obs, entries)
  {
    ghost var kept := Kept(entries);
    var byFp, byId, violations := IndexLedger(s, entries);
    var expired := set fp | fp in byFp && byFp[fp].Expired(s.today);
    ExpiredFiled(byFp, kept, s.today);
    var observedByFp, identities := IndexObserved(obs);
    var increased := ReportIncreased(s, kept, obs, byFp, observedByFp);
    var judged, known, new_, changed := JudgeObserved(s, kept, obs, byFp, byId);
    var prompts, resolved := ReportResolved(s, kept, obs, byFp, observedByFp.Keys, identities);
    var ordered := SortViolations(violations + increased + judged + prompts);
    r := Comparison(
      ordered == [],
      Summary(|obs|, |known|, |new_|, |changed|, |resolved|, |expired|, CountKind(ordered, MalformedBaseline),
              |ordered|),
      ordered, known, new_, Sorted(resolved), Sorted(resolved));
  }

  lemma ExpiredFiled(byFp: map<string, Entry>, kept: seq<Entry>, today: int)
    requires FilesFps(byFp, kept) && DistinctFps(kept)
    ensures (set fp | fp in byFp && byFp[fp].Expired(today)) == ExpiredFps(kept, today)
  {
  }
}
