/**
 The pytest report-log fold of `l9_ci/baseline/pytest_adapter.py` and its order-free
 meaning.
 */
module PytestLog {
  import opened Order
  import opened Text
  import opened Wrappers
  import opened Comparator

  /** One log record. The failure text is already reduced to its exception type and signature. */
  datatype Record =
    | CollectReport(nodeId: string, outcome: string, exceptionType: string, signature: string)
    | TestReport(nodeId: string, when: string, outcome: string, xfail: bool, exceptionType: string, signature: string)
    | OtherReport

  datatype RunResult = RunResult(
    findings: seq<Observed>, passing: seq<string>, skipped: seq<string>, xfailed: seq<string>, collected: nat)

  /** `fingerprint_for_test_failure`, kept arbitrary. */
  type Fingerprint = (string, string, string) -> string

  // --------------------------------------------------------- one record's part

  function BeforeColons(s: string): string {
    if s == [] || "::" <= s then [] else [s[0]] + BeforeColons(s[1..])
  }

  /** `_node_path`. */
  function NodePath(node: string): string { if BeforeColons(node) == "" then node else BeforeColons(node) }

  predicate Fails(r: Record) {
    match r
    case CollectReport(_, outcome, _, _) => outcome == "failed"
    case TestReport(node, _, outcome, _, _, _) => node != "" && outcome == "failed"
    case OtherReport => false
  }

  predicate PassesCall(r: Record) { r.TestReport? && r.nodeId != "" && r.when == "call" && r.outcome == "passed" }

  predicate Skips(r: Record) { r.TestReport? && r.nodeId != "" && r.outcome == "skipped" }

  /** Counted once towards `total_collected`. */
  predicate Counts(r: Record) {
    PassesCall(r) || ((Skips(r) || (r.TestReport? && Fails(r))) && (r.when == "call" || r.when == "setup"))
  }

  /** The node a record is about; a failed collection without one is the collection root. */
  function Node(r: Record): string {
    match r
    case CollectReport(node, _, _, _) => if node == "" then "collection-root" else node
    case TestReport(node, _, _, _, _, _) => node
    case OtherReport => ""
  }

  function RuleOf(r: Record): string {
    match r
    case CollectReport(_, _, _, _) => "pytest-collection-failure"
    case TestReport(_, when, _, _, _, _) => if when == "call" then "pytest-failure" else "pytest-error"
    case OtherReport => ""
  }

  /** `_finding_from_report`; the contract of a finding rejects blank fields. */
  function FindingOf(r: Record, fp: Fingerprint): Outcome<Observed>
    requires Fails(r)
  {
    var node := Node(r);
    var mark := fp(node, r.exceptionType, r.signature);
    if Blank(mark) || Blank(NodePath(node)) || Blank(node) then Raised
    else Returned(Observed("tests/pytest", RuleOf(r), mark, NodePath(node), node))
  }

  // ------------------------------------------------------ order-free meaning

  function FailingNodes(log: seq<Record>): set<string> { set r | r in log && Fails(r) :: Node(r) }

  function PassedNodes(log: seq<Record>): set<string> { set r | r in log && PassesCall(r) :: r.nodeId }

  function SkippedNodes(log: seq<Record>, xfail: bool): set<string> {
    set r | r in log && Skips(r) && r.xfail == xfail :: r.nodeId
  }

  /** Some failing record cannot be turned into a finding. */
  ghost predicate Unrenderable(log: seq<Record>, fp: Fingerprint) {
    exists r :: r in log && Fails(r) && FindingOf(r, fp).Raised?
  }

  /** The last failing record of a node. */
  function LastFailing(log: seq<Record>, node: string): (r: Option<Record>)
    ensures r.Some? <==> node in FailingNodes(log)
    ensures r.Some? ==> r.value in log && Fails(r.value) && Node(r.value) == node
  {
    if log == [] then None else
    var (init, last) := (log[..|log| - 1], log[|log| - 1]);
    assert log == init + [last];
    if Fails(last) && Node(last) == node then Some(last) else LastFailing(init, node)
  }

  function FindingFor(log: seq<Record>, fp: Fingerprint): string -> seq<Observed> {
    node =>
      match LastFailing(log, node)
      case Some(r) => (match FindingOf(r, fp) case Returned(o) => [o] case Raised => [])
      case None => []
  }

  /** The result of a log all of whose failures render. */
  function Meaning(log: seq<Record>, fp: Fingerprint): RunResult {
    RunResult(
      Collect(SortedSet(FailingNodes(log)), FindingFor(log, fp)),
      SortedSet(PassedNodes(log) - FailingNodes(log)),
      SortedSet(SkippedNodes(log, false)), SortedSet(SkippedNodes(log, true)),
      |Filter(log, Counts)|)
  }

  // -------------------------------------------------------------- algorithm

  /** What the fold holds after a prefix of the log. */
  ghost predicate Folded(log: seq<Record>, fp: Fingerprint, findings: map<string, Observed>, passing: set<string>,
                         skipped: set<string>, xfailed: set<string>, collected: nat)
  {
    && findings.Keys == FailingNodes(log)
    && (forall n :: n in findings ==> FindingFor(log, fp)(n) == [findings[n]])
    && passing - findings.Keys == PassedNodes(log) - FailingNodes(log)
    && skipped == SkippedNodes(log, false) && xfailed == SkippedNodes(log, true)
    && collected == |Filter(log, Counts)|
  }

  lemma NodesStep(log: seq<Record>, i: nat)
    requires i < |log|
    ensures FailingNodes(log[..i + 1]) == FailingNodes(log[..i]) + if Fails(log[i]) then {Node(log[i])} else {}
    ensures PassedNodes(log[..i + 1]) == PassedNodes(log[..i]) + if PassesCall(log[i]) then {log[i].nodeId} else {}
    ensures forall x :: SkippedNodes(log[..i + 1], x)
                     == SkippedNodes(log[..i], x) + if Skips(log[i]) && log[i].xfail == x then {log[i].nodeId} else {}
    ensures |Filter(log[..i + 1], Counts)| == |Filter(log[..i], Counts)| + if Counts(log[i]) then 1 else 0
  {
    FilterStep(log, i, Counts);
    assert log[..i + 1] == log[..i] + [log[i]];
  }

  lemma FindingForStep(log: seq<Record>, i: nat, fp: Fingerprint, n: string)
    requires i < |log|
    ensures FindingFor(log[..i + 1], fp)(n)
         == if Fails(log[i]) && Node(log[i]) == n
            then (match FindingOf(log[i], fp) case Returned(o) => [o] case Raised => [])
            else FindingFor(log[..i], fp)(n)
  {
    assert log[..i + 1][..i] == log[..i];
  }

  /** The findings dictionary after one more record. */
  function NextFindings(findings: map<string, Observed>, r: Record, fp: Fingerprint): map<string, Observed>
    requires Fails(r) ==> FindingOf(r, fp).Returned?
  {
    if Fails(r) then findings[Node(r) := FindingOf(r, fp).value] else findings
  }

  lemma FindingsStep(log: seq<Record>, i: nat, fp: Fingerprint, findings: map<string, Observed>)
    requires i < |log| && (Fails(log[i]) ==> FindingOf(log[i], fp).Returned?)
    requires forall n :: n in findings ==> FindingFor(log[..i], fp)(n) == [findings[n]]
    ensures var next := NextFindings(findings, log[i], fp);
            forall n :: n in next ==> FindingFor(log[..i + 1], fp)(n) == [next[n]]
  {
    var next := NextFindings(findings, log[i], fp);
    forall n | n in next ensures FindingFor(log[..i + 1], fp)(n) == [next[n]] { FindingForStep(log, i, fp, n); }
  }

  lemma FoldedStep(log: seq<Record>, i: nat, fp: Fingerprint, findings: map<string, Observed>, passing: set<string>,
                   skipped: set<string>, xfailed: set<string>, collected: nat)
    requires i < |log| && (Fails(log[i]) ==> FindingOf(log[i], fp).Returned?)
    requires Folded(log[..i], fp, findings, passing, skipped, xfailed, collected)
    ensures var r := log[i];
            Folded(log[..i + 1], fp, NextFindings(findings, r, fp),
                   NextPassing(passing, findings.Keys, r),
                   if Skips(r) && !r.xfail then skipped + {r.nodeId} else skipped,
                   if Skips(r) && r.xfail then xfailed + {r.nodeId} else xfailed,
                   collected + if Counts(r) then 1 else 0)
  {
    NodesStep(log, i);
    FindingsStep(log, i, fp, findings);
    NextFindingsKeys(findings, log[i], fp);
    PassingStep(log, i, findings.Keys, passing);
  }

  lemma NextFindingsKeys(findings: map<string, Observed>, r: Record, fp: Fingerprint)
    requires Fails(r) ==> FindingOf(r, fp).Returned?
    ensures NextFindings(findings, r, fp).Keys == findings.Keys + if Fails(r) then {Node(r)} else {}
  {
  }

  /** The passing set after one more record. */
  function NextPassing(passing: set<string>, failing: set<string>, r: Record): set<string> {
    if PassesCall(r) && r.nodeId !in failing then passing + {r.nodeId}
    else if r.TestReport? && Fails(r) then passing - {r.nodeId} else passing
  }

  lemma PassingStep(log: seq<Record>, i: nat, failing: set<string>, passing: set<string>)
    requires i < |log| && failing == FailingNodes(log[..i])
    requires passing - failing == PassedNodes(log[..i]) - failing
    ensures NextPassing(passing, failing, log[i]) - FailingNodes(log[..i + 1])
         == PassedNodes(log[..i + 1]) - FailingNodes(log[..i + 1])
  {
    NodesStep(log, i);
    var left := NextPassing(passing, failing, log[i]) - FailingNodes(log[..i + 1]);
    var right := PassedNodes(log[..i + 1]) - FailingNodes(log[..i + 1]);
    forall x ensures x in left <==> x in right {
      assert x in passing - failing <==> x in PassedNodes(log[..i]) - failing;
    }
  }

  lemma UnrenderableStep(log: seq<Record>, i: nat, fp: Fingerprint)
    requires i < |log|
    ensures Unrenderable(log[..i + 1], fp)
       <==> Unrenderable(log[..i], fp) || (Fails(log[i]) && FindingOf(log[i], fp).Raised?)
    ensures Unrenderable(log[..i + 1], fp) ==> Unrenderable(log, fp)
  {
    assert log[..i + 1] == log[..i] + [log[i]];
    assert log == log[..i + 1] + log[i + 1..];
  }

  method ParseReportLog(log: seq<Record>, fp: Fingerprint) returns (r: Outcome<RunResult>)
    ensures r.Raised? <==> Unrenderable(log, fp)
    ensures r.Returned? ==> r.value == Meaning(log, fp)
  {
    var findings: map<string, Observed> := map[];
    var passing, skipped, xfailed: set<string> := {}, {}, {};
    var collected := 0;
    for i := 0 to |log|
      invariant Folded(log[..i], fp, findings, passing, skipped, xfailed, collected)
      invariant !Unrenderable(log[..i], fp)
    {
      UnrenderableStep(log, i, fp);
      var record := log[i];
      if Fails(record) && FindingOf(record, fp).Raised? { return Raised; }
      FoldedStep(log, i, fp, findings, passing, skipped, xfailed, collected);
      if record.CollectReport? {
        if record.outcome == "failed" {
          var finding := FindingOf(record, fp).value;
          findings := findings[finding.identity := finding];
        }
        continue;
      }
      if !record.TestReport? || record.nodeId == "" { continue; }
      var node, when := record.nodeId, record.when;
      if when == "call" && record.outcome == "passed" {
        if node !in findings { passing := passing + {node}; }
        collected := collected + 1;
      } else if record.outcome == "skipped" {
        if record.xfail { xfailed := xfailed + {node}; } else { skipped := skipped + {node}; }
        if when == "call" || when == "setup" { collected := collected + 1; }
      } else if record.outcome == "failed" {
        findings := findings[node := FindingOf(record, fp).value];
        passing := passing - {node};
        if when == "call" || when == "setup" { collected := collected + 1; }
      }
    }
    assert log[..|log|] == log;
    var ordered := OrderedFindings(FindingFor(log, fp), findings);
    r := Returned(RunResult(ordered, SortedSet(passing - findings.Keys), SortedSet(skipped), SortedSet(xfailed),
                            collected));
  }

  /** `tuple(findings[key] for key in sorted(findings))`. */
  method OrderedFindings(ghost f: string -> seq<Observed>, findings: map<string, Observed>) returns (r: seq<Observed>)
    requires forall n :: n in findings ==> f(n) == [findings[n]]
    ensures r == Collect(SortedSet(findings.Keys), f)
  {
    r := [];
    var keys := SortedSet(findings.Keys);
    for i := 0 to |keys|
      invariant r == Collect(keys[..i], f)
    {
      CollectStep(keys, i, f);
      var key := keys[i];
      assert key in keys;
      r := r + [findings[key]];
    }
    assert keys[..|keys|] == keys;
  }

  // ------------------------------------------------------------- properties

  /** Record `i` is a failing record of the node, and no later record is. */
  ghost predicate IsLastFailing(log: seq<Record>, node: string, i: int) {
    && 0 <= i < |log| && Fails(log[i]) && Node(log[i]) == node
    && forall j :: i < j < |log| && Fails(log[j]) ==> Node(log[j]) != node
  }

  /** `LastFailing` is the failing record of the node after which no other follows. */
  lemma {:induction false} LastFailingIsLast(log: seq<Record>, node: string)
    requires node in FailingNodes(log)
    ensures exists i :: IsLastFailing(log, node, i) && LastFailing(log, node) == Some(log[i])
  {
    var (init, last) := (log[..|log| - 1], log[|log| - 1]);
    assert log == init + [last];
    if Fails(last) && Node(last) == node {
      assert log[|log| - 1] == last && IsLastFailing(log, node, |log| - 1);
    } else {
      LastFailingIsLast(init, node);
      var i :| IsLastFailing(init, node, i) && LastFailing(init, node) == Some(init[i]);
      assert log[i] == init[i] && IsLastFailing(log, node, i);
    }
  }

  function IdentityOf(o: Observed): seq<string> { [o.identity] }

  lemma IdentityOfOne(o: Observed)
    ensures Collect([o], IdentityOf) == [o.identity]
  {
    assert [o][1..] == [];
  }

  lemma {:induction false} IdentitiesOf(nodes: seq<string>, f: string -> seq<Observed>)
    requires forall n :: n in nodes ==> |f(n)| == 1 && f(n)[0].identity == n
    ensures Collect(Collect(nodes, f), IdentityOf) == nodes
  {
    if nodes != [] {
      IdentitiesOf(nodes[1..], f);
      var one := f(nodes[0]);
      assert one == [one[0]];
      IdentityOfOne(one[0]);
      CollectAppend(one, Collect(nodes[1..], f), IdentityOf);
    }
  }

  lemma FindingOfNode(log: seq<Record>, fp: Fingerprint, n: string)
    requires !Unrenderable(log, fp) && n in FailingNodes(log)
    ensures |FindingFor(log, fp)(n)| == 1 && FindingFor(log, fp)(n)[0].identity == n
  {
    var r := LastFailing(log, n).value;
    assert FindingFor(log, fp)(n) == [FindingOf(r, fp).value];
  }

  lemma FindingIdentities(log: seq<Record>, fp: Fingerprint, nodes: seq<string>)
    requires !Unrenderable(log, fp) && forall n :: n in nodes ==> n in FailingNodes(log)
    ensures Collect(Collect(nodes, FindingFor(log, fp)), IdentityOf) == nodes
  {
    forall n | n in nodes ensures |FindingFor(log, fp)(n)| == 1 && FindingFor(log, fp)(n)[0].identity == n {
      FindingOfNode(log, fp, n);
    }
    IdentitiesOf(nodes, FindingFor(log, fp));
  }

  /**
   A node has a finding exactly when one of its records failed, it passes exactly when it
   has a passed call and no failing record anywhere, and so the two never overlap.
   */
  lemma MeaningIsOrderFree(log: seq<Record>, fp: Fingerprint)
    requires !Unrenderable(log, fp)
    ensures var r := Meaning(log, fp);
            && Collect(r.findings, IdentityOf) == SortedSet(FailingNodes(log))
            && (forall n :: n in r.passing <==> n in PassedNodes(log) && n !in FailingNodes(log))
            && (forall n :: !(n in r.passing && n in Collect(r.findings, IdentityOf)))
            && Ordered(Collect(r.findings, IdentityOf), StrKey) && Ordered(r.passing, StrKey)
  {
    SortedSetOrdered(FailingNodes(log));
    SortedSetOrdered(PassedNodes(log) - FailingNodes(log));
    FindingIdentities(log, fp, SortedSet(FailingNodes(log)));
  }

  lemma NodesOrderFree(a: seq<Record>, b: seq<Record>, fp: Fingerprint)
    requires multiset(a) == multiset(b)
    ensures FailingNodes(a) == FailingNodes(b) && PassedNodes(a) == PassedNodes(b)
    ensures forall x :: SkippedNodes(a, x) == SkippedNodes(b, x)
    ensures Unrenderable(a, fp) <==> Unrenderable(b, fp)
  {
    forall r ensures r in a <==> r in b {
      assert r in a <==> r in multiset(a);
      assert r in b <==> r in multiset(b);
    }
  }

  /** Shuffling the log changes no set of nodes, neither the count, nor whether it raises. */
  lemma LogOrderIrrelevant(a: seq<Record>, b: seq<Record>, fp: Fingerprint)
    requires multiset(a) == multiset(b)
    ensures Unrenderable(a, fp) <==> Unrenderable(b, fp)
    ensures !Unrenderable(a, fp) ==>
              var (x, y) := (Meaning(a, fp), Meaning(b, fp));
              && Collect(x.findings, IdentityOf) == Collect(y.findings, IdentityOf)
              && x.passing == y.passing && x.skipped == y.skipped && x.xfailed == y.xfailed
              && x.collected == y.collected
  {
    NodesOrderFree(a, b, fp);
    FilterPermutation(a, b, Counts);
    if !Unrenderable(a, fp) {
      MeaningIsOrderFree(a, fp);
      MeaningIsOrderFree(b, fp);
    }
  }
}
