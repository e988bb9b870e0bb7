/** Promotion eligibility: `l9_ci/governance/promotion.py`. */
module Promotion {
  import opened Order
  import opened Text
  import opened Wrappers

  /** Microseconds in a day; timestamps are microseconds since a fixed instant, in UTC. */
  const DAY: nat := 86_400_000_000

  /** The policy; an absent or ill-typed requirement is `None`, targets that are no list of strings are `None`. */
  datatype Policy = Policy(
    schemaKnown: bool, transitions: map<string, Option<seq<string>>>, requirementsKnown: bool,
    minimumRuns: Option<nat>, minimumDays: Option<nat>, maximumContract: Option<nat>, maximumArtifact: Option<nat>,
    approvalRequired: Option<bool>)

  datatype Observation = Observation(
    schemaKnown: bool, first: Option<int>, last: Option<int>,
    runs: Option<nat>, contractFailures: Option<nat>, artifactFailures: Option<nat>)

  /** One request: the policy, the evidence, the two modes and the approval flag. */
  datatype Request = Request(policy: Policy, observation: Observation, current: string, requested: string,
                             approved: bool)

  datatype Unmet =
    | RunsInsufficient | DaysInsufficient | ContractBudgetExceeded | ArtifactBudgetExceeded | ApprovalAbsent

  datatype Result = Invalid | Ineligible(unmet: seq<Unmet>, elapsedDays: int) | Eligible(elapsedDays: int)

  ghost predicate GoodTransitions(t: map<string, Option<seq<string>>>) {
    t != map[] && forall m | m in t :: GoodTransition(m, t[m])
  }

  ghost predicate GoodTransition(source: string, targets: Option<seq<string>>) {
    !Blank(source) && targets.Some? && (forall x | x in targets.value :: !Blank(x)) && Distinct(targets.value)
  }

  predicate Complete(p: Policy, o: Observation) {
    && p.minimumRuns.Some? && p.minimumDays.Some? && p.maximumContract.Some? && p.maximumArtifact.Some?
    && p.approvalRequired.Some?
    && o.first.Some? && o.last.Some? && o.runs.Some? && o.contractFailures.Some? && o.artifactFailures.Some?
  }

  /** What the validation half accepts. */
  ghost predicate Valid(q: Request) {
    && q.policy.schemaKnown && q.observation.schemaKnown && q.policy.requirementsKnown
    && Complete(q.policy, q.observation)
    && !Blank(q.current) && !Blank(q.requested) && GoodTransitions(q.policy.transitions)
    && q.current in q.policy.transitions && q.requested in q.policy.transitions[q.current].value
    && q.observation.first.value <= q.observation.last.value
  }

  /** A bound of the policy that the evidence violates; the window must span whole days. */
  predicate Violated(q: Request, u: Unmet)
    requires Complete(q.policy, q.observation)
  {
    var (p, o) := (q.policy, q.observation);
    match u
    case RunsInsufficient => o.runs.value < p.minimumRuns.value
    case DaysInsufficient => o.last.value < o.first.value + p.minimumDays.value * DAY
    case ContractBudgetExceeded => o.contractFailures.value > p.maximumContract.value
    case ArtifactBudgetExceeded => o.artifactFailures.value > p.maximumArtifact.value
    case ApprovalAbsent => p.approvalRequired.value && !q.approved
  }

  function Breach(q: Request): Unmet -> bool { u => Complete(q.policy, q.observation) && Violated(q, u) }

  function Note(p: Unmet -> bool, u: Unmet): seq<Unmet> { if p(u) then [u] else [] }

  /** The sequence holds each failing bound of `checked` once, and nothing else. */
  ghost predicate Noted(s: seq<Unmet>, p: Unmet -> bool, checked: set<Unmet>) {
    forall u :: multiset(s)[u] == if u in checked && p(u) then 1 else 0
  }

  lemma NoteNext(s: seq<Unmet>, p: Unmet -> bool, checked: set<Unmet>, x: Unmet)
    requires Noted(s, p, checked) && x !in checked
    ensures Noted(s + Note(p, x), p, checked + {x})
  {
    assert multiset(s + Note(p, x)) == multiset(s) + multiset(Note(p, x));
  }

  lemma NotedMembers(s: seq<Unmet>, p: Unmet -> bool, checked: set<Unmet>)
    requires Noted(s, p, checked)
    ensures forall u :: u in s <==> u in checked && p(u)
  {
    forall u ensures u in s <==> u in checked && p(u) { assert u in s <==> u in multiset(s); }
  }

  /** The checks in turn: the bounds that fail, each once. */
  function Failing(p: Unmet -> bool): seq<Unmet> {
    FirstThree(p) + Note(p, ArtifactBudgetExceeded) + Note(p, ApprovalAbsent)
  }

  function FirstThree(p: Unmet -> bool): seq<Unmet> {
    Note(p, RunsInsufficient) + Note(p, DaysInsufficient) + Note(p, ContractBudgetExceeded)
  }

  lemma FailingNoted(p: Unmet -> bool)
    ensures Noted(Failing(p), p,
                  {RunsInsufficient, DaysInsufficient, ContractBudgetExceeded, ArtifactBudgetExceeded, ApprovalAbsent})
  {
    FirstThreeNoted(p);
    var three := {RunsInsufficient, DaysInsufficient, ContractBudgetExceeded};
    NoteNext(FirstThree(p), p, three, ArtifactBudgetExceeded);
    NoteNext(FirstThree(p) + Note(p, ArtifactBudgetExceeded), p, three + {ArtifactBudgetExceeded}, ApprovalAbsent);
    assert three + {ArtifactBudgetExceeded} + {ApprovalAbsent}
        == {RunsInsufficient, DaysInsufficient, ContractBudgetExceeded, ArtifactBudgetExceeded, ApprovalAbsent};
  }

  lemma FirstThreeNoted(p: Unmet -> bool)
    ensures Noted(FirstThree(p), p, {RunsInsufficient, DaysInsufficient, ContractBudgetExceeded})
  {
    var one := Note(p, RunsInsufficient);
    assert Noted(one, p, {RunsInsufficient});
    NoteNext(one, p, {RunsInsufficient}, DaysInsufficient);
    assert {RunsInsufficient} + {DaysInsufficient} == {RunsInsufficient, DaysInsufficient};
    NoteNext(one + Note(p, DaysInsufficient), p, {RunsInsufficient, DaysInsufficient}, ContractBudgetExceeded);
    assert {RunsInsufficient, DaysInsufficient} + {ContractBudgetExceeded}
        == {RunsInsufficient, DaysInsufficient, ContractBudgetExceeded};
  }

  lemma FailingExactly(p: Unmet -> bool)
    ensures forall u :: u in Failing(p) <==> p(u)
    ensures forall u :: multiset(Failing(p))[u] <= 1
  {
    var all := {RunsInsufficient, DaysInsufficient, ContractBudgetExceeded, ArtifactBudgetExceeded, ApprovalAbsent};
    FailingNoted(p);
    NotedMembers(Failing(p), p, all);
    forall u: Unmet ensures u in all {
      match u case RunsInsufficient => case DaysInsufficient => case ContractBudgetExceeded =>
              case ArtifactBudgetExceeded => case ApprovalAbsent =>
    }
  }

  /** Exactly one diagnostic for each violated bound, in the order of the checks. */
  function Breaches(q: Request): (r: seq<Unmet>)
    requires Complete(q.policy, q.observation)
    ensures forall u :: u in r <==> Violated(q, u)
    ensures forall u :: multiset(r)[u] <= 1
  {
    FailingExactly(Breach(q));
    Failing(Breach(q))
  }

  /** The day count is below `n` exactly when the window is shorter than `n` whole days. */
  lemma WholeDays(elapsed: int, n: int)
    ensures elapsed / DAY < n <==> elapsed < n * DAY
  {
    assert elapsed == elapsed / DAY * DAY + elapsed % DAY;
    if elapsed / DAY < n { assert (elapsed / DAY + 1) * DAY <= n * DAY; }
    if elapsed / DAY >= n { assert elapsed / DAY * DAY >= n * DAY; }
  }

  method ValidTransitions(t: map<string, Option<seq<string>>>) returns (ok: bool)
    ensures ok == GoodTransitions(t)
  {
    ok := t != map[];
    var rest := t.Keys;
    while rest != {}
      invariant rest <= t.Keys
      invariant ok <==> t != map[] && forall m | m in t && m !in rest :: GoodTransition(m, t[m])
      decreases |rest|
    {
      var m := Minimum(rest);
      if t[m].Some? { DistinctBySize(t[m].value); }
      if Blank(m) || t[m].None? || (exists x | x in t[m].value :: Blank(x)) || |t[m].value| != |Members(t[m].value)| {
        ok := false;
      }
      rest := rest - {m};
    }
  }

  /** The five checks in turn. */
  method UnmetBounds(q: Request) returns (unmet: seq<Unmet>, elapsedDays: int)
    requires Complete(q.policy, q.observation) && q.observation.first.value <= q.observation.last.value
    ensures unmet == Breaches(q)
    ensures elapsedDays * DAY <= q.observation.last.value - q.observation.first.value < (elapsedDays + 1) * DAY
  {
    var p, o := q.policy, q.observation;
    elapsedDays := (o.last.value - o.first.value) / DAY;
    WholeDays(o.last.value - o.first.value, p.minimumDays.value);
    unmet := if o.runs.value < p.minimumRuns.value then [RunsInsufficient] else [];
    if elapsedDays < p.minimumDays.value { unmet := unmet + [DaysInsufficient]; }
    if o.contractFailures.value > p.maximumContract.value { unmet := unmet + [ContractBudgetExceeded]; }
    assert unmet == FirstThree(Breach(q));
    if o.artifactFailures.value > p.maximumArtifact.value { unmet := unmet + [ArtifactBudgetExceeded]; }
    if p.approvalRequired.value && !q.approved { unmet := unmet + [ApprovalAbsent]; }
  }

  /** The exact verdict: one diagnostic for each violated bound, eligible when none is. */
  ghost predicate Verdict(q: Request, r: Result) {
    if !Valid(q) then r == Invalid
    else if forall u :: !Violated(q, u) then r.Eligible? && Days(q, r.elapsedDays)
    else r.Ineligible? && r.unmet == Breaches(q) && Days(q, r.elapsedDays)
  }

  predicate Days(q: Request, n: int)
    requires Complete(q.policy, q.observation)
  {
    n * DAY <= q.observation.last.value - q.observation.first.value < (n + 1) * DAY
  }

  method EvaluatePromotion(q: Request) returns (r: Result)
    ensures Verdict(q, r)
  {
    var p, o := q.policy, q.observation;
    var transitionsOk := ValidTransitions(p.transitions);
    if !p.schemaKnown || !o.schemaKnown || !p.requirementsKnown || !Complete(p, o)
       || Blank(q.current) || Blank(q.requested) || !transitionsOk || q.current !in p.transitions {
      return Invalid;
    }
    if q.requested !in p.transitions[q.current].value || o.last.value < o.first.value { return Invalid; }
    var unmet, days := UnmetBounds(q);
    if unmet != [] {
      assert Violated(q, unmet[0]);
      return Ineligible(unmet, days);
    }
    r := Eligible(days);
  }

  /** `w` asks for the same promotion with evidence that is at least as good. */
  predicate AtLeastAsGood(v: Request, w: Request)
    requires Complete(v.policy, v.observation) && Complete(w.policy, w.observation)
  {
    && w.policy == v.policy && w.current == v.current && w.requested == v.requested
    && w.observation.schemaKnown == v.observation.schemaKnown
    && w.observation.first.value <= v.observation.first.value && v.observation.last.value <= w.observation.last.value
    && v.observation.runs.value <= w.observation.runs.value
    && w.observation.contractFailures.value <= v.observation.contractFailures.value
    && w.observation.artifactFailures.value <= v.observation.artifactFailures.value
    && (v.approved ==> w.approved)
  }

  /** Better evidence never loses eligibility, and never adds a diagnostic. */
  lemma BetterEvidenceStaysEligible(v: Request, w: Request, r: Result, s: Result)
    requires Valid(v) && Complete(w.policy, w.observation) && AtLeastAsGood(v, w)
    requires Verdict(v, r) && Verdict(w, s)
    ensures r.Eligible? ==> s.Eligible?
    ensures s.Ineligible? ==> r.Ineligible? && forall u :: u in s.unmet ==> u in r.unmet
    ensures !s.Invalid? && s.elapsedDays >= r.elapsedDays
  {
    assert Valid(w);
    forall u | Violated(w, u) ensures Violated(v, u) {}
  }
}
