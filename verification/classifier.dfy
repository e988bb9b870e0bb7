/** Policy classification of findings (`l9_ci/policy/classifier.py`). */
module Classifier {
  import opened Order
  import opened Wrappers
  import opened Contracts
  import opened Serializer

  datatype Rule = Rule(policyKey: string, mode: Mode)

  datatype Policy = Policy(version: string, defaultMode: Mode, rules: map<string, Rule>)

  /** The classification of one finding; the contract rejects an explicit rule without key or with unresolved mode. */
  function ClassifyOne(policy: Policy, f: Finding): Outcome<Classification> {
    if f.providerRuleId in policy.rules then
      var rule := policy.rules[f.providerRuleId];
      if rule.policyKey == "" || rule.mode == Unresolved then Raised
      else Returned(Classification(f.findingId, rule.mode, Explicit, false, Some(rule.policyKey), Some(policy.version),
                                   None))
    else if policy.defaultMode == Unresolved then
      Returned(Classification(f.findingId, Unresolved, UnresolvedStatus, false, None, Some(policy.version), None))
    else
      Returned(Classification(f.findingId, policy.defaultMode, Defaulted, true, None, Some(policy.version), None))
  }

  /** No rule covers the finding and the policy has no default for it. */
  predicate LeftUnresolved(policy: Policy, f: Finding) {
    f.providerRuleId !in policy.rules && policy.defaultMode == Unresolved
  }

  function Classified(policy: Policy, findings: seq<Finding>): (r: seq<Classification>)
    requires forall f :: f in findings ==> ClassifyOne(policy, f).Returned?
    ensures |r| == |findings|
    ensures forall i :: 0 <= i < |r| ==> r[i] == ClassifyOne(policy, findings[i]).value
  {
    if findings == [] then [] else
    Classified(policy, findings[..|findings| - 1]) + [ClassifyOne(policy, findings[|findings| - 1]).value]
  }

  /** Classification raises on a rejected rule and, strictly, on an unresolved finding. */
  ghost predicate ClassifyRaises(findings: seq<Finding>, policy: Policy, strict: bool) {
    exists f :: f in findings && (ClassifyOne(policy, f).Raised? || (strict && LeftUnresolved(policy, f)))
  }

  lemma ClassifiedStep(policy: Policy, findings: seq<Finding>, i: nat)
    requires i < |findings| && forall f :: f in findings[..i] ==> ClassifyOne(policy, f).Returned?
    ensures forall f :: f in findings[..i + 1] <==> f in findings[..i] || f == findings[i]
    ensures ClassifyOne(policy, findings[i]).Returned? ==>
              Classified(policy, findings[..i + 1])
              == Classified(policy, findings[..i]) + [ClassifyOne(policy, findings[i]).value]
  {
    assert findings[..i + 1] == findings[..i] + [findings[i]];
  }

  method ClassifyFindings(findings: seq<Finding>, policy: Policy, strict: bool)
    returns (r: Outcome<seq<Classification>>)
    ensures r.Raised? <==> ClassifyRaises(findings, policy, strict)
    ensures r.Returned? ==> (forall f :: f in findings ==> ClassifyOne(policy, f).Returned?)
    ensures r.Returned? ==> forall f :: f in SortBy(findings, FindingKey) ==> ClassifyOne(policy, f).Returned?
    ensures r.Returned? ==> r.value == Classified(policy, SortBy(findings, FindingKey))
  {
    var sorted := SortBy(findings, FindingKey);
    SortMembers(findings, FindingKey);
    var classifications: seq<Classification>, unresolved: seq<string> := [], [];
    for i := 0 to |sorted|
      invariant forall f :: f in sorted[..i] ==> ClassifyOne(policy, f).Returned?
      invariant classifications == Classified(policy, sorted[..i])
      invariant unresolved == [] <==> forall f :: f in sorted[..i] ==> !LeftUnresolved(policy, f)
    {
      ClassifiedStep(policy, sorted, i);
      assert sorted[i] in sorted;
      var one := ClassifyOne(policy, sorted[i]);
      if one.Raised? { return Raised; }
      if LeftUnresolved(policy, sorted[i]) { unresolved := unresolved + [sorted[i].findingId]; }
      classifications := classifications + [one.value];
    }
    assert sorted[..|sorted|] == sorted;
    if strict && unresolved != [] { return Raised; }
    r := Returned(classifications);
  }

  lemma ClassifiedFrom(policy: Policy, findings: seq<Finding>)
    requires forall f :: f in findings ==> ClassifyOne(policy, f).Returned?
    ensures forall f :: f in findings ==> ClassifyOne(policy, f).value in Classified(policy, findings)
    ensures forall c :: c in Classified(policy, findings) ==>
            exists f :: f in findings && c == ClassifyOne(policy, f).value
  {
    var r := Classified(policy, findings);
    forall f | f in findings ensures ClassifyOne(policy, f).value in r {
      var i :| 0 <= i < |findings| && findings[i] == f;
      assert r[i] == ClassifyOne(policy, f).value;
    }
    forall c | c in r ensures exists f :: f in findings && c == ClassifyOne(policy, f).value {
      var i :| 0 <= i < |r| && r[i] == c;
      assert findings[i] in findings;
    }
  }

  /** Some finding gets the mode from its rule or the policy's default. */
  ghost predicate SomeFindingHas(policy: Policy, findings: seq<Finding>, mode: Mode) {
    exists f :: f in findings && ClassifyOne(policy, f).Returned? && ClassifyOne(policy, f).value.mode == mode
  }

  /** Every finding is classified. */
  lemma ClassifiedCovers(policy: Policy, findings: seq<Finding>, f: Finding)
    requires forall f :: f in findings ==> ClassifyOne(policy, f).Returned?
    requires f in findings
    ensures exists c :: c in Classified(policy, findings) && c.findingId == f.findingId
  {
    ClassifiedFrom(policy, findings);
    assert ClassifyOne(policy, f).value in Classified(policy, findings);
  }

  /** The modes present are exactly those the policy gives to some finding. */
  lemma ClassifiedModes(policy: Policy, findings: seq<Finding>, mode: Mode)
    requires forall f :: f in findings ==> ClassifyOne(policy, f).Returned?
    ensures (exists c :: c in Classified(policy, findings) && c.mode == mode)
       <==> SomeFindingHas(policy, findings, mode)
  {
    ClassifiedFrom(policy, findings);
    var r := Classified(policy, findings);
    if c :| c in r && c.mode == mode {
      var f :| f in findings && c == ClassifyOne(policy, f).value;
    }
    if f :| f in findings && ClassifyOne(policy, f).value.mode == mode {
      assert ClassifyOne(policy, f).value in r;
    }
  }

  /** Once classification has not raised, an unresolved mode only comes from a missing rule without default. */
  lemma UnresolvedIff(policy: Policy, findings: seq<Finding>)
    ensures SomeFindingHas(policy, findings, Unresolved) <==> exists f :: f in findings && LeftUnresolved(policy, f)
  {
    if f :| f in findings && LeftUnresolved(policy, f) {
      assert ClassifyOne(policy, f).Returned? && ClassifyOne(policy, f).value.mode == Unresolved;
    }
  }

  /** A rule of unresolved mode makes classification raise, strict or not. */
  lemma UnresolvedRuleRaises(f: Finding, version: string, defaultMode: Mode, policyKey: string)
    ensures var policy := Policy(version, defaultMode, map[f.providerRuleId := Rule(policyKey, Unresolved)]);
            ClassifyRaises([f], policy, false)
  {
    var policy := Policy(version, defaultMode, map[f.providerRuleId := Rule(policyKey, Unresolved)]);
    assert f in [f] && ClassifyOne(policy, f).Raised?;
  }
}
