/**
 Safety of the ratchet over whole sequences of runs in which the ledger only ever loses
 entries.
 */
module Runs {
  import opened Order
  import opened Comparator
  import opened Ratchet

  datatype Run = Run(setting: Setting, observed: seq<Observed>, entries: seq<Entry>)
  {
    ghost predicate Passes() { Comparing(setting, observed, entries).passed }
  }

  /** No run's ledger holds an entry its predecessor's did not. */
  ghost predicate OnlyShrinks(runs: seq<Run>) {
    forall i, e :: 0 < i < |runs| && e in runs[i].entries ==> e in runs[i - 1].entries
  }

  lemma {:induction false} LedgerWithin(runs: seq<Run>, i: nat, j: nat, e: Entry)
    requires OnlyShrinks(runs) && i <= j < |runs| && e in runs[j].entries
    ensures e in runs[i].entries
    decreases j
  {
    if i < j { LedgerWithin(runs, i, j - 1, e); }
  }

  lemma FpsWithin(runs: seq<Run>, i: nat, j: nat)
    requires OnlyShrinks(runs) && i <= j < |runs|
    ensures EntryFps(runs[j].entries) <= EntryFps(runs[i].entries)
  {
    forall fp | fp in EntryFps(runs[j].entries) ensures fp in EntryFps(runs[i].entries) {
      var e :| e in runs[j].entries && e.fingerprint == fp;
      LedgerWithin(runs, i, j, e);
    }
  }

  /** In a passing run everything observed is ledgered. */
  lemma CleanObservedLedgered(s: Setting, obs: seq<Observed>, entries: seq<Entry>)
    requires Clean(s, obs, entries)
    ensures ObservedFps(obs) <= EntryFps(entries)
  {
    forall fp | fp in ObservedFps(obs) ensures fp in EntryFps(entries) {
      var f :| f in obs && f.fingerprint == fp;
      assert Tolerated(s.today, entries, f);
    }
  }

  /** While every run passes, nothing outside the initial ledger is ever observed. */
  lemma ObservedStaysInside(runs: seq<Run>, i: nat)
    requires OnlyShrinks(runs) && i < |runs| && runs[i].Passes()
    ensures ObservedFps(runs[i].observed) <= EntryFps(runs[0].entries)
  {
    var r := runs[i];
    PassesIffClean(r.setting, r.observed, r.entries);
    CleanObservedLedgered(r.setting, r.observed, r.entries);
    FpsWithin(runs, 0, i);
  }

  /** Different entries have different identities. */
  ghost predicate DistinctIdentities(entries: seq<Entry>) {
    forall x, y :: x in entries && y in entries && x.Identity() == y.Identity() ==> x == y
  }

  /** A finding that matches an entry's fingerprint carries that entry's identity. */
  ghost predicate Faithful(obs: seq<Observed>, entries: seq<Entry>) {
    forall f, e :: f in obs && e in entries && f.fingerprint == e.fingerprint ==> f.identity == e.Identity()
  }

  /** A clean run observes its whole ledger, when identities are distinct and shared by matches. */
  lemma CleanObservesLedger(s: Setting, obs: seq<Observed>, entries: seq<Entry>)
    requires Clean(s, obs, entries) && s.removalRequired
    requires DistinctIdentities(entries) && Faithful(obs, entries)
    ensures ObservedFps(obs) == EntryFps(entries)
  {
    CleanObservedLedgered(s, obs, entries);
    forall fp | fp in EntryFps(entries) ensures fp in ObservedFps(obs) {
      var e :| e in entries && e.fingerprint == fp;
      if e.Identity() in ObservedIds(obs) {
        var f :| f in obs && f.identity == e.Identity();
        assert Tolerated(s.today, entries, f);
        var other :| other in entries && other.fingerprint == f.fingerprint;
        assert other.Identity() == f.identity;
        assert other == e;
      }
    }
  }

  /** One run of a shrinking history, seen through the hypotheses on the first ledger. */
  lemma RunObservesLedger(runs: seq<Run>, i: nat)
    requires OnlyShrinks(runs) && i < |runs| && runs[i].Passes() && runs[i].setting.removalRequired
    requires DistinctIdentities(runs[0].entries) && Faithful(runs[i].observed, runs[0].entries)
    ensures ObservedFps(runs[i].observed) == EntryFps(runs[i].entries)
  {
    var r := runs[i];
    PassesIffClean(r.setting, r.observed, r.entries);
    forall e | e in r.entries ensures e in runs[0].entries { LedgerWithin(runs, 0, i, e); }
    assert DistinctIdentities(r.entries) && Faithful(r.observed, r.entries);
    CleanObservesLedger(r.setting, r.observed, r.entries);
  }

  /** Then the observed debt is the ledger in every run, and never grows. */
  lemma DebtNeverGrows(runs: seq<Run>, i: nat, j: nat)
    requires OnlyShrinks(runs) && i <= j < |runs|
    requires runs[i].Passes() && runs[j].Passes()
    requires runs[i].setting.removalRequired && runs[j].setting.removalRequired
    requires DistinctIdentities(runs[0].entries)
    requires Faithful(runs[i].observed, runs[0].entries) && Faithful(runs[j].observed, runs[0].entries)
    ensures ObservedFps(runs[i].observed) == EntryFps(runs[i].entries)
    ensures ObservedFps(runs[j].observed) == EntryFps(runs[j].entries)
    ensures ObservedFps(runs[j].observed) <= ObservedFps(runs[i].observed)
  {
    RunObservesLedger(runs, i);
    RunObservesLedger(runs, j);
    FpsWithin(runs, i, j);
  }

  ghost predicate DatesAdvance(runs: seq<Run>) {
    forall i, j :: 0 <= i <= j < |runs| ==> runs[i].setting.today <= runs[j].setting.today
  }

  /** Once an entry has expired, no later run passes while its fingerprint is observed. */
  lemma ExpiredStaysBlocked(runs: seq<Run>, i: nat, j: nat, e: Entry)
    requires OnlyShrinks(runs) && DatesAdvance(runs) && i <= j < |runs|
    requires DistinctFps(runs[i].entries) && e in runs[i].entries && e.Expired(runs[i].setting.today)
    requires e.fingerprint in ObservedFps(runs[j].observed)
    ensures !runs[j].Passes()
  {
    var r := runs[j];
    if r.Passes() {
      PassesIffClean(r.setting, r.observed, r.entries);
      var f :| f in r.observed && f.fingerprint == e.fingerprint;
      assert Tolerated(r.setting.today, r.entries, f);
      var other :| other in r.entries && other.fingerprint == f.fingerprint && !other.Expired(r.setting.today);
      LedgerWithin(runs, i, j, other);
      FindDistinct(runs[i].entries, other);
      FindDistinct(runs[i].entries, e);
      assert false;
    }
  }

  // --------------------------------- an identity shared by two entries hides debt

  /** The finding that matches an entry exactly. */
  function MatchOf(e: Entry): Observed { Observed("gate", "rule", e.fingerprint, "path", e.Identity()) }

  function Matches(entries: seq<Entry>): (r: seq<Observed>)
    ensures |r| == |entries|
    ensures forall i :: 0 <= i < |r| ==> r[i] == MatchOf(entries[i])
  {
    if entries == [] then [] else [MatchOf(entries[0])] + Matches(entries[1..])
  }

  lemma MatchesMembers(entries: seq<Entry>)
    ensures forall e :: e in entries ==> MatchOf(e) in Matches(entries)
    ensures forall f :: f in Matches(entries) ==> exists e :: e in entries && f == MatchOf(e)
  {
    var obs := Matches(entries);
    forall e | e in entries ensures MatchOf(e) in obs {
      var i :| 0 <= i < |entries| && entries[i] == e;
      assert obs[i] == MatchOf(e);
    }
    forall f | f in obs ensures exists e :: e in entries && f == MatchOf(e) {
      var i :| 0 <= i < |obs| && obs[i] == f;
      assert entries[i] in entries;
    }
  }

  /** The exact matches of a part of the ledger are tolerated and faithful. */
  lemma MatchesTolerated(s: Setting, entries: seq<Entry>, part: seq<Entry>)
    requires DistinctFps(entries) && (forall e :: e in entries ==> !e.Expired(s.today))
    requires forall e :: e in part ==> e in entries
    ensures Faithful(Matches(part), entries)
    ensures forall f :: f in Matches(part) ==> Tolerated(s.today, entries, f)
  {
    var obs := Matches(part);
    MatchesMembers(part);
    forall f, e | f in obs && e in entries && f.fingerprint == e.fingerprint ensures f.identity == e.Identity() {
      var o :| o in part && f == MatchOf(o);
      FindDistinct(entries, o);
      FindDistinct(entries, e);
    }
    forall f | f in obs ensures Tolerated(s.today, entries, f) {
      var o :| o in part && f == MatchOf(o);
      assert o in entries;
    }
  }

  /** Without the entry `k`: the rest of the ledger, none of it with its fingerprint. */
  lemma WithoutDistinct(entries: seq<Entry>, k: nat)
    requires DistinctFps(entries) && k < |entries|
    ensures var rest := Without(entries, k);
            && DistinctFps(rest)
            && (forall e :: e in rest ==> e in entries && e.fingerprint != entries[k].fingerprint)
            && (forall e :: e in entries ==> e in rest || e == entries[k])
  {
    var rest := Without(entries, k);
    WithoutMembers(entries, k);
    forall i, j | 0 <= i < j < |rest| ensures rest[i].fingerprint != rest[j].fingerprint {
      assert rest[i] == entries[if i < k then i else i + 1] && rest[j] == entries[if j < k then j else j + 1];
    }
  }

  lemma WithoutMembers(entries: seq<Entry>, k: nat)
    requires DistinctFps(entries) && k < |entries|
    ensures forall e :: e in Without(entries, k) ==> e in entries && e.fingerprint != entries[k].fingerprint
    ensures forall e :: e in entries ==> e in Without(entries, k) || e == entries[k]
  {
    var before, behind := entries[..k], entries[k + 1..];
    assert entries == before + [entries[k]] + behind;
    forall e | e in before ensures e.fingerprint != entries[k].fingerprint {
      var i :| 0 <= i < k && before[i] == e;
      assert entries[i] == e;
    }
    forall e | e in behind ensures e.fingerprint != entries[k].fingerprint {
      var i :| 0 <= i < |behind| && behind[i] == e;
      assert entries[k + 1 + i] == e;
    }
  }

  /** Observing all entries but one of a pair with a shared identity passes and hides that one. */
  lemma SharedIdentityHides(s: Setting, entries: seq<Entry>, kept: Entry, k: nat)
    requires DistinctFps(entries) && (forall e :: e in entries ==> !e.Expired(s.today))
    requires k < |entries| && kept in entries && kept != entries[k] && kept.Identity() == entries[k].Identity()
    ensures Faithful(Matches(Without(entries, k)), entries)
    ensures Comparing(s, Matches(Without(entries, k)), entries).passed
    ensures entries[k].fingerprint !in ObservedFps(Matches(Without(entries, k)))
  {
    var rest := Without(entries, k);
    var obs := Matches(rest);
    WithoutDistinct(entries, k);
    MatchesTolerated(s, entries, rest);
    MatchesMembers(rest);
    assert MatchOf(kept) in obs;
    forall e | e in entries ensures e.fingerprint in ObservedFps(obs) || e.Identity() in ObservedIds(obs) {
      if e in rest { assert MatchOf(e) in obs; }
    }
    assert DistinctObserved(obs);
    assert Clean(s, obs, entries);
    PassesIffClean(s, obs, entries);
  }

  /**
   A passing run of an unexpired ledger is guaranteed to observe the whole ledger exactly
   when its entries have distinct identities: the comparator skips an unobserved entry
   whose identity was observed for another entry.
   */
  lemma WholeLedgerIffDistinctIdentities(s: Setting, entries: seq<Entry>)
    requires s.removalRequired && DistinctFps(entries)
    requires forall e :: e in entries ==> !e.Expired(s.today)
    ensures (forall obs :: Faithful(obs, entries) && Comparing(s, obs, entries).passed ==>
             ObservedFps(obs) == EntryFps(entries))
       <==> DistinctIdentities(entries)
  {
    if DistinctIdentities(entries) {
      forall obs | Faithful(obs, entries) && Comparing(s, obs, entries).passed
        ensures ObservedFps(obs) == EntryFps(entries)
      {
        PassesIffClean(s, obs, entries);
        CleanObservesLedger(s, obs, entries);
      }
    } else {
      var x, y :| x in entries && y in entries && x.Identity() == y.Identity() && x != y;
      var k :| 0 <= k < |entries| && entries[k] == y;
      SharedIdentityHides(s, entries, x, k);
      assert y.fingerprint in EntryFps(entries);
    }
  }
}
