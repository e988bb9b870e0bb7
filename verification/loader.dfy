/**
 Fail-closed ledger loading (`load_entries_strict`, `load_ledger`) and the merge of its
 violations into a comparison.
 */
module Loader {
  import opened Order
  import opened Text
  import opened Wrappers
  import opened Comparator
  import opened Ratchet

  /** One raw ledger item and what building an entry from it does. */
  datatype RawEntry =
    | NotMapping
    | Invalid(rawId: string, message: string)
    | Parsed(entry: Entry)

  function KindOfError(message: string): Kind {
    if "owner" <= message then MissingOwner
    else if "issue" <= message then MissingIssue
    else MalformedBaseline
  }

  function LoadViolation(kind: Kind, entryKind: string, identity: string, entryId: Option<string>): Violation {
    Violation(kind, entryKind, "ledger", identity, None, entryId, None)
  }

  function Ids(entries: seq<Entry>): set<string> { set e | e in entries :: e.id }

  datatype Loaded = Loaded(entries: seq<Entry>, violations: seq<Violation>)

  /** What loading one more raw item does. */
  function LoadOne(sofar: Loaded, raw: RawEntry, index: nat, entryKind: string): Loaded {
    match raw
    case NotMapping =>
      sofar.(violations := sofar.violations
             + [LoadViolation(MalformedBaseline, entryKind, "entry[" + Digits(index) + "]", None)])
    case Invalid(rawId, message) =>
      sofar.(violations := sofar.violations + [LoadViolation(KindOfError(message), entryKind, rawId, None)])
    case Parsed(entry) =>
      if entry.id in Ids(sofar.entries)
      then sofar.(violations := sofar.violations
                  + [LoadViolation(MalformedBaseline, entryKind, entry.id, Some(entry.id))])
      else sofar.(entries := sofar.entries + [entry])
  }

  function Load(raw: seq<RawEntry>, entryKind: string): Loaded {
    if raw == [] then Loaded([], [])
    else LoadOne(Load(raw[..|raw| - 1], entryKind), raw[|raw| - 1], |raw| - 1, entryKind)
  }

  method LoadEntriesStrict(raw: seq<RawEntry>, entryKind: string)
    returns (entries: seq<Entry>, violations: seq<Violation>)
    ensures Loaded(entries, violations) == Load(raw, entryKind)
  {
    entries, violations := [], [];
    var seenIds: set<string> := {};
    for i := 0 to |raw|
      invariant Loaded(entries, violations) == Load(raw[..i], entryKind)
      invariant seenIds == Ids(entries)
    {
      assert raw[..i + 1][..i] == raw[..i];
      match raw[i]
      case NotMapping =>
        violations := violations + [LoadViolation(MalformedBaseline, entryKind, "entry[" + Digits(i) + "]", None)];
      case Invalid(rawId, message) =>
        violations := violations + [LoadViolation(KindOfError(message), entryKind, rawId, None)];
      case Parsed(entry) =>
        if entry.id in seenIds {
          violations := violations + [LoadViolation(MalformedBaseline, entryKind, entry.id, Some(entry.id))];
        } else {
          assert Ids(entries + [entry]) == Ids(entries) + {entry.id};
          seenIds := seenIds + {entry.id};
          entries := entries + [entry];
        }
    }
    assert raw[..|raw|] == raw;
  }

  /** The entries of the raw items that could be built, in order. */
  function ParsedEntries(raw: seq<RawEntry>): seq<Entry> {
    if raw == [] then []
    else ParsedEntries(raw[..|raw| - 1]) + if raw[|raw| - 1].Parsed? then [raw[|raw| - 1].entry] else []
  }

  /** A sequence with the later holders of an already seen id dropped. */
  function FirstById(entries: seq<Entry>): seq<Entry> {
    if entries == [] then [] else
    var r := FirstById(entries[..|entries| - 1]);
    if entries[|entries| - 1].id in Ids(r) then r else r + [entries[|entries| - 1]]
  }

  lemma DistinctIdsSnoc(init: seq<Entry>, last: Entry)
    ensures DistinctIds(init + [last]) <==> DistinctIds(init) && last.id !in Ids(init)
  {
    var all := init + [last];
    if DistinctIds(all) {
      forall e | e in init ensures e.id != last.id {
        var i :| 0 <= i < |init| && init[i] == e;
        assert all[i].id != all[|init|].id;
      }
      forall i, j | 0 <= i < j < |init| ensures init[i].id != init[j].id { assert all[i].id != all[j].id; }
    } else if DistinctIds(init) {
      var i, j :| 0 <= i < j < |all| && all[i].id == all[j].id;
      assert j == |init| && init[i] in init;
    }
  }

  /** Nothing is lost: each raw item is accepted in order or causes exactly one violation. */
  lemma {:induction false} NothingLost(raw: seq<RawEntry>, entryKind: string)
    ensures var r := Load(raw, entryKind);
            && |r.entries| + |r.violations| == |raw|
            && r.entries == FirstById(ParsedEntries(raw))
            && DistinctIds(r.entries)
  {
    if raw != [] {
      var (init, last) := (raw[..|raw| - 1], raw[|raw| - 1]);
      NothingLost(init, entryKind);
      if last.Parsed? {
        var all := ParsedEntries(raw);
        assert all[..|all| - 1] == ParsedEntries(init) && all[|all| - 1] == last.entry;
        DistinctIdsSnoc(Load(init, entryKind).entries, last.entry);
      } else {
        assert ParsedEntries(raw) == ParsedEntries(init);
      }
    }
  }

  /** Loading is silent exactly when every raw item is an entry and no id repeats; then all are kept in order. */
  lemma {:induction false} SilentIffAllAccepted(raw: seq<RawEntry>, entryKind: string)
    ensures Load(raw, entryKind).violations == []
       <==> (forall r :: r in raw ==> r.Parsed?) && DistinctIds(ParsedEntries(raw))
    ensures Load(raw, entryKind).violations == [] ==> Load(raw, entryKind).entries == ParsedEntries(raw)
  {
    if raw != [] {
      var (init, last) := (raw[..|raw| - 1], raw[|raw| - 1]);
      assert raw == init + [last];
      SilentIffAllAccepted(init, entryKind);
      if last.Parsed? { DistinctIdsSnoc(ParsedEntries(init), last.entry); }
    }
  }

  // ------------------------------------------------------- the whole command

  const SCHEMA_VERSION := "1.0.0"

  /** A parsed ledger document; `entries` is absent when it is not a list. */
  datatype Document = Document(schemaVersion: string, gate: string, path: string, entries: Option<seq<RawEntry>>)

  function DocumentViolations(d: Document, entryKind: string): seq<Violation> {
    var gate := if d.gate == "" then entryKind else d.gate;
    var v := LoadViolation(MalformedBaseline, gate, d.path, None);
    (if d.schemaVersion != SCHEMA_VERSION then [v] else []) + if d.entries.None? then [v] else []
  }

  function LoadLedger(d: Document, entryKind: string): Loaded {
    var r := Load(d.entries.GetOr([]), entryKind);
    Loaded(r.entries, DocumentViolations(d, entryKind) + r.violations)
  }

  /** The comparison a command reports: load violations are merged in and force a failure. */
  function CommandResult(s: Setting, obs: seq<Observed>, d: Document, entryKind: string): Comparison {
    var ledger := LoadLedger(d, entryKind);
    var r := Comparing(s, obs, ledger.entries);
    if ledger.violations != []
    then r.(passed := false, violations := SortViolations(r.violations + ledger.violations))
    else r
  }

  /** A command succeeds exactly when the document is sound, every raw entry is accepted, and the run is clean. */
  lemma CommandPassesIff(s: Setting, obs: seq<Observed>, d: Document, entryKind: string)
    ensures CommandResult(s, obs, d, entryKind).passed
       <==> && d.schemaVersion == SCHEMA_VERSION
            && d.entries.Some?
            && (forall r :: r in d.entries.value ==> r.Parsed?)
            && DistinctIds(ParsedEntries(d.entries.value))
            && Clean(s, obs, ParsedEntries(d.entries.value))
    ensures CommandResult(s, obs, d, entryKind).passed <==> CommandResult(s, obs, d, entryKind).violations == []
  {
    var raw := d.entries.GetOr([]);
    var ledger := LoadLedger(d, entryKind);
    SilentIffAllAccepted(raw, entryKind);
    PassesIffClean(s, obs, ledger.entries);
    SortMultiset(Comparing(s, obs, ledger.entries).violations + ledger.violations, ViolationKey);
  }
}
