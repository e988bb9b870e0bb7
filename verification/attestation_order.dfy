/** When the insertion order of the attested hashes matters (`l9_ci/governance/attestation.py:107-138`). */
module AttestationOrder {
  import opened Order
  import opened Text
  import opened Wrappers
  import opened Attestation
  import opened AttestationVerdict

  ghost predicate Consistent(s: seq<HashEntry>) {
    forall e, f | e in s && f in s && Slashed(e.path.GetOr("")) == Slashed(f.path.GetOr("")) :: e.digest == f.digest
  }

  ghost predicate Complete(s: seq<HashEntry>) { forall e | e in s :: e.path.Some? && e.digest.Some? }

  ghost predicate OrderIrrelevant(s: seq<HashEntry>) {
    forall t | multiset(t) == multiset(s) :: HashMap(t) == HashMap(s)
  }

  lemma {:induction false} HashMapMember(s: seq<HashEntry>, p: string)
    requires Complete(s) && Consistent(s)
    ensures p in HashMap(s) <==> exists e :: e in s && Slashed(e.path.value) == p
    ensures forall e | e in s && Slashed(e.path.value) == p :: p in HashMap(s) && HashMap(s)[p] == e.digest.value
  {
    if s != [] {
      var last := s[|s| - 1];
      assert s == s[..|s| - 1] + [last];
      HashMapMember(s[..|s| - 1], p);
    }
  }

  lemma SameMembersMap(s: seq<HashEntry>, t: seq<HashEntry>)
    requires Complete(s) && Consistent(s) && multiset(t) == multiset(s)
    ensures HashMap(t) == HashMap(s)
  {
    forall e ensures e in s <==> e in t { assert e in s <==> e in multiset(s); assert e in t <==> e in multiset(t); }
    forall p ensures Lookup(HashMap(s), p) == Lookup(HashMap(t), p) {
      HashMapMember(s, p);
      HashMapMember(t, p);
    }
    SameLookups(HashMap(t), HashMap(s));
  }

  lemma LastWins(s: seq<HashEntry>, i: nat)
    requires Complete(s) && i < |s|
    ensures var t := Without(s, i) + [s[i]];
            multiset(t) == multiset(s) && Slashed(s[i].path.value) in HashMap(t)
            && HashMap(t)[Slashed(s[i].path.value)] == s[i].digest.value
  {
    var t := Without(s, i) + [s[i]];
    assert s == s[..i] + [s[i]] + s[i + 1..];
    assert t[..|t| - 1] == Without(s, i);
  }

  lemma OrderedAlike(s: seq<HashEntry>, e: HashEntry)
    requires Complete(s) && OrderIrrelevant(s) && e in s
    ensures Lookup(HashMap(s), Slashed(e.path.value)) == e.digest
  {
    var i :| 0 <= i < |s| && s[i] == e;
    LastWins(s, i);
    var t := Without(s, i) + [s[i]];
    assert HashMap(t) == HashMap(s);
  }

  /**
   Paths spelled with `\` and with `/` collide, and the later one wins. So the insertion order of the attested hashes
   is irrelevant to the recorded map exactly when paths that normalise alike carry the same digest.
   */
  lemma HashOrderIrrelevantIff(s: seq<HashEntry>)
    requires Complete(s)
    ensures OrderIrrelevant(s) <==> Consistent(s)
  {
    if Consistent(s) {
      forall t | multiset(t) == multiset(s) ensures HashMap(t) == HashMap(s) { SameMembersMap(s, t); }
    }
    if OrderIrrelevant(s) {
      forall e, f | e in s && f in s && Slashed(e.path.GetOr("")) == Slashed(f.path.GetOr(""))
        ensures e.digest == f.digest
      {
        OrderedAlike(s, e);
        OrderedAlike(s, f);
      }
    }
  }

  // ------------------------------------------------------- the whole result

  /** The attestation with its hashes in another order. */
  function Reordered(a: Attested, t: seq<HashEntry>): Attested { a.(hashes := Hashes(t)) }

  /** Every reordering of the attested hashes gives the same result, under every expectation. */
  ghost predicate ResultIgnoresHashOrder(safe: string -> bool, c: Constitution, a: Attested) {
    a.hashes.Hashes? ==>
      forall t, e | multiset(t) == multiset(a.hashes.entries) ::
        Evaluate(safe, c, Reordered(a, t), e) == Evaluate(safe, c, a, e)
  }

  lemma GoodReordered(safe: string -> bool, a: Attested, t: seq<HashEntry>)
    requires GoodAttested(safe, a) && multiset(t) == multiset(a.hashes.entries)
    ensures GoodAttested(safe, Reordered(a, t))
  {
    forall e | e in t ensures GoodHash(safe, e) {
      assert e in multiset(a.hashes.entries);
    }
  }

  lemma GoodIsComplete(safe: string -> bool, a: Attested)
    requires GoodAttested(safe, a)
    ensures Complete(a.hashes.entries)
  {
  }

  lemma ReadinessReordered(a: Attested, t: seq<HashEntry>)
    ensures Evidenced(Reordered(a, t)) == Evidenced(a) && SameMaps(Evidenced(Reordered(a, t)), Evidenced(a))
  {
  }

  lemma ScalarsReordered(c: Constitution, a: Attested, t: seq<HashEntry>, e: Expected)
    ensures ScalarDrift(c, Reordered(a, t), e) == ScalarDrift(c, a, e)
  {
  }

  /** Only the hash differences can change. */
  lemma DriftReordered(c: Constitution, a: Attested, t: seq<HashEntry>, e: Expected)
    ensures AllDrift(c, Reordered(a, t), e)
         == ScalarDrift(c, a, e) + HashDrift(Reordered(a, t), e) + DeclaredDrift(c, a)
    ensures Gaps(c, Reordered(a, t)) == Gaps(c, a)
  {
    ScalarsReordered(c, a, t, e);
    ReadinessReordered(a, t);
    SameDeclaredDrift(c, Reordered(a, t), a);
  }

  /** The expectation that names exactly the hashes attested. */
  function ExpectingOwn(a: Attested): Expected { Expected(None, Some(a.hashes), None) }

  lemma OwnHashesAgree(safe: string -> bool, c: Constitution, a: Attested, t: seq<HashEntry>)
    requires c.node.Node? && GoodDeclared(c) && GoodAttested(safe, a) && multiset(t) == multiset(a.hashes.entries)
    requires Evaluate(safe, c, Reordered(a, t), ExpectingOwn(a)) == Evaluate(safe, c, a, ExpectingOwn(a))
    ensures HashMap(t) == HashMap(a.hashes.entries)
  {
    var e, b := ExpectingOwn(a), Reordered(a, t);
    GoodReordered(safe, a, t);
    DriftReordered(c, a, t, e);
    HashDriftIff(a, e);
    HashDriftIff(b, e);
    assert AllDrift(c, b, e) == AllDrift(c, a, e);
    assert |HashDrift(b, e)| == |HashDrift(a, e)| == 0;
  }

  lemma SameMapSameDrift(a: Attested, t: seq<HashEntry>, e: Expected)
    requires a.hashes.Hashes? && HashMap(t) == HashMap(a.hashes.entries)
    ensures HashDrift(Reordered(a, t), e) == HashDrift(a, e)
  {
  }

  lemma SameMapSameResult(safe: string -> bool, c: Constitution, a: Attested, t: seq<HashEntry>, e: Expected)
    requires GoodAttested(safe, a) && multiset(t) == multiset(a.hashes.entries)
    requires HashMap(t) == HashMap(a.hashes.entries)
    ensures Evaluate(safe, c, Reordered(a, t), e) == Evaluate(safe, c, a, e)
  {
    WellFormedReordered(safe, c, a, t, e);
    DriftReordered(c, a, t, e);
    SameMapSameDrift(a, t, e);
    assert AllDrift(c, Reordered(a, t), e) == AllDrift(c, a, e);
  }

  lemma WellFormedReordered(safe: string -> bool, c: Constitution, a: Attested, t: seq<HashEntry>, e: Expected)
    requires GoodAttested(safe, a) && multiset(t) == multiset(a.hashes.entries)
    ensures WellFormed(safe, c, Reordered(a, t), e) <==> WellFormed(safe, c, a, e)
  {
    GoodReordered(safe, a, t);
  }

  /** For a well-formed attestation, hash order never matters exactly when colliding paths carry the same digest. */
  lemma ResultIgnoresHashOrderIff(safe: string -> bool, c: Constitution, a: Attested)
    requires c.node.Node? && GoodDeclared(c) && GoodAttested(safe, a)
    ensures ResultIgnoresHashOrder(safe, c, a) <==> Consistent(a.hashes.entries)
  {
    var s := a.hashes.entries;
    GoodIsComplete(safe, a);
    HashOrderIrrelevantIff(s);
    if Consistent(s) {
      forall t, e | multiset(t) == multiset(s)
        ensures Evaluate(safe, c, Reordered(a, t), e) == Evaluate(safe, c, a, e)
      {
        SameMapSameResult(safe, c, a, t, e);
      }
    }
    if ResultIgnoresHashOrder(safe, c, a) {
      forall t | multiset(t) == multiset(s) ensures HashMap(t) == HashMap(s) {
        OwnHashesAgree(safe, c, a, t);
      }
    }
  }

  /** Two spellings of one path with different digests: whichever comes last is recorded. */
  lemma SpellingsCollide(x: string, y: string)
    requires x != y
    ensures var (p, q) := (HashEntry(Some("a/b"), Some(x)), HashEntry(Some("a\\b"), Some(y)));
            HashMap([p, q]) == map["a/b" := y] && HashMap([q, p]) == map["a/b" := x] && !Consistent([p, q])
  {
    var (p, q) := (HashEntry(Some("a/b"), Some(x)), HashEntry(Some("a\\b"), Some(y)));
    SlashedSpellings();
    RecordedLast(p, q);
    RecordedLast(q, p);
    assert p in [p, q] && q in [p, q];
  }

  /** Sixty-four times the digit `c`. */
  function DigestOf(c: char): string { "sha256:" + seq(64, i => c) }

  lemma DigestOfDigit(c: char)
    requires IsHex(c)
    ensures IsDigest(DigestOf(c)) && DigestOf(c)[7] == c
  {
  }

  /** A node that declares nothing. */
  function BareConstitution(): Constitution {
    Constitution(Node(Some("n"), None, None), Keys({}), Keys({}), Keys({}), Some([]))
  }

  /** Its attestation with two spellings of one path and different digests. */
  function TwoSpellings(): Attested {
    var (p, q) := (HashEntry(Some("a/b"), Some(DigestOf('0'))), HashEntry(Some("a\\b"), Some(DigestOf('1'))));
    Attested(Some("n"), Some("1"), Some("1"), Some("m"), Some(DigestOf('0')), true, List([]), List([]), List([]),
             Hashes([p, q]), List([]), Readiness([]))
  }

  lemma TwoSpellingsGood(safe: string -> bool)
    requires safe("a/b") && safe("a\\b")
    ensures GoodAttested(safe, TwoSpellings()) && GoodDeclared(BareConstitution())
  {
    DigestOfDigit('0');
    DigestOfDigit('1');
    assert !IsSpace("n"[0]) && !IsSpace("1"[0]) && !IsSpace("m"[0]);
  }

  /** Nothing else is declared or attested, so agreement is agreement on the hashes. */
  lemma BareAgreement(t: seq<HashEntry>)
    ensures var (c, a) := (BareConstitution(), TwoSpellings());
            && (Agrees(c, Reordered(a, t), ExpectingOwn(a)) <==> HashMap(t) == HashMap(a.hashes.entries))
            && AllReady(c, Reordered(a, t))
  {
    var (c, a) := (BareConstitution(), TwoSpellings());
    BareInventories(Reordered(a, t));
  }

  lemma BareInventories(a: Attested)
    requires a.actions == a.tools == a.events == List([])
    ensures InventoriesAgree(BareConstitution(), a)
  {
    forall k | k in KINDS ensures KeysOf(Declared(BareConstitution(), k)) == ItemsOf(Inventory(a, k)) {
      assert Declared(BareConstitution(), k) == Keys({}) && Inventory(a, k) == List([]);
    }
  }

  /** The two entries in the other order. */
  function Swapped(): Attested {
    Reordered(TwoSpellings(), [TwoSpellings().hashes.entries[1], TwoSpellings().hashes.entries[0]])
  }

  lemma SwappedHashes()
    ensures multiset(Swapped().hashes.entries) == multiset(TwoSpellings().hashes.entries)
    ensures HashMap(Swapped().hashes.entries) != HashMap(TwoSpellings().hashes.entries)
  {
    var (p, q) := (TwoSpellings().hashes.entries[0], TwoSpellings().hashes.entries[1]);
    assert TwoSpellings().hashes.entries == [p, q] && Swapped().hashes.entries == [q, p];
    SwapPair(p, q);
    DigestsDiffer();
    SpellingsCollide(DigestOf('0'), DigestOf('1'));
    OneKeyDiffers("a/b", DigestOf('0'), DigestOf('1'));
  }

  lemma SwapPair(p: HashEntry, q: HashEntry)
    ensures multiset([q, p]) == multiset([p, q])
  {
  }

  lemma OneKeyDiffers(k: string, x: string, y: string)
    requires x != y
    ensures map[k := x] != map[k := y]
  {
    assert map[k := x][k] == x && map[k := y][k] == y;
  }

  /** Expecting the hashes recorded in one order, the same two entries in the other order turn a pass into a failure. */
  lemma SpellingOrderDecides(safe: string -> bool)
    requires safe("a/b") && safe("a\\b")
    ensures WellFormed(safe, BareConstitution(), TwoSpellings(), ExpectingOwn(TwoSpellings()))
    ensures multiset(Swapped().hashes.entries) == multiset(TwoSpellings().hashes.entries)
    ensures Evaluate(safe, BareConstitution(), TwoSpellings(), ExpectingOwn(TwoSpellings())).Evaluated?
            && Evaluate(safe, BareConstitution(), TwoSpellings(), ExpectingOwn(TwoSpellings())).status == Pass
    ensures Evaluate(safe, BareConstitution(), Swapped(), ExpectingOwn(TwoSpellings())).Evaluated?
            && Evaluate(safe, BareConstitution(), Swapped(), ExpectingOwn(TwoSpellings())).status == Fail
  {
    var (c, a, b) := (BareConstitution(), TwoSpellings(), Swapped());
    TwoSpellingsGood(safe);
    SwappedHashes();
    assert GoodExpected(safe, ExpectingOwn(a));
    WellFormedReordered(safe, c, a, b.hashes.entries, ExpectingOwn(a));
    assert Reordered(a, a.hashes.entries) == a && Reordered(a, b.hashes.entries) == b;
    BareAgreement(a.hashes.entries);
    BareAgreement(b.hashes.entries);
    VerdictIff(safe, c, a, ExpectingOwn(a));
    VerdictIff(safe, c, b, ExpectingOwn(a));
  }

  lemma DigestsDiffer()
    ensures DigestOf('0') != DigestOf('1')
  {
    assert DigestOf('0')[7] != DigestOf('1')[7];
  }

  lemma RecordedLast(p: HashEntry, q: HashEntry)
    requires p.path.Some? && p.digest.Some? && q.path.Some? && q.digest.Some?
    requires Slashed(p.path.value) == Slashed(q.path.value)
    ensures HashMap([p, q]) == map[Slashed(q.path.value) := q.digest.value]
  {
    assert [p, q][..1] == [p] && [p][..0] == [];
    assert HashMap([p]) == map[Slashed(p.path.value) := p.digest.value];
  }

  lemma SlashedSpellings()
    ensures Slashed("a/b") == Slashed("a\\b") == "a/b"
  {
    assert "a/b"[1..] == "/b" && "a\\b"[1..] == "\\b" && "/b"[1..] == "b" && "\\b"[1..] == "b";
    assert Slashed("b") == "b" && Slashed("/b") == "/b" && Slashed("\\b") == "/b";
  }
}
