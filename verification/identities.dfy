/** Content-addressed Semgrep identities (`l9_ci/providers/semgrep/identities.py`). */
module Identities {
  import opened Json
  import opened Canonical
  import opened Wrappers
  import opened BundleIdentity

  /** What identifies one scanner match within a snapshot. */
  datatype MatchKey = MatchKey(
    ruleId: string, path: string, startLine: int, startColumn: int, endLine: int, endColumn: int, discriminator: string)

  /** `provider_fingerprint or message`. */
  function Discriminator(fingerprint: Option<string>, message: string): string {
    if fingerprint.Some? && fingerprint.value != "" then fingerprint.value else message
  }

  const PROVIDER := "semgrep"

  function PlaceFields(k: MatchKey): seq<Field> {
    [Field("path", Str(k.path)), Field("start_line", Num(k.startLine)), Field("start_column", Num(k.startColumn)),
     Field("end_line", Num(k.endLine)), Field("end_column", Num(k.endColumn)),
     Field("discriminator", Str(k.discriminator))]
  }

  function EvidencePayload(snapshotId: string, k: MatchKey): Json {
    Obj([Field("snapshot_id", Str(snapshotId)), Field("provider_id", Str(PROVIDER)),
         Field("provider_rule_id", Str(k.ruleId))] + PlaceFields(k))
  }

  function FingerprintPayload(k: MatchKey): Json {
    Obj([Field("provider_id", Str(PROVIDER)), Field("provider_rule_id", Str(k.ruleId))] + PlaceFields(k))
  }

  function FindingPayload(snapshotId: string, fingerprint: string): Json {
    Obj([Field("snapshot_id", Str(snapshotId)), Field("fingerprint", Str(fingerprint))])
  }

  /** `_digest`. */
  function Digest(sha: Hash, payload: Json): string { HashText(sha, Encode(payload)) }

  function EvidenceIdOf(sha: Hash, snapshotId: string, k: MatchKey): string {
    "ev_semgrep_" + Digest(sha, EvidencePayload(snapshotId, k))
  }

  function FingerprintOf(sha: Hash, k: MatchKey): string { Digest(sha, FingerprintPayload(k)) }

  function FindingIdOf(sha: Hash, snapshotId: string, k: MatchKey): string {
    "fn_semgrep_" + Digest(sha, FindingPayload(snapshotId, FingerprintOf(sha, k)))
  }

  /** The digest keeps the payloads of two matches apart: those of evidence, fingerprint and finding. */
  ghost predicate Separates(sha: Hash, s: string, a: MatchKey, t: string, b: MatchKey) {
    && NoCollision(sha, Encode(EvidencePayload(s, a)), Encode(EvidencePayload(t, b)))
    && NoCollision(sha, Encode(FingerprintPayload(a)), Encode(FingerprintPayload(b)))
    && NoCollision(sha, Encode(FindingPayload(s, FingerprintOf(sha, a))),
                   Encode(FindingPayload(t, FingerprintOf(sha, b))))
  }

  lemma EvidencePayloadWellFormed(snapshotId: string, k: MatchKey)
    ensures WellFormed(EvidencePayload(snapshotId, k))
  {
    var f := EvidencePayload(snapshotId, k).fields;
    assert f[0].key[0] == 's' && f[1].key[0] == 'p' && f[2].key[0] == 'p' && f[3].key[0] == 'p';
    assert f[4].key[0] == 's' && f[5].key[0] == 's' && f[6].key[0] == 'e' && f[7].key[0] == 'e' && f[8].key[0] == 'd';
  }

  lemma FingerprintPayloadWellFormed(k: MatchKey)
    ensures WellFormed(FingerprintPayload(k))
  {
    var f := FingerprintPayload(k).fields;
    assert f[0].key[0] == 'p' && f[1].key[0] == 'p' && f[2].key[0] == 'p';
    assert f[3].key[0] == 's' && f[4].key[0] == 's' && f[5].key[0] == 'e' && f[6].key[0] == 'e' && f[7].key[0] == 'd';
  }

  /** Payloads over the same keys have equal digests exactly when their values agree. */
  lemma DigestDecides(sha: Hash, a: Json, b: Json)
    requires NoCollision(sha, Encode(a), Encode(b)) && a.Obj? && b.Obj? && WellFormed(a) && WellFormed(b)
    requires |a.fields| == |b.fields| && forall i :: 0 <= i < |a.fields| ==> a.fields[i].key == b.fields[i].key
    ensures Digest(sha, a) == Digest(sha, b)
       <==> forall i :: 0 <= i < |a.fields| ==> Same(a.fields[i].value, b.fields[i].value, false)
  {
    HashDecidesText(sha, Encode(a), Encode(b));
    EncodeDecidesKeyOrder(a, b);
    SameFieldsAligned(a.fields, b.fields, false);
  }

  lemma PlaceFieldsDecide(a: MatchKey, b: MatchKey)
    requires a.ruleId == b.ruleId
    ensures (forall i :: 0 <= i < 6 ==> Same(PlaceFields(a)[i].value, PlaceFields(b)[i].value, false)) <==> a == b
  {
    if forall i :: 0 <= i < 6 ==> Same(PlaceFields(a)[i].value, PlaceFields(b)[i].value, false) {
      var (f, g) := (PlaceFields(a), PlaceFields(b));
      assert Same(f[0].value, g[0].value, false) && Same(f[1].value, g[1].value, false);
      assert Same(f[2].value, g[2].value, false);
      assert Same(f[3].value, g[3].value, false) && Same(f[4].value, g[4].value, false);
      assert Same(f[5].value, g[5].value, false);
    }
  }

  /** Within one snapshot, evidence ids identify matches. */
  lemma EvidenceIdDecides(sha: Hash, snapshotId: string, a: MatchKey, b: MatchKey)
    requires NoCollision(sha, Encode(EvidencePayload(snapshotId, a)), Encode(EvidencePayload(snapshotId, b)))
    ensures EvidenceIdOf(sha, snapshotId, a) == EvidenceIdOf(sha, snapshotId, b) <==> a == b
  {
    var (p, q) := (EvidencePayload(snapshotId, a), EvidencePayload(snapshotId, b));
    if EvidenceIdOf(sha, snapshotId, a) == EvidenceIdOf(sha, snapshotId, b) {
      Text.PrefixCancels("ev_semgrep_", Digest(sha, p), Digest(sha, q));
      EvidencePayloadWellFormed(snapshotId, a);
      EvidencePayloadWellFormed(snapshotId, b);
      DigestDecides(sha, p, q);
      assert Same(p.fields[2].value, q.fields[2].value, false);
      forall i | 0 <= i < 6 ensures Same(PlaceFields(a)[i].value, PlaceFields(b)[i].value, false) {
        assert PlaceFields(a)[i] == p.fields[i + 3] && PlaceFields(b)[i] == q.fields[i + 3];
        assert Same(p.fields[i + 3].value, q.fields[i + 3].value, false);
      }
      PlaceFieldsDecide(a, b);
    }
  }

  lemma FingerprintDecides(sha: Hash, a: MatchKey, b: MatchKey)
    requires NoCollision(sha, Encode(FingerprintPayload(a)), Encode(FingerprintPayload(b)))
    ensures FingerprintOf(sha, a) == FingerprintOf(sha, b) <==> a == b
  {
    var (p, q) := (FingerprintPayload(a), FingerprintPayload(b));
    if FingerprintOf(sha, a) == FingerprintOf(sha, b) {
      FingerprintPayloadWellFormed(a);
      FingerprintPayloadWellFormed(b);
      DigestDecides(sha, p, q);
      assert Same(p.fields[1].value, q.fields[1].value, false);
      forall i | 0 <= i < 6 ensures Same(PlaceFields(a)[i].value, PlaceFields(b)[i].value, false) {
        assert PlaceFields(a)[i] == p.fields[i + 2] && PlaceFields(b)[i] == q.fields[i + 2];
        assert Same(p.fields[i + 2].value, q.fields[i + 2].value, false);
      }
      PlaceFieldsDecide(a, b);
    }
  }

  /** Finding ids identify matches together with their snapshot. */
  lemma FindingIdDecides(sha: Hash, s: string, a: MatchKey, t: string, b: MatchKey)
    requires Separates(sha, s, a, t, b)
    ensures FindingIdOf(sha, s, a) == FindingIdOf(sha, t, b) <==> s == t && a == b
  {
    if FindingIdOf(sha, s, a) == FindingIdOf(sha, t, b) {
      var (p, q) := (FindingPayload(s, FingerprintOf(sha, a)), FindingPayload(t, FingerprintOf(sha, b)));
      Text.PrefixCancels("fn_semgrep_", Digest(sha, p), Digest(sha, q));
      assert p.fields[0].key[0] == 's' && p.fields[1].key[0] == 'f';
      assert q.fields[0].key[0] == 's' && q.fields[1].key[0] == 'f';
      DigestDecides(sha, p, q);
      assert Same(p.fields[0].value, q.fields[0].value, false) && Same(p.fields[1].value, q.fields[1].value, false);
      FingerprintDecides(sha, a, b);
    }
  }

  /** Two matches of a snapshot share an evidence id exactly when they share a finding id. */
  lemma EvidenceAndFindingIdsAgree(sha: Hash, s: string, a: MatchKey, b: MatchKey)
    requires Separates(sha, s, a, s, b)
    ensures EvidenceIdOf(sha, s, a) == EvidenceIdOf(sha, s, b) <==> FindingIdOf(sha, s, a) == FindingIdOf(sha, s, b)
  {
    EvidenceIdDecides(sha, s, a, b);
    FindingIdDecides(sha, s, a, s, b);
  }
}
