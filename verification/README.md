# Verified model of the L9 CI SDK's decision core

This project models the parts of the SDK that decide things, and proves what those decisions mean:

- the **baseline ratchet**: comparing observed findings with a ledger of tolerated debt, strict ledger loading, and the
  pytest report log that feeds it (`comparator.dfy`, `ratchet.dfy`, `ratchet_totals.dfy`, `runs.dfy`, `loader.dfy`,
  `pytest_log.dfy`);
- **canonical content identity**: a compact JSON encoder with a decoder, the order-normalising forms built on it, the
  bundle digest, the canonical bundle text, the observation id, the Semgrep record identities, and the NUL-framed
  contract-set digest with UTF-8 and newline normalisation (`json.dfy`, `canonical.dfy`, `bundle.dfy`,
  `serializer.dfy`, `serializer_order.dfy`, `observation.dfy`, `identities.dfy`, `digest.dfy`, `utf8.dfy`);
- the **fail-closed path** from an arbitrary Semgrep execution to the gate: runner, normalisation, classification,
  bundle assembly, semantic validation, gate (`runner.dfy`, `semgrep.dfy`, `result_order.dfy`, `classifier.dfy`,
  `pipeline.dfy`, `validator.dfy`, `gate.dfy`, over the records of `contracts.dfy`);
- the **governance evaluators**: the governed report with its object-graph walk, the authority diff, the attestation
  comparison and promotion (`walk.dfy`, `reports.dfy`, `authority.dfy`, `authority_patch.dfy`, `attestation.dfy`,
  `attestation_verdict.dfy`, `attestation_order.dfy`, `promotion.dfy`).

`order.dfy`, `text.dfy` and `wrappers.dfy` hold what they share: Python's lexicographic order, its stable sort, the
folds the loops are specified with, whitespace and decimal digits, optional values and raising calls.

Code that updates variables is a method with a loop, proved equal to a specification function; the laws are lemmas about
that function. A Python dictionary is a map, with an explicit sequence of entries wherever its insertion order can be
observed. An exception is `Raised`. The main results:

- `Ratchet.PassesIffClean`, `Ratchet.RatchetStep`, `Runs.DebtNeverGrows`, `Runs.WholeLedgerIffDistinctIdentities`
- `Canonical.CanonicalTextDecidesReordering`, `BundleIdentity.DigestDecidesContent`, `SerializerOrder.BytesOrderFreeIff`,
  `ContractDigest.SetDigestDecides`
- `Pipeline.PassesIff`, `Pipeline.AssembledValidIff`, `ResultOrder.ResultOrderIrrelevant`
- `Walk.WalkComplete`, `AuthorityPatch.PatchRebuilds`, `AuthorityPatch.SwapReverses`, `AttestationVerdict.VerdictIff`

Where the code and what is said about it disagree, the model follows the code. Each place has a lemma at a failing input
and, where the promise is more than an absence of exceptions, the exact condition under which the code keeps it:

- `l9_ci/baseline/comparator.py:206-209` counts an entry as still observed when any finding shares its identity, even
  one that matched another entry. So a passing run need not observe the whole ledger.
  `Runs.WholeLedgerIffDistinctIdentities` proves that it must exactly when ledger identities are distinct, and
  `Runs.SharedIdentityHides` gives the passing run that hides an entry.
- `l9_ci/integration/observation.py:199-204` says that projecting a bundle always satisfies the count guards. Line 307
  seeds the error count with the provider failures, so `Observation.ProjectionAcceptedIff` holds: the guard accepts a
  projection exactly when there is no provider failure, and the status `error` of line 377 is never published.
  `Observation.FailureBlocksProjection` is a rejected projection.
- `l9_ci/governance/authority.py:180-197` looks a null up in a rank table when a field is null on one side and present
  on the other, and lines 68-70 look up unhashable values. `Authority.CompareAuthority` states exactly when the
  comparison raises; `AuthorityPatch.NullFacingValue` and `AuthorityPatch.UnhashableClass` are inputs on which it does.
- `l9_ci/governance/attestation.py:137` records contract paths after turning `\` into `/`, so two spellings of one path
  collide and the later one wins (`AttestationOrder.SpellingsCollide`). `AttestationOrder.ResultIgnoresHashOrderIff`
  proves that the order of the attested hashes never changes a result exactly when colliding paths agree on the digest,
  and `AttestationOrder.SpellingOrderDecides` gives an attestation that passes in one order and fails in the other.
- `l9_ci/artifacts/serializer.py:39` says a bundle is serialized deterministically. Failures that share provider, type
  and message keep their input order, so `SerializerOrder.BytesOrderFreeIff` gives the exact condition, and
  `SerializerOrder.TiedFailuresChangeBytes` a valid bundle whose bytes depend on the order.
- `l9_ci/policy/classifier.py:35-43` builds an explicit classification from a rule of unresolved mode, which the record
  contract rejects: classification then raises even outside strict mode (`Classifier.UnresolvedRuleRaises`).
- `l9_ci/governance/reports.py:121-126` tests `outcome.status` for membership in a set, so an unhashable status (a list, a
  mapping, or a tuple holding one) raises instead of being reported. `Reports.ValidateGovernedReport` states exactly when;
  `Reports.ListStatusRaises` is such a report, and `Reports.TupleStatusReported` a tuple status that is reported.

## Model

| member | source | states |
|---|---|---|
| Comparator.IndexLedger | l9_ci/baseline/comparator.py:82-103 | the first loop files exactly the first entry of each fingerprint, groups entries by identity in order, and reports each later duplicate |
| Comparator.IndexObserved | l9_ci/baseline/comparator.py:110-118 | observations are grouped by fingerprint in order, and the identities are exactly those observed |
| Comparator.ReportIncreased | l9_ci/baseline/comparator.py:119-136 | one violation for each ledgered fingerprint seen more than once, in fingerprint order, naming the first sample |
| Comparator.JudgeFinding | l9_ci/baseline/comparator.py:139-198 | one observation is expired or known by its fingerprint, changed by its identity, or new, with the violation of its status |
| Comparator.JudgeObserved | l9_ci/baseline/comparator.py:138-198 | every observation is known, expired, changed or new, with its violation, in observation order |
| Comparator.ReportResolved | l9_ci/baseline/comparator.py:200-249 | resolved entries are those with neither fingerprint nor identity observed; prompts for them only when removal is required |
| Comparator.Compare | l9_ci/baseline/comparator.py:60-289 | the whole comparison, including totals, sorted violations and suggested removals, equals its specification |
| Order.SortFilter | l9_ci/baseline/comparison.py:162-176 | Python's stable sort commutes with filtering, so dropping violations before or after sorting is the same |
| Order.SortPermutation | l9_ci/baseline/comparison.py:162-176 | sorting forgets the input order when the key determines the element |
| Ratchet.PassesIffClean | l9_ci/baseline/comparator.py:84-278 | a run passes iff fingerprints are distinct on both sides, each observation matches an unexpired entry, and (removal required) each entry has its fingerprint or identity observed |
| Ratchet.RatchetStep | l9_ci/baseline/comparator.py:82-289 | deleting the suggested removals and comparing again yields exactly the old violations without stale and resolved ones, nothing resolved, and the same known and new findings |
| Ratchet.SuggestedIffResolved | l9_ci/baseline/comparator.py:200-215 | an id is suggested for removal iff its entry is resolved |
| RatchetTotals.ObservationsConserved | l9_ci/baseline/comparator.py:138-198 | observations are exactly known, new, changed and expired matches, as multisets and in the totals |
| RatchetTotals.CountJudged | l9_ci/baseline/comparator.py:138-198 | violations of an observation's kind number exactly the observations of that status |
| RatchetTotals.ObservationOrderIrrelevant | l9_ci/baseline/comparator.py:110-198 | permuting the observations changes neither verdict, totals nor resolved ids |
| RatchetTotals.LedgerOrderIrrelevant | l9_ci/baseline/comparator.py:82-289 | permuting a ledger with distinct fingerprints changes neither verdict, totals nor resolved ids |
| Runs.ObservedStaysInside | l9_ci/baseline/comparator.py:138-198 | over any history of a shrinking ledger, a passing run observes nothing outside the initial ledger |
| Runs.DebtNeverGrows | l9_ci/baseline/comparator.py:138-209 | with distinct identities shared by matches, passing runs observe exactly their ledger and the debt never grows |
| Runs.ExpiredStaysBlocked | l9_ci/baseline/comparator.py:105-108 | with non-decreasing dates, no later run passes while an expired entry's fingerprint is observed |
| Runs.SharedIdentityHides | l9_ci/baseline/comparator.py:206-209 | for every pair of entries sharing an identity there is a passing run that does not observe one of them |
| Runs.WholeLedgerIffDistinctIdentities | l9_ci/baseline/comparator.py:199-249 | passing runs observe the whole ledger, whatever is observed, iff entry identities are distinct |
| Loader.LoadEntriesStrict | l9_ci/baseline/comparator.py:292-412 | the loading loop yields the entries and violations of the specification |
| Loader.NothingLost | l9_ci/baseline/comparator.py:304-412 | each raw item is accepted in order or causes exactly one violation; accepted ids are distinct and each is the first of its id |
| Loader.SilentIffAllAccepted | l9_ci/baseline/comparator.py:304-412 | there are no violations iff every item is an entry and no id repeats, and then all are kept in order |
| Loader.CommandPassesIff | l9_ci/commands/baseline.py:85-106 | a command succeeds iff the document is sound, every raw entry was accepted, and the run is clean |
| PytestLog.ParseReportLog | l9_ci/baseline/pytest_adapter.py:125-191 | the fold raises iff some failing record cannot be rendered, and otherwise returns the order-free meaning of the log |
| PytestLog.MeaningIsOrderFree | l9_ci/baseline/pytest_adapter.py:125-191 | a node has a finding iff some record of it failed; passing nodes are those with a passed call and no failing record; both are sorted and disjoint |
| PytestLog.LastFailingIsLast | l9_ci/baseline/pytest_adapter.py:140-176 | the record that supplies a finding is the failing record of its node that no other follows |
| PytestLog.LogOrderIrrelevant | l9_ci/baseline/pytest_adapter.py:125-191 | shuffling the log changes neither failing, passing, skipped or xfailed nodes nor the count, nor whether it raises |
| Json.RoundTrip | l9_ci/contracts/bundle.py:30-35 | a decoder recovers every value from its compact JSON text |
| Json.PrintInjective | l9_ci/contracts/bundle.py:30-35 | compact JSON text determines the value |
| Canonical.NormalDecidesSame | l9_ci/contracts/bundle.py:19-36 | two trees have the same normal form iff they are equal up to key order and, when lists are sorted, list order at every depth |
| Canonical.EncodeDecidesKeyOrder | l9_ci/integration/observation.py:64-70 | sorted-key encoding is injective up to the order of object keys, in both directions |
| Canonical.CanonicalizeNormal | l9_ci/contracts/bundle.py:19-36 | recursively sorting lists by their own encoding and then sorting keys is the order-free normal form |
| Canonical.CanonicalTextDecidesReordering | l9_ci/contracts/bundle.py:19-36 | the hashed text of two trees agrees iff they are equal up to reordering at every depth |
| BundleIdentity.DigestDecidesContent | l9_ci/contracts/bundle.py:180-197 | two bundles share a canonical digest iff they differ at most in timestamp and list order |
| Serializer.NormalIdempotent | l9_ci/artifacts/serializer.py:12-18 | canonicalising twice changes nothing |
| Serializer.CanonicalJsonDecidesKeyOrder | l9_ci/artifacts/serializer.py:21-35 | canonical text agrees iff the values agree up to key order |
| Serializer.BundleBytes | l9_ci/artifacts/serializer.py:38-74 | reassigning the record lists one by one gives the text of the bundle with all lists sorted |
| SerializerOrder.BytesOrderFreeIff | l9_ci/artifacts/serializer.py:38-74 | a semantically valid bundle has the same text in every arrangement of its record lists iff failures sharing provider, type and message have the same canonical text |
| SerializerOrder.TextIff | l9_ci/artifacts/serializer.py:61-74 | two arrangements have the same text iff their sorted failures have the same canonical values in order |
| SerializerOrder.TiedFailuresChangeBytes | l9_ci/artifacts/serializer.py:61-68 | a semantically valid bundle that has an arrangement with other bytes |
| Identities.EvidenceIdDecides | l9_ci/providers/semgrep/identities.py:21-43 | given no collision on the two payloads, evidence ids within a snapshot agree iff rule, path, range and discriminator do |
| Identities.FingerprintDecides | l9_ci/providers/semgrep/identities.py:46-64 | given no collision on the two payloads, fingerprints agree iff rule, path, range and discriminator do |
| Identities.FindingIdDecides | l9_ci/providers/semgrep/identities.py:67-78 | given no collision on the payloads of the two, finding ids agree iff snapshot and match agree |
| Identities.EvidenceAndFindingIdsAgree | l9_ci/providers/semgrep/identities.py:21-78 | two matches share an evidence id iff they share a finding id |
| Validator.ValidateBundleSemantics | l9_ci/artifacts/validator.py:66-137 | the validator collects exactly the specified errors in order, and is valid iff there are none |
| Validator.ValidIff | l9_ci/artifacts/validator.py:66-137 | no error iff ids are unique, every reference resolves within one snapshot, and providers and coverage match one to one |
| Semgrep.CollectPaths | l9_ci/providers/semgrep/provider.py:493-505 | the inventory loops compute the set of the specification, or raise with it |
| Semgrep.PathsRaisedIff | l9_ci/providers/semgrep/provider.py:493-505 | an inventory raises iff some item names a path the path rule rejects |
| Semgrep.PathsExact | l9_ci/providers/semgrep/provider.py:493-505 | otherwise it holds exactly the normalised paths its items name |
| Semgrep.CoverageCounts | l9_ci/providers/semgrep/provider.py:472-522 | no more files are analyzed than considered, as the coverage record demands, and complete coverage analyzed at least one |
| Semgrep.IdentityRaisesIff | l9_ci/identity/resolver.py:85-119 | resolving a rule identity raises iff the result has no trusted id and the identity map is another provider's |
| Semgrep.BuildRecords | l9_ci/providers/semgrep/provider.py:306-401 | the results loop raises iff some result does, and otherwise appends one evidence record, one finding and the limitations of each result |
| Semgrep.ResultRaisesIff | l9_ci/providers/semgrep/provider.py:306-401 | a result raises iff the path rule rejects its path, its range ends before it starts, it has no trusted id under another provider's identity map, or the snapshot id is blank |
| Semgrep.BuildFailures | l9_ci/providers/semgrep/provider.py:402-425 | every error text is a limitation, and every error but a warning a failure that carries the requiredness, the provider version, its index in the report and its level |
| Semgrep.NormalizeReport | l9_ci/providers/semgrep/provider.py:272-470 | the whole normalisation, with its limitations and the diagnostics of its failures, equals its specification |
| ResultOrder.ResultOrderIrrelevant | l9_ci/providers/semgrep/provider.py:272-470 | reports that list the same distinct results in another order normalise alike: records, coverage, failures and limitations, and whether it raises; given no collision among the results' payloads |
| Semgrep.CompleteIffVerified | l9_ci/providers/semgrep/provider.py:402-452 | coverage is complete iff the report is well formed, no result raised on location or rule identity, no path raised, something was scanned and every error is a warning; then there are no failures |
| Gate.EvaluateGate | l9_ci/gates/evaluator.py:12-150 | the gate's result, with all its id sets and reasons, equals its specification |
| Gate.GateDecision | l9_ci/gates/evaluator.py:26-150 | the exact condition of each of the four statuses, in their order of precedence |
| Gate.ResultExplains | l9_ci/gates/evaluator.py:31-150 | reasons are empty iff the gate passes, blocking ids are named iff it fails, and an incomplete gate names a provider or an unresolved finding |
| Classifier.ClassifyFindings | l9_ci/policy/classifier.py:25-68 | raises iff a rule is rejected or, strictly, a finding is unresolved; otherwise one classification per finding in id order |
| Classifier.ClassifiedModes | l9_ci/policy/classifier.py:33-61 | a mode occurs among the classifications iff the policy gives it to some finding |
| Classifier.UnresolvedIff | l9_ci/policy/classifier.py:44-52 | an unresolved mode only ever comes from a missing rule without a default |
| Classifier.UnresolvedRuleRaises | l9_ci/policy/classifier.py:35-43 | under a rule of unresolved mode classification raises, strict or not |
| Runner.FailsClosed | l9_ci/pipeline/runner.py:58-184 | whatever the provider does, the runner returns a failed result or exactly what normalising a report reached through every step returned |
| Runner.CompleteIffRan | l9_ci/pipeline/runner.py:58-184 | the runner reports complete coverage iff Semgrep ran to a readable report that is verified |
| Pipeline.RunPipeline | l9_ci/pipeline/semgrep.py:98-202 | the pipeline refuses an empty snapshot id, an unsupported version, execution bounds that are not positive, excess records, unresolved identities under strictness, blank labels, and bundles that fail semantics or the remaining checks; otherwise it returns the bundle of its specification |
| Pipeline.BlankLabelsNeverPass | l9_ci/contracts/bundle.py:48-52 | a blank snapshot id, adapter version or SDK version is refused whatever was scanned, even on an empty report |
| Pipeline.AssembledValidIff | l9_ci/pipeline/semgrep.py:174-197 | given no collision among the payloads of its results, an assembled bundle is semantically valid iff its results differ pairwise in rule, path, range or discriminator |
| Pipeline.IncompleteNeverPasses | l9_ci/gates/evaluator.py:69-105 | a required provider without complete coverage never passes the gate |
| Pipeline.FailedExitNeverPasses | l9_ci/pipeline/runner.py:19-36 | every failed exit of the runner, for any provider and reason, ends in a gate that does not pass |
| Pipeline.PassesIff | l9_ci/pipeline/semgrep.py:98-202 | given no collision among the payloads of the report it ran to, a required run passes the gate iff Semgrep ran to a verified report, the request is labelled and supported, and the results are distinct, within limits, accepted by the policy, and lead to a bundle that compatibility, schema and redaction checks accept |
| Observation.SealedHolds | l9_ci/integration/observation.py:267-268 | a built observation passes its own content-address check |
| Observation.TamperingDetected | l9_ci/integration/observation.py:125-140 | a payload keeping an observation's id is accepted iff the rest is that observation up to key order |
| Observation.CountSeverities | l9_ci/integration/observation.py:311-322 | the loop raises iff some severity is missing or unknown, and otherwise counts each category |
| Observation.ProjectCounts | l9_ci/integration/observation.py:302-322 | projection raises iff there is no revision or an unusable severity; its counts ignore the order of the findings |
| Observation.ProjectionAcceptedIff | l9_ci/integration/observation.py:190-212 | the count guards accept a projection iff the bundle has no provider failure |
| Observation.FailureBlocksProjection | l9_ci/integration/observation.py:307-307 | one failure and no finding: one error against zero findings, rejected |
| Utf8.DecodeEncode | l9_ci/governance/digest.py:35-43 | strict UTF-8 decoding undoes encoding on every string |
| Utf8.EncodeDecode | l9_ci/governance/digest.py:35-43 | bytes that decode are the encoding of their text, so no byte string has a second spelling |
| ContractDigest.NewlinesIsOnePass | l9_ci/governance/digest.py:35-43 | replacing CRLF and then CR equals a single scan that turns CRLF or a lone CR into LF |
| ContractDigest.NormalizeIdempotent | l9_ci/governance/digest.py:35-43 | normalisation is idempotent on all bytes and leaves no CR in decodable text |
| ContractDigest.ContractFileHashes | l9_ci/governance/digest.py:46-62 | raises iff a path is unsafe or two collide; otherwise maps exactly the normalised paths to their hashes |
| ContractDigest.FileOrderIrrelevant | l9_ci/governance/digest.py:46-62 | insertion order does not affect the hashes |
| ContractDigest.Frame | l9_ci/governance/digest.py:65-73 | the bytearray loop builds the encoding of the framed text |
| ContractDigest.FramingDecides | l9_ci/governance/digest.py:65-73 | framed bytes agree iff the path-to-hash maps do |
| ContractDigest.ContractSetDigest | l9_ci/governance/digest.py:65-73 | raises iff the files are rejected; otherwise returns the digest of the map that records exactly their hashes |
| ContractDigest.HashesDecideContents | l9_ci/governance/digest.py:46-62 | two accepted lists of files record the same hashes iff they hold the same normalised paths with the same normalised contents |
| ContractDigest.SetDigestDecides | l9_ci/governance/digest.py:35-73 | two accepted contract sets share a digest iff they hold the same normalised paths with the same normalised contents |
| Walk.Walker.Step | l9_ci/governance/reports.py:30-47 | one call of the generator, sharing `seen`, yields and marks exactly what the recursive specification says, and terminates on every finite graph |
| Walk.Walker.StepAll | l9_ci/governance/reports.py:30-47 | the loop over children threads `seen` through the calls |
| Walk.WalkComplete | l9_ci/governance/reports.py:30-47 | on cyclic and shared graphs each reachable container is yielded exactly once, and a string iff it is reachable |
| Walk.PathsLead | l9_ci/governance/reports.py:41-47 | every value is yielded under a path that, key by key and index by index, leads from the root to that value |
| Reports.ValidateGovernedReport | l9_ci/governance/reports.py:74-188 | the diagnostics in order, invalid input, and the unhashable status on which it raises |
| Reports.ReportPassesIff | l9_ci/governance/reports.py:74-188 | a report passes iff it is sound and no reachable string is flagged as secret or absolute path |
| Reports.ListStatusRaises | l9_ci/governance/reports.py:74-188 | a report whose outcome status is a list, on which validation raises |
| Reports.TupleStatusReported | l9_ci/governance/reports.py:121-132 | a report whose outcome status is a tuple of strings: validation does not raise and reports the outcome as invalid |
| Authority.CompareAuthority | l9_ci/governance/authority.py:83-243 | exactly when the comparison raises, is invalid or passes, and the changes, flag and count it then reports |
| Authority.CompareShared | l9_ci/governance/authority.py:155-238 | the nested loops raise iff a shared action has a null facing a value, and otherwise report its changes in order |
| AuthorityPatch.PatchRebuilds | l9_ci/governance/authority.py:133-238 | applying the reported changes to the governed fields of `before` gives those of `after` |
| AuthorityPatch.ChangedIffDifferent | l9_ci/governance/authority.py:239-243 | `changed` is false iff the surfaces agree, an absent collection counting as empty |
| AuthorityPatch.SwapReverses | l9_ci/governance/authority.py:133-238 | swapping the arguments reports exactly the dual changes |
| AuthorityPatch.DualCode | l9_ci/governance/authority.py:180-212 | a dual change carries the opposite code: added and removed, escalated and reduced, weakened and strengthened |
| AuthorityPatch.NullFacingValue | l9_ci/governance/authority.py:180-197 | two valid surfaces, a null facing a value, on which the comparison raises |
| AuthorityPatch.UnhashableClass | l9_ci/governance/authority.py:68-70 | a surface whose validation raises on an unhashable value |
| Attestation.ValidateHashes | l9_ci/governance/attestation.py:107-138 | accepts iff every path is safe and every digest well formed; later spellings of a path win |
| Attestation.ValidateEvidence | l9_ci/governance/attestation.py:175-215 | evidence is valid iff flags are boolean, lists are unique, missing variables are declared, and ready implies none is missing |
| Attestation.ValidateReadiness | l9_ci/governance/attestation.py:141-217 | accepts iff every entry is named and valid, and records the last of each name |
| Attestation.JudgeDependencies | l9_ci/governance/attestation.py:440-482 | the dependency loop rejects a malformed declaration and otherwise reports flag drift and readiness gaps |
| Attestation.CompareAttestation | l9_ci/governance/attestation.py:220-517 | the whole comparison, with every early invalid return, equals its specification |
| AttestationVerdict.VerdictIff | l9_ci/governance/attestation.py:301-517 | PASS, INCOMPLETE and FAIL exactly: identity, versions, digest, mode, hash map, inventories, flags, undeclared dependencies and modes agree, and required dependencies are ready |
| AttestationVerdict.PassMeansReady | l9_ci/governance/attestation.py:208-215 | after a pass every required dependency has evidence, is ready, and misses no variable |
| AttestationVerdict.CountDrift | l9_ci/governance/attestation.py:506-517 | `drift_count` is the total size of all the differences |
| AttestationVerdict.CountGaps | l9_ci/governance/attestation.py:456-482 | `incomplete_count` is the number of required dependencies that are not ready |
| AttestationVerdict.ListOrderIrrelevant | l9_ci/governance/attestation.py:288-297 | reordering any attested list leaves the whole result unchanged |
| AttestationOrder.HashOrderIrrelevantIff | l9_ci/governance/attestation.py:117-138 | the recorded hash map ignores insertion order iff paths that normalise alike carry the same digest |
| AttestationOrder.ResultIgnoresHashOrderIff | l9_ci/governance/attestation.py:107-138 | for a well-formed attestation, reordering its hashes never changes the result, under any expectation, iff colliding paths carry the same digest |
| AttestationOrder.SpellingsCollide | l9_ci/governance/attestation.py:137-137 | two spellings of one path with different digests: whichever comes last is recorded |
| AttestationOrder.SpellingOrderDecides | l9_ci/governance/attestation.py:368-383 | a well-formed attestation that passes under expected hashes, and fails under them once its two spellings of one path change places |
| Promotion.WholeDays | l9_ci/governance/promotion.py:299-301 | the floored day count is below a bound iff the window is shorter than that many whole days |
| Promotion.UnmetBounds | l9_ci/governance/promotion.py:289-341 | one diagnostic for each violated bound, in order, and the elapsed days |
| Promotion.EvaluatePromotion | l9_ci/governance/promotion.py:115-349 | invalid, eligible iff all five bounds hold, or ineligible with exactly the violated bounds |
| Promotion.BetterEvidenceStaysEligible | l9_ci/governance/promotion.py:289-349 | a later end, earlier start, more runs, fewer failures or added approval keeps eligibility and adds no diagnostic |

## Left out

- Message text and diagnostic wording: only codes, kinds, paths, ids and counts are kept; the limitation texts of a Semgrep report are collected but their wording is arbitrary.
- SHA-256: an arbitrary function from bytes to non-empty text; results that need it to separate bytes assume it does so on the encodings in question (`BundleIdentity.NoCollision`, `ContractDigest.Separates`, `Identities.Separates`).
- Strings are sequences of Unicode scalar values: a lone surrogate, which Python's encoder rejects, cannot occur.
- Floats, NaN and non-string JSON keys; lower-casing changes ASCII letters only (`Text.Lower`).
- JSON Schema, compatibility and redaction checks of a bundle: one arbitrary predicate (`Pipeline.Checks`). The raw summary check compares counts the bundle itself computed, so it never fails here.
- Timestamp parsing, repository path normalisation, the secret and absolute-path patterns, version support and severity tables: arbitrary functions or validity flags.
- Record fields no decision reads (`extra` in `contracts.dfy`) are arbitrary, except a failure's provider version, exit code and diagnostics, which follow the source; a request carries no remediation map.
- Import mode of the Semgrep pipeline, snapshot derivation, version detection, file and process I/O, YAML loading, CLI rendering.
- Runner.ExecuteAndNormalize: the wording of the runner's own failures is replaced by the failure type.
- Gate.EvaluateGate: id tuples are sets, because the code sorts them or leaves their order to hashing; reasons carry no text.
- Authority.CompareAuthority: the individual diagnostics of an invalid surface, whose order depends on set iteration.
- AuthorityPatch.PatchRebuilds: the source names a removed or added collection item only inside message text; the model's change carries the name itself.
- Attestation.CompareAttestation: the individual diagnostics of an invalid input; every invalid input gives the one result `Invalid`.
- Reports.ValidateGovernedReport: a tuple that holds itself through tuples alone, which Python code does not build, counts as hashable.
- Walk.Walker.Step: mapping keys are strings, and the generator's laziness is not modelled.
- Promotion.EvaluatePromotion: the elapsed seconds are exact, not a rounded float; the two agree for windows below about 270 years. The diagnostics of an invalid request are not kept.
- PytestLog.ParseReportLog: reading the log file and extracting exception types and signatures; their normalised fingerprint is an arbitrary function.
- The AST scanner, capability detection, provider registry, SARIF and agent-payload projection, lint scripts are not modelled.
