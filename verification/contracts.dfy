/**
 The finding bundle and its records. Fields no decision reads travel in `extra`, already
 rendered as dict entries.
 */
module Contracts {
  import opened Json
  import opened Wrappers

  datatype Severity = Critical | High | Medium | Low | Informational | UnknownSeverity
  {
    function Text(): string {
      match this
      case Critical => "critical"
      case High => "high"
      case Medium => "medium"
      case Low => "low"
      case Informational => "informational"
      case UnknownSeverity => "unknown"
    }
  }

  datatype Mode = Blocking | Advisory | Shadow | Disabled | Unresolved
  {
    function Text(): string {
      match this
      case Blocking => "blocking"
      case Advisory => "advisory"
      case Shadow => "shadow"
      case Disabled => "disabled"
      case Unresolved => "unresolved"
    }
  }

  datatype Resolution = Explicit | Defaulted | UnresolvedStatus
  {
    function Text(): string {
      match this
      case Explicit => "explicit"
      case Defaulted => "defaulted"
      case UnresolvedStatus => "unresolved"
    }
  }

  datatype FailureType =
    | NotInstalled | UnsupportedVersion | ConfigurationError | ExecutionError | Timeout | OutputLimitExceeded
    | ReportMissing | ReportMalformed | ReportUnsupported | NormalizationError | InternalError
  {
    function Text(): string {
      match this
      case NotInstalled => "not_installed"
      case UnsupportedVersion => "unsupported_version"
      case ConfigurationError => "configuration_error"
      case ExecutionError => "execution_error"
      case Timeout => "timeout"
      case OutputLimitExceeded => "output_limit_exceeded"
      case ReportMissing => "report_missing"
      case ReportMalformed => "report_malformed"
      case ReportUnsupported => "report_unsupported"
      case NormalizationError => "normalization_error"
      case InternalError => "internal_error"
    }
  }

  datatype CoverageStatus = Complete | Partial | Skipped | Unsupported | Failed
  {
    function Text(): string {
      match this
      case Complete => "complete"
      case Partial => "partial"
      case Skipped => "skipped"
      case Unsupported => "unsupported"
      case Failed => "failed"
    }
  }

  /** `{key: value}` when there is a value, nothing otherwise. */
  function Optional(key: string, value: Option<string>): seq<Field> {
    if value.Some? then [Field(key, Str(value.value))] else []
  }

  function Strings(items: seq<string>): (r: seq<Json>)
    ensures |r| == |items|
  {
    if items == [] then [] else [Str(items[0])] + Strings(items[1..])
  }

  datatype Evidence = Evidence(evidenceId: string, snapshotId: string, providerId: string, providerRuleId: string,
                               extra: seq<Field>)
  {
    function ToDict(): Json {
      Obj([Field("evidence_id", Str(evidenceId)), Field("snapshot_id", Str(snapshotId)),
           Field("provider_id", Str(providerId)), Field("provider_rule_id", Str(providerRuleId))] + extra)
    }
  }

  datatype Finding = Finding(
    findingId: string, snapshotId: string, providerId: string, providerRuleId: string, evidenceIds: seq<string>,
    fingerprint: string, paths: seq<string>, canonicalRuleId: Option<string>, severity: Option<Severity>,
    extra: seq<Field>)
  {
    function ToDict(): Json {
      Obj([Field("finding_id", Str(findingId)), Field("snapshot_id", Str(snapshotId)),
           Field("provider_id", Str(providerId)), Field("provider_rule_id", Str(providerRuleId)),
           Field("evidence_ids", Arr(Strings(evidenceIds))), Field("fingerprint", Str(fingerprint))]
          + Optional("canonical_rule_id", canonicalRuleId)
          + Optional("severity", if severity.Some? then Some(severity.value.Text()) else None)
          + extra)
    }
  }

  datatype Classification = Classification(
    findingId: string, mode: Mode, resolution: Resolution, usedDefault: bool,
    policyKey: Option<string>, policyVersion: Option<string>, waiverId: Option<string>)
  {
    function ToDict(): Json {
      Obj([Field("finding_id", Str(findingId)), Field("mode", Str(mode.Text())),
           Field("resolution_status", Str(resolution.Text())), Field("used_default", Bool(usedDefault))]
          + Optional("policy_key", policyKey) + Optional("policy_version", policyVersion)
          + Optional("waiver_id", waiverId))
    }
  }

  datatype ProviderRun = ProviderRun(
    providerId: string, adapterVersion: string, providerVersion: Option<string>, mode: string, required: bool)
  {
    function ToDict(): Json {
      Obj([Field("provider_id", Str(providerId)), Field("adapter_version", Str(adapterVersion)),
           Field("mode", Str(mode)), Field("required", Bool(required))] + Optional("provider_version", providerVersion))
    }
  }

  /** What a failure's dict holds beside its fields of decision: diagnostics, then the optional values that are set. */
  function FailureExtra(diagnostics: seq<Field>, providerVersion: Option<string>, exitCode: Option<int>): seq<Field> {
    [Field("diagnostics", Obj(diagnostics))] + Optional("provider_version", providerVersion)
    + if exitCode.Some? then [Field("exit_code", Num(exitCode.value))] else []
  }

  datatype ProviderFailure = ProviderFailure(
    providerId: string, failureType: FailureType, message: string, required: bool, fatal: bool, extra: seq<Field>)
  {
    function ToDict(): Json {
      Obj([Field("provider_id", Str(providerId)), Field("failure_type", Str(failureType.Text())),
           Field("message", Str(message)), Field("required", Bool(required)), Field("fatal", Bool(fatal))] + extra)
    }
  }

  datatype Coverage = Coverage(
    providerId: string, status: CoverageStatus, considered: nat, analyzed: nat, limitations: seq<string>)
  {
    function ToDict(): Json {
      Obj([Field("provider_id", Str(providerId)), Field("status", Str(status.Text())),
           Field("files_considered", Num(considered)), Field("files_analyzed", Num(analyzed)),
           Field("limitations", Arr(Strings(limitations)))])
    }
  }

  datatype Snapshot = Snapshot(snapshotId: string, repositoryRoot: string, revision: Option<string>,
                               dirty: Option<bool>)
  {
    function ToDict(): Json {
      Obj([Field("snapshot_id", Str(snapshotId)), Field("repository_root", Str(repositoryRoot))]
          + Optional("revision", revision)
          + if dirty.Some? then [Field("dirty", Bool(dirty.value))] else [])
    }
  }

  function EvidenceDict(e: Evidence): Json { e.ToDict() }
  function FindingDict(f: Finding): Json { f.ToDict() }
  function ClassificationDict(c: Classification): Json { c.ToDict() }
  function ProviderDict(p: ProviderRun): Json { p.ToDict() }
  function FailureDict(f: ProviderFailure): Json { f.ToDict() }
  function CoverageDict(c: Coverage): Json { c.ToDict() }

  /** `[item.to_dict() for item in items]`. */
  function Dicts<T>(items: seq<T>, dict: T -> Json): (r: Json)
    ensures r.Arr? && |r.items| == |items|
  {
    Arr(seq(|items|, i requires 0 <= i < |items| => dict(items[i])))
  }

  datatype Bundle = Bundle(
    schema: string, schemaVersion: string, sdkVersion: string, generatedAt: string, snapshot: Snapshot,
    providers: seq<ProviderRun>, evidence: seq<Evidence>, findings: seq<Finding>,
    classifications: seq<Classification>, failures: seq<ProviderFailure>, coverage: seq<Coverage>,
    limitations: seq<string>)
  {
    /** `summary()`. */
    function Summary(): Json {
      Obj([Field("provider_count", Num(|providers|)), Field("evidence_count", Num(|evidence|)),
           Field("finding_count", Num(|findings|)), Field("classification_count", Num(|classifications|)),
           Field("provider_failure_count", Num(|failures|)), Field("coverage_count", Num(|coverage|))])
    }

    /** `to_dict()` without `generated_at`. */
    function Content(): seq<Field> {
      [Field("schema", Str(schema)), Field("schema_version", Str(schemaVersion)), Field("SDK_version", Str(sdkVersion)),
       Field("snapshot", snapshot.ToDict()), Field("providers", Dicts(providers, ProviderDict)),
       Field("evidence", Dicts(evidence, EvidenceDict)), Field("findings", Dicts(findings, FindingDict)),
       Field("classifications", Dicts(classifications, ClassificationDict)),
       Field("provider_failures", Dicts(failures, FailureDict)), Field("coverage", Dicts(coverage, CoverageDict)),
       Field("limitations", Arr(Strings(limitations))), Field("summary", Summary())]
    }

    /** `to_dict()`: the timestamp stands between the versions and the snapshot. */
    function ToDict(): Json {
      Obj(Content()[..3] + [Field("generated_at", Str(generatedAt))] + Content()[3..])
    }
  }
}
