/** Bounded provider execution, each step failing closed (`l9_ci/pipeline/runner.py`). */
module Runner {
  import opened Text
  import opened Json
  import opened Wrappers
  import opened Contracts
  import opened Semgrep
  import opened Identities

  datatype ExecResult = ExecResult(exitCode: int, reportPath: Option<string>, timedOut: bool, outputLimitExceeded: bool)

  /** Loading a report: a value error is caught, anything else escapes the runner. */
  datatype Import = Report(report: Json) | ValueError(message: string) | Escapes

  /** Any provider: what its calls would do for one request. */
  datatype Provider = Provider(
    id: string, detected: bool, configurationErrors: seq<string>, execution: Outcome<ExecResult>,
    executionFailure: (ExecResult, Context) -> Option<ProviderFailure>, importReport: string -> Import,
    shapeErrors: Json -> seq<string>, normalize: (Context, Json) -> Outcome<Normalization>)

  function Failure(p: Provider, ctx: Context, t: FailureType, message: string, diagnostics: seq<Field>)
    : ProviderFailure
  {
    ProviderFailure(p.id, t, message, ctx.required, ctx.required, FailureExtra(diagnostics, ctx.providerVersion, None))
  }

  /** `{"errors": [...]}`. */
  function ErrorList(errors: seq<string>): seq<Field> { [Field("errors", Arr(Strings(errors)))] }

  /** `_failed`: no records, failed coverage, the given failure. */
  function FailedWith(p: Provider, f: ProviderFailure): Normalization {
    Normalization([], [], Coverage(p.id, Failed, 0, 0, [f.message]), [f], [f.message])
  }

  /** A failed exit for a reason the runner states itself; the failure type stands in for its wording. */
  function FailedExit(p: Provider, ctx: Context, t: FailureType, diagnostics: seq<Field>): Outcome<Normalization> {
    Returned(FailedWith(p, Failure(p, ctx, t, t.Text(), diagnostics)))
  }

  /** `execute_and_normalize`. A failure contract with a blank message raises. */
  function ExecuteAndNormalize(p: Provider, ctx: Context): Outcome<Normalization> {
    if !p.detected then FailedExit(p, ctx, NotInstalled, [])
    else if ctx.providerVersion.None? then FailedExit(p, ctx, ConfigurationError, [])
    else if p.configurationErrors != [] then FailedExit(p, ctx, ConfigurationError, ErrorList(p.configurationErrors))
    else if p.execution.Raised? then FailedExit(p, ctx, ExecutionError, [])
    else
      var result := p.execution.value;
      var failure := p.executionFailure(result, ctx);
      if failure.Some? then Returned(FailedWith(p, failure.value))
      else if result.reportPath.None? then FailedExit(p, ctx, ReportMissing, [])
      else match p.importReport(result.reportPath.value)
        case Escapes => Raised
        case ValueError(message) =>
          if Blank(message) then Raised else Returned(FailedWith(p, Failure(p, ctx, ReportMalformed, message, [])))
        case Report(report) =>
          if p.shapeErrors(report) != [] then FailedExit(p, ctx, ReportMalformed, ErrorList(p.shapeErrors(report)))
          else match p.normalize(ctx, report)
            case Raised => FailedExit(p, ctx, NormalizationError, [])
            case Returned(n) => Returned(n)
  }

  /** The report the runner hands to normalisation, if every earlier step succeeded. */
  function ReachedReport(p: Provider, ctx: Context): Option<Json> {
    if !p.detected || ctx.providerVersion.None? || p.configurationErrors != [] || p.execution.Raised? then None
    else if p.executionFailure(p.execution.value, ctx).Some? || p.execution.value.reportPath.None? then None
    else match p.importReport(p.execution.value.reportPath.value)
      case Report(report) => if p.shapeErrors(report) != [] then None else Some(report)
      case _ => None
  }

  /** A result of the runner is a failed exit, or exactly what normalising a reached report returned. */
  lemma FailsClosed(p: Provider, ctx: Context)
    requires ExecuteAndNormalize(p, ctx).Returned?
    ensures var n := ExecuteAndNormalize(p, ctx).value;
            (exists f :: n == FailedWith(p, f))
            || (ReachedReport(p, ctx).Some? && p.normalize(ctx, ReachedReport(p, ctx).value) == Returned(n))
  {}

  // ------------------------------------------------------- the Semgrep provider

  /** What the outside world does in one execution of Semgrep. */
  datatype World = World(
    detected: bool, configurationErrors: seq<string>, execution: Outcome<ExecResult>, importReport: string -> Import)

  /** `execution_failure` of the Semgrep adapter. */
  function SemgrepFailure(r: ExecResult, ctx: Context): Option<ProviderFailure> {
    var failure := (t: FailureType, exitCode: Option<int>) =>
      Some(ProviderFailure(PROVIDER, t, t.Text(), ctx.required, ctx.required,
                           FailureExtra([], ctx.providerVersion, exitCode)));
    if r.timedOut then failure(Timeout, None)
    else if r.outputLimitExceeded then failure(OutputLimitExceeded, Some(r.exitCode))
    else if r.reportPath.None? then failure(ReportMissing, Some(r.exitCode))
    else if r.exitCode != 0 && r.exitCode != 1 then failure(ExecutionError, Some(r.exitCode))
    else None
  }

  function SemgrepProvider(a: Adapter, w: World): Provider {
    Provider(PROVIDER, w.detected, w.configurationErrors, w.execution, SemgrepFailure, w.importReport,
             (report: Json) => if WellShaped(report) then [] else a.shapeErrors(report),
             (ctx: Context, report: Json) => Normalize(a, ctx, report))
  }

  /** The world let Semgrep run to a readable report: installed, configured, in time and size, exit 0 or 1. */
  ghost predicate RanTo(w: World, ctx: Context, report: Json) {
    && w.detected && ctx.providerVersion.Some? && w.configurationErrors == [] && w.execution.Returned?
    && var r := w.execution.value;
       && !r.timedOut && !r.outputLimitExceeded && r.reportPath.Some? && (r.exitCode == 0 || r.exitCode == 1)
       && w.importReport(r.reportPath.value) == Report(report)
  }

  lemma ReachedIffRan(a: Adapter, w: World, ctx: Context, report: Json)
    ensures ReachedReport(SemgrepProvider(a, w), ctx) == Some(report) <==> RanTo(w, ctx, report) && WellShaped(report)
  {}

  lemma ReachedIsNormalized(p: Provider, ctx: Context, report: Json, n: Normalization)
    requires ReachedReport(p, ctx) == Some(report) && p.normalize(ctx, report) == Returned(n)
    ensures ExecuteAndNormalize(p, ctx) == Returned(n)
  {}

  /** The runner has complete coverage to report. */
  ghost predicate Completes(a: Adapter, w: World, ctx: Context) {
    var n := ExecuteAndNormalize(SemgrepProvider(a, w), ctx);
    n.Returned? && n.value.coverage.status == Complete
  }

  lemma RanVerifiedCompletes(a: Adapter, w: World, ctx: Context, report: Json)
    requires RanTo(w, ctx, report) && Verified(a, ctx, report)
    ensures ExecuteAndNormalize(SemgrepProvider(a, w), ctx) == Normalize(a, ctx, report)
    ensures Completes(a, w, ctx)
  {
    CompleteIffVerified(a, ctx, report);
    ReachedIffRan(a, w, ctx, report);
    ReachedIsNormalized(SemgrepProvider(a, w), ctx, report, Normalize(a, ctx, report).value);
  }

  /** The runner reports complete coverage exactly when Semgrep ran to a verified report. */
  lemma CompleteIffRan(a: Adapter, w: World, ctx: Context)
    ensures Completes(a, w, ctx) <==> exists report :: RanTo(w, ctx, report) && Verified(a, ctx, report)
  {
    var p := SemgrepProvider(a, w);
    if Completes(a, w, ctx) {
      FailsClosed(p, ctx);
      var report := ReachedReport(p, ctx).value;
      ReachedIffRan(a, w, ctx, report);
      CompleteIffVerified(a, ctx, report);
      assert RanTo(w, ctx, report) && Verified(a, ctx, report);
    }
    if report :| RanTo(w, ctx, report) && Verified(a, ctx, report) { RanVerifiedCompletes(a, w, ctx, report); }
  }
}
