/** Domain types of the quality checks (internal/quality/types.go, internal/quality/executor.go):
    run and check statuses, the stage lists, and the summary of a run's results. */
module QualityTypes {
  import opened Options

  datatype RunStatus = Queued | Running | CancelRequested | Completed | Failed | Cancelled | Expired

  predicate IsTerminal(s: RunStatus) {
    s.Completed? || s.Failed? || s.Cancelled? || s.Expired?
  }

  /** The rows covered by the partial unique index on the channel. */
  predicate IsActive(s: RunStatus) {
    s.Queued? || s.Running? || s.CancelRequested?
  }

  /** The rows an executor may still write to: the status half of every fencing predicate. */
  predicate IsLeased(s: RunStatus) {
    s.Running? || s.CancelRequested?
  }

  datatype Stage = Connectivity | Protocol | Stream | Usage | Behavior | Authenticity

  datatype Depth = Basic | Full

  function StageNames(depth: Depth): seq<Stage> {
    match depth
    case Basic => [Connectivity, Protocol, Stream]
    case Full => [Connectivity, Protocol, Stream, Usage, Behavior, Authenticity]
  }

  /** Every stage implementation reports under one constant check name. */
  function CheckName(stage: Stage): string {
    match stage
    case Connectivity => "models_endpoint"
    case Protocol => "protocol_conversion"
    case Stream => "stream_integrity"
    case Usage => "usage_consistency"
    case Behavior => "model_behavior"
    case Authenticity => "authenticity_signals"
  }

  datatype CheckStatus = Waiting | InProgress | Passed | Attention | CheckFailed | CheckUnknown | Skipped

  datatype StageResult = StageResult(stage: Stage, check: string, status: CheckStatus)

  datatype Overall = Good | NeedsAttention | Bad | Indeterminate

  predicate IsCritical(stage: Stage) {
    stage.Connectivity? || stage.Protocol? || stage.Stream?
  }

  function StatusRank(s: CheckStatus): nat {
    match s
    case Waiting => 0
    case InProgress => 0
    case Skipped => 1
    case Passed => 2
    case Attention => 3
    case CheckUnknown => 4
    case CheckFailed => 5
  }

  ghost predicate Has(results: seq<StageResult>, status: CheckStatus) {
    exists r :: r in results && r.status == status
  }

  /** What a summary means: it only asks which statuses occur, in any stage and any order. */
  ghost function Summary(results: seq<StageResult>): Overall {
    if results == [] then Indeterminate
    else if Has(results, CheckFailed) || Has(results, CheckUnknown) then Bad
    else if Has(results, Attention) then NeedsAttention
    else Good
  }

  /** The ranking loop computes Summary. In particular the table of critical stages never changes
      the outcome, and an unknown check makes the run Bad, not Indeterminate. */
  method Summarize(results: seq<StageResult>) returns (overall: Overall)
    ensures overall == Summary(results)
    ensures overall == Indeterminate <==> results == []
    ensures overall == Bad <==> exists r :: r in results && (r.status == CheckFailed || r.status == CheckUnknown)
    ensures overall == Good <==> results != [] && forall r :: r in results ==>
              r.status != CheckFailed && r.status != CheckUnknown && r.status != Attention
  {
    if |results| == 0 {
      return Indeterminate;
    }
    var criticalFailed := false;
    var worst := Passed;
    for i := 0 to |results|
      invariant criticalFailed ==> Has(results, CheckFailed)
      invariant StatusRank(worst) >= 2
      invariant worst == Passed || Has(results, worst)
      invariant forall j :: 0 <= j < i ==> StatusRank(results[j].status) <= StatusRank(worst)
    {
      var r := results[i];
      if IsCritical(r.stage) && r.status == CheckFailed {
        criticalFailed := true;
      }
      if StatusRank(r.status) > StatusRank(worst) {
        worst := r.status;
      }
    }
    if criticalFailed {
      return Bad;
    }
    match worst
    case CheckFailed => return Bad;
    case CheckUnknown => return Bad;
    case Attention => return NeedsAttention;
    case _ => return Good;
  }
}
