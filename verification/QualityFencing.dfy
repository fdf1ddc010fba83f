/** The fence of the lease protocol: what an execution that has lost its lease can still do. The lease token
    is only the worker's identifier; here is exactly when that is enough. */
module QualityFencing {
  import opened Options
  import opened QualityTypes
  import opened QualityTables
  import opened QualityLease

  // ---- Lost leases ----

  /** The statements of one execution, its heartbeats included. */
  predicate By(a: Action, c: Claim) {
    match a
    case CheckCancel(d, _) => d == c
    case WriteResult(d, _) => d == c
    case LoseResult(d) => d == c
    case ReadResults(d) => d == c
    case WriteComplete(d, _) => d == c
    case Abort(d) => d == c
    case CheckCancelOnError(d, _) => d == c
    case MissCheck(d) => d == c
    case WriteFail(d, _) => d == c
    case MissFail(d) => d == c
    case Beat(d, _) => d == c
    case _ => false
  }

  /** Nobody claims a run while an earlier execution of it by the same worker is still going on. */
  ghost predicate Alone(s: System, a: Action) {
    a.ClaimNext? ==> forall c :: c in s.execs && c.run == a.id && c.worker == a.worker ==> s.execs[c].phase == Done
  }

  ghost predicate AllAlone(s: System, actions: seq<Action>) {
    actions == [] || (AllAlone(s, actions[..|actions| - 1]) && Alone(After(s, actions[..|actions| - 1]), actions[|actions| - 1]))
  }

  /** The execution has lost its lease, or is over. */
  ghost predicate Fenced(s: System, c: Claim) {
    && c in s.execs && c.run in s.t.runs && c.run < s.t.nextId && c.attempt <= s.t.runs[c.run].attempts
    && (Owns(s.t, c.run, c.worker) ==> s.execs[c].phase == Done)
  }

  lemma LostLeaseStep(s: System, a: Action, c: Claim)
    requires Alone(s, a) && Fenced(s, c)
    ensures Fenced(Step(s, a), c)
    ensures By(a, c) ==> Step(s, a).t == s.t
  {
    if a.Recover? {
      RecoverGrantsNoLease(s.t, a.stale, a.maxAttempts, a.now, c.run, c.worker);
    }
  }

  lemma {:induction false} RecoverGrantsNoLease(t: Tables, stale: seq<StaleRun>, maxAttempts: nat, now: int, id: int, worker: string)
    requires id in t.runs
    ensures var t' := RecoverAll(t, stale, maxAttempts, now);
            && id in t'.runs && t'.nextId == t.nextId && t'.runs[id].attempts == t.runs[id].attempts
            && (Owns(t', id, worker) ==> Owns(t, id, worker))
  {
    if stale != [] {
      RecoverGrantsNoLease(t, stale[..|stale| - 1], maxAttempts, now, id, worker);
    }
  }

  /** No statement of the execution changes the tables. */
  ghost predicate WritesNothing(s: System, actions: seq<Action>, c: Claim) {
    forall i :: 0 <= i < |actions| && By(actions[i], c) ==> After(s, actions[..i + 1]).t == After(s, actions[..i]).t
  }

  /** Once a claim has lost its lease it never regains it, and none of its later statements changes
      the tables: the WHERE clauses alone are enough, without the heartbeat's abort. */
  lemma {:induction false} LostLeaseWritesNothing(s: System, actions: seq<Action>, c: Claim)
    requires AllAlone(s, actions) && Fenced(s, c)
    ensures Fenced(After(s, actions), c) && WritesNothing(s, actions, c)
  {
    if actions != [] {
      var n := |actions| - 1;
      LostLeaseWritesNothing(s, actions[..n], c);
      LostLeaseStep(After(s, actions[..n]), actions[n], c);
      forall i | 0 <= i < |actions| && By(actions[i], c)
        ensures After(s, actions[..i + 1]).t == After(s, actions[..i]).t
      {
        if i < n {
          assert actions[..n][..i + 1] == actions[..i + 1] && actions[..n][..i] == actions[..i];
        } else {
          assert actions[..i + 1] == actions && actions[..i + 1][..i] == actions[..i];
        }
      }
    }
  }

  // ---- When a second claim by the same worker breaks the fence ----

  /** The claim finds its run in the queue; then no earlier execution of it has a lease. */
  predicate Claims(s: System, a: Action) {
    a.ClaimNext? && a.id in s.t.runs && s.t.runs[a.id].status == Queued && a.worker != ""
  }

  lemma OneAction(s: System, a: Action)
    ensures After(s, [a]) == Step(s, a) && (!a.ClaimNext? ==> AllAlone(s, [a]) && Legal(s, [a]))
  {
    assert [a][..0] == [] && After(s, []) == s;
  }

  lemma ClaimLeavesFenced(s: System, a: Action, c: Claim)
    requires Inv(s) && Claims(s, a) && c in s.execs && c.run == a.id && s.execs[c].phase == Done
    ensures Fenced(Step(s, a), c)
  {
  }

  lemma BeatShows(s: System, a: Action, c: Claim)
    requires Claims(s, a) && Inv(s) && c in s.execs && c.run == a.id && c.worker == a.worker && Live(s.execs[c].phase)
    ensures Step(Step(s, a), Beat(c, a.now + 1)).t != Step(s, a).t
  {
    ClaimLeavesExecution(s, a, c);
    BeatRenews(Step(s, a), c, a.now + 1);
  }

  lemma BeatRenews(s: System, c: Claim, now: int)
    requires Runs(s, c) && s.execs[c].phase != Done && Owns(s.t, c.run, c.worker) && s.t.runs[c.run].status == Running
    requires s.t.runs[c.run].heartbeat != Some(now)
    ensures Step(s, Beat(c, now)).t != s.t
  {
    assert Step(s, Beat(c, now)).t.runs[c.run].heartbeat == Some(now);
  }

  lemma FailShows(s: System, c: Claim, now: int)
    requires Runs(s, c) && s.execs[c].phase == FailPending && Owns(s.t, c.run, c.worker)
    ensures Step(s, WriteFail(c, now)).t != s.t
  {
    FailForm(s, c, now);
    assert Step(s, WriteFail(c, now)).t.runs[c.run].status == Failed;
  }

  /** A live execution renews its lease. */
  lemma LiveRegains(s: System, a: Action, c: Claim) returns (actions: seq<Action>)
    requires Inv(s) && Claims(s, a) && c in s.execs && c.run == a.id && c.worker == a.worker && Live(s.execs[c].phase)
    ensures AllAlone(Step(s, a), actions) && !WritesNothing(Step(s, a), actions, c)
  {
    var s', beat := Step(s, a), Beat(c, a.now + 1);
    actions := [beat];
    OneAction(s', beat);
    BeatShows(s, a, c);
    assert actions[..1] == actions && actions[..0] == [] && After(s', []) == s';
    assert By(actions[0], c) && After(s', actions[..0 + 1]).t != After(s', actions[..0]).t;
  }

  lemma TwoActions(s: System, a: Action, b: Action)
    requires !a.ClaimNext? && !b.ClaimNext?
    ensures var actions := [a, b];
            AllAlone(s, actions) && After(s, actions[..1]) == Step(s, a) && After(s, actions[..2]) == Step(Step(s, a), b)
  {
    var actions := [a, b];
    OneAction(s, a);
    assert actions[..1] == [a] && actions[..2] == actions;
    assert AllAlone(s, actions[..1]) && actions[1] == b;
  }

  /** One that has run into an error fails the run of its successor. */
  lemma FailingRegains(s: System, a: Action, c: Claim) returns (actions: seq<Action>)
    requires Inv(s) && Claims(s, a) && c in s.execs && c.run == a.id && c.worker == a.worker
    requires s.execs[c].phase == Failing || s.execs[c].phase == FailPending
    ensures AllAlone(Step(s, a), actions) && !WritesNothing(Step(s, a), actions, c)
  {
    var s' := Step(s, a);
    assert RunsOn(s', c) by { ClaimLeavesExecution(s, a, c); }
    var s2 := Step(s', MissCheck(c));
    TwoActions(s', MissCheck(c), WriteFail(c, 0));
    FailShows(s2, c, 0);
    actions := [MissCheck(c), WriteFail(c, 0)];
    assert By(actions[1], c) && After(s', actions[..1 + 1]).t != After(s', actions[..1]).t;
  }

  ghost predicate RunsOn(s: System, c: Claim) {
    Runs(s, c) && Owns(s.t, c.run, c.worker) && (s.execs[c].phase == Failing || s.execs[c].phase == FailPending)
  }

  lemma ClaimLeavesExecution(s: System, a: Action, c: Claim)
    requires Inv(s) && Claims(s, a) && c in s.execs && c.run == a.id && c.worker == a.worker
    ensures Runs(Step(s, a), c) && Step(s, a).execs[c] == s.execs[c] && Owns(Step(s, a).t, c.run, c.worker)
    ensures Step(s, a).t.runs[c.run].status == Running && Step(s, a).t.runs[c.run].heartbeat == Some(a.now)
  {
  }

  /** An earlier execution of the same worker that is still going on has the lease again, and writes. */
  lemma RegainsLease(s: System, a: Action, c: Claim) returns (actions: seq<Action>)
    requires Inv(s) && Claims(s, a) && c in s.execs && c.run == a.id && c.worker == a.worker && s.execs[c].phase != Done
    ensures AllAlone(Step(s, a), actions) && !WritesNothing(Step(s, a), actions, c)
  {
    if Live(s.execs[c].phase) {
      actions := LiveRegains(s, a, c);
    } else {
      actions := FailingRegains(s, a, c);
    }
  }

  /** The fence holds for the earlier executions of the same worker, whatever follows, exactly if they were
      all over when the run was claimed again. */
  lemma FenceHoldsIff(s: System, a: Action)
    requires Inv(s) && Claims(s, a)
    ensures Alone(s, a) <==>
            forall c, actions :: c in s.execs && c.run == a.id && c.worker == a.worker && AllAlone(Step(s, a), actions) ==>
              WritesNothing(Step(s, a), actions, c)
  {
    var s' := Step(s, a);
    if Alone(s, a) {
      forall c, actions | c in s.execs && c.run == a.id && c.worker == a.worker && AllAlone(s', actions)
        ensures WritesNothing(s', actions, c)
      {
        ClaimLeavesFenced(s, a, c);
        LostLeaseWritesNothing(s', actions, c);
      }
    } else {
      var c :| c in s.execs && c.run == a.id && c.worker == a.worker && s.execs[c].phase != Done;
      var actions := RegainsLease(s, a, c);
    }
  }

  // ---- When it breaks the verdict ----

  /** The stages that executions refer to exist. */
  ghost predicate PhasesOk(s: System) {
    forall c :: c in s.execs ==> c.run in s.t.runs && PhaseOk(s, c)
  }

  ghost predicate PhaseOk(s: System, c: Claim)
    requires c in s.execs && c.run in s.t.runs
  {
    && (s.execs[c].phase.AtStage? ==> s.execs[c].phase.i <= |StagesOf(s.t, c.run)|)
    && (s.execs[c].phase.InStage? ==> s.execs[c].phase.i < |StagesOf(s.t, c.run)|)
  }

  lemma {:induction false} RecoverKeepsDepths(t: Tables, stale: seq<StaleRun>, maxAttempts: nat, now: int, id: int)
    requires id in t.runs
    ensures id in RecoverAll(t, stale, maxAttempts, now).runs && RecoverAll(t, stale, maxAttempts, now).runs[id].depth == t.runs[id].depth
  {
    if stale != [] {
      RecoverKeepsDepths(t, stale[..|stale| - 1], maxAttempts, now, id);
    }
  }

  lemma StepKeepsDepth(s: System, a: Action, id: int)
    requires id in s.t.runs && s.t.nextId !in s.t.runs
    ensures id in Step(s, a).t.runs && Step(s, a).t.runs[id].depth == s.t.runs[id].depth
  {
    if a.Recover? {
      RecoverKeepsDepths(s.t, a.stale, a.maxAttempts, a.now, id);
    }
  }

  lemma StepKeepsPhase(s: System, a: Action, c: Claim)
    requires PhasesOk(s) && s.t.nextId !in s.t.runs && c in Step(s, a).execs
    ensures c.run in Step(s, a).t.runs && PhaseOk(Step(s, a), c)
  {
    if c in s.execs {
      assert PhaseOk(s, c);
      StepKeepsDepth(s, a, c.run);
    }
  }

  lemma {:induction false} PhasesHold(s: System, actions: seq<Action>)
    requires Inv(s) && PhasesOk(s) && Legal(s, actions)
    ensures PhasesOk(After(s, actions))
  {
    if actions != [] {
      var n := |actions| - 1;
      PhasesHold(s, actions[..n]);
      InvHolds(s, actions[..n]);
      var s1 := After(s, actions[..n]);
      forall c | c in Step(s1, actions[n]).execs ensures c.run in Step(s1, actions[n]).t.runs && PhaseOk(Step(s1, actions[n]), c) {
        StepKeepsPhase(s1, actions[n], c);
      }
    }
  }

  /** If the run is completed, its verdict is the summary of its results. */
  ghost predicate VerdictHolds(s: System, id: int) {
    id in s.t.runs && id in s.t.results &&
    (s.t.runs[id].status == Completed ==> s.t.runs[id].overall == Some(Summary(Results(s.t.results[id]))))
  }

  ghost predicate NoClaims(actions: seq<Action>) {
    forall i :: 0 <= i < |actions| ==> !actions[i].ClaimNext?
  }

  lemma {:induction false} NoClaimsIsLegal(s: System, actions: seq<Action>)
    requires NoClaims(actions)
    ensures Legal(s, actions)
  {
    if actions != [] {
      NoClaimsIsLegal(s, actions[..|actions| - 1]);
    }
  }

  ghost predicate Trace(s0: System, actions: seq<Action>, s: System) {
    After(s0, actions) == s && NoClaims(actions)
  }

  lemma Then(s0: System, before: seq<Action>, s: System, a: Action) returns (actions: seq<Action>)
    requires Trace(s0, before, s) && !a.ClaimNext?
    ensures Trace(s0, actions, Step(s, a))
  {
    actions := before + [a];
    assert actions[..|actions| - 1] == before;
  }

  /** Two executions of one worker on a run that it holds. */
  ghost predicate Rivals(s: System, c: Claim, d: Claim) {
    && Runs(s, c) && Runs(s, d) && c != d && c.run == d.run && c.worker == d.worker
    && Owns(s.t, c.run, c.worker) && s.t.runs[c.run].status == Running
    && RowsOk(s.t, c.run) && InDepth(s.t, c.run)
  }

  /** Rows of the first i stages have one and the same status. */
  ghost predicate Uniform(rows: seq<Row>, stages: seq<Stage>, i: nat, status: CheckStatus)
    requires i <= |stages|
  {
    forall r :: r in rows && r.result.stage in stages[..i] ==> r.result.status == status
  }

  lemma UpsertUniform(rows: seq<Row>, stages: seq<Stage>, i: nat, r: Row)
    requires i < |stages| && Uniform(rows, stages, i, r.result.status) && DistinctKeys(rows)
    requires r.result.stage == stages[i] && r.result.check == CheckName(r.result.stage)
    requires forall x :: x in rows ==> x.result.check == CheckName(x.result.stage)
    ensures UpsertRow(rows, r) != [] && Uniform(UpsertRow(rows, r), stages, i + 1, r.result.status)
  {
    UpsertRowContents(rows, r);
    assert stages[..i + 1] == stages[..i] + [stages[i]];
  }

  lemma UpsertKeepsRows(t: Tables, c: Claim, i: nat, status: CheckStatus)
    requires Owns(t, c.run, c.worker) && c.run in t.results && RowsOk(t, c.run) && InDepth(t, c.run)
    requires i < |StagesOf(t, c.run)|
    ensures var stage := StagesOf(t, c.run)[i];
            var t' := Upsert(t, c, StageResult(stage, CheckName(stage), status));
            t'.runs == t.runs && c.run in t'.results && RowsOk(t', c.run) && InDepth(t', c.run)
  {
    var stage := StagesOf(t, c.run)[i];
    UpsertRowContents(t.results[c.run], Row(StageResult(stage, CheckName(stage), status), c));
    assert stage in StagesOf(t, c.run);
  }

  /** The cancellation check and the write of one stage by d. */
  lemma StageByOne(s0: System, before: seq<Action>, s: System, c: Claim, d: Claim, i: nat, status: CheckStatus)
    returns (actions: seq<Action>, s': System)
    requires Trace(s0, before, s) && Rivals(s, c, d) && s.execs[d].phase == AtStage(i) && i < |StagesOf(s.t, d.run)|
    ensures Trace(s0, actions, s') && Rivals(s', c, d) && s'.execs[d].phase == AtStage(i + 1) && s'.execs[c] == s.execs[c]
    ensures s'.t.runs == s.t.runs
    ensures var stage := StagesOf(s.t, d.run)[i];
            s'.t.results[d.run] == UpsertRow(s.t.results[d.run], Row(StageResult(stage, CheckName(stage), status), d))
  {
    actions := Then(s0, before, s, CheckCancel(d, 0));
    var s1 := Step(s, CheckCancel(d, 0));
    actions := Then(s0, actions, s1, WriteResult(d, status));
    s' := Step(s1, WriteResult(d, status));
    UpsertKeepsRows(s1.t, d, i, status);
  }

  /** All stages from the i-th on by d, with one and the same outcome. */
  lemma {:induction false} StagesByOne(s0: System, before: seq<Action>, s: System, c: Claim, d: Claim, i: nat, status: CheckStatus)
    returns (actions: seq<Action>, s': System)
    requires Trace(s0, before, s) && Rivals(s, c, d) && s.execs[d].phase == AtStage(i) && i <= |StagesOf(s.t, d.run)|
    requires Uniform(s.t.results[d.run], StagesOf(s.t, d.run), i, status) && (i > 0 ==> s.t.results[d.run] != [])
    ensures Trace(s0, actions, s') && Rivals(s', c, d) && s'.execs[c] == s.execs[c] && s'.t.runs == s.t.runs
    ensures s'.execs[d].phase == AtStage(|StagesOf(s.t, d.run)|)
    ensures s'.t.results[d.run] != [] && forall r :: r in s'.t.results[d.run] ==> r.result.status == status
    decreases |StagesOf(s.t, d.run)| - i
  {
    var stages := StagesOf(s.t, d.run);
    if i == |stages| {
      assert stages[..i] == stages;
      actions, s' := before, s;
    } else {
      UpsertUniform(s.t.results[d.run], stages, i, Row(StageResult(stages[i], CheckName(stages[i]), status), d));
      actions, s' := StageByOne(s0, before, s, c, d, i, status);
      actions, s' := StagesByOne(s0, actions, s', c, d, i + 1, status);
    }
  }

  lemma UniformSummary(rows: seq<Row>, status: CheckStatus)
    requires rows != [] && (status == Passed || status == CheckFailed) && forall r :: r in rows ==> r.result.status == status
    ensures Summary(Results(rows)) == if status == Passed then Good else Bad
  {
    var results := Results(rows);
    assert rows[0] in rows && results[0] in results;
    forall x | x in results ensures x.status == status {
      var i :| 0 <= i < |results| && results[i] == x;
      assert rows[i] in rows;
    }
  }

  lemma FailedRowIsBad(rows: seq<Row>, r: Row)
    requires r in rows && r.result.status == CheckFailed
    ensures Summary(Results(rows)) == Bad
  {
    var i :| 0 <= i < |rows| && rows[i] == r;
    assert Results(rows)[i] == r.result && r.result in Results(rows);
  }

  lemma CompletionStands(s: System, c: Claim, now: int)
    requires Runs(s, c) && s.execs[c].phase.Summarized? && Owns(s.t, c.run, c.worker)
    ensures var s' := Step(s, WriteComplete(c, now));
            && c.run in s'.t.runs && c.run in s'.t.results && s'.t.runs[c.run].status == Completed
            && s'.t.runs[c.run].overall == Some(s.execs[c].phase.overall) && s'.t.results[c.run] == s.t.results[c.run]
  {
  }

  /** The earlier execution writes a failed check between the summary and the completion of the later. */
  lemma LateWrite(s0: System, before: seq<Action>, s: System, c: Claim, d: Claim) returns (actions: seq<Action>)
    requires Trace(s0, before, s) && Rivals(s, c, d) && s.execs[d].phase == AtStage(0)
    requires s.execs[c].phase.InStage? && s.execs[c].phase.i < |StagesOf(s.t, c.run)|
    ensures Trace(s0, actions, After(s0, actions)) && !VerdictHolds(After(s0, actions), c.run)
  {
    var s1;
    actions, s1 := StagesByOne(s0, before, s, c, d, 0, Passed);
    UniformSummary(s1.t.results[d.run], Passed);
    actions := Then(s0, actions, s1, ReadResults(d));
    var s2 := Step(s1, ReadResults(d));
    actions := Then(s0, actions, s2, WriteResult(c, CheckFailed));
    var s3 := Step(s2, WriteResult(c, CheckFailed));
    var stage := StagesOf(s2.t, c.run)[s2.execs[c].phase.i];
    var r := Row(StageResult(stage, CheckName(stage), CheckFailed), c);
    UpsertRowContents(s2.t.results[c.run], r);
    FailedRowIsBad(s3.t.results[c.run], r);
    CompletionStands(s3, d, 0);
    actions := Then(s0, actions, s3, WriteComplete(d, 0));
  }

  /** The earlier execution completes the run by its old summary after the later has written other
      results. */
  lemma StaleVerdict(s0: System, before: seq<Action>, s: System, c: Claim, d: Claim) returns (actions: seq<Action>)
    requires Trace(s0, before, s) && Rivals(s, c, d) && s.execs[d].phase == AtStage(0) && s.execs[c].phase.Summarized?
    ensures Trace(s0, actions, After(s0, actions)) && !VerdictHolds(After(s0, actions), c.run)
  {
    var status := if s.execs[c].phase.overall == Bad then Passed else CheckFailed;
    var s1;
    actions, s1 := StagesByOne(s0, before, s, c, d, 0, status);
    UniformSummary(s1.t.results[d.run], status);
    CompletionStands(s1, c, 0);
    actions := Then(s0, actions, s1, WriteComplete(c, 0));
  }

  /** With a live earlier execution, some continuation completes the run with a wrong verdict. */
  lemma WrongVerdict(s: System, a: Action, c: Claim) returns (actions: seq<Action>)
    requires Inv(s) && PhasesOk(s) && Claims(s, a)
    requires c in s.execs && c.run == a.id && c.worker == a.worker && Live(s.execs[c].phase)
    ensures Legal(Step(s, a), actions) && !VerdictHolds(After(Step(s, a), actions), a.id)
  {
    var s1 := Step(s, a);
    var d := Claim(a.id, a.worker, s1.t.runs[a.id].attempts);
    assert Trace(s1, [], s1) && c != d && PhaseOk(s, c);
    assert Rivals(s1, c, d) by { RivalsAfterClaim(s, a, c); }
    var stages := StagesOf(s1.t, c.run);
    if s1.execs[c].phase.Summarized? {
      actions := StaleVerdict(s1, [], s1, c, d);
    } else if s1.execs[c].phase == AtStage(|stages|) {
      actions := Then(s1, [], s1, ReadResults(c));
      actions := StaleVerdict(s1, actions, Step(s1, ReadResults(c)), c, d);
    } else if s1.execs[c].phase.AtStage? {
      actions := Then(s1, [], s1, CheckCancel(c, 0));
      actions := LateWrite(s1, actions, Step(s1, CheckCancel(c, 0)), c, d);
    } else {
      actions := LateWrite(s1, [], s1, c, d);
    }
    NoClaimsIsLegal(s1, actions);
  }

  lemma RivalsAfterClaim(s: System, a: Action, c: Claim)
    requires Inv(s) && Claims(s, a) && c in s.execs && c.run == a.id && c.worker == a.worker
    ensures var s1 := Step(s, a);
            a.id in s1.t.runs && Rivals(s1, c, Claim(a.id, a.worker, s1.t.runs[a.id].attempts))
  {
    assert RowsOk(s.t, a.id) && InDepth(s.t, a.id);
  }

  /** Whatever legally follows a claim, the run is never completed with a verdict other than the summary of
      its results, if and only if no earlier execution of the same worker was live. */
  lemma VerdictHoldsIff(s: System, a: Action)
    requires Inv(s) && PhasesOk(s) && Claims(s, a)
    ensures Fresh(s, a) <==> forall actions :: Legal(Step(s, a), actions) ==> VerdictHolds(After(Step(s, a), actions), a.id)
  {
    if Fresh(s, a) {
      StepKeepsInv(s, a);
      forall actions | Legal(Step(s, a), actions) ensures VerdictHolds(After(Step(s, a), actions), a.id) {
        InvHolds(Step(s, a), actions);
        RunsStay(Step(s, a), actions, a.id);
        assert Sound(After(Step(s, a), actions), a.id);
      }
    } else {
      var c :| c in s.execs && c.run == a.id && c.worker == a.worker && Live(s.execs[c].phase);
      var actions := WrongVerdict(s, a, c);
    }
  }

  lemma {:induction false} RunsStay(s: System, actions: seq<Action>, id: int)
    requires Inv(s) && Legal(s, actions) && id in s.t.runs
    ensures id in After(s, actions).t.runs
  {
    if actions != [] {
      var n := |actions| - 1;
      RunsStay(s, actions[..n], id);
      InvHolds(s, actions[..n]);
      StepKeepsDepth(After(s, actions[..n]), actions[n], id);
    }
  }
}
