/** The lease protocol of the quality runs: any number of executors (internal/quality/executor.go,
    internal/quality/worker.go), cancel requests and stale-run recoveries interleave at the
    granularity of single repository statements. */
module QualityLease {
  import opened Options
  import opened QualityTypes
  import opened QualityTables

  /** Where one execution of a claimed run stands between two statements. */
  datatype Phase =
    | AtStage(i: nat)              // about to check for cancellation before stage i
    | InStage(i: nat)              // stage i has run, its result is not written yet
    | Summarized(overall: Overall) // results read and summarised, not completed yet
    | Failing                      // execution error, cancellation not checked yet
    | FailPending                  // execution error, terminal write still to come
    | Done

  /** missed: stages whose result write failed in the database, which is logged and skipped. */
  datatype Exec = Exec(phase: Phase, missed: set<Stage>)

  datatype System = System(t: Tables, execs: map<Claim, Exec>)

  /** Statements of executions, users and recoveries. MissCheck and MissFail stand for the two statements
      after an execution error when they fail in the database, which nobody notices but the log. */
  datatype Action =
    | CreateRun(channel: int, depth: Depth, now: int)
    | ClaimNext(id: int, worker: string, now: int)
    | CheckCancel(c: Claim, now: int)
    | WriteResult(c: Claim, status: CheckStatus)
    | LoseResult(c: Claim)
    | ReadResults(c: Claim)
    | WriteComplete(c: Claim, now: int)
    | Abort(c: Claim)
    | CheckCancelOnError(c: Claim, now: int)
    | MissCheck(c: Claim)
    | WriteFail(c: Claim, now: int)
    | MissFail(c: Claim)
    | Beat(c: Claim, now: int)
    | AskCancel(id: int, now: int)
    | Recover(stale: seq<StaleRun>, maxAttempts: nat, now: int)

  const Initial := System(Tables(map[], map[], 0), map[])

  ghost function StagesOf(t: Tables, id: int): seq<Stage>
    requires id in t.runs
  {
    StageNames(t.runs[id].depth)
  }

  ghost function SetPhase(s: System, c: Claim, phase: Phase): System
    requires c in s.execs
  {
    s.(execs := s.execs[c := s.execs[c].(phase := phase)])
  }

  ghost predicate Runs(s: System, c: Claim) {
    c in s.execs && c.run in s.t.runs && c.run in s.t.results
  }

  /** One statement of the protocol; an action that is not enabled changes nothing. */
  ghost function Step(s: System, a: Action): System {
    match a
    case CreateRun(channel, depth, now) => s.(t := Create(s.t, channel, depth, now))
    case ClaimNext(id, worker, now) =>
      if id in s.t.runs && s.t.runs[id].status == Queued && worker != "" then
        var t := ClaimRun(s.t, id, worker, now);
        System(t, s.execs[Claim(id, worker, t.runs[id].attempts) := Exec(AtStage(0), {})])
      else s
    case CheckCancel(c, now) =>
      if Runs(s, c) && s.execs[c].phase.AtStage? && s.execs[c].phase.i < |StagesOf(s.t, c.run)| then
        if CancelDue(s.t, c.run, c.worker)
        then SetPhase(s.(t := CancelIfRequested(s.t, c.run, c.worker, now)), c, Done)
        else SetPhase(s, c, InStage(s.execs[c].phase.i))
      else s
    case WriteResult(c, status) =>
      if Runs(s, c) && s.execs[c].phase.InStage? && s.execs[c].phase.i < |StagesOf(s.t, c.run)| then
        var stage := StagesOf(s.t, c.run)[s.execs[c].phase.i];
        if Owns(s.t, c.run, c.worker)
        then SetPhase(s.(t := Upsert(s.t, c, StageResult(stage, CheckName(stage), status))), c, AtStage(s.execs[c].phase.i + 1))
        else SetPhase(s, c, Done)
      else s
    case LoseResult(c) =>
      if Runs(s, c) && s.execs[c].phase.InStage? && s.execs[c].phase.i < |StagesOf(s.t, c.run)| then
        var stage := StagesOf(s.t, c.run)[s.execs[c].phase.i];
        s.(execs := s.execs[c := Exec(AtStage(s.execs[c].phase.i + 1), s.execs[c].missed + {stage})])
      else s
    case ReadResults(c) =>
      if Runs(s, c) && s.execs[c].phase.AtStage? && s.execs[c].phase.i == |StagesOf(s.t, c.run)|
      then SetPhase(s, c, Summarized(Summary(Results(s.t.results[c.run]))))
      else s
    case WriteComplete(c, now) =>
      if Runs(s, c) && s.execs[c].phase.Summarized?
      then SetPhase(s.(t := Complete(s.t, c.run, c.worker, s.execs[c].phase.overall, now)), c, Done)
      else s
    case Abort(c) =>
      if Runs(s, c) && !s.execs[c].phase.FailPending? && !s.execs[c].phase.Done? then SetPhase(s, c, Failing) else s
    case CheckCancelOnError(c, now) =>
      if Runs(s, c) && s.execs[c].phase.Failing? then
        if CancelDue(s.t, c.run, c.worker)
        then SetPhase(s.(t := CancelIfRequested(s.t, c.run, c.worker, now)), c, Done)
        else SetPhase(s, c, FailPending)
      else s
    case WriteFail(c, now) =>
      if Runs(s, c) && s.execs[c].phase.FailPending?
      then SetPhase(s.(t := Fail(s.t, c.run, c.worker, now)), c, Done)
      else s
    case MissCheck(c) =>
      if Runs(s, c) && s.execs[c].phase.Failing? then SetPhase(s, c, FailPending) else s
    case MissFail(c) =>
      if Runs(s, c) && s.execs[c].phase.FailPending? then SetPhase(s, c, Done) else s
    case Beat(c, now) =>
      if Runs(s, c) && !s.execs[c].phase.Done? then s.(t := Heartbeat(s.t, c.run, c.worker, now)) else s
    case AskCancel(id, now) => s.(t := RequestCancel(s.t, id, now))
    case Recover(stale, maxAttempts, now) => s.(t := RecoverAll(s.t, stale, maxAttempts, now))
  }

  ghost function After(s: System, actions: seq<Action>): System {
    if actions == [] then s else Step(After(s, actions[..|actions| - 1]), actions[|actions| - 1])
  }

  /** The execution can still write results or complete the run. */
  predicate Live(phase: Phase) {
    phase.AtStage? || phase.InStage? || phase.Summarized?
  }

  /** The lease token is the worker's identifier, so a worker must not claim a run again while an earlier
      execution of it by the same worker is still live. */
  ghost predicate Fresh(s: System, a: Action) {
    a.ClaimNext? ==> forall c :: c in s.execs && c.run == a.id && c.worker == a.worker ==> !Live(s.execs[c].phase)
  }

  ghost predicate Legal(s: System, actions: seq<Action>) {
    actions == [] || (Legal(s, actions[..|actions| - 1]) && Fresh(After(s, actions[..|actions| - 1]), actions[|actions| - 1]))
  }

  // ---- The invariant ----

  /** Well-formed tables: keys, the unique index, and what each status says of the other columns. */
  ghost predicate TablesOk(t: Tables) {
    && t.runs.Keys == t.results.Keys
    && (forall id :: id in t.runs ==> id < t.nextId && RowsOk(t, id))
    && (forall id :: id in t.runs ==> (t.runs[id].overall.Some? <==> t.runs[id].status == Completed))
    && (forall id :: id in t.runs ==> (t.runs[id].finished.Some? <==> IsTerminal(t.runs[id].status)))
    && OneActive(t)
  }

  ghost predicate OneActive(t: Tables) {
    forall a, b :: (a in t.runs && b in t.runs && t.runs[a].channel == t.runs[b].channel
                    && IsActive(t.runs[a].status) && IsActive(t.runs[b].status)) ==> a == b
  }

  ghost predicate RowsOk(t: Tables, id: int)
    requires id in t.runs
  {
    && id in t.results
    && DistinctKeys(t.results[id])
    && forall r :: r in t.results[id] ==> r.result.check == CheckName(r.result.stage) && r.writer.run == id
  }

  /** Every execution belongs to a claim of a run; a live execution whose worker holds the lease is that of
      the current attempt; the holder of a lease, and whoever completed a run, has an execution. */
  ghost predicate ClaimsOk(s: System) {
    && (forall c :: c in s.execs ==> c.run in s.t.runs && c.worker != "" && c.attempt <= s.t.runs[c.run].attempts)
    && (forall c :: c in s.execs && Live(s.execs[c].phase) && Owns(s.t, c.run, c.worker) ==> c.attempt == s.t.runs[c.run].attempts)
    && (forall id :: id in s.t.runs && (IsLeased(s.t.runs[id].status) || s.t.runs[id].status == Completed) ==>
          Claim(id, s.t.runs[id].worker, s.t.runs[id].attempts) in s.execs)
    && (forall id :: id in s.t.runs && s.t.runs[id].status == Queued ==> s.t.runs[id].worker == "")
  }

  /** The first n stages of the run have results, all written by c, except for missed writes. */
  ghost predicate Covered(s: System, c: Claim, n: nat)
    requires Runs(s, c) && n <= |StagesOf(s.t, c.run)|
  {
    var stages, rows, missed := StagesOf(s.t, c.run), s.t.results[c.run], s.execs[c].missed;
    && (forall j :: 0 <= j < n && stages[j] !in missed ==> exists r :: r in rows && r.result.stage == stages[j])
    && (forall r :: r in rows ==> r.writer == c || r.result.stage in missed || r.result.stage in stages[n..])
  }

  /** What holds of the results while c holds the lease. */
  ghost predicate Progress(s: System, c: Claim)
    requires Runs(s, c)
  {
    var phase := s.execs[c].phase;
    && (phase.AtStage? ==> phase.i <= |StagesOf(s.t, c.run)| && Covered(s, c, phase.i))
    && (phase.InStage? ==> phase.i < |StagesOf(s.t, c.run)| && Covered(s, c, phase.i))
    && (phase.Summarized? ==> Covered(s, c, |StagesOf(s.t, c.run)|) && phase.overall == Summary(Results(s.t.results[c.run])))
  }

  /** What the protocol promises of a completed run: its verdict is the summary of its results, and
      the results are those of the claim that completed it. */
  ghost predicate Sound(s: System, id: int)
    requires id in s.t.runs
  {
    s.t.runs[id].status == Completed ==>
      var c := Claim(id, s.t.runs[id].worker, s.t.runs[id].attempts);
      && Runs(s, c)
      && s.execs[c].phase == Done
      && s.t.runs[id].overall == Some(Summary(Results(s.t.results[id])))
      && Covered(s, c, |StagesOf(s.t, id)|)
  }

  /** All rows belong to stages of the run's depth. */
  ghost predicate InDepth(t: Tables, id: int)
    requires id in t.runs && id in t.results
  {
    forall r :: r in t.results[id] ==> r.result.stage in StagesOf(t, id)
  }

  ghost predicate Inv(s: System) {
    && TablesOk(s.t)
    && ClaimsOk(s)
    && (forall id :: id in s.t.runs ==> InDepth(s.t, id) && Sound(s, id))
    && (forall c :: c in s.execs && Owns(s.t, c.run, c.worker) ==> Progress(s, c))
  }

  // ---- Preservation ----

  /** A change of one row that keeps its identity, does not complete it, and hands the lease to
      nobody new. */
  ghost predicate Harmless(old_: Run, new_: Run) {
    && IsActive(old_.status)
    && new_.channel == old_.channel && new_.depth == old_.depth && new_.attempts == old_.attempts
    && new_.overall == old_.overall && new_.status != Completed
    && (new_.finished.Some? <==> IsTerminal(new_.status))
    && (IsLeased(new_.status) ==> IsLeased(old_.status) && new_.worker == old_.worker)
    && (new_.status == Queued ==> new_.worker == "")
  }

  ghost function WithRun(s: System, id: int, r: QualityTables.Run): System {
    s.(t := s.t.(runs := s.t.runs[id := r]))
  }

  lemma RowUpdateKeepsTables(t: Tables, id: int, r: QualityTables.Run)
    requires TablesOk(t) && id in t.runs && Harmless(t.runs[id], r)
    ensures TablesOk(t.(runs := t.runs[id := r]))
  {
    var t' := t.(runs := t.runs[id := r]);
    forall k | k in t'.runs ensures k < t'.nextId && RowsOk(t', k) {
      assert RowsOk(t, k);
    }
  }

  lemma RowUpdateKeepsClaims(s: System, id: int, r: QualityTables.Run)
    requires ClaimsOk(s) && id in s.t.runs && Harmless(s.t.runs[id], r)
    ensures ClaimsOk(WithRun(s, id, r))
  {
  }

  lemma RowUpdateKeepsSound(s: System, id: int, r: QualityTables.Run, k: int)
    requires Inv(s) && id in s.t.runs && Harmless(s.t.runs[id], r) && k in s.t.runs
    ensures k in s.t.results && InDepth(WithRun(s, id, r).t, k) && Sound(WithRun(s, id, r), k)
  {
    assert InDepth(s.t, k) && Sound(s, k);
  }

  lemma RowUpdateKeepsProgress(s: System, id: int, r: QualityTables.Run, c: Claim)
    requires Inv(s) && id in s.t.runs && Harmless(s.t.runs[id], r)
    requires c in s.execs && Owns(WithRun(s, id, r).t, c.run, c.worker)
    ensures Runs(WithRun(s, id, r), c) && Progress(WithRun(s, id, r), c)
  {
    assert Progress(s, c);
  }

  lemma RowUpdateKeepsInv(s: System, id: int, r: QualityTables.Run)
    requires Inv(s) && id in s.t.runs && Harmless(s.t.runs[id], r)
    ensures Inv(WithRun(s, id, r))
  {
    var s' := WithRun(s, id, r);
    assert TablesOk(s'.t) by { RowUpdateKeepsTables(s.t, id, r); }
    assert ClaimsOk(s') by { RowUpdateKeepsClaims(s, id, r); }
    forall k | k in s'.t.runs ensures InDepth(s'.t, k) && Sound(s', k) {
      RowUpdateKeepsSound(s, id, r, k);
    }
    forall c | c in s'.execs && Owns(s'.t, c.run, c.worker) ensures Progress(s', c) {
      RowUpdateKeepsProgress(s, id, r, c);
    }
  }

  lemma PhaseUpdateKeepsClaims(s: System, c: Claim, e: Exec)
    requires ClaimsOk(s) && Runs(s, c) && (Live(e.phase) ==> Live(s.execs[c].phase))
    ensures ClaimsOk(s.(execs := s.execs[c := e]))
  {
  }

  lemma PhaseUpdateKeepsInv(s: System, c: Claim, e: Exec)
    requires Inv(s) && Runs(s, c) && s.execs[c].phase != Done && (Live(e.phase) ==> Live(s.execs[c].phase))
    requires Owns(s.t, c.run, c.worker) ==> Progress(s.(execs := s.execs[c := e]), c)
    ensures Inv(s.(execs := s.execs[c := e]))
  {
    var s' := s.(execs := s.execs[c := e]);
    PhaseUpdateKeepsClaims(s, c, e);
    forall k | k in s'.t.runs ensures InDepth(s'.t, k) && Sound(s', k) {
      assert InDepth(s.t, k) && Sound(s, k);
    }
    forall d | d in s'.execs && Owns(s'.t, d.run, d.worker) ensures Progress(s', d) {
      if d != c {
        assert Progress(s, d);
      }
    }
  }

  /** A run that a step leaves alone: its row, its results, and its executions. */
  ghost predicate SameRun(s: System, s': System, id: int) {
    && (id in s.t.runs <==> id in s'.t.runs) && (id in s.t.results <==> id in s'.t.results)
    && (id in s.t.runs ==> s'.t.runs[id] == s.t.runs[id])
    && (id in s.t.results ==> s'.t.results[id] == s.t.results[id])
    && (forall c: Claim :: c.run == id ==> (c in s.execs <==> c in s'.execs))
    && (forall c: Claim :: c.run == id && c in s.execs ==> s'.execs[c] == s.execs[c])
  }

  /** The part of the invariant that concerns one run. */
  ghost predicate RunOk(s: System, id: int)
    requires id in s.t.runs && id in s.t.results
  {
    && InDepth(s.t, id) && Sound(s, id)
    && (forall c :: c in s.execs && c.run == id && Owns(s.t, id, c.worker) ==> Progress(s, c))
  }

  lemma SameRunStaysOk(s: System, s': System, id: int)
    requires SameRun(s, s', id) && id in s.t.runs && id in s.t.results && RunOk(s, id)
    ensures RunOk(s', id)
  {
    forall c | c in s'.execs && c.run == id && Owns(s'.t, id, c.worker) ensures Progress(s', c) {
      assert Progress(s, c);
    }
  }

  /** A step that touches one run keeps the invariant if it keeps that run's part of it. */
  lemma OneRunStep(s: System, s': System, id: int)
    requires Inv(s) && TablesOk(s'.t) && ClaimsOk(s')
    requires forall k :: k != id ==> SameRun(s, s', k)
    requires id in s'.t.runs && id in s'.t.results && RunOk(s', id)
    ensures Inv(s')
  {
    forall k | k in s'.t.runs ensures RunOk(s', k) {
      if k != id {
        assert SameRun(s, s', k) && InDepth(s.t, k) && Sound(s, k);
        SameRunStaysOk(s, s', k);
      }
    }
    forall c | c in s'.execs && Owns(s'.t, c.run, c.worker) ensures Progress(s', c) {
      assert RunOk(s', c.run);
    }
  }

  lemma CreateKeepsTables(t: Tables, channel: int, depth: Depth, now: int)
    requires TablesOk(t)
    ensures TablesOk(Create(t, channel, depth, now))
  {
    var t' := Create(t, channel, depth, now);
    forall id | id in t'.runs ensures id < t'.nextId && RowsOk(t', id) {
      if id in t.runs { assert RowsOk(t, id); }
    }
  }

  lemma CreateKeepsClaims(s: System, channel: int, depth: Depth, now: int)
    requires ClaimsOk(s) && s.t.nextId !in s.t.runs
    ensures ClaimsOk(s.(t := Create(s.t, channel, depth, now)))
  {
  }

  lemma CreatedRunOk(s: System, channel: int, depth: Depth, now: int)
    requires ClaimsOk(s) && s.t.nextId !in s.t.runs && !ActiveOn(s.t, channel)
    ensures var s' := s.(t := Create(s.t, channel, depth, now));
            s.t.nextId in s'.t.runs && s.t.nextId in s'.t.results && RunOk(s', s.t.nextId)
  {
  }

  lemma CreateKeepsInv(s: System, channel: int, depth: Depth, now: int)
    requires Inv(s)
    ensures Inv(s.(t := Create(s.t, channel, depth, now)))
  {
    var s' := s.(t := Create(s.t, channel, depth, now));
    if !ActiveOn(s.t, channel) {
      assert TablesOk(s'.t) by { CreateKeepsTables(s.t, channel, depth, now); }
      assert ClaimsOk(s') by { CreateKeepsClaims(s, channel, depth, now); }
      CreatedRunOk(s, channel, depth, now);
      forall k | k != s.t.nextId ensures SameRun(s, s', k) {}
      OneRunStep(s, s', s.t.nextId);
    }
  }

  /** A fresh claim has its whole work before it, and is the only one to hold the lease. */
  lemma ClaimedRunOk(s: System, id: int, worker: string, now: int)
    requires Inv(s) && Fresh(s, ClaimNext(id, worker, now))
    requires id in s.t.runs && s.t.runs[id].status == Queued && worker != ""
    ensures var s' := Step(s, ClaimNext(id, worker, now)); id in s'.t.runs && id in s'.t.results && RunOk(s', id)
  {
    var s' := Step(s, ClaimNext(id, worker, now));
    var c := Claim(id, worker, s'.t.runs[id].attempts);
    assert InDepth(s.t, id) && Sound(s, id);
    assert StagesOf(s'.t, id)[0..] == StagesOf(s'.t, id);
    assert Progress(s', c);
    forall d | d in s'.execs && d.run == id && Owns(s'.t, id, d.worker) ensures Progress(s', d) {
      assert d == c || !Live(s'.execs[d].phase);
    }
  }

  lemma ClaimKeepsInv(s: System, id: int, worker: string, now: int)
    requires Inv(s) && Fresh(s, ClaimNext(id, worker, now))
    ensures Inv(Step(s, ClaimNext(id, worker, now)))
  {
    var s' := Step(s, ClaimNext(id, worker, now));
    if s' != s {
      ClaimKeepsTables(s, id, worker, now);
      ClaimedRunOk(s, id, worker, now);
      forall k | k != id ensures SameRun(s, s', k) {}
      OneRunStep(s, s', id);
    }
  }

  lemma ClaimKeepsTables(s: System, id: int, worker: string, now: int)
    requires Inv(s) && Fresh(s, ClaimNext(id, worker, now))
    requires id in s.t.runs && s.t.runs[id].status == Queued && worker != ""
    ensures TablesOk(Step(s, ClaimNext(id, worker, now)).t) && ClaimsOk(Step(s, ClaimNext(id, worker, now)))
  {
    ClaimKeepsRows(s.t, id, worker, now);
    ClaimKeepsClaims(s, id, worker, now);
  }

  lemma ClaimKeepsRows(t: Tables, id: int, worker: string, now: int)
    requires TablesOk(t) && id in t.runs && t.runs[id].status == Queued
    ensures TablesOk(ClaimRun(t, id, worker, now))
  {
    var t' := ClaimRun(t, id, worker, now);
    forall k | k in t'.runs ensures k < t'.nextId && RowsOk(t', k) {
      assert RowsOk(t, k);
    }
  }

  lemma ClaimKeepsClaims(s: System, id: int, worker: string, now: int)
    requires ClaimsOk(s) && Fresh(s, ClaimNext(id, worker, now))
    requires id in s.t.runs && s.t.runs[id].status == Queued && worker != ""
    ensures ClaimsOk(Step(s, ClaimNext(id, worker, now)))
  {
  }

  /** Writing the result of stage i extends what is covered by one stage. */
  lemma WriteExtendsCover(s: System, s': System, c: Claim, i: nat, r: Row)
    requires Runs(s, c) && Runs(s', c) && i < |StagesOf(s.t, c.run)| && Covered(s, c, i)
    requires s'.t.runs[c.run] == s.t.runs[c.run] && s'.execs[c].missed == s.execs[c].missed
    requires RowsOk(s.t, c.run) && InDepth(s.t, c.run)
    requires r.writer == c && r.result.stage == StagesOf(s.t, c.run)[i] && r.result.check == CheckName(r.result.stage)
    requires s'.t.results[c.run] == UpsertRow(s.t.results[c.run], r)
    ensures Covered(s', c, i + 1) && RowsOk(s'.t, c.run) && InDepth(s'.t, c.run)
  {
    var stages, rows, rows' := StagesOf(s.t, c.run), s.t.results[c.run], s'.t.results[c.run];
    UpsertRowContents(rows, r);
    assert stages[i] in stages && r in rows' && stages[i..] == [stages[i]] + stages[i + 1..];
    forall j | 0 <= j < i + 1 && stages[j] !in s.execs[c].missed
      ensures exists x :: x in rows' && x.result.stage == stages[j]
    {
      if j < i {
        var x :| x in rows && x.result.stage == stages[j];
        assert x in rows' || r.result.stage == stages[j];
      }
    }
  }

  /** The two writes of a lease holder that change more than one row's status: a result, and the
      completion. Both leave the claims, the other runs and the other executions alone. */
  ghost function OwnerWrite(s: System, c: Claim, r: QualityTables.Run, rows: seq<Row>, e: Exec): System {
    System(s.t.(runs := s.t.runs[c.run := r], results := s.t.results[c.run := rows]), s.execs[c := e])
  }

  ghost predicate Kept(old_: QualityTables.Run, new_: QualityTables.Run) {
    && new_.channel == old_.channel && new_.depth == old_.depth && new_.attempts == old_.attempts && new_.worker == old_.worker
    && (IsLeased(new_.status) || new_.status == Completed)
    && (new_.overall.Some? <==> new_.status == Completed) && (new_.finished.Some? <==> new_.status == Completed)
  }

  ghost predicate Holds(s: System, c: Claim) {
    Runs(s, c) && Owns(s.t, c.run, c.worker) && Live(s.execs[c].phase)
  }

  lemma OwnerWriteKeepsTables(s: System, c: Claim, r: QualityTables.Run, rows: seq<Row>, e: Exec)
    requires TablesOk(s.t) && Holds(s, c) && Kept(s.t.runs[c.run], r) && RowsOk(OwnerWrite(s, c, r, rows, e).t, c.run)
    ensures TablesOk(OwnerWrite(s, c, r, rows, e).t)
  {
    var t' := OwnerWrite(s, c, r, rows, e).t;
    forall k | k in t'.runs ensures k < t'.nextId && RowsOk(t', k) {
      assert RowsOk(s.t, k);
    }
    assert OneActive(t') by { OwnerWriteKeepsActive(s.t, c, r); }
  }

  lemma OwnerWriteKeepsActive(t: Tables, c: Claim, r: QualityTables.Run)
    requires OneActive(t) && Owns(t, c.run, c.worker) && Kept(t.runs[c.run], r)
    ensures OneActive(t.(runs := t.runs[c.run := r]))
  {
  }

  lemma OwnerWriteKeepsClaims(s: System, c: Claim, r: QualityTables.Run, rows: seq<Row>, e: Exec)
    requires ClaimsOk(s) && Holds(s, c) && Kept(s.t.runs[c.run], r)
    ensures ClaimsOk(OwnerWrite(s, c, r, rows, e))
    ensures forall d :: d in s.execs && d.run == c.run && d.worker == c.worker && d != c ==> !Live(s.execs[d].phase)
  {
  }

  lemma OwnerWriteKeepsInv(s: System, c: Claim, r: QualityTables.Run, rows: seq<Row>, e: Exec)
    requires Inv(s) && Holds(s, c) && Kept(s.t.runs[c.run], r)
    requires var s' := OwnerWrite(s, c, r, rows, e);
             RowsOk(s'.t, c.run) && InDepth(s'.t, c.run) && Sound(s', c.run) && (Owns(s'.t, c.run, c.worker) ==> Progress(s', c))
    ensures Inv(OwnerWrite(s, c, r, rows, e))
  {
    var s' := OwnerWrite(s, c, r, rows, e);
    assert TablesOk(s'.t) by { OwnerWriteKeepsTables(s, c, r, rows, e); }
    OwnerWriteKeepsClaims(s, c, r, rows, e);
    forall k | k != c.run ensures SameRun(s, s', k) {}
    forall d | d in s'.execs && d.run == c.run && Owns(s'.t, c.run, d.worker) ensures Progress(s', d) {
      assert d == c || !Live(s'.execs[d].phase);
    }
    OneRunStep(s, s', c.run);
  }

  lemma WriteForm(s: System, c: Claim, status: CheckStatus) returns (r: Row)
    requires Runs(s, c) && s.execs[c].phase.InStage? && s.execs[c].phase.i < |StagesOf(s.t, c.run)| && Owns(s.t, c.run, c.worker)
    ensures r.writer == c && r.result == StageResult(r.result.stage, CheckName(r.result.stage), status)
    ensures r.result.stage == StagesOf(s.t, c.run)[s.execs[c].phase.i]
    ensures Step(s, WriteResult(c, status)) ==
            OwnerWrite(s, c, s.t.runs[c.run], UpsertRow(s.t.results[c.run], r), s.execs[c].(phase := AtStage(s.execs[c].phase.i + 1)))
  {
    var stage := StagesOf(s.t, c.run)[s.execs[c].phase.i];
    r := Row(StageResult(stage, CheckName(stage), status), c);
    assert s.t.runs[c.run := s.t.runs[c.run]] == s.t.runs;
  }

  lemma OwnedWriteKeepsInv(s: System, c: Claim, status: CheckStatus)
    requires Inv(s) && Runs(s, c) && s.execs[c].phase.InStage? && s.execs[c].phase.i < |StagesOf(s.t, c.run)|
    requires Owns(s.t, c.run, c.worker)
    ensures Inv(Step(s, WriteResult(c, status)))
  {
    var r := WriteForm(s, c, status);
    var i, rows := s.execs[c].phase.i, UpsertRow(s.t.results[c.run], r);
    var e := s.execs[c].(phase := AtStage(i + 1));
    assert Progress(s, c) && RowsOk(s.t, c.run) && InDepth(s.t, c.run) && Sound(s, c.run);
    WriteExtendsCover(s, OwnerWrite(s, c, s.t.runs[c.run], rows, e), c, i, r);
    OwnerWriteKeepsInv(s, c, s.t.runs[c.run], rows, e);
  }

  lemma WriteResultKeepsInv(s: System, c: Claim, status: CheckStatus)
    requires Inv(s)
    ensures Inv(Step(s, WriteResult(c, status)))
  {
    var s' := Step(s, WriteResult(c, status));
    if s' != s && Owns(s.t, c.run, c.worker) {
      OwnedWriteKeepsInv(s, c, status);
    } else if s' != s {
      PhaseUpdateKeepsInv(s, c, s'.execs[c]);
    }
  }

  lemma LoseForm(s: System, c: Claim) returns (e: Exec)
    requires Runs(s, c) && s.execs[c].phase.InStage? && s.execs[c].phase.i < |StagesOf(s.t, c.run)|
    ensures e == Exec(AtStage(s.execs[c].phase.i + 1), s.execs[c].missed + {StagesOf(s.t, c.run)[s.execs[c].phase.i]})
    ensures Step(s, LoseResult(c)) == s.(execs := s.execs[c := e])
  {
    e := Exec(AtStage(s.execs[c].phase.i + 1), s.execs[c].missed + {StagesOf(s.t, c.run)[s.execs[c].phase.i]});
  }

  lemma LoseResultKeepsInv(s: System, c: Claim)
    requires Inv(s)
    ensures Inv(Step(s, LoseResult(c)))
  {
    if Runs(s, c) && s.execs[c].phase.InStage? && s.execs[c].phase.i < |StagesOf(s.t, c.run)| {
      var e := LoseForm(s, c);
      if Owns(s.t, c.run, c.worker) {
        var i, stages := s.execs[c].phase.i, StagesOf(s.t, c.run);
        assert Progress(s, c) && stages[i..] == [stages[i]] + stages[i + 1..];
      }
      PhaseUpdateKeepsInv(s, c, e);
    }
  }

  lemma CompletionForm(s: System, c: Claim, now: int) returns (r: QualityTables.Run)
    requires Runs(s, c) && s.execs[c].phase.Summarized? && Owns(s.t, c.run, c.worker)
    ensures r == s.t.runs[c.run].(status := Completed, overall := Some(s.execs[c].phase.overall), finished := Some(now), heartbeat := Some(now))
    ensures Step(s, WriteComplete(c, now)) == OwnerWrite(s, c, r, s.t.results[c.run], s.execs[c].(phase := Done))
  {
    r := s.t.runs[c.run].(status := Completed, overall := Some(s.execs[c].phase.overall), finished := Some(now), heartbeat := Some(now));
    assert s.t.results[c.run := s.t.results[c.run]] == s.t.results;
  }

  /** The verdict that the holder writes is that of its results. */
  lemma OwnedCompletionKeepsInv(s: System, c: Claim, now: int)
    requires Inv(s) && Runs(s, c) && s.execs[c].phase.Summarized? && Owns(s.t, c.run, c.worker)
    ensures Inv(Step(s, WriteComplete(c, now)))
  {
    var r := CompletionForm(s, c, now);
    assert c == Claim(c.run, s.t.runs[c.run].worker, s.t.runs[c.run].attempts);
    assert Progress(s, c) && RowsOk(s.t, c.run) && InDepth(s.t, c.run);
    OwnerWriteKeepsInv(s, c, r, s.t.results[c.run], s.execs[c].(phase := Done));
  }

  lemma CompleteKeepsInv(s: System, c: Claim, now: int)
    requires Inv(s)
    ensures Inv(Step(s, WriteComplete(c, now)))
  {
    var s' := Step(s, WriteComplete(c, now));
    if s' != s && Owns(s.t, c.run, c.worker) {
      OwnedCompletionKeepsInv(s, c, now);
    } else if s' != s {
      PhaseUpdateKeepsInv(s, c, s'.execs[c]);
    }
  }

  lemma RecoverOneKeepsInv(s: System, e: StaleRun, maxAttempts: nat, now: int)
    requires Inv(s)
    ensures Inv(s.(t := RecoverOne(s.t, e, maxAttempts, now)))
  {
    var t := RecoverOne(s.t, e, maxAttempts, now);
    if t != s.t {
      RowUpdateKeepsInv(s, e.id, t.runs[e.id]);
    }
  }

  lemma {:induction false} RecoverAllKeepsInv(s: System, stale: seq<StaleRun>, maxAttempts: nat, now: int)
    requires Inv(s)
    ensures Inv(s.(t := RecoverAll(s.t, stale, maxAttempts, now)))
  {
    if stale != [] {
      var n := |stale| - 1;
      RecoverAllKeepsInv(s, stale[..n], maxAttempts, now);
      RecoverOneKeepsInv(s.(t := RecoverAll(s.t, stale[..n], maxAttempts, now)), stale[n], maxAttempts, now);
    }
  }

  /** A terminal write by the executor of c, or a cancellation it notices. */
  lemma FinishKeepsInv(s: System, c: Claim, status: RunStatus, now: int)
    requires Inv(s) && Runs(s, c) && s.execs[c].phase != Done
    requires Owns(s.t, c.run, c.worker) && IsTerminal(status) && status != Completed
    ensures Inv(SetPhase(s.(t := Finish(s.t, c.run, status, now)), c, Done))
  {
    var r := Finish(s.t, c.run, status, now).runs[c.run];
    RowUpdateKeepsInv(s, c.run, r);
    PhaseUpdateKeepsInv(WithRun(s, c.run, r), c, s.execs[c].(phase := Done));
  }

  lemma CheckForm(s: System, c: Claim, now: int)
    requires Runs(s, c) && s.execs[c].phase.AtStage? && s.execs[c].phase.i < |StagesOf(s.t, c.run)|
    ensures Step(s, CheckCancel(c, now)) ==
            if CancelDue(s.t, c.run, c.worker) then SetPhase(s.(t := Finish(s.t, c.run, Cancelled, now)), c, Done)
            else SetPhase(s, c, InStage(s.execs[c].phase.i))
  {
  }

  lemma CheckCancelKeepsInv(s: System, c: Claim, now: int)
    requires Inv(s)
    ensures Inv(Step(s, CheckCancel(c, now)))
  {
    if Runs(s, c) && s.execs[c].phase.AtStage? && s.execs[c].phase.i < |StagesOf(s.t, c.run)| {
      CheckForm(s, c, now);
      if CancelDue(s.t, c.run, c.worker) {
        FinishKeepsInv(s, c, Cancelled, now);
      } else {
        PhaseUpdateKeepsInv(s, c, s.execs[c].(phase := InStage(s.execs[c].phase.i)));
      }
    }
  }

  lemma CheckOnErrorForm(s: System, c: Claim, now: int)
    requires Runs(s, c) && s.execs[c].phase.Failing?
    ensures Step(s, CheckCancelOnError(c, now)) ==
            if CancelDue(s.t, c.run, c.worker) then SetPhase(s.(t := Finish(s.t, c.run, Cancelled, now)), c, Done)
            else SetPhase(s, c, FailPending)
  {
  }

  lemma CheckCancelOnErrorKeepsInv(s: System, c: Claim, now: int)
    requires Inv(s)
    ensures Inv(Step(s, CheckCancelOnError(c, now)))
  {
    if Runs(s, c) && s.execs[c].phase.Failing? {
      CheckOnErrorForm(s, c, now);
      if CancelDue(s.t, c.run, c.worker) {
        FinishKeepsInv(s, c, Cancelled, now);
      } else {
        PhaseUpdateKeepsInv(s, c, s.execs[c].(phase := FailPending));
      }
    }
  }

  lemma FailForm(s: System, c: Claim, now: int)
    requires Runs(s, c) && s.execs[c].phase.FailPending?
    ensures Step(s, WriteFail(c, now)) ==
            SetPhase(if Owns(s.t, c.run, c.worker) then s.(t := Finish(s.t, c.run, Failed, now)) else s, c, Done)
  {
  }

  lemma WriteFailKeepsInv(s: System, c: Claim, now: int)
    requires Inv(s)
    ensures Inv(Step(s, WriteFail(c, now)))
  {
    if Runs(s, c) && s.execs[c].phase.FailPending? {
      FailForm(s, c, now);
      if Owns(s.t, c.run, c.worker) {
        FinishKeepsInv(s, c, Failed, now);
      } else {
        PhaseUpdateKeepsInv(s, c, s.execs[c].(phase := Done));
      }
    }
  }

  lemma MissKeepsInv(s: System, a: Action, c: Claim)
    requires Inv(s) && (a == MissCheck(c) || a == MissFail(c))
    ensures Inv(Step(s, a))
  {
    if Runs(s, c) && (if a.MissCheck? then s.execs[c].phase.Failing? else s.execs[c].phase.FailPending?) {
      PhaseUpdateKeepsInv(s, c, s.execs[c].(phase := if a.MissCheck? then FailPending else Done));
    }
  }

  lemma ReadKeepsInv(s: System, c: Claim)
    requires Inv(s)
    ensures Inv(Step(s, ReadResults(c)))
  {
    var s' := Step(s, ReadResults(c));
    if s' != s {
      PhaseUpdateKeepsInv(s, c, s'.execs[c]);
    }
  }

  lemma AbortKeepsInv(s: System, c: Claim)
    requires Inv(s)
    ensures Inv(Step(s, Abort(c)))
  {
    var s' := Step(s, Abort(c));
    if s' != s {
      PhaseUpdateKeepsInv(s, c, s'.execs[c]);
    }
  }

  lemma BeatKeepsInv(s: System, c: Claim, now: int)
    requires Inv(s)
    ensures Inv(Step(s, Beat(c, now)))
  {
    var s' := Step(s, Beat(c, now));
    if s' != s {
      RowUpdateKeepsInv(s, c.run, s'.t.runs[c.run]);
    }
  }

  lemma AskCancelForm(s: System, id: int, now: int)
    requires id in s.t.runs && (s.t.runs[id].status == Queued || s.t.runs[id].status == Running)
    ensures var r := s.t.runs[id];
            Step(s, AskCancel(id, now)) ==
            WithRun(s, id, if r.status == Queued then r.(status := Cancelled, finished := Some(now), heartbeat := Some(now))
                           else r.(status := CancelRequested))
  {
  }

  lemma AskCancelKeepsInv(s: System, id: int, now: int)
    requires Inv(s)
    ensures Inv(Step(s, AskCancel(id, now)))
  {
    if id in s.t.runs && (s.t.runs[id].status == Queued || s.t.runs[id].status == Running) {
      AskCancelForm(s, id, now);
      var r := s.t.runs[id];
      RowUpdateKeepsInv(s, id, if r.status == Queued then r.(status := Cancelled, finished := Some(now), heartbeat := Some(now))
                               else r.(status := CancelRequested));
    }
  }

  lemma RecoverKeepsInv(s: System, stale: seq<StaleRun>, maxAttempts: nat, now: int)
    requires Inv(s)
    ensures Inv(Step(s, Recover(stale, maxAttempts, now)))
  {
    RecoverAllKeepsInv(s, stale, maxAttempts, now);
  }

  lemma StepKeepsInv(s: System, a: Action)
    requires Inv(s) && Fresh(s, a)
    ensures Inv(Step(s, a))
  {
    match a
    case CreateRun(channel, depth, now) => CreateKeepsInv(s, channel, depth, now);
    case ClaimNext(id, worker, now) => ClaimKeepsInv(s, id, worker, now);
    case WriteResult(c, status) => WriteResultKeepsInv(s, c, status);
    case LoseResult(c) => LoseResultKeepsInv(s, c);
    case WriteComplete(c, now) => CompleteKeepsInv(s, c, now);
    case CheckCancel(c, now) => CheckCancelKeepsInv(s, c, now);
    case CheckCancelOnError(c, now) => CheckCancelOnErrorKeepsInv(s, c, now);
    case ReadResults(c) => ReadKeepsInv(s, c);
    case Abort(c) => AbortKeepsInv(s, c);
    case MissCheck(c) => MissKeepsInv(s, a, c);
    case WriteFail(c, now) => WriteFailKeepsInv(s, c, now);
    case MissFail(c) => MissKeepsInv(s, a, c);
    case Beat(c, now) => BeatKeepsInv(s, c, now);
    case AskCancel(id, now) => AskCancelKeepsInv(s, id, now);
    case Recover(stale, maxAttempts, now) => RecoverKeepsInv(s, stale, maxAttempts, now);
  }

  lemma {:induction false} InvHolds(s: System, actions: seq<Action>)
    requires Inv(s) && Legal(s, actions)
    ensures Inv(After(s, actions))
  {
    if actions != [] {
      var n := |actions| - 1;
      InvHolds(s, actions[..n]);
      StepKeepsInv(After(s, actions[..n]), actions[n]);
    }
  }
}
