/** The executor and the worker around it (internal/quality/executor.go, internal/quality/worker.go) on a
    shared repository. Whatever other executions, recoveries and users do to the repository in between, and
    whatever the heartbeat does beside it, what they write together is a legal run of the lease protocol, so
    its theorems apply to them. */
module QualityExecutor {
  import opened Options
  import opened QualityTypes
  import opened QualityTables
  import opened QualityRepository
  import opened QualityLease
  import opened QualityFencing
  import opened QualityTheorems

  /** The circumstances of one stage: what happens before the cancellation check and while the stage runs,
      its outcome, and which of the two statements fails in the database. */
  datatype StageWorld = StageWorld(before: seq<Action>, checkFails: bool, during: seq<Action>, status: CheckStatus, writeFails: bool)

  datatype World = World(loads: bool, stages: seq<StageWorld>, beforeSummary: seq<Action>, readFails: bool,
                         beforeComplete: seq<Action>, completeFails: bool, cancelCheckFails: bool,
                         beforeFail: seq<Action>, failFails: bool)

  /** No statement fails in the database on the way to the completion. */
  predicate Faultless(w: World) {
    w.loads && !w.readFails && !w.completeFails && forall i :: 0 <= i < |w.stages| ==> !w.stages[i].checkFails
  }

  datatype ExecError = NoError | LostTheRun | OtherError

  /** The ghost side: the state of the protocol, reached from the empty tables by the given legal actions.
      The others know where every execution but c stands. */
  ghost predicate Follows(repo: Repository, others: Others, c: Claim, actions: seq<Action>, s: System)
    reads repo, others
  {
    && s == After(Initial, actions) && Legal(Initial, actions)
    && repo.Contents() == s.t && others.pc == s.execs - {c}
  }

  lemma OneMore(actions: seq<Action>, a: Action)
    requires Legal(Initial, actions) && Fresh(After(Initial, actions), a)
    ensures After(Initial, actions + [a]) == Step(After(Initial, actions), a) && Legal(Initial, actions + [a])
  {
    assert (actions + [a])[..|actions|] == actions;
  }

  ghost predicate Ready(s: System, c: Claim) {
    Runs(s, c) && c.attempt <= s.t.runs[c.run].attempts && s.t.runs.Keys == s.t.results.Keys && c.run < s.t.nextId
  }

  /** What others leave alone: the execution of c, its run and depth. */
  ghost predicate Undisturbed(s: System, s': System, c: Claim) {
    Ready(s, c) && Ready(s', c) && s'.execs[c] == s.execs[c] && s'.t.runs[c.run].depth == s.t.runs[c.run].depth
  }

  lemma {:induction false} RecoverLeaves(t: Tables, stale: seq<StaleRun>, maxAttempts: nat, now: int)
    ensures var t' := RecoverAll(t, stale, maxAttempts, now);
            && t'.results == t.results && t'.runs.Keys == t.runs.Keys && t'.nextId == t.nextId
            && forall id :: id in t.runs ==> t'.runs[id].depth == t.runs[id].depth && t'.runs[id].attempts == t.runs[id].attempts
  {
    if stale != [] {
      RecoverLeaves(t, stale[..|stale| - 1], maxAttempts, now);
    }
  }

  /** Statements that are not the executor's own; the heartbeat runs beside it. */
  predicate Foreign(a: Action, c: Claim) {
    !By(a, c) || a.Beat?
  }

  lemma RecoveryLeaves(s: System, a: Action, c: Claim)
    requires Ready(s, c) && a.Recover?
    ensures Undisturbed(s, Step(s, a), c)
  {
    RecoverLeaves(s.t, a.stale, a.maxAttempts, a.now);
  }

  lemma ForeignLeaves(s: System, a: Action, c: Claim)
    requires Ready(s, c) && Foreign(a, c)
    ensures Undisturbed(s, Step(s, a), c)
  {
    if a.Recover? {
      RecoveryLeaves(s, a, c);
    }
  }

  /** A statement of c's own leaves the other executions alone. */
  lemma OwnStep(s: System, a: Action, c: Claim)
    requires By(a, c) && Ready(s, c)
    ensures Step(s, a).execs - {c} == s.execs - {c}
    ensures Ready(Step(s, a), c) && Step(s, a).t.runs[c.run].depth == s.t.runs[c.run].depth
  {
  }

  /** Everybody else: the other executions with where they stand, and users and recoveries without a state
      of their own. */
  class Others {
    var pc: map<Claim, Exec>

    constructor (pc: map<Claim, Exec>)
      ensures this.pc == pc
    {
      this.pc := pc;
    }

    /** New runs, claims, cancellation requests and recoveries. */
    method ActOnRuns(repo: Repository, a: Action, c: Claim, ghost s: System)
      requires repo.Contents() == s.t && pc == s.execs - {c} && Ready(s, c)
      requires a.CreateRun? || a.ClaimNext? || a.AskCancel? || a.Recover?
      modifies repo, this
      ensures repo.Contents() == Step(s, a).t && pc == Step(s, a).execs - {c}
    {
      match a
      case CreateRun(channel, depth, now) =>
        var created := repo.CreateRun(channel, depth, now);
      case ClaimNext(id, worker, now) =>
        if id in repo.runs && repo.runs[id].status == Queued && worker != "" {
          // Any queued run can be the oldest one that is not locked.
          var locked := set x | x in repo.runs && x != id;
          var claimed := repo.ClaimNext(worker, locked, now);
          assert claimed == Some(id);
          pc := pc[Claim(id, worker, repo.runs[id].attempts) := Exec(AtStage(0), {})];
        }
      case AskCancel(id, now) =>
        var cancellable := repo.RequestCancelRun(id, now);
      case Recover(stale, maxAttempts, now) =>
        var n := repo.RecoverStale(stale, maxAttempts, now);
    }

    /** The stages and the summary of another execution. */
    method ActOnStage(repo: Repository, a: Action, d: Claim, c: Claim, ghost s: System)
      requires repo.Contents() == s.t && pc == s.execs - {c} && Ready(s, c) && By(a, d) && d != c
      requires a.CheckCancel? || a.WriteResult? || a.LoseResult? || a.ReadResults?
      modifies repo, this
      ensures repo.Contents() == Step(s, a).t && pc == Step(s, a).execs - {c}
    {
      if !(d in pc && d.run in repo.runs && d.run in repo.results) {
        return;
      }
      var stages, phase := StageNames(repo.runs[d.run].depth), pc[d].phase;
      match a
      case CheckCancel(_, now) =>
        if phase.AtStage? && phase.i < |stages| {
          var cancelled := repo.CancelOnRequest(d.run, d.worker, now);
          pc := pc[d := pc[d].(phase := if cancelled then Done else InStage(phase.i))];
        }
      case WriteResult(_, status) =>
        if phase.InStage? && phase.i < |stages| {
          var written := repo.UpsertResult(d, StageResult(stages[phase.i], CheckName(stages[phase.i]), status));
          pc := pc[d := pc[d].(phase := if written.Written? then AtStage(phase.i + 1) else Done)];
        }
      case LoseResult(_) =>
        if phase.InStage? && phase.i < |stages| {
          pc := pc[d := Exec(AtStage(phase.i + 1), pc[d].missed + {stages[phase.i]})];
        }
      case ReadResults(_) =>
        if phase.AtStage? && phase.i == |stages| {
          var overall := Summarize(Results(repo.results[d.run]));
          pc := pc[d := pc[d].(phase := Summarized(overall))];
        }
    }

    /** The end of another execution. */
    method ActOnEnd(repo: Repository, a: Action, d: Claim, c: Claim, ghost s: System)
      requires repo.Contents() == s.t && pc == s.execs - {c} && Ready(s, c) && By(a, d) && d != c
      requires a.WriteComplete? || a.Abort? || a.CheckCancelOnError? || a.MissCheck? || a.WriteFail? || a.MissFail?
      modifies repo, this
      ensures repo.Contents() == Step(s, a).t && pc == Step(s, a).execs - {c}
    {
      if !(d in pc && d.run in repo.runs && d.run in repo.results) {
        return;
      }
      var phase := pc[d].phase;
      match a
      case WriteComplete(_, now) =>
        if phase.Summarized? {
          var written := repo.CompleteRun(d.run, d.worker, phase.overall, now);
          pc := pc[d := pc[d].(phase := Done)];
        }
      case Abort(_) =>
        if !phase.FailPending? && !phase.Done? {
          pc := pc[d := pc[d].(phase := Failing)];
        }
      case CheckCancelOnError(_, now) =>
        if phase.Failing? {
          var cancelled := repo.CancelOnRequest(d.run, d.worker, now);
          pc := pc[d := pc[d].(phase := if cancelled then Done else FailPending)];
        }
      case MissCheck(_) =>
        if phase.Failing? {
          pc := pc[d := pc[d].(phase := FailPending)];
        }
      case MissFail(_) =>
        if phase.FailPending? {
          pc := pc[d := pc[d].(phase := Done)];
        }
      case WriteFail(_, now) =>
        if phase.FailPending? {
          var written := repo.FailRun(d.run, d.worker, now);
          pc := pc[d := pc[d].(phase := Done)];
        }
    }

    /** A heartbeat, of another execution or beside c. */
    method ActBeat(repo: Repository, d: Claim, now: int, c: Claim, ghost s: System)
      requires repo.Contents() == s.t && pc == s.execs - {c} && Ready(s, c) && s.execs[c].phase != Done
      modifies repo
      ensures repo.Contents() == Step(s, Beat(d, now)).t && pc == Step(s, Beat(d, now)).execs - {c}
    {
      if d == c || (d in pc && d.run in repo.runs && d.run in repo.results && pc[d].phase != Done) {
        var alive := repo.Beat(d.run, d.worker, now);
      }
    }

    /** The worker of the claim is still executing an earlier claim of the run. */
    predicate Reclaims(a: Action, c: Claim)
      reads this
    {
      a.ClaimNext? && ((c.run == a.id && c.worker == a.worker) ||
                       exists d :: d in pc && d.run == a.id && d.worker == a.worker && Live(pc[d].phase))
    }

    /** One statement of somebody else. The executor's own statements are not among them, nor a second
        claim by a worker that is still executing the run: workers have identifiers of their own. */
    method Act(repo: Repository, a: Action, c: Claim, ghost actions: seq<Action>, ghost s: System)
      returns (ghost actions': seq<Action>, ghost s': System)
      requires Follows(repo, this, c, actions, s) && Ready(s, c) && s.execs[c].phase != Done
      modifies repo, this
      ensures Follows(repo, this, c, actions', s') && actions <= actions' && Undisturbed(s, s', c)
      ensures Foreign(a, c) && !old(Reclaims(a, c)) ==> actions' == actions + [a]
    {
      if !Foreign(a, c) || Reclaims(a, c) {
        return actions, s;
      }
      assert Fresh(s, a);
      OneMore(actions, a);
      ForeignLeaves(s, a, c);
      actions', s' := actions + [a], Step(s, a);
      match a
      case CreateRun(_, _, _) => ActOnRuns(repo, a, c, s);
      case ClaimNext(_, _, _) => ActOnRuns(repo, a, c, s);
      case AskCancel(_, _) => ActOnRuns(repo, a, c, s);
      case Recover(_, _, _) => ActOnRuns(repo, a, c, s);
      case CheckCancel(d, _) => ActOnStage(repo, a, d, c, s);
      case WriteResult(d, _) => ActOnStage(repo, a, d, c, s);
      case LoseResult(d) => ActOnStage(repo, a, d, c, s);
      case ReadResults(d) => ActOnStage(repo, a, d, c, s);
      case WriteComplete(d, _) => ActOnEnd(repo, a, d, c, s);
      case Abort(d) => ActOnEnd(repo, a, d, c, s);
      case CheckCancelOnError(d, _) => ActOnEnd(repo, a, d, c, s);
      case MissCheck(d) => ActOnEnd(repo, a, d, c, s);
      case WriteFail(d, _) => ActOnEnd(repo, a, d, c, s);
      case MissFail(d) => ActOnEnd(repo, a, d, c, s);
      case Beat(d, now) => ActBeat(repo, d, now, c, s);
    }

    method ActAll(repo: Repository, todo: seq<Action>, c: Claim, ghost actions: seq<Action>, ghost s: System)
      returns (ghost actions': seq<Action>, ghost s': System)
      requires Follows(repo, this, c, actions, s) && Ready(s, c) && s.execs[c].phase != Done
      modifies repo, this
      ensures Follows(repo, this, c, actions', s') && actions <= actions' && Undisturbed(s, s', c)
    {
      actions', s' := actions, s;
      for i := 0 to |todo|
        invariant Follows(repo, this, c, actions', s') && actions <= actions' && Undisturbed(s, s', c)
      {
        actions', s' := Act(repo, todo[i], c, actions', s');
      }
    }
  }

  method CheckCancelled(repo: Repository, others: Others, c: Claim, now: int, ghost i: nat, ghost actions: seq<Action>, ghost s: System)
    returns (cancelled: bool, ghost actions': seq<Action>, ghost s': System)
    requires Follows(repo, others, c, actions, s) && Ready(s, c) && s.execs[c].phase == AtStage(i) && i < |StagesOf(s.t, c.run)|
    modifies repo, others
    ensures Follows(repo, others, c, actions', s') && actions <= actions' && Ready(s', c)
    ensures s'.t.runs[c.run].depth == s.t.runs[c.run].depth
    ensures cancelled ==> s'.execs[c].phase == Done && s'.t.runs[c.run].status == Cancelled
    ensures !cancelled ==> s'.execs[c].phase == InStage(i)
  {
    cancelled := repo.CancelOnRequest(c.run, c.worker, now);
    OwnStep(s, CheckCancel(c, now), c);
    OneMore(actions, CheckCancel(c, now));
    actions', s' := actions + [CheckCancel(c, now)], Step(s, CheckCancel(c, now));
  }

  /** A write that fails in the database is only logged. */
  method WriteStage(repo: Repository, others: Others, c: Claim, stage: Stage, status: CheckStatus, fails: bool, ghost i: nat,
                    ghost actions: seq<Action>, ghost s: System)
    returns (err: ExecError, ghost actions': seq<Action>, ghost s': System)
    requires Follows(repo, others, c, actions, s) && Ready(s, c) && s.execs[c].phase == InStage(i)
    requires i < |StagesOf(s.t, c.run)| && StagesOf(s.t, c.run)[i] == stage
    modifies repo, others
    ensures Follows(repo, others, c, actions', s') && actions <= actions' && Ready(s', c)
    ensures s'.t.runs[c.run].depth == s.t.runs[c.run].depth
    ensures err == LostTheRun ==> s'.execs[c].phase == Done && !Owns(s'.t, c.run, c.worker)
    ensures err == NoError ==> s'.execs[c].phase == AtStage(i + 1)
    ensures err != OtherError
  {
    if fails {
      OwnStep(s, LoseResult(c), c);
      OneMore(actions, LoseResult(c));
      return NoError, actions + [LoseResult(c)], Step(s, LoseResult(c));
    }
    var written := repo.UpsertResult(c, StageResult(stage, CheckName(stage), status));
    OwnStep(s, WriteResult(c, status), c);
    OneMore(actions, WriteResult(c, status));
    actions', s' := actions + [WriteResult(c, status)], Step(s, WriteResult(c, status));
    err := if written.LostOwnership? then LostTheRun else NoError;
  }

  /** One stage: check for cancellation, run, write the result. */
  method RunStage(repo: Repository, others: Others, c: Claim, stage: Stage, w: StageWorld, now: int, ghost i: nat,
                  ghost actions: seq<Action>, ghost s: System)
    returns (cancelled: bool, err: ExecError, ghost actions': seq<Action>, ghost s': System)
    requires Follows(repo, others, c, actions, s) && Ready(s, c) && s.execs[c].phase == AtStage(i)
    requires i < |StagesOf(s.t, c.run)| && StagesOf(s.t, c.run)[i] == stage
    modifies repo, others
    ensures Follows(repo, others, c, actions', s') && actions <= actions' && Ready(s', c)
    ensures s'.t.runs[c.run].depth == s.t.runs[c.run].depth
    ensures cancelled ==> err == NoError && s'.execs[c].phase == Done && s'.t.runs[c.run].status == Cancelled
    ensures err == LostTheRun ==> s'.execs[c].phase == Done && !Owns(s'.t, c.run, c.worker)
    ensures err == OtherError ==> s'.execs[c].phase == AtStage(i) && w.checkFails
    ensures !cancelled && err == NoError ==> s'.execs[c].phase == AtStage(i + 1)
  {
    actions', s' := others.ActAll(repo, w.before, c, actions, s);
    cancelled, err := false, NoError;
    if w.checkFails {
      return false, OtherError, actions', s';
    }
    cancelled, actions', s' := CheckCancelled(repo, others, c, now, i, actions', s');
    if cancelled {
      return;
    }
    actions', s' := others.ActAll(repo, w.during, c, actions', s');
    err, actions', s' := WriteStage(repo, others, c, stage, w.status, w.writeFails, i, actions', s');
  }

  /** Reading the results back and summarising them. */
  method SummarizeRun(repo: Repository, others: Others, c: Claim, ghost actions: seq<Action>, ghost s: System)
    returns (overall: Overall, ghost actions': seq<Action>, ghost s': System)
    requires Follows(repo, others, c, actions, s) && Ready(s, c) && s.execs[c].phase == AtStage(|StagesOf(s.t, c.run)|)
    ensures Follows(repo, others, c, actions', s') && actions <= actions' && Ready(s', c) && s'.execs[c].phase == Summarized(overall)
  {
    overall := Summarize(Results(repo.results[c.run]));
    OwnStep(s, ReadResults(c), c);
    OneMore(actions, ReadResults(c));
    actions', s' := actions + [ReadResults(c)], Step(s, ReadResults(c));
  }

  method CompleteTask(repo: Repository, others: Others, c: Claim, overall: Overall, now: int, ghost actions: seq<Action>, ghost s: System)
    returns (err: ExecError, ghost actions': seq<Action>, ghost s': System)
    requires Follows(repo, others, c, actions, s) && Ready(s, c) && s.execs[c].phase == Summarized(overall)
    modifies repo, others
    ensures Follows(repo, others, c, actions', s') && actions <= actions' && Ready(s', c) && s'.execs[c].phase == Done
    ensures err == NoError ==> s'.t.runs[c.run].status == Completed && s'.t.runs[c.run].overall == Some(overall)
    ensures err != OtherError && !Owns(s'.t, c.run, c.worker)
  {
    var written := repo.CompleteRun(c.run, c.worker, overall, now);
    OwnStep(s, WriteComplete(c, now), c);
    OneMore(actions, WriteComplete(c, now));
    actions', s' := actions + [WriteComplete(c, now)], Step(s, WriteComplete(c, now));
    err := if written.LostOwnership? then LostTheRun else NoError;
  }

  /** After the last stage: the summary and the completion. */
  method Conclude(repo: Repository, others: Others, c: Claim, w: World, now: int, ghost actions: seq<Action>, ghost s: System)
    returns (err: ExecError, ghost actions': seq<Action>, ghost s': System)
    requires Follows(repo, others, c, actions, s) && Ready(s, c) && s.execs[c].phase == AtStage(|StagesOf(s.t, c.run)|)
    modifies repo, others
    ensures Follows(repo, others, c, actions', s') && actions <= actions' && Ready(s', c)
    ensures err != OtherError ==> s'.execs[c].phase == Done && !Owns(s'.t, c.run, c.worker)
    ensures err == NoError ==> s'.t.runs[c.run].status == Completed
    ensures err == OtherError ==> (s'.execs[c].phase.AtStage? || s'.execs[c].phase.Summarized?) && (w.readFails || w.completeFails)
  {
    actions', s' := others.ActAll(repo, w.beforeSummary, c, actions, s);
    if w.readFails {
      return OtherError, actions', s';
    }
    var overall;
    overall, actions', s' := SummarizeRun(repo, others, c, actions', s');
    actions', s' := others.ActAll(repo, w.beforeComplete, c, actions', s');
    if w.completeFails {
      return OtherError, actions', s';
    }
    err, actions', s' := CompleteTask(repo, others, c, overall, now, actions', s');
  }

  /** The stage loop, the summary and the completion. */
  method Execute(repo: Repository, others: Others, c: Claim, w: World, now: int, ghost actions: seq<Action>, ghost s: System)
    returns (err: ExecError, ghost actions': seq<Action>, ghost s': System)
    requires Follows(repo, others, c, actions, s) && Ready(s, c) && s.execs[c].phase == AtStage(0)
    requires |w.stages| == |StagesOf(s.t, c.run)|
    modifies repo, others
    ensures Follows(repo, others, c, actions', s') && actions <= actions' && Ready(s', c)
    ensures err != OtherError ==> s'.execs[c].phase == Done && !Owns(s'.t, c.run, c.worker)
    ensures err == NoError ==> s'.t.runs[c.run].status == Completed || s'.t.runs[c.run].status == Cancelled
    ensures err == OtherError ==> (s'.execs[c].phase.AtStage? || s'.execs[c].phase.Summarized?) && !Faultless(w)
  {
    actions', s' := actions, s;
    if !w.loads {
      return OtherError, actions', s';
    }
    var stages := StageNames(repo.runs[c.run].depth);
    for i := 0 to |stages|
      invariant Follows(repo, others, c, actions', s') && actions <= actions' && Ready(s', c) && s'.execs[c].phase == AtStage(i)
      invariant StagesOf(s'.t, c.run) == stages
    {
      var cancelled;
      cancelled, err, actions', s' := RunStage(repo, others, c, stages[i], w.stages[i], now, i, actions', s');
      if cancelled || err != NoError {
        return;
      }
    }
    err, actions', s' := Conclude(repo, others, c, w, now, actions', s');
  }

  /** Giving up the execution touches nothing but its own state. */
  lemma Aborts(repo: Repository, others: Others, c: Claim, actions: seq<Action>, s: System)
    requires Follows(repo, others, c, actions, s) && Ready(s, c)
    requires s.execs[c].phase.AtStage? || s.execs[c].phase.Summarized?
    ensures Follows(repo, others, c, actions + [Abort(c)], Step(s, Abort(c))) && Ready(Step(s, Abort(c)), c)
    ensures Step(s, Abort(c)).execs[c].phase == Failing
  {
    OwnStep(s, Abort(c), c);
    OneMore(actions, Abort(c));
  }

  /** The last check for a cancellation, after an error. If it fails in the database the run counts as not
      cancelled. */
  method CancelOnError(repo: Repository, others: Others, c: Claim, fails: bool, now: int, ghost actions: seq<Action>, ghost s: System)
    returns (cancelled: bool, ghost actions': seq<Action>, ghost s': System)
    requires Follows(repo, others, c, actions, s) && Ready(s, c)
    requires s.execs[c].phase.AtStage? || s.execs[c].phase.Summarized?
    modifies repo, others
    ensures Follows(repo, others, c, actions', s') && actions <= actions' && Ready(s', c)
    ensures s'.execs[c].phase == if cancelled then Done else FailPending
    ensures cancelled ==> s'.t.runs[c.run].status == Cancelled
    ensures !cancelled && !fails ==> !CancelDue(s'.t, c.run, c.worker)
  {
    Aborts(repo, others, c, actions, s);
    actions', s' := actions + [Abort(c)], Step(s, Abort(c));
    if fails {
      OwnStep(s', MissCheck(c), c);
      OneMore(actions', MissCheck(c));
      return false, actions' + [MissCheck(c)], Step(s', MissCheck(c));
    }
    cancelled := repo.CancelOnRequest(c.run, c.worker, now);
    OwnStep(s', CheckCancelOnError(c, now), c);
    OneMore(actions', CheckCancelOnError(c, now));
    actions', s' := actions' + [CheckCancelOnError(c, now)], Step(s', CheckCancelOnError(c, now));
  }

  /** Failing the run; if that fails in the database, the run keeps its holder until it is recovered as
      stale. */
  method FailTask(repo: Repository, others: Others, c: Claim, fails: bool, now: int, ghost actions: seq<Action>, ghost s: System)
    returns (ghost actions': seq<Action>, ghost s': System)
    requires Follows(repo, others, c, actions, s) && Ready(s, c) && s.execs[c].phase == FailPending
    modifies repo, others
    ensures Follows(repo, others, c, actions', s') && actions <= actions' && Ready(s', c) && s'.execs[c].phase == Done
    ensures fails ==> s'.t == s.t
    ensures !fails ==> !Owns(s'.t, c.run, c.worker) && (Owns(s.t, c.run, c.worker) ==> s'.t.runs[c.run].status == Failed)
  {
    if fails {
      OwnStep(s, MissFail(c), c);
      OneMore(actions, MissFail(c));
      return actions + [MissFail(c)], Step(s, MissFail(c));
    }
    var written := repo.FailRun(c.run, c.worker, now);
    OwnStep(s, WriteFail(c, now), c);
    OneMore(actions, WriteFail(c, now));
    actions', s' := actions + [WriteFail(c, now)], Step(s, WriteFail(c, now));
  }

  lemma SoundIfCompleted(actions: seq<Action>, id: int)
    requires Legal(Initial, actions) && id in After(Initial, actions).t.runs
    ensures var s := After(Initial, actions); s.t.runs[id].status == Completed ==> SoundlyCompleted(s, id)
  {
    if After(Initial, actions).t.runs[id].status == Completed {
      CompletedRunsAreSound(actions, id);
    }
  }

  /** The worker's side: after an error other than a lost lease, an asked-for cancellation takes
      precedence over failing the run. A lost lease ends without another write. However it ends, and
      whatever others did meanwhile, the lease is over, unless the last write failed in the database, and all
      of it was a legal run of the protocol: if the run is now completed, by whomever, it is soundly so.
      Without a fault the run completes, unless it is cancelled or the lease lost. */
  method ExecuteTask(repo: Repository, others: Others, c: Claim, w: World, now: int, ghost actions: seq<Action>, ghost s: System)
    returns (err: ExecError, ghost actions': seq<Action>, ghost s': System)
    requires Follows(repo, others, c, actions, s) && Ready(s, c) && s.execs[c].phase == AtStage(0)
    requires |w.stages| == |StagesOf(s.t, c.run)|
    modifies repo, others
    ensures Follows(repo, others, c, actions', s') && actions <= actions' && Ready(s', c)
    ensures s'.execs[c].phase == Done
    ensures Owns(s'.t, c.run, c.worker) ==> err == OtherError && w.failFails
    ensures err == NoError ==> s'.t.runs[c.run].status == Completed || s'.t.runs[c.run].status == Cancelled
    ensures err == OtherError ==> !Faultless(w)
    ensures s'.t.runs[c.run].status == Completed ==> SoundlyCompleted(s', c.run)
  {
    err, actions', s' := Execute(repo, others, c, w, now, actions, s);
    if err == LostTheRun || err == NoError {
      SoundIfCompleted(actions', c.run);
      return;
    }
    var cancelled;
    cancelled, actions', s' := CancelOnError(repo, others, c, w.cancelCheckFails, now, actions', s');
    if cancelled {
      return;
    }
    actions', s' := others.ActAll(repo, w.beforeFail, c, actions', s');
    actions', s' := FailTask(repo, others, c, w.failFails, now, actions', s');
    SoundIfCompleted(actions', c.run);
  }
}
