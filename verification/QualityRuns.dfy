/** The life of a quality run seen from outside (internal/quality/repository.go, executor.go, worker.go): what it
    was asked for and what it then checks, in which order runs are claimed, and when a run that nobody works on
    any more is released. */
module QualityRuns {
  import opened Options
  import opened QualityTypes
  import opened QualityTables
  import opened QualityLease
  import opened QualityTheorems
  import opened QualityFencing

  // ---- What a run was asked for ----

  /** Statement i made the run. */
  ghost predicate MadeAt(actions: seq<Action>, i: nat, id: int) {
    i < |actions| && id !in After(Initial, actions[..i]).t.runs && id in After(Initial, actions[..i + 1]).t.runs
  }

  ghost predicate SameIdentity(r: Run, r': Run) {
    r'.channel == r.channel && r'.depth == r.depth && r'.created == r.created
  }

  lemma {:induction false} RecoverKeepsIdentity(t: Tables, stale: seq<StaleRun>, maxAttempts: nat, now: int, id: int)
    ensures var t' := RecoverAll(t, stale, maxAttempts, now);
            (id in t'.runs <==> id in t.runs) && (id in t.runs ==> SameIdentity(t.runs[id], t'.runs[id]))
  {
    if stale != [] {
      RecoverKeepsIdentity(t, stale[..|stale| - 1], maxAttempts, now, id);
    }
  }

  lemma StepKeepsIdentity(s: System, a: Action, id: int)
    requires id in s.t.runs && s.t.nextId !in s.t.runs
    ensures id in Step(s, a).t.runs && SameIdentity(s.t.runs[id], Step(s, a).t.runs[id])
  {
    if a.Recover? {
      RecoverKeepsIdentity(s.t, a.stale, a.maxAttempts, a.now, id);
    }
  }

  /** Only one statement makes runs, as it is asked to. */
  lemma NewRunIsAsAsked(s: System, a: Action, id: int)
    requires Inv(s) && id !in s.t.runs && id in Step(s, a).t.runs
    ensures a.CreateRun?
    ensures var r := Step(s, a).t.runs[id]; r.channel == a.channel && r.depth == a.depth && r.created == a.now
  {
    if a.Recover? {
      RecoverKeepsIdentity(s.t, a.stale, a.maxAttempts, a.now, id);
    } else if AtEnd(a) {
      EndMovesRun(s, a, id);
    } else if !(a.CreateRun? || a.ClaimNext? || a.AskCancel?) {
      StageMovesRun(s, a, id);
    }
  }

  lemma {:induction false} RunsStayTheSame(s: System, actions: seq<Action>, id: int)
    requires Inv(s) && Legal(s, actions) && id in s.t.runs
    ensures id in After(s, actions).t.runs && SameIdentity(s.t.runs[id], After(s, actions).t.runs[id])
  {
    if actions != [] {
      var n := |actions| - 1;
      RunsStayTheSame(s, actions[..n], id);
      InvHolds(s, actions[..n]);
      StepKeepsIdentity(After(s, actions[..n]), actions[n], id);
    }
  }

  /** In every legal run each row goes back to the statement that made it, which asked for just this channel and
      depth, at the time that the row records. */
  lemma {:induction false} RunsAreAsAsked(actions: seq<Action>, id: int) returns (i: nat)
    requires Legal(Initial, actions) && id in After(Initial, actions).t.runs
    ensures MadeAt(actions, i, id) && actions[i].CreateRun?
    ensures var r := After(Initial, actions).t.runs[id];
            r.channel == actions[i].channel && r.depth == actions[i].depth && r.created == actions[i].now
    ensures forall j :: MadeAt(actions, j, id) ==> j == i
  {
    var n := |actions| - 1;
    var s := After(Initial, actions[..n]);
    InvHolds(Initial, actions[..n]);
    if id in s.t.runs {
      i := RunsAreAsAsked(actions[..n], id);
      StepKeepsIdentity(s, actions[n], id);
      SamePrefixes(actions, n, id);
    } else {
      i := n;
      NewRunIsAsAsked(s, actions[n], id);
      assert actions[..n + 1] == actions;
      NotMadeBefore(actions, n, id);
    }
  }

  lemma SamePrefixes(actions: seq<Action>, n: nat, id: int)
    requires n + 1 == |actions| && id in After(Initial, actions[..n]).t.runs
    ensures forall i: nat :: MadeAt(actions, i, id) <==> MadeAt(actions[..n], i, id)
  {
    forall i: nat ensures MadeAt(actions, i, id) <==> MadeAt(actions[..n], i, id) {
      if i < n {
        assert actions[..n][..i] == actions[..i] && actions[..n][..i + 1] == actions[..i + 1];
      }
    }
  }

  lemma NotMadeBefore(actions: seq<Action>, n: nat, id: int)
    requires Legal(Initial, actions) && n + 1 == |actions| && id !in After(Initial, actions[..n]).t.runs
    ensures forall i: nat :: MadeAt(actions, i, id) ==> i == n
  {
    forall i: nat | MadeAt(actions, i, id) ensures i == n {
      if i < n {
        assert actions[..n][..i + 1] == actions[..i + 1];
        StaysMade(actions[..n], i + 1, id);
      }
    }
  }

  lemma {:induction false} StaysMade(actions: seq<Action>, m: nat, id: int)
    requires Legal(Initial, actions) && m <= |actions| && id in After(Initial, actions[..m]).t.runs
    ensures id in After(Initial, actions).t.runs
  {
    if m == |actions| {
      assert actions[..m] == actions;
    } else {
      var n := |actions| - 1;
      assert actions[..n][..m] == actions[..m];
      StaysMade(actions[..n], m, id);
      InvHolds(Initial, actions[..n]);
      StepKeepsIdentity(After(Initial, actions[..n]), actions[n], id);
    }
  }

  // ---- What it then checks ----

  /** The stages in the order in which they are run. */
  const InOrder := [Connectivity, Protocol, Stream, Usage, Behavior, Authenticity]

  /** The run has a result of the stage under this check, or the claim that completed it lost the write. */
  ghost predicate Answered(s: System, id: int, stage: Stage, check: string)
    requires id in s.t.runs
  {
    var c := Claim(id, s.t.runs[id].worker, s.t.runs[id].attempts);
    Runs(s, c) &&
    (stage in s.execs[c].missed || exists r :: r in s.t.results[id] && r.result.stage == stage && r.result.check == check)
  }

  lemma StageIsAnswered(s: System, id: int, stage: Stage, check: string)
    requires id in s.t.runs && SoundlyCompleted(s, id) && RowsOk(s.t, id) && stage in StagesOf(s.t, id) && CheckName(stage) == check
    ensures Answered(s, id, stage, check)
  {
  }

  ghost predicate FirstThree(s: System, id: int)
    requires id in s.t.runs
  {
    && Answered(s, id, Connectivity, "models_endpoint") && Answered(s, id, Protocol, "protocol_conversion")
    && Answered(s, id, Stream, "stream_integrity")
  }

  ghost predicate OtherThree(s: System, id: int)
    requires id in s.t.runs
  {
    && Answered(s, id, Usage, "usage_consistency") && Answered(s, id, Behavior, "model_behavior")
    && Answered(s, id, Authenticity, "authenticity_signals")
  }

  lemma FirstAreAnswered(s: System, id: int)
    requires id in s.t.runs && SoundlyCompleted(s, id) && RowsOk(s.t, id) && {Connectivity, Protocol, Stream} <= Asked(s.t, id)
    ensures FirstThree(s, id)
  {
    StageIsAnswered(s, id, Connectivity, "models_endpoint");
    StageIsAnswered(s, id, Protocol, "protocol_conversion");
    StageIsAnswered(s, id, Stream, "stream_integrity");
  }

  lemma OthersAreAnswered(s: System, id: int)
    requires id in s.t.runs && SoundlyCompleted(s, id) && RowsOk(s.t, id) && {Usage, Behavior, Authenticity} <= Asked(s.t, id)
    ensures OtherThree(s, id)
  {
    StageIsAnswered(s, id, Usage, "usage_consistency");
    StageIsAnswered(s, id, Behavior, "model_behavior");
    StageIsAnswered(s, id, Authenticity, "authenticity_signals");
  }

  ghost function Asked(t: Tables, id: int): set<Stage>
    requires id in t.runs
  {
    set stage | stage in StagesOf(t, id)
  }

  /** What a completed run in a legal run of the protocol is known to be. */
  lemma CompletedRun(actions: seq<Action>, i: nat, id: int) returns (s: System)
    requires Legal(Initial, actions) && CompletedBy(actions, id) && MadeAt(actions, i, id) && actions[i].CreateRun?
    ensures s == After(Initial, actions) && id in s.t.runs && SoundlyCompleted(s, id) && RowsOk(s.t, id) && InDepth(s.t, id)
    ensures s.t.runs[id].depth == actions[i].depth
  {
    s := After(Initial, actions);
    var j := RunsAreAsAsked(actions, id);
    CompletedRunsAreSound(actions, id);
    InvHolds(Initial, actions);
  }

  ghost predicate CompletedBy(actions: seq<Action>, id: int) {
    id in After(Initial, actions).t.runs && After(Initial, actions).t.runs[id].status == Completed
  }

  /** Whatever happens in between: a run asked for as full is completed only with all six checks. */
  lemma FullRunsMakeSixChecks(actions: seq<Action>, i: nat, id: int)
    requires Legal(Initial, actions) && CompletedBy(actions, id)
    requires MadeAt(actions, i, id) && actions[i].CreateRun? && actions[i].depth == Full
    ensures var s := After(Initial, actions);
            FirstThree(s, id) && OtherThree(s, id)
  {
    var s := CompletedRun(actions, i, id);
    FirstAreAnswered(s, id);
    OthersAreAnswered(s, id);
  }

  ghost predicate NoneElse(t: Tables, id: int) {
    id in t.results && forall r :: r in t.results[id] ==> r.result.stage in {Connectivity, Protocol, Stream}
  }

  lemma BasicMakesNoneElse(t: Tables, id: int)
    requires id in t.runs && id in t.results && InDepth(t, id) && t.runs[id].depth == Basic
    ensures NoneElse(t, id)
  {
  }

  /** A run asked for as basic is completed with the first three, and makes no others. */
  lemma BasicRunsMakeThreeChecks(actions: seq<Action>, i: nat, id: int)
    requires Legal(Initial, actions) && CompletedBy(actions, id)
    requires MadeAt(actions, i, id) && actions[i].CreateRun? && actions[i].depth == Basic
    ensures FirstThree(After(Initial, actions), id) && NoneElse(After(Initial, actions).t, id)
  {
    var s := CompletedRun(actions, i, id);
    FirstAreAnswered(s, id);
    BasicMakesNoneElse(s.t, id);
  }

  /** The holder of the lease writes the stages in this order, each when those before it have a result or a lost
      write, and under the stage's own check. */
  lemma StagesAreWrittenInOrder(s: System, c: Claim, status: CheckStatus)
    requires Inv(s) && Runs(s, c) && s.execs[c].phase.InStage? && Owns(s.t, c.run, c.worker)
    ensures var i, s' := s.execs[c].phase.i, Step(s, WriteResult(c, status));
            && i < |InOrder| && c.run in s'.t.results
            && (exists r :: r in s'.t.results[c.run] && r.writer == c && r.result.stage == InOrder[i] && r.result.status == status)
            && forall k :: 0 <= k < i ==>
                 InOrder[k] in s.execs[c].missed || exists r :: r in s'.t.results[c.run] && r.result.stage == InOrder[k]
  {
    var i := s.execs[c].phase.i;
    assert Progress(s, c) && Covered(s, c, i) && RowsOk(s.t, c.run);
    var stages, rows := StagesOf(s.t, c.run), s.t.results[c.run];
    assert forall k :: 0 <= k < |stages| ==> stages[k] == InOrder[k];
    var r := WriteForm(s, c, status);
    var rows' := Step(s, WriteResult(c, status)).t.results[c.run];
    UpsertRowContents(rows, r);
    assert r in rows';
    forall k | 0 <= k < i && InOrder[k] !in s.execs[c].missed ensures exists x :: x in rows' && x.result.stage == InOrder[k] {
      assert stages[k] == InOrder[k];
      var x :| x in rows && x.result.stage == stages[k];
      assert x in rows' || r.result.stage == stages[k];
    }
  }

  // ---- Which run is claimed ----

  /** Of two queued runs that nobody has locked, the one asked for earlier is claimed first. */
  lemma EarlierAskedIsClaimedFirst(actions: seq<Action>, locked: set<int>, id: int, i: nat, other: int, j: nat)
    requires Legal(Initial, actions) && IsOldest(After(Initial, actions).t, locked, id)
    requires MadeAt(actions, i, id) && actions[i].CreateRun?
    requires var t := After(Initial, actions).t; other in t.runs && t.runs[other].status == Queued && other !in locked
    requires MadeAt(actions, j, other) && actions[j].CreateRun?
    ensures actions[i].now <= actions[j].now
  {
    var k := RunsAreAsAsked(actions, id);
    var m := RunsAreAsAsked(actions, other);
    assert k == i && m == j;
  }

  // ---- When it is released ----

  /** A sign of life: the claim, or a heartbeat while the run is running. */
  ghost predicate IsSign(s: System, a: Action, id: int) {
    || (Claims(s, a) && a.id == id)
    || (a.Beat? && a.c.run == id && Runs(s, a.c) && s.execs[a.c].phase != Done
        && s.t.runs[id].worker == a.c.worker && s.t.runs[id].status == Running)
  }

  ghost function LastSign(actions: seq<Action>, id: int): Option<int> {
    if actions == [] then None
    else
      var before, a := actions[..|actions| - 1], actions[|actions| - 1];
      if IsSign(After(Initial, before), a, id) && (a.ClaimNext? || a.Beat?) then Some(a.now) else LastSign(before, id)
  }

  lemma {:induction false} RecoverLeavesHeartbeats(t: Tables, stale: seq<StaleRun>, maxAttempts: nat, now: int, id: int)
    ensures var t' := RecoverAll(t, stale, maxAttempts, now);
            (id in t'.runs <==> id in t.runs) && (id in t.runs && IsLeased(t'.runs[id].status) ==> t'.runs[id] == t.runs[id])
  {
    if stale != [] {
      RecoverLeavesHeartbeats(t, stale[..|stale| - 1], maxAttempts, now, id);
    }
  }

  lemma SignIsRecorded(s: System, a: Action, id: int)
    requires IsSign(s, a, id)
    ensures id in Step(s, a).t.runs && Step(s, a).t.runs[id].heartbeat == Some(a.now) && Step(s, a).t.runs[id].status == Running
  {
  }

  /** The run is held after a statement only if it was before, and with the same heartbeat. */
  ghost predicate NoSign(t: Tables, t': Tables, id: int) {
    id in t'.runs && IsLeased(t'.runs[id].status) ==>
      id in t.runs && IsLeased(t.runs[id].status) && t'.runs[id].heartbeat == t.runs[id].heartbeat
  }

  lemma UserLeavesNoSign(s: System, a: Action, id: int)
    requires !IsSign(s, a, id) && (a.CreateRun? || a.ClaimNext? || a.AskCancel?)
    ensures NoSign(s.t, Step(s, a).t, id)
  {
  }

  lemma BeatLeavesNoSign(s: System, a: Action, id: int)
    requires !IsSign(s, a, id) && a.Beat?
    ensures NoSign(s.t, Step(s, a).t, id)
  {
  }

  lemma CheckLeavesNoSign(s: System, a: Action, id: int)
    requires a.CheckCancel?
    ensures NoSign(s.t, Step(s, a).t, id)
  {
  }

  lemma EndLeavesNoSign(s: System, a: Action, id: int)
    requires AtEnd(a)
    ensures NoSign(s.t, Step(s, a).t, id)
  {
    EndWrites(s, a);
  }

  lemma NothingElseIsRecorded(s: System, a: Action, id: int)
    requires !IsSign(s, a, id)
    ensures NoSign(s.t, Step(s, a).t, id)
  {
    match a
    case CreateRun(_, _, _) => UserLeavesNoSign(s, a, id);
    case ClaimNext(_, _, _) => UserLeavesNoSign(s, a, id);
    case AskCancel(_, _) => UserLeavesNoSign(s, a, id);
    case Beat(_, _) => BeatLeavesNoSign(s, a, id);
    case CheckCancel(_, _) => CheckLeavesNoSign(s, a, id);
    case WriteResult(_, _) => ResultsLeaveRuns(s, a);
    case LoseResult(_) => ResultsLeaveRuns(s, a);
    case ReadResults(_) => ResultsLeaveRuns(s, a);
    case Recover(stale, maxAttempts, now) => RecoverLeavesHeartbeats(s.t, stale, maxAttempts, now, id);
    case _ => EndLeavesNoSign(s, a, id);
  }

  /** In every legal run the heartbeat of a run that somebody holds is the last sign of life. */
  lemma {:induction false} HeartbeatIsLastSign(actions: seq<Action>, id: int)
    requires Legal(Initial, actions) && id in After(Initial, actions).t.runs && IsLeased(After(Initial, actions).t.runs[id].status)
    ensures After(Initial, actions).t.runs[id].heartbeat == LastSign(actions, id) && LastSign(actions, id).Some?
  {
    if actions != [] {
      var n := |actions| - 1;
      var s := After(Initial, actions[..n]);
      InvHolds(Initial, actions[..n]);
      if IsSign(s, actions[n], id) {
        SignIsRecorded(s, actions[n], id);
      } else {
        NothingElseIsRecorded(s, actions[n], id);
        HeartbeatIsLastSign(actions[..n], id);
      }
    }
  }

  /** No recovery whose limit is not after a sign of life finds the run. */
  lemma SignKeepsTheLease(s: System, a: Action, id: int, olderThan: int, stale: seq<StaleRun>)
    requires IsSign(s, a, id) && (a.ClaimNext? || a.Beat?) && olderThan <= a.now && IsScan(Step(s, a).t, olderThan, stale)
    ensures forall e :: e in stale ==> e.id != id
  {
    SignIsRecorded(s, a, id);
  }

  /** A run after recovery: taken away from its holder exactly if the last sign of life is old enough; then one
      that was to be cancelled is cancelled, and a running one goes back to the queue while it has attempts left and
      expires otherwise. */
  predicate Released(r: Run, r': Run, sign: int, olderThan: int, maxAttempts: nat) {
    if sign >= olderThan then r' == r
    else
      && r'.worker == "" && (r'.finished.None? <==> r'.status == Queued)
      && r'.status == if r.status == CancelRequested then Cancelled else if r.attempts < maxAttempts then Queued else Expired
  }

  lemma RecoveryOfOne(t: Tables, stale: seq<StaleRun>, olderThan: int, maxAttempts: nat, now: int, id: int)
    requires OneActive(t) && IsScan(t, olderThan, stale) && id in t.runs && IsLeased(t.runs[id].status) && t.runs[id].heartbeat.Some?
    ensures var t' := RecoverAll(t, stale, maxAttempts, now);
            id in t'.runs && Released(t.runs[id], t'.runs[id], t.runs[id].heartbeat.value, olderThan, maxAttempts)
  {
    ConflictBranchIsDead(t, stale, maxAttempts, now);
    if Scanned(stale, id) {
      var e :| e in stale && e.id == id;
    } else {
      assert !IsStale(t.runs[id], olderThan);
    }
  }

  /** So no run stays with somebody who has stopped working on it. */
  lemma AbandonedRunsAreReleased(actions: seq<Action>, stale: seq<StaleRun>, olderThan: int, maxAttempts: nat, now: int, id: int)
    requires Legal(Initial, actions) && IsScan(After(Initial, actions).t, olderThan, stale)
    requires id in After(Initial, actions).t.runs && IsLeased(After(Initial, actions).t.runs[id].status)
    ensures LastSign(actions, id).Some?
    ensures var s := After(Initial, actions);
            var t' := Step(s, Recover(stale, maxAttempts, now)).t;
            id in t'.runs && Released(s.t.runs[id], t'.runs[id], LastSign(actions, id).value, olderThan, maxAttempts)
  {
    InvHolds(Initial, actions);
    HeartbeatIsLastSign(actions, id);
    var s := After(Initial, actions);
    RecoveryOfOne(s.t, stale, olderThan, maxAttempts, now, id);
    RecoverForm(s, stale, maxAttempts, now);
  }

  lemma RecoverForm(s: System, stale: seq<StaleRun>, maxAttempts: nat, now: int)
    ensures Step(s, Recover(stale, maxAttempts, now)).t == RecoverAll(s.t, stale, maxAttempts, now)
  {
  }
}
