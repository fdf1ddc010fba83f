/** What the lease protocol guarantees over every interleaving, and where the code's guards are not
    enough: a recovery that works from an old scan. */
module QualityTheorems {
  import opened Options
  import opened QualityTypes
  import opened QualityTables
  import opened QualityLease

  // ---- Completed runs ----

  /** The verdict is the summary of the stored results; every stage of the run's depth has a result, and
      every result was written by the claim that completed the run, except for stages whose write that claim
      lost to a database error. */
  ghost predicate SoundlyCompleted(s: System, id: int)
    requires id in s.t.runs
  {
    var c := Claim(id, s.t.runs[id].worker, s.t.runs[id].attempts);
    && Runs(s, c)
    && s.t.runs[id].overall == Some(Summary(Results(s.t.results[id])))
    && (forall r :: r in s.t.results[id] ==> r.writer == c || r.result.stage in s.execs[c].missed)
    && (forall st :: st in StagesOf(s.t, id) && st !in s.execs[c].missed ==>
          exists r :: r in s.t.results[id] && r.result.stage == st)
  }

  /** In every legal interleaving completed runs are so. */
  lemma CompletedRunsAreSound(actions: seq<Action>, id: int)
    requires Legal(Initial, actions)
    requires var s := After(Initial, actions); id in s.t.runs && s.t.runs[id].status == Completed
    ensures SoundlyCompleted(After(Initial, actions), id)
  {
    InvHolds(Initial, actions);
    var s := After(Initial, actions);
    var c := Claim(id, s.t.runs[id].worker, s.t.runs[id].attempts);
    assert Sound(s, id) && InDepth(s.t, id);
    var stages := StagesOf(s.t, id);
    assert Covered(s, c, |stages|) && stages[|stages|..] == [];
    forall st | st in stages && st !in s.execs[c].missed
      ensures exists r :: r in s.t.results[id] && r.result.stage == st
    {
      var j :| 0 <= j < |stages| && stages[j] == st;
    }
  }

  /** A terminal row and its results never change again, whatever happens and whoever claims. */
  lemma {:induction false} TerminalRunsAreFrozen(s: System, actions: seq<Action>, id: int)
    requires id in s.t.runs && id in s.t.results && id < s.t.nextId && IsTerminal(s.t.runs[id].status)
    ensures var t := After(s, actions).t;
            id in t.runs && id in t.results && t.runs[id] == s.t.runs[id] && t.results[id] == s.t.results[id]
            && id < t.nextId
  {
    if actions != [] {
      var n := |actions| - 1;
      TerminalRunsAreFrozen(s, actions[..n], id);
      StepKeepsTerminal(After(s, actions[..n]), actions[n], id);
    }
  }

  lemma StepKeepsTerminal(s: System, a: Action, id: int)
    requires id in s.t.runs && id in s.t.results && id < s.t.nextId && IsTerminal(s.t.runs[id].status)
    ensures var t := Step(s, a).t;
            id in t.runs && id in t.results && t.runs[id] == s.t.runs[id] && t.results[id] == s.t.results[id] && id < t.nextId
  {
    if a.Recover? {
      RecoverKeepsTerminal(s.t, a.stale, a.maxAttempts, a.now, id);
    }
  }

  lemma {:induction false} RecoverKeepsTerminal(t: Tables, stale: seq<StaleRun>, maxAttempts: nat, now: int, id: int)
    requires id in t.runs && IsTerminal(t.runs[id].status)
    ensures var t' := RecoverAll(t, stale, maxAttempts, now);
            id in t'.runs && t'.runs[id] == t.runs[id] && t'.results == t.results && t'.nextId == t.nextId
  {
    if stale != [] {
      RecoverKeepsTerminal(t, stale[..|stale| - 1], maxAttempts, now, id);
    }
  }

  // ---- Recovery ----

  ghost predicate ChannelsMatch(t: Tables, stale: seq<StaleRun>) {
    forall e :: e in stale ==> e.id in t.runs && e.channel == t.runs[e.id].channel
  }

  /** What recovery does to a row: the same decision without looking at other runs. */
  ghost function Recovered(r: Run, e: StaleRun, maxAttempts: nat, now: int): Run {
    if e.cancelReq then
      if r.status == CancelRequested
      then r.(status := Cancelled, worker := "", finished := Some(now), heartbeat := Some(now)) else r
    else if r.status != Running then r
    else if e.attempts < maxAttempts then r.(status := Queued, worker := "", finished := None, heartbeat := Some(now))
    else r.(status := Expired, worker := "", finished := Some(now), heartbeat := Some(now))
  }

  ghost predicate Scanned(stale: seq<StaleRun>, id: int) {
    exists e :: e in stale && e.id == id
  }

  lemma RecoverOneAlone(t: Tables, e: StaleRun, maxAttempts: nat, now: int)
    requires OneActive(t) && e.id in t.runs && e.channel == t.runs[e.id].channel
    ensures RecoverOne(t, e, maxAttempts, now) == t.(runs := t.runs[e.id := Recovered(t.runs[e.id], e, maxAttempts, now)])
  {
    var r := t.runs[e.id];
    assert t.runs == t.runs[e.id := r];
    if r.status == Running {
      assert !Conflicts(t, e);
    }
  }

  lemma RecoveredKeepsOneActive(t: Tables, e: StaleRun, maxAttempts: nat, now: int)
    requires OneActive(t) && e.id in t.runs
    ensures OneActive(t.(runs := t.runs[e.id := Recovered(t.runs[e.id], e, maxAttempts, now)]))
  {
  }

  /** Because a channel has at most one active run, the branch that expires a run whose channel is
      busy never changes a row: recovery treats every scanned run by its own entry alone, even when
      the scan is out of date. */
  lemma {:induction false} ConflictBranchIsDead(t: Tables, stale: seq<StaleRun>, maxAttempts: nat, now: int)
    requires OneActive(t) && DistinctIds(stale) && ChannelsMatch(t, stale)
    ensures var t' := RecoverAll(t, stale, maxAttempts, now);
            && t'.runs.Keys == t.runs.Keys && t'.results == t.results && t'.nextId == t.nextId && OneActive(t')
            && (forall e :: e in stale ==> t'.runs[e.id] == Recovered(t.runs[e.id], e, maxAttempts, now))
            && (forall id :: id in t.runs && !Scanned(stale, id) ==> t'.runs[id] == t.runs[id])
  {
    if stale != [] {
      var n := |stale| - 1;
      var before, e := stale[..n], stale[n];
      ConflictBranchIsDead(t, before, maxAttempts, now);
      var t1 := RecoverAll(t, before, maxAttempts, now);
      forall x | x in before ensures x.id != e.id {
        var i :| 0 <= i < n && stale[i] == x;
      }
      assert e in stale && !Scanned(before, e.id) && t1.runs[e.id] == t.runs[e.id];
      RecoverOneAlone(t1, e, maxAttempts, now);
      RecoveredKeepsOneActive(t1, e, maxAttempts, now);
      assert forall x :: x in stale <==> x == e || x in before;
      forall id | id in t.runs && !Scanned(stale, id) ensures RecoverAll(t, stale, maxAttempts, now).runs[id] == t.runs[id] {
        assert !Scanned(before, id);
      }
    }
  }

  /** attempt_count stays within the limit, strictly while another claim is still to come. */
  ghost predicate AttemptBound(t: Tables, maxAttempts: nat) {
    forall id :: id in t.runs ==> RowBound(t.runs[id], maxAttempts)
  }

  ghost predicate RowBound(r: Run, maxAttempts: nat) {
    r.attempts <= maxAttempts && (r.status == Queued ==> r.attempts < maxAttempts)
  }

  /** An entry that has been overtaken: the run was claimed for the last time since the scan. */
  ghost predicate Outdated(t: Tables, e: StaleRun, maxAttempts: nat) {
    !e.cancelReq && e.id in t.runs && t.runs[e.id].status == Running && e.attempts < maxAttempts <= t.runs[e.id].attempts
  }

  /** Recovery keeps the attempt bound exactly when no entry of its scan is outdated in this way. */
  lemma RecoveryKeepsBoundIff(t: Tables, stale: seq<StaleRun>, maxAttempts: nat, now: int)
    requires OneActive(t) && DistinctIds(stale) && ChannelsMatch(t, stale) && AttemptBound(t, maxAttempts)
    ensures AttemptBound(RecoverAll(t, stale, maxAttempts, now), maxAttempts)
            <==> forall e :: e in stale ==> !Outdated(t, e, maxAttempts)
  {
    ConflictBranchIsDead(t, stale, maxAttempts, now);
    var t' := RecoverAll(t, stale, maxAttempts, now);
    if forall e :: e in stale ==> !Outdated(t, e, maxAttempts) {
      forall id | id in t'.runs ensures RowBound(t'.runs[id], maxAttempts) {
        assert RowBound(t.runs[id], maxAttempts);
        if Scanned(stale, id) { var e :| e in stale && e.id == id; }
      }
    } else {
      var e :| e in stale && Outdated(t, e, maxAttempts);
      assert !RowBound(t'.runs[e.id], maxAttempts);
    }
  }

  ghost const OldScan := [StaleRun(0, 7, 1, false)]

  ghost predicate FromOldScan(actions: seq<Action>) {
    forall a :: a in actions && a.Recover? ==> a.maxAttempts == 2 && a.stale == OldScan
  }

  /** One run of channel 7, queued after k attempts. */
  ghost predicate OneQueued(s: System, k: nat) {
    s.t.runs.Keys == {0} && s.t.runs[0].channel == 7 && s.t.runs[0].status == Queued && s.t.runs[0].attempts == k
  }

  /** One more action of a trace. */
  lemma Then(a: Action, before: seq<Action>, s: System) returns (actions: seq<Action>, s': System)
    requires After(Initial, before) == s && Legal(Initial, before) && Fresh(s, a)
    ensures s' == Step(s, a) && After(Initial, actions) == s' && Legal(Initial, actions) && actions == before + [a]
  {
    actions := before + [a];
    assert actions[..|actions| - 1] == before;
    s' := Step(s, a);
  }

  /** The scan commits before the updates begin, so two recoverers can hold the same scan: both put
      the run back, and it is claimed three times under a limit of two. */
  lemma InterleavedRecoverersBreakTheBound() returns (actions: seq<Action>, s: System)
    ensures After(Initial, actions) == s && Legal(Initial, actions) && FromOldScan(actions)
    ensures |actions| >= 2 && IsScan(After(Initial, actions[..2]).t, 100, OldScan)
    ensures 0 in s.t.runs && s.t.runs[0].attempts == 3
  {
    var start, s0 := QueuedRun();
    var two, s1 := ClaimAndRecover(start, s0, "a", 0);
    var four, s2 := ClaimAndRecover(two, s1, "b", 1);
    actions, s := ClaimAgain(four, s2, "c", 2);
    SamePrefix(start, two, four, actions);
  }

  lemma SamePrefix(one: seq<Action>, two: seq<Action>, four: seq<Action>, five: seq<Action>)
    requires |one| == 1 && |two| == 3 && |four| == 5 && |five| == 6
    requires four[..3] == two && five[..5] == four
    ensures five[..2] == two[..2]
  {
    assert five[..5][..2] == five[..2] && four[..3][..2] == four[..2];
  }

  lemma QueuedRun() returns (actions: seq<Action>, s: System)
    ensures After(Initial, actions) == s && Legal(Initial, actions) && |actions| == 1 && FromOldScan(actions)
    ensures OneQueued(s, 0) && s.execs == map[]
  {
    actions, s := Then(CreateRun(7, Basic, 5), [], Initial);
  }

  /** A claim of the only run, as the old scan sees it if it is the first. */
  lemma ClaimOnly(s: System, worker: string, k: nat, now: int)
    requires OneQueued(s, k) && worker != ""
    ensures var s' := Step(s, ClaimNext(0, worker, now));
            && s'.t.runs.Keys == {0} && s'.t.runs[0].channel == 7 && s'.t.runs[0].status == Running && s'.t.runs[0].attempts == k + 1
            && s'.execs.Keys == s.execs.Keys + {Claim(0, worker, k + 1)}
            && (k == 0 && now < 100 ==> IsScan(s'.t, 100, OldScan))
  {
    assert OldScan[0] in OldScan;
  }

  lemma RecoverOnly(s: System, k: nat)
    requires s.t.runs.Keys == {0} && s.t.runs[0].channel == 7 && s.t.runs[0].status == Running && s.t.runs[0].attempts == k
    ensures OneQueued(Step(s, Recover(OldScan, 2, 500)), k) && Step(s, Recover(OldScan, 2, 500)).execs == s.execs
  {
    assert !Conflicts(s.t, OldScan[0]) && RecoverAll(s.t, OldScan[..0], 2, 500) == s.t;
  }

  lemma ClaimAgain(before: seq<Action>, s0: System, worker: string, k: nat) returns (actions: seq<Action>, s: System)
    requires After(Initial, before) == s0 && Legal(Initial, before) && FromOldScan(before) && worker != ""
    requires OneQueued(s0, k) && forall c :: c in s0.execs ==> c.worker != worker
    ensures After(Initial, actions) == s && Legal(Initial, actions) && FromOldScan(actions)
    ensures |actions| == |before| + 1 && actions[..|before|] == before
    ensures 0 in s.t.runs && s.t.runs[0].attempts == k + 1
  {
    ClaimOnly(s0, worker, k, 503);
    actions, s := Then(ClaimNext(0, worker, 503), before, s0);
  }

  /** A claim by a new worker, put back by the entry of a scan that saw one attempt. */
  lemma ClaimAndRecover(before: seq<Action>, s0: System, worker: string, k: nat) returns (actions: seq<Action>, s: System)
    requires After(Initial, before) == s0 && Legal(Initial, before) && FromOldScan(before) && worker != ""
    requires OneQueued(s0, k) && forall c :: c in s0.execs ==> c.worker != worker
    ensures After(Initial, actions) == s && Legal(Initial, actions) && FromOldScan(actions)
    ensures |actions| == |before| + 2 && actions[..|before|] == before
    ensures k == 0 ==> IsScan(After(Initial, actions[..|before| + 1]).t, 100, OldScan)
    ensures OneQueued(s, k + 1) && s.execs.Keys == s0.execs.Keys + {Claim(0, worker, k + 1)}
  {
    ClaimOnly(s0, worker, k, 10);
    var claimed, s1 := Then(ClaimNext(0, worker, 10), before, s0);
    RecoverOnly(s1, k + 1);
    actions, s := Then(Recover(OldScan, 2, 500), claimed, s1);
    assert actions[..|before| + 1] == claimed;
  }

  // ---- Bounded work ----

  /** Recoveries that scan and update in one step, under one limit. */
  ghost predicate Atomic(s: System, a: Action, maxAttempts: nat) {
    a.Recover? ==> a.maxAttempts == maxAttempts && exists olderThan :: IsScan(s.t, olderThan, a.stale)
  }

  ghost predicate AllAtomic(s: System, actions: seq<Action>, maxAttempts: nat) {
    actions == [] || (AllAtomic(s, actions[..|actions| - 1], maxAttempts)
                      && Atomic(After(s, actions[..|actions| - 1]), actions[|actions| - 1], maxAttempts))
  }

  /** A bound on the status changes still ahead of a run. */
  ghost function WorkLeft(r: Run, maxAttempts: nat): int {
    match r.status
    case Queued => 3 * (maxAttempts - r.attempts)
    case Running => 3 * (maxAttempts - r.attempts) + 2
    case CancelRequested => 3 * (maxAttempts - r.attempts) + 1
    case _ => 0
  }

  /** After k status changes of run id: within the attempt bound, with at most 3 * maxAttempts - k
      more changes to come. */
  ghost predicate Budget(t: Tables, maxAttempts: nat, id: int, k: nat) {
    && AttemptBound(t, maxAttempts)
    && (id in t.runs ==> 0 <= WorkLeft(t.runs[id], maxAttempts) <= 3 * maxAttempts - k)
    && (id !in t.runs ==> k == 0)
  }

  ghost function Changed(t: Tables, t': Tables, id: int): nat {
    if id in t.runs && id in t'.runs && t.runs[id].status != t'.runs[id].status then 1 else 0
  }

  lemma RecoveryKeepsBudget(t: Tables, stale: seq<StaleRun>, olderThan: int, maxAttempts: nat, now: int, id: int, k: nat)
    requires OneActive(t) && IsScan(t, olderThan, stale) && Budget(t, maxAttempts, id, k)
    ensures var t' := RecoverAll(t, stale, maxAttempts, now); Budget(t', maxAttempts, id, k + Changed(t, t', id))
  {
    assert forall e :: e in stale ==> !Outdated(t, e, maxAttempts);
    RecoveryKeepsBoundIff(t, stale, maxAttempts, now);
    ConflictBranchIsDead(t, stale, maxAttempts, now);
    if id in t.runs {
      assert RowBound(t.runs[id], maxAttempts);
      if Scanned(stale, id) { var e :| e in stale && e.id == id; }
    }
  }

  /** The status moves of a single statement other than recovery. */
  ghost predicate Moves(r: Run, r': Run) {
    || (r'.status == r.status && r'.attempts == r.attempts)
    || (r.status == Queued && r'.status == Running && r'.attempts == r.attempts + 1)
    || (r'.attempts == r.attempts && r.status == Running && r'.status == CancelRequested)
    || (r'.attempts == r.attempts && IsActive(r.status) && IsTerminal(r'.status))
  }

  /** The new row of a run under a statement that is not an execution's. */
  lemma UserMovesRun(s: System, a: Action, id: int)
    requires TablesOk(s.t) && (a.CreateRun? || a.ClaimNext? || a.AskCancel?)
    ensures id in s.t.runs ==> id in Step(s, a).t.runs && Moves(s.t.runs[id], Step(s, a).t.runs[id])
    ensures id in Step(s, a).t.runs && id !in s.t.runs ==>
              Step(s, a).t.runs[id].status == Queued && Step(s, a).t.runs[id].attempts == 0
  {
  }

  ghost predicate AtEnd(a: Action) {
    a.WriteComplete? || a.Abort? || a.CheckCancelOnError? || a.MissCheck? || a.WriteFail? || a.MissFail?
  }

  lemma ResultsLeaveRuns(s: System, a: Action)
    requires a.WriteResult? || a.LoseResult? || a.ReadResults?
    ensures Step(s, a).t.runs == s.t.runs
  {
  }

  lemma StageMovesRun(s: System, a: Action, id: int)
    requires a.CheckCancel? || a.WriteResult? || a.LoseResult? || a.ReadResults? || a.Beat?
    ensures Step(s, a).t.runs.Keys == s.t.runs.Keys
    ensures id in s.t.runs ==> Moves(s.t.runs[id], Step(s, a).t.runs[id])
  {
    if a.WriteResult? || a.LoseResult? || a.ReadResults? {
      ResultsLeaveRuns(s, a);
    }
  }

  /** At the end of an execution at most one row changes, by one of three statements. */
  lemma EndWrites(s: System, a: Action)
    requires AtEnd(a)
    ensures var t, c := Step(s, a).t, a.c;
            || t == s.t
            || (a.WriteComplete? && exists overall :: t == Complete(s.t, c.run, c.worker, overall, a.now))
            || (a.CheckCancelOnError? && t == CancelIfRequested(s.t, c.run, c.worker, a.now))
            || (a.WriteFail? && t == Fail(s.t, c.run, c.worker, a.now))
  {
  }

  lemma FinishMoves(t: Tables, run: int, status: RunStatus, now: int, id: int)
    requires run in t.runs && IsActive(t.runs[run].status) && IsTerminal(status)
    ensures Finish(t, run, status, now).runs.Keys == t.runs.Keys
    ensures id in t.runs ==> Moves(t.runs[id], Finish(t, run, status, now).runs[id])
  {
  }

  lemma CompleteMoves(t: Tables, run: int, worker: string, overall: Overall, now: int, id: int)
    ensures Complete(t, run, worker, overall, now).runs.Keys == t.runs.Keys
    ensures id in t.runs ==> Moves(t.runs[id], Complete(t, run, worker, overall, now).runs[id])
  {
    if Owns(t, run, worker) {
      FinishMoves(t, run, Completed, now, id);
    }
  }

  lemma EndMovesRun(s: System, a: Action, id: int)
    requires AtEnd(a)
    ensures Step(s, a).t.runs.Keys == s.t.runs.Keys
    ensures id in s.t.runs ==> Moves(s.t.runs[id], Step(s, a).t.runs[id])
  {
    EndWrites(s, a);
    var t, c := Step(s, a).t, a.c;
    if t != s.t {
      if a.WriteComplete? {
        var overall :| t == Complete(s.t, c.run, c.worker, overall, a.now);
        CompleteMoves(s.t, c.run, c.worker, overall, a.now, id);
      } else {
        FinishMoves(s.t, c.run, if a.WriteFail? then Failed else Cancelled, a.now, id);
      }
    }
  }

  lemma StepMovesRun(s: System, a: Action, id: int)
    requires TablesOk(s.t) && !a.Recover?
    ensures id in s.t.runs ==> id in Step(s, a).t.runs && Moves(s.t.runs[id], Step(s, a).t.runs[id])
    ensures id in Step(s, a).t.runs && id !in s.t.runs ==>
              Step(s, a).t.runs[id].status == Queued && Step(s, a).t.runs[id].attempts == 0
  {
    if a.CreateRun? || a.ClaimNext? || a.AskCancel? {
      UserMovesRun(s, a, id);
    } else if AtEnd(a) {
      EndMovesRun(s, a, id);
    } else {
      StageMovesRun(s, a, id);
    }
  }

  lemma StepMoves(s: System, a: Action)
    requires TablesOk(s.t) && !a.Recover?
    ensures forall id :: id in s.t.runs ==> id in Step(s, a).t.runs && Moves(s.t.runs[id], Step(s, a).t.runs[id])
    ensures forall id :: id in Step(s, a).t.runs && id !in s.t.runs ==>
              Step(s, a).t.runs[id].status == Queued && Step(s, a).t.runs[id].attempts == 0
  {
    var t' := Step(s, a).t;
    forall id | id in s.t.runs ensures id in t'.runs && Moves(s.t.runs[id], t'.runs[id]) {
      StepMovesRun(s, a, id);
    }
    forall id | id in t'.runs && id !in s.t.runs ensures t'.runs[id].status == Queued && t'.runs[id].attempts == 0 {
      StepMovesRun(s, a, id);
    }
  }

  lemma MovesKeepBudget(t: Tables, t': Tables, maxAttempts: nat, id: int, k: nat)
    requires maxAttempts >= 1 && Budget(t, maxAttempts, id, k)
    requires forall id :: id in t.runs ==> id in t'.runs && Moves(t.runs[id], t'.runs[id])
    requires forall id :: id in t'.runs && id !in t.runs ==> t'.runs[id].status == Queued && t'.runs[id].attempts == 0
    ensures Budget(t', maxAttempts, id, k + Changed(t, t', id))
  {
    forall j | j in t'.runs ensures RowBound(t'.runs[j], maxAttempts) {
      if j in t.runs { assert RowBound(t.runs[j], maxAttempts) && Moves(t.runs[j], t'.runs[j]); }
    }
    if id in t.runs { assert RowBound(t.runs[id], maxAttempts) && Moves(t.runs[id], t'.runs[id]); }
  }

  /** Every status change uses up some of the work left, and nothing else does. */
  lemma StepKeepsBudget(s: System, a: Action, maxAttempts: nat, id: int, k: nat)
    requires Inv(s) && Atomic(s, a, maxAttempts) && maxAttempts >= 1 && Budget(s.t, maxAttempts, id, k)
    ensures Budget(Step(s, a).t, maxAttempts, id, k + Changed(s.t, Step(s, a).t, id))
  {
    if a.Recover? {
      var olderThan :| IsScan(s.t, olderThan, a.stale);
      RecoveryKeepsBudget(s.t, a.stale, olderThan, maxAttempts, a.now, id, k);
    } else {
      StepMoves(s, a);
      MovesKeepBudget(s.t, Step(s, a).t, maxAttempts, id, k);
    }
  }

  ghost function StatusChanges(s: System, actions: seq<Action>, id: int): nat {
    if actions == [] then 0
    else StatusChanges(s, actions[..|actions| - 1], id)
         + Changed(After(s, actions[..|actions| - 1]).t, After(s, actions).t, id)
  }

  /** With atomic recovery no run is claimed more often than the limit allows, and every run sees at
      most three status changes per allowed attempt, in any interleaving of any length. */
  lemma {:induction false} RunsDoBoundedWork(actions: seq<Action>, maxAttempts: nat, id: int)
    requires Legal(Initial, actions) && AllAtomic(Initial, actions, maxAttempts) && maxAttempts >= 1
    ensures Budget(After(Initial, actions).t, maxAttempts, id, StatusChanges(Initial, actions, id))
    ensures StatusChanges(Initial, actions, id) <= 3 * maxAttempts
  {
    if actions != [] {
      var n := |actions| - 1;
      RunsDoBoundedWork(actions[..n], maxAttempts, id);
      InvHolds(Initial, actions[..n]);
      StepKeepsBudget(After(Initial, actions[..n]), actions[n], maxAttempts, id, StatusChanges(Initial, actions[..n], id));
    }
  }
}
