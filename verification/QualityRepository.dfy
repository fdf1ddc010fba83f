/** The quality run tables and the guarded statements on them (internal/quality/repository.go).
    Every statement is an atomic update whose guard is the statement's WHERE clause. */
module QualityTables {
  import opened Options
  import opened QualityTypes

  /** One execution of a run: who claimed it and on which attempt. Only run and worker reach the
      database; the attempt number is kept so that the writer of a result row can be named. */
  datatype Claim = Claim(run: int, worker: string, attempt: nat)

  datatype Run = Run(channel: int, depth: Depth, status: RunStatus, overall: Option<Overall>,
                     attempts: nat, worker: string, heartbeat: Option<int>, finished: Option<int>, created: int)

  /** A result row together with the claim that wrote it last. */
  datatype Row = Row(result: StageResult, writer: Claim)

  /** The run table by id, and each run's result rows in creation order. */
  datatype Tables = Tables(runs: map<int, Run>, results: map<int, seq<Row>>, nextId: int)

  function Results(rows: seq<Row>): (rs: seq<StageResult>)
    ensures |rs| == |rows| && forall i :: 0 <= i < |rows| ==> rs[i] == rows[i].result
  {
    seq(|rows|, i requires 0 <= i < |rows| => rows[i].result)
  }

  predicate SameKey(a: StageResult, b: StageResult) {
    a.stage == b.stage && a.check == b.check
  }

  /** INSERT ... ON CONFLICT (run_id, stage, check_name) DO UPDATE. */
  function UpsertRow(rows: seq<Row>, r: Row): seq<Row> {
    if rows == [] then [r]
    else if SameKey(rows[0].result, r.result) then [r] + rows[1..]
    else [rows[0]] + UpsertRow(rows[1..], r)
  }

  ghost predicate DistinctKeys(rows: seq<Row>) {
    forall i, j :: 0 <= i < j < |rows| ==>
      !(rows[i].result.stage == rows[j].result.stage && rows[i].result.check == rows[j].result.check)
  }

  lemma {:induction false} UpsertRowContents(rows: seq<Row>, r: Row)
    requires DistinctKeys(rows)
    ensures DistinctKeys(UpsertRow(rows, r))
    ensures forall x :: x in UpsertRow(rows, r) <==>
              x == r || (x in rows && !(x.result.stage == r.result.stage && x.result.check == r.result.check))
  {
    if rows != [] && !SameKey(rows[0].result, r.result) {
      var rest := rows[1..];
      UpsertRowContents(rest, r);
      assert rows == [rows[0]] + rest;
      forall x | x in UpsertRow(rest, r) ensures !SameKey(rows[0].result, x.result) {
        if x != r {
          var k :| 0 <= k < |rest| && rest[k] == x;
          assert rows[k + 1] == x;
        }
      }
    } else if rows != [] {
      assert rows == [rows[0]] + rows[1..];
      forall k | 0 <= k < |rows[1..]| ensures !SameKey(rows[1..][k].result, r.result) {
        assert rows[1..][k] == rows[k + 1];
      }
    }
  }

  ghost predicate ActiveOn(t: Tables, channel: int) {
    exists id :: id in t.runs && t.runs[id].channel == channel && IsActive(t.runs[id].status)
  }

  /** INSERT of a queued run, refused by the partial unique index when the channel is busy. */
  ghost function Create(t: Tables, channel: int, depth: Depth, now: int): Tables {
    if ActiveOn(t, channel) then t
    else Tables(t.runs[t.nextId := Run(channel, depth, Queued, None, 0, "", None, None, now)],
                t.results[t.nextId := []], t.nextId + 1)
  }

  /** A queued run that nobody has locked; none like it was created before. */
  ghost predicate IsOldest(t: Tables, locked: set<int>, id: int) {
    && id in t.runs && t.runs[id].status == Queued && id !in locked
    && forall other :: other in t.runs && t.runs[other].status == Queued && other !in locked ==> t.runs[id].created <= t.runs[other].created
  }

  function ClaimRun(t: Tables, id: int, worker: string, now: int): Tables {
    if id in t.runs && t.runs[id].status == Queued then
      var r := t.runs[id];
      t.(runs := t.runs[id := r.(status := Running, attempts := r.attempts + 1, worker := worker, heartbeat := Some(now))])
    else t
  }

  /** The fencing predicate: worker_id = $w AND status IN ('running', 'cancel_requested'). */
  predicate Owns(t: Tables, id: int, worker: string) {
    id in t.runs && t.runs[id].worker == worker && IsLeased(t.runs[id].status)
  }

  function Upsert(t: Tables, c: Claim, result: StageResult): Tables {
    if Owns(t, c.run, c.worker) && c.run in t.results
    then t.(results := t.results[c.run := UpsertRow(t.results[c.run], Row(result, c))])
    else t
  }

  function Heartbeat(t: Tables, id: int, worker: string, now: int): Tables {
    if Owns(t, id, worker) && t.runs[id].status == Running
    then t.(runs := t.runs[id := t.runs[id].(heartbeat := Some(now))])
    else t
  }

  function Finish(t: Tables, id: int, status: RunStatus, now: int): Tables
    requires id in t.runs
  {
    t.(runs := t.runs[id := t.runs[id].(status := status, finished := Some(now), heartbeat := Some(now))])
  }

  function RequestCancel(t: Tables, id: int, now: int): Tables {
    if id in t.runs && t.runs[id].status == Queued then Finish(t, id, Cancelled, now)
    else if id in t.runs && t.runs[id].status == Running
    then t.(runs := t.runs[id := t.runs[id].(status := CancelRequested)])
    else t
  }

  predicate CancelDue(t: Tables, id: int, worker: string) {
    Owns(t, id, worker) && t.runs[id].status == CancelRequested
  }

  function CancelIfRequested(t: Tables, id: int, worker: string, now: int): Tables {
    if CancelDue(t, id, worker) then Finish(t, id, Cancelled, now) else t
  }

  function Complete(t: Tables, id: int, worker: string, overall: Overall, now: int): Tables {
    if Owns(t, id, worker)
    then var t1 := Finish(t, id, Completed, now); t1.(runs := t1.runs[id := t1.runs[id].(overall := Some(overall))])
    else t
  }

  function Fail(t: Tables, id: int, worker: string, now: int): Tables {
    if Owns(t, id, worker) then Finish(t, id, Failed, now) else t
  }

  /** One entry of the stale scan: what the scanning statement saw of a run. */
  datatype StaleRun = StaleRun(id: int, channel: int, attempts: nat, cancelReq: bool)

  predicate IsStale(r: Run, olderThan: int) {
    IsLeased(r.status) && r.heartbeat.Some? && r.heartbeat.value < olderThan
  }

  function SeenAs(id: int, r: Run): StaleRun {
    StaleRun(id, r.channel, r.attempts, r.status == CancelRequested)
  }

  /** The scan lists every stale run exactly once, as it is now. */
  ghost predicate IsScan(t: Tables, olderThan: int, stale: seq<StaleRun>) {
    && DistinctIds(stale)
    && (forall s :: s in stale ==> s.id in t.runs && s == SeenAs(s.id, t.runs[s.id]))
    && (forall id :: id in t.runs && IsStale(t.runs[id], olderThan) <==> exists s :: s in stale && s.id == id)
  }

  ghost predicate DistinctIds(stale: seq<StaleRun>) {
    forall i, j :: 0 <= i < j < |stale| ==> stale[i].id != stale[j].id
  }

  /** Another active run on the channel: the check before a stale run goes back to the queue. */
  ghost predicate Conflicts(t: Tables, s: StaleRun) {
    exists id :: id in t.runs && id != s.id && t.runs[id].channel == s.channel && IsActive(t.runs[id].status)
  }

  /** UPDATE ... SET status, worker_id = '' WHERE id = $1 AND status = $2. */
  function Release(t: Tables, id: int, expected: RunStatus, status: RunStatus, finished: Option<int>, now: int): Tables {
    if id in t.runs && t.runs[id].status == expected
    then t.(runs := t.runs[id := t.runs[id].(status := status, worker := "", finished := finished, heartbeat := Some(now))])
    else t
  }

  /** The recovery of one scanned run. The entry may be older than the tables. */
  ghost function RecoverOne(t: Tables, s: StaleRun, maxAttempts: nat, now: int): Tables {
    if s.cancelReq then Release(t, s.id, CancelRequested, Cancelled, Some(now), now)
    else if s.attempts < maxAttempts && !Conflicts(t, s) then Release(t, s.id, Running, Queued, None, now)
    else Release(t, s.id, Running, Expired, Some(now), now)
  }

  ghost function RecoverAll(t: Tables, stale: seq<StaleRun>, maxAttempts: nat, now: int): Tables {
    if stale == [] then t
    else RecoverOne(RecoverAll(t, stale[..|stale| - 1], maxAttempts, now), stale[|stale| - 1], maxAttempts, now)
  }
}

/** The repository object: the two tables as fields, each method one or more guarded statements. */
module QualityRepository {
  import opened Options
  import opened QualityTypes
  import opened QualityTables

  datatype CreateResult = Created(id: int) | ChannelBusy(existing: int)

  datatype WriteResult = Written | LostOwnership

  class Repository {
    var runs: map<int, Run>
    var results: map<int, seq<Row>>
    var nextId: int

    function Contents(): Tables
      reads this
    {
      Tables(runs, results, nextId)
    }

    constructor ()
      ensures Contents() == Tables(map[], map[], 0)
    {
      runs, results, nextId := map[], map[], 0;
    }

    method CreateRun(channel: int, depth: Depth, now: int) returns (r: CreateResult)
      modifies this
      ensures Contents() == Create(old(Contents()), channel, depth, now)
      ensures r.Created? <==> !old(ActiveOn(Contents(), channel))
      ensures r.Created? ==> r.id == old(nextId)
      ensures r.ChannelBusy? ==> r.existing in runs && runs[r.existing].channel == channel && IsActive(runs[r.existing].status)
    {
      if exists id | id in runs :: runs[id].channel == channel && IsActive(runs[id].status) {
        var id :| id in runs && runs[id].channel == channel && IsActive(runs[id].status);
        return ChannelBusy(id);
      }
      r := Created(nextId);
      runs := runs[nextId := Run(channel, depth, Queued, None, 0, "", None, None, now)];
      results := results[nextId := []];
      nextId := nextId + 1;
    }

    /** Claims the oldest queued run, passing over those that another transaction holds locked; nothing
        exactly when every queued run is locked. */
    method ClaimNext(worker: string, locked: set<int>, now: int) returns (claimed: Option<int>)
      modifies this`runs
      ensures claimed.None? <==> forall id :: id in old(runs) && old(runs)[id].status == Queued ==> id in locked
      ensures claimed.None? ==> Contents() == old(Contents())
      ensures claimed.Some? ==> IsOldest(old(Contents()), locked, claimed.value)
      ensures claimed.Some? ==> Contents() == ClaimRun(old(Contents()), claimed.value, worker, now)
    {
      var queued := set id | id in runs && runs[id].status == Queued && id !in locked;
      assert forall id :: id in runs && runs[id].status == Queued && id !in locked ==> id in queued;
      if !exists id :: id in queued {
        return None;
      }
      var oldest :| oldest in queued;
      var rest := queued - {oldest};
      while exists id :: id in rest
        invariant oldest in queued && rest <= queued
        invariant forall id :: id in queued - rest ==> runs[oldest].created <= runs[id].created
        decreases rest
      {
        var id :| id in rest;
        if runs[id].created < runs[oldest].created {
          oldest := id;
        }
        rest := rest - {id};
      }
      var r := runs[oldest];
      runs := runs[oldest := r.(status := Running, attempts := r.attempts + 1, worker := worker, heartbeat := Some(now))];
      return Some(oldest);
    }

    method UpsertResult(c: Claim, result: StageResult) returns (w: WriteResult)
      requires runs.Keys == results.Keys
      modifies this`results
      ensures Contents() == Upsert(old(Contents()), c, result)
      ensures w.Written? <==> Owns(old(Contents()), c.run, c.worker)
    {
      if c.run in runs && runs[c.run].worker == c.worker && IsLeased(runs[c.run].status) {
        results := results[c.run := UpsertRow(results[c.run], Row(result, c))];
        return Written;
      }
      return LostOwnership;
    }

    method CancelOnRequest(id: int, worker: string, now: int) returns (cancelled: bool)
      modifies this`runs
      ensures Contents() == CancelIfRequested(old(Contents()), id, worker, now)
      ensures cancelled <==> CancelDue(old(Contents()), id, worker)
    {
      cancelled := id in runs && runs[id].worker == worker && runs[id].status == CancelRequested;
      if cancelled {
        runs := runs[id := runs[id].(status := Cancelled, finished := Some(now), heartbeat := Some(now))];
      }
    }

    /** The heartbeat shares its guard with the other writes of the holder, but stops once a cancellation is
        asked for. */
    method Beat(id: int, worker: string, now: int) returns (alive: bool)
      modifies this`runs
      ensures Contents() == Heartbeat(old(Contents()), id, worker, now)
      ensures alive <==> Owns(old(Contents()), id, worker) && old(runs)[id].status == Running
    {
      alive := id in runs && runs[id].worker == worker && runs[id].status == Running;
      if alive {
        runs := runs[id := runs[id].(heartbeat := Some(now))];
      }
    }

    method CompleteRun(id: int, worker: string, overall: Overall, now: int) returns (w: WriteResult)
      modifies this`runs
      ensures Contents() == Complete(old(Contents()), id, worker, overall, now)
      ensures w.Written? <==> Owns(old(Contents()), id, worker)
    {
      if id in runs && runs[id].worker == worker && IsLeased(runs[id].status) {
        runs := runs[id := runs[id].(status := Completed, overall := Some(overall),
                                     finished := Some(now), heartbeat := Some(now))];
        return Written;
      }
      return LostOwnership;
    }

    method FailRun(id: int, worker: string, now: int) returns (w: WriteResult)
      modifies this`runs
      ensures Contents() == Fail(old(Contents()), id, worker, now)
      ensures w.Written? <==> Owns(old(Contents()), id, worker)
    {
      if id in runs && runs[id].worker == worker && IsLeased(runs[id].status) {
        runs := runs[id := runs[id].(status := Failed, finished := Some(now), heartbeat := Some(now))];
        return Written;
      }
      return LostOwnership;
    }

    /** Two statements: a queued run is cancelled at once, a running one only marked. */
    method RequestCancelRun(id: int, now: int) returns (cancellable: bool)
      modifies this`runs
      ensures Contents() == RequestCancel(old(Contents()), id, now)
      ensures cancellable <==> id in old(runs) && (old(runs)[id].status == Queued || old(runs)[id].status == Running)
    {
      if id in runs && runs[id].status == Queued {
        runs := runs[id := runs[id].(status := Cancelled, finished := Some(now), heartbeat := Some(now))];
        return true;
      }
      if id in runs && runs[id].status == Running {
        runs := runs[id := runs[id].(status := CancelRequested)];
        return true;
      }
      return false;
    }

    /** The transaction over a finished scan: one run at a time, in scan order. */
    method RecoverStale(stale: seq<StaleRun>, maxAttempts: nat, now: int) returns (recovered: nat)
      modifies this`runs
      ensures Contents() == RecoverAll(old(Contents()), stale, maxAttempts, now)
      ensures recovered == |stale|
    {
      recovered := 0;
      for i := 0 to |stale|
        invariant recovered == i
        invariant Contents() == RecoverAll(old(Contents()), stale[..i], maxAttempts, now)
        invariant results == old(results) && nextId == old(nextId)
      {
        var s := stale[i];
        assert stale[..i + 1][..i] == stale[..i];
        if s.cancelReq {
          if s.id in runs && runs[s.id].status == CancelRequested {
            runs := runs[s.id := runs[s.id].(status := Cancelled, worker := "", finished := Some(now), heartbeat := Some(now))];
          }
        } else if s.attempts < maxAttempts {
          var conflict := exists id | id in runs :: id != s.id && runs[id].channel == s.channel && IsActive(runs[id].status);
          if s.id in runs && runs[s.id].status == Running {
            runs := runs[s.id := runs[s.id].(status := if conflict then Expired else Queued, worker := "",
                                             finished := if conflict then Some(now) else None, heartbeat := Some(now))];
          }
        } else if s.id in runs && runs[s.id].status == Running {
          runs := runs[s.id := runs[s.id].(status := Expired, worker := "", finished := Some(now), heartbeat := Some(now))];
        }
        recovered := recovered + 1;
      }
      assert stale[..|stale|] == stale;
    }
  }
}
