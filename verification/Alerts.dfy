/** The alert event store (internal/alert/reconcile_store.go): a row per cycle of an alert, from its first
    sighting to its recovery. */
module AlertRows {
  import opened Options

  datatype Severity = Warning | Critical

  datatype Alert = Alert(key: string, kind: string, severity: Severity, value: int)

  datatype Event = Event(key: string, kind: string, severity: Severity, active: bool, value: int, firstSeen: int, lastSeen: int,
                         recoveredAt: Option<int>, occurrences: nat, escalatedAt: Option<int>)

  /** The partial unique index: no key has two active rows. */
  predicate OneActive(rows: seq<Event>) {
    forall i, j :: 0 <= i < j < |rows| && rows[i].active && rows[j].active ==> rows[i].key != rows[j].key
  }

  function FindActive(rows: seq<Event>, key: string): (i: nat)
    ensures i <= |rows|
    ensures i < |rows| ==> rows[i].active && rows[i].key == key
    ensures i == |rows| ==> forall j :: 0 <= j < |rows| ==> !(rows[j].active && rows[j].key == key)
  {
    if rows == [] then 0
    else if rows[0].active && rows[0].key == key then 0
    else
      assert forall j :: 1 <= j < |rows| ==> rows[j] == rows[1..][j - 1];
      1 + FindActive(rows[1..], key)
  }

  /** Another sighting of an active alert. A critical sighting of a warning escalates it; only the
      reconciliation records when. */
  function SeenAgain(e: Event, a: Alert, now: int, stamp: bool): Event {
    var escalates := a.severity == Critical && e.severity != Critical;
    e.(lastSeen := now, value := a.value, occurrences := e.occurrences + 1,
       severity := if escalates then Critical else e.severity,
       escalatedAt := if escalates && stamp then Some(now) else e.escalatedAt)
  }

  function FirstSeen(a: Alert, now: int): Event {
    Event(a.key, a.kind, a.severity, true, a.value, now, now, None, 1, None)
  }

  function Upserted(rows: seq<Event>, a: Alert, now: int, stamp: bool): seq<Event> {
    var i := FindActive(rows, a.key);
    if i < |rows| then rows[i := SeenAgain(rows[i], a, now, stamp)] else rows + [FirstSeen(a, now)]
  }

  function Recovered(e: Event, now: int): Event {
    e.(active := false, recoveredAt := Some(now))
  }

  /** All alerts of a round with a key, one after the other. */
  function UpsertedAll(rows: seq<Event>, current: seq<Alert>, now: int): seq<Event> {
    if current == [] then rows
    else
      var before := UpsertedAll(rows, current[..|current| - 1], now);
      var a := current[|current| - 1];
      if a.key == "" then before else Upserted(before, a, now, true)
  }

  function Keys(current: seq<Alert>): set<string> {
    set a | a in current && a.key != "" :: a.key
  }

  /** Active rows of the chosen keys recover. */
  function RecoveredWhere(rows: seq<Event>, chosen: string -> bool, now: int): (r: seq<Event>)
    ensures |r| == |rows|
    ensures forall i :: 0 <= i < |rows| ==> r[i] == if rows[i].active && chosen(rows[i].key) then Recovered(rows[i], now) else rows[i]
  {
    seq(|rows|, i requires 0 <= i < |rows| => if rows[i].active && chosen(rows[i].key) then Recovered(rows[i], now) else rows[i])
  }

  function RecoveredExcept(rows: seq<Event>, keys: set<string>, now: int): seq<Event> {
    RecoveredWhere(rows, key => key !in keys, now)
  }

  function Reconciled(rows: seq<Event>, current: seq<Alert>, now: int): seq<Event> {
    RecoveredExcept(UpsertedAll(rows, current, now), Keys(current), now)
  }

  function Resolved(rows: seq<Event>, key: string, now: int): seq<Event> {
    RecoveredWhere(rows, k => k == key, now)
  }

  class AlertStore {
    var rows: seq<Event>

    constructor ()
      ensures rows == []
    {
      rows := [];
    }

    /** INSERT ... ON CONFLICT on the active row of the key. */
    method Upsert(a: Alert, now: int, stamp: bool)
      modifies this
      ensures rows == Upserted(old(rows), a, now, stamp)
    {
      var i := 0;
      while i < |rows| && !(rows[i].active && rows[i].key == a.key)
        invariant i <= |rows| && rows == old(rows)
        invariant i + FindActive(rows[i..], a.key) == FindActive(rows, a.key)
      {
        assert rows[i..][0] == rows[i] && rows[i..][1..] == rows[i + 1..];
        i := i + 1;
      }
      if i < |rows| {
        assert rows[i..][0] == rows[i];
        rows := rows[i := SeenAgain(rows[i], a, now, stamp)];
      } else {
        rows := rows + [FirstSeen(a, now)];
      }
    }

    /** One transaction; a statement that fails rolls back all of it. fault is the index of the alert whose
        upsert fails, or |current| for the recovery or the commit. */
    method Reconcile(current: seq<Alert>, now: int, fault: Option<nat>) returns (ok: bool)
      modifies this
      ensures ok <==> fault.None? || fault.value > |current| || (fault.value < |current| && current[fault.value].key == "")
      ensures rows == if ok then Reconciled(old(rows), current, now) else old(rows)
    {
      var before := rows;
      for n := 0 to |current|
        invariant rows == UpsertedAll(before, current[..n], now)
        invariant fault.Some? && fault.value < n ==> current[fault.value].key == ""
      {
        assert current[..n + 1][..n] == current[..n];
        var a := current[n];
        if a.key == "" {
          continue;
        }
        if fault == Some(n) {
          rows := before;
          return false;
        }
        Upsert(a, now, true);
      }
      assert current[..|current|] == current;
      if fault == Some(|current|) {
        rows := before;
        return false;
      }
      rows := RecoveredExcept(rows, Keys(current), now);
      return true;
    }

    method UpsertActive(a: Alert, now: int) returns (ok: bool)
      modifies this
      ensures ok == (a.key != "")
      ensures rows == if ok then Upserted(old(rows), a, now, false) else old(rows)
    {
      if a.key == "" {
        return false;
      }
      Upsert(a, now, false);
      return true;
    }

    method ResolveKey(key: string, now: int) returns (ok: bool)
      modifies this
      ensures ok == (key != "")
      ensures rows == if ok then Resolved(old(rows), key, now) else old(rows)
    {
      if key == "" {
        return false;
      }
      rows := Resolved(rows, key, now);
      return true;
    }
  }
}

/** The lifecycle of alerts over any run of the three operations. */
module AlertLifecycle {
  import opened Options
  import opened AlertRows

  datatype Step = Reconcile(current: seq<Alert>, now: int) | UpsertActive(alert: Alert, now: int) | ResolveKey(key: string, now: int)

  function Do(rows: seq<Event>, step: Step): seq<Event> {
    match step
    case Reconcile(current, now) => Reconciled(rows, current, now)
    case UpsertActive(a, now) => if a.key == "" then rows else Upserted(rows, a, now, false)
    case ResolveKey(key, now) => if key == "" then rows else Resolved(rows, key, now)
  }

  function After(rows: seq<Event>, steps: seq<Step>): seq<Event>
    decreases |steps|
  {
    if steps == [] then rows else After(Do(rows, steps[0]), steps[1..])
  }

  // ---- One active row per key ----

  lemma UpsertKeepsOneActive(rows: seq<Event>, a: Alert, now: int, stamp: bool)
    requires OneActive(rows)
    ensures OneActive(Upserted(rows, a, now, stamp))
    ensures forall e :: e in Upserted(rows, a, now, stamp) && e.active && e.key != a.key ==> e in rows
    ensures exists e :: e in Upserted(rows, a, now, stamp) && e.active && e.key == a.key
    ensures forall e :: e in rows && e.active && e.key != a.key ==> e in Upserted(rows, a, now, stamp)
  {
    var i := FindActive(rows, a.key);
    var after := Upserted(rows, a, now, stamp);
    assert after[i].active && after[i].key == a.key && after[i] in after;
    forall e | e in rows && e.active && e.key != a.key ensures e in after {
      var j :| 0 <= j < |rows| && rows[j] == e;
      assert after[j] == e;
    }
  }

  ghost function KeysActive(rows: seq<Event>): set<string> {
    set e | e in rows && e.active :: e.key
  }

  lemma {:induction false} UpsertAllActive(rows: seq<Event>, current: seq<Alert>, now: int)
    requires OneActive(rows)
    ensures OneActive(UpsertedAll(rows, current, now))
    ensures KeysActive(UpsertedAll(rows, current, now)) == KeysActive(rows) + Keys(current)
  {
    if current == [] {
    } else {
      var front, a := current[..|current| - 1], current[|current| - 1];
      UpsertAllActive(rows, front, now);
      assert forall x :: x in current <==> x in front || x == a;
      if a.key != "" {
        var before := UpsertedAll(rows, front, now);
        UpsertKeepsOneActive(before, a, now, true);
        assert KeysActive(Upserted(before, a, now, true)) == KeysActive(before) + {a.key};
        assert Keys(current) == Keys(front) + {a.key};
      } else {
        assert Keys(current) == Keys(front);
      }
    }
  }

  lemma RecoverKeepsOneActive(rows: seq<Event>, chosen: string -> bool, now: int)
    requires OneActive(rows)
    ensures OneActive(RecoveredWhere(rows, chosen, now))
    ensures forall key :: key in KeysActive(RecoveredWhere(rows, chosen, now)) <==> key in KeysActive(rows) && !chosen(key)
  {
    var after := RecoveredWhere(rows, chosen, now);
    forall key | key in KeysActive(rows) && !chosen(key) ensures key in KeysActive(after) {
      var e :| e in rows && e.active && e.key == key;
      var i :| 0 <= i < |rows| && rows[i] == e;
      assert after[i] in after;
    }
    forall key | key in KeysActive(after) ensures key in KeysActive(rows) && !chosen(key) {
      var e :| e in after && e.active && e.key == key;
      var i :| 0 <= i < |after| && after[i] == e;
      assert rows[i] in rows;
    }
  }

  /** After a reconciliation the active alerts are exactly those of the round: nothing else stays active,
      not even what UpsertActive has written meanwhile. */
  lemma ReconcileSetsActiveKeys(rows: seq<Event>, current: seq<Alert>, now: int)
    requires OneActive(rows)
    ensures OneActive(Reconciled(rows, current, now)) && KeysActive(Reconciled(rows, current, now)) == Keys(current)
  {
    UpsertAllActive(rows, current, now);
    var keys := Keys(current);
    RecoverKeepsOneActive(UpsertedAll(rows, current, now), key => key !in keys, now);
  }

  lemma StepKeepsOneActive(rows: seq<Event>, step: Step)
    requires OneActive(rows)
    ensures OneActive(Do(rows, step))
  {
    match step
    case Reconcile(current, now) => ReconcileSetsActiveKeys(rows, current, now);
    case UpsertActive(a, now) => UpsertKeepsOneActive(rows, a, now, false);
    case ResolveKey(key, now) => RecoverKeepsOneActive(rows, k => k == key, now);
  }

  lemma {:induction false} AtMostOneActive(rows: seq<Event>, steps: seq<Step>)
    requires OneActive(rows)
    ensures OneActive(After(rows, steps))
    decreases |steps|
  {
    if steps != [] {
      StepKeepsOneActive(rows, steps[0]);
      AtMostOneActive(Do(rows, steps[0]), steps[1..]);
    }
  }

  // ---- How rows change ----

  function Rank(s: Severity): nat { if s == Critical then 1 else 0 }

  /** What may happen to a row: nothing once it has recovered; until then it is seen again, escalates but
      never calms down, and its escalation time, once set, stays. */
  predicate Evolves(e: Event, f: Event) {
    && f.key == e.key && f.kind == e.kind && f.firstSeen == e.firstSeen
    && (!e.active ==> f == e)
    && Rank(e.severity) <= Rank(f.severity) && e.occurrences <= f.occurrences
    && (e.escalatedAt.Some? ==> f.escalatedAt == e.escalatedAt)
    && (f.escalatedAt.Some? && e.escalatedAt.None? ==> e.severity == Warning && f.severity == Critical)
    && (f.active ==> e.active)
  }

  /** Escalation is recorded only on rows that began as warnings. */
  predicate Coherent(e: Event) {
    && (e.escalatedAt.Some? ==> e.severity == Critical) && e.occurrences >= 1 && (e.active <==> e.recoveredAt.None?)
  }

  ghost predicate AllCoherent(rows: seq<Event>) {
    forall i :: 0 <= i < |rows| ==> Coherent(rows[i])
  }

  ghost predicate AllEvolve(rows: seq<Event>, after: seq<Event>) {
    && |rows| <= |after| && AllCoherent(after)
    && (forall i :: 0 <= i < |rows| ==> Evolves(rows[i], after[i]))
  }

  lemma EvolvesTransitive(a: seq<Event>, b: seq<Event>, c: seq<Event>)
    requires AllEvolve(a, b) && AllEvolve(b, c)
    ensures AllEvolve(a, c)
  {
    forall i | 0 <= i < |a| ensures Evolves(a[i], c[i]) {
      assert Evolves(a[i], b[i]) && Evolves(b[i], c[i]);
    }
  }

  lemma UpsertEvolves(rows: seq<Event>, a: Alert, now: int, stamp: bool)
    requires AllCoherent(rows)
    ensures AllEvolve(rows, Upserted(rows, a, now, stamp))
  {
  }

  lemma {:induction false} UpsertAllEvolves(rows: seq<Event>, current: seq<Alert>, now: int)
    requires AllCoherent(rows)
    ensures AllEvolve(rows, UpsertedAll(rows, current, now))
  {
    if current != [] {
      var front := current[..|current| - 1];
      UpsertAllEvolves(rows, front, now);
      UpsertEvolves(UpsertedAll(rows, front, now), current[|current| - 1], now, true);
      EvolvesTransitive(rows, UpsertedAll(rows, front, now), UpsertedAll(rows, current, now));
    }
  }

  lemma RecoverEvolves(rows: seq<Event>, chosen: string -> bool, now: int)
    requires AllCoherent(rows)
    ensures AllEvolve(rows, RecoveredWhere(rows, chosen, now))
  {
  }

  lemma StepEvolves(rows: seq<Event>, step: Step)
    requires AllCoherent(rows)
    ensures AllEvolve(rows, Do(rows, step))
  {
    match step
    case Reconcile(current, now) =>
      UpsertAllEvolves(rows, current, now);
      var keys := Keys(current);
      RecoverEvolves(UpsertedAll(rows, current, now), key => key !in keys, now);
      EvolvesTransitive(rows, UpsertedAll(rows, current, now), Reconciled(rows, current, now));
    case UpsertActive(a, now) =>
      UpsertEvolves(rows, a, now, false);
    case ResolveKey(key, now) =>
      RecoverEvolves(rows, k => k == key, now);
  }

  /** Over any run: recovered rows are frozen, severity never falls within a cycle, and an escalation is
      recorded at most once. */
  lemma {:induction false} RowsEvolve(rows: seq<Event>, steps: seq<Step>)
    requires AllCoherent(rows)
    ensures AllEvolve(rows, After(rows, steps))
    decreases |steps|
  {
    if steps != [] {
      StepEvolves(rows, steps[0]);
      RowsEvolve(Do(rows, steps[0]), steps[1..]);
      EvolvesTransitive(rows, Do(rows, steps[0]), After(rows, steps));
    }
  }

  // ---- Counting ----

  /** How often a round mentions a key. */
  function Mentions(current: seq<Alert>, key: string): nat {
    if current == [] then 0
    else Mentions(current[..|current| - 1], key) + (if current[|current| - 1].key == key then 1 else 0)
  }

  /** Sightings of a key by a step. */
  function Sightings(step: Step, key: string): nat {
    if key == "" then 0
    else match step
         case Reconcile(current, _) => Mentions(current, key)
         case UpsertActive(a, _) => if a.key == key then 1 else 0
         case ResolveKey(_, _) => 0
  }

  function TotalSightings(steps: seq<Step>, key: string): nat {
    if steps == [] then 0 else TotalSightings(steps[..|steps| - 1], key) + Sightings(steps[|steps| - 1], key)
  }

  /** All sightings of a key over all its rows, past and present. */
  function Counted(rows: seq<Event>, key: string): nat {
    if rows == [] then 0
    else Counted(rows[..|rows| - 1], key) + (if rows[|rows| - 1].key == key then rows[|rows| - 1].occurrences else 0)
  }

  lemma {:induction false} CountedUpdate(rows: seq<Event>, i: nat, e: Event, key: string)
    requires i < |rows| && e.key == rows[i].key
    ensures Counted(rows[i := e], key) == Counted(rows, key) + (if e.key == key then e.occurrences - rows[i].occurrences else 0)
  {
    var last := |rows| - 1;
    if i == last {
      assert rows[i := e][..last] == rows[..last];
    } else {
      assert rows[i := e][..last] == rows[..last][i := e];
      CountedUpdate(rows[..last], i, e, key);
    }
  }

  lemma UpsertCounts(rows: seq<Event>, a: Alert, now: int, stamp: bool, key: string)
    ensures Counted(Upserted(rows, a, now, stamp), key) == Counted(rows, key) + (if a.key == key then 1 else 0)
  {
    var i := FindActive(rows, a.key);
    if i < |rows| {
      CountedUpdate(rows, i, SeenAgain(rows[i], a, now, stamp), key);
    } else {
      assert (rows + [FirstSeen(a, now)])[..|rows|] == rows;
    }
  }

  lemma {:induction false} UpsertAllCounts(rows: seq<Event>, current: seq<Alert>, now: int, key: string)
    requires key != ""
    ensures Counted(UpsertedAll(rows, current, now), key) == Counted(rows, key) + Mentions(current, key)
  {
    if current != [] {
      var front, a := current[..|current| - 1], current[|current| - 1];
      UpsertAllCounts(rows, front, now, key);
      if a.key != "" {
        UpsertCounts(UpsertedAll(rows, front, now), a, now, true, key);
      }
    }
  }

  lemma {:induction false} SameCounts(rows: seq<Event>, after: seq<Event>, key: string)
    requires |rows| == |after|
    requires forall i :: 0 <= i < |rows| ==> rows[i].key == after[i].key && rows[i].occurrences == after[i].occurrences
    ensures Counted(rows, key) == Counted(after, key)
  {
    if rows != [] {
      SameCounts(rows[..|rows| - 1], after[..|after| - 1], key);
    }
  }

  lemma StepCounts(rows: seq<Event>, step: Step, key: string)
    requires key != ""
    ensures Counted(Do(rows, step), key) == Counted(rows, key) + Sightings(step, key)
  {
    match step
    case Reconcile(current, now) =>
      UpsertAllCounts(rows, current, now, key);
      SameCounts(UpsertedAll(rows, current, now), Reconciled(rows, current, now), key);
    case UpsertActive(a, now) =>
      UpsertCounts(rows, a, now, false, key);
    case ResolveKey(k, now) =>
      SameCounts(rows, Do(rows, step), key);
  }

  lemma {:induction false} AfterLast(rows: seq<Event>, steps: seq<Step>)
    requires steps != []
    ensures After(rows, steps) == Do(After(rows, steps[..|steps| - 1]), steps[|steps| - 1])
    decreases |steps|
  {
    if |steps| > 1 {
      AfterLast(Do(rows, steps[0]), steps[1..]);
      assert steps[1..][..|steps| - 2] == steps[..|steps| - 1][1..];
    } else {
      assert steps[..0] == [] && steps[1..] == [];
    }
  }

  /** Conservation: over any run the occurrence counts of a key add up to its sightings. */
  lemma {:induction false} OccurrencesAreSightings(rows: seq<Event>, steps: seq<Step>, key: string)
    requires key != ""
    ensures Counted(After(rows, steps), key) == Counted(rows, key) + TotalSightings(steps, key)
    decreases |steps|
  {
    if steps != [] {
      var front := steps[..|steps| - 1];
      OccurrencesAreSightings(rows, front, key);
      AfterLast(rows, steps);
      StepCounts(After(rows, front), steps[|steps| - 1], key);
    }
  }

  // ---- Escalation times ----

  /** What the operations do to single rows, one statement at a time: a sighting, which records an
      escalation or does not, and recoveries. */
  datatype Statement = See(alert: Alert, now: int, stamp: bool) | RecoverExcept(keys: set<string>, now: int) | RecoverKey(key: string, now: int)

  function Execute(rows: seq<Event>, m: Statement): seq<Event> {
    match m
    case See(a, now, stamp) => Upserted(rows, a, now, stamp)
    case RecoverExcept(keys, now) => RecoveredExcept(rows, keys, now)
    case RecoverKey(key, now) => Resolved(rows, key, now)
  }

  function ExecuteAll(rows: seq<Event>, ms: seq<Statement>): seq<Event> {
    if ms == [] then rows else Execute(ExecuteAll(rows, ms[..|ms| - 1]), ms[|ms| - 1])
  }

  function SeesOf(current: seq<Alert>, now: int): seq<Statement> {
    if current == [] then []
    else
      var a := current[|current| - 1];
      SeesOf(current[..|current| - 1], now) + (if a.key == "" then [] else [See(a, now, true)])
  }

  function StatementsOf(step: Step): seq<Statement> {
    match step
    case Reconcile(current, now) => SeesOf(current, now) + [RecoverExcept(Keys(current), now)]
    case UpsertActive(a, now) => if a.key == "" then [] else [See(a, now, false)]
    case ResolveKey(key, now) => if key == "" then [] else [RecoverKey(key, now)]
  }

  function AllStatements(steps: seq<Step>): seq<Statement> {
    if steps == [] then [] else StatementsOf(steps[0]) + AllStatements(steps[1..])
  }

  lemma {:induction false} ExecuteConcat(rows: seq<Event>, a: seq<Statement>, b: seq<Statement>)
    ensures ExecuteAll(rows, a + b) == ExecuteAll(ExecuteAll(rows, a), b)
  {
    if b == [] {
      assert a + b == a;
    } else {
      ExecuteConcat(rows, a, b[..|b| - 1]);
      assert (a + b)[..|a + b| - 1] == a + b[..|b| - 1];
    }
  }

  lemma {:induction false} SeesAreTheUpserts(rows: seq<Event>, current: seq<Alert>, now: int)
    ensures ExecuteAll(rows, SeesOf(current, now)) == UpsertedAll(rows, current, now)
  {
    if current != [] {
      var before := SeesOf(current[..|current| - 1], now);
      SeesAreTheUpserts(rows, current[..|current| - 1], now);
      assert SeesOf(current, now) != before ==> SeesOf(current, now)[..|before|] == before;
    }
  }

  /** A run of operations is the run of their statements. */
  lemma {:induction false} RunsAreTheirStatements(rows: seq<Event>, steps: seq<Step>)
    ensures ExecuteAll(rows, AllStatements(steps)) == After(rows, steps)
    decreases |steps|
  {
    if steps != [] {
      var step := steps[0];
      if step.Reconcile? {
        SeesAreTheUpserts(rows, step.current, step.now);
        assert StatementsOf(step)[..|StatementsOf(step)| - 1] == SeesOf(step.current, step.now);
      } else if StatementsOf(step) != [] {
        assert StatementsOf(step)[..0] == [];
      }
      assert ExecuteAll(rows, StatementsOf(step)) == Do(rows, step);
      RunsAreTheirStatements(Do(rows, step), steps[1..]);
      ExecuteConcat(rows, StatementsOf(step), AllStatements(steps[1..]));
    }
  }

  /** The sightings that a row, known by its position, was made from. */
  function SightingsOf(ms: seq<Statement>, i: nat): (sights: seq<Statement>)
    ensures forall k :: 0 <= k < |sights| ==> sights[k].See?
  {
    if ms == [] then []
    else
      var m := ms[|ms| - 1];
      SightingsOf(ms[..|ms| - 1], i)
      + (if m.See? && FindActive(ExecuteAll([], ms[..|ms| - 1]), m.alert.key) == i then [m] else [])
  }

  predicate SeesCritical(m: Statement) { m.See? && m.alert.severity == Critical }

  /** The first critical sighting, or the number of sightings if there is none. */
  function FirstCritical(sights: seq<Statement>): (k: nat)
    ensures k <= |sights| && (k < |sights| ==> SeesCritical(sights[k]))
    ensures forall j :: 0 <= j < k ==> !SeesCritical(sights[j])
  {
    if sights == [] then 0
    else
      var k := FirstCritical(sights[..|sights| - 1]);
      if k < |sights| - 1 || SeesCritical(sights[|sights| - 1]) then k else |sights|
  }

  /** The time of the escalation: that of the first critical sighting, unless the alert began as critical
      or the sighting was not a reconciliation's. */
  function EscalationTime(sights: seq<Statement>): Option<int>
    requires forall k :: 0 <= k < |sights| ==> sights[k].See?
  {
    var k := FirstCritical(sights);
    if 0 < k < |sights| && sights[k].stamp then Some(sights[k].now) else None
  }

  /** A row is the account of its sightings. */
  predicate Accounts(e: Event, sights: seq<Statement>)
    requires forall k :: 0 <= k < |sights| ==> sights[k].See?
  {
    && sights != []
    && (forall k :: 0 <= k < |sights| ==> sights[k].alert.key == e.key)
    && e.kind == sights[0].alert.kind && e.firstSeen == sights[0].now
    && e.lastSeen == sights[|sights| - 1].now && e.value == sights[|sights| - 1].alert.value && e.occurrences == |sights|
    && (e.severity == Critical <==> FirstCritical(sights) < |sights|)
    && e.escalatedAt == EscalationTime(sights)
  }

  lemma OneMoreSighting(e: Event, sights: seq<Statement>, m: Statement)
    requires m.See? && forall k :: 0 <= k < |sights| ==> sights[k].See?
    ensures e.key == m.alert.key && Accounts(e, sights) ==> Accounts(SeenAgain(e, m.alert, m.now, m.stamp), sights + [m])
    ensures sights == [] ==> Accounts(FirstSeen(m.alert, m.now), [m])
  {
    assert (sights + [m])[..|sights|] == sights;
    assert [m][..0] == [];
  }

  /** Over any run of statements each row is the account of its sightings. */
  lemma {:induction false} RowsAreTheirSightings(ms: seq<Statement>, i: nat)
    ensures i < |ExecuteAll([], ms)| ==> Accounts(ExecuteAll([], ms)[i], SightingsOf(ms, i))
    ensures i >= |ExecuteAll([], ms)| ==> SightingsOf(ms, i) == []
  {
    if ms != [] {
      var front, m := ms[..|ms| - 1], ms[|ms| - 1];
      RowsAreTheirSightings(front, i);
      var rows, sights := ExecuteAll([], front), SightingsOf(front, i);
      if m.See? && FindActive(rows, m.alert.key) == i {
        OneMoreSighting(if i < |rows| then rows[i] else FirstSeen(m.alert, m.now), sights, m);
        assert i == |rows| ==> sights + [m] == [m];
      } else {
        assert SightingsOf(ms, i) == sights;
      }
    }
  }

  /** Over any run of the operations, a row is dated as escalated exactly if it began as a warning and its
      first critical sighting was a reconciliation's, and then with the time of that sighting. */
  lemma EscalationIsDatedIff(steps: seq<Step>, i: nat)
    requires i < |After([], steps)|
    ensures var e, sights := After([], steps)[i], SightingsOf(AllStatements(steps), i);
            var k := FirstCritical(sights);
            && (e.severity == Critical <==> k < |sights|)
            && (e.escalatedAt.Some? <==> 0 < k < |sights| && sights[k].stamp)
            && (e.escalatedAt.Some? ==> e.escalatedAt == Some(sights[k].now))
  {
    RunsAreTheirStatements([], steps);
    RowsAreTheirSightings(AllStatements(steps), i);
  }

  /** The sightings that record are those of reconciliations. */
  lemma {:induction false} StampedByReconcile(steps: seq<Step>, m: Statement)
    requires m.See?
    ensures m in AllStatements(steps) <==>
            exists t :: 0 <= t < |steps| && m.alert.key != "" && m.now == steps[t].now &&
                        if m.stamp then steps[t].Reconcile? && m.alert in steps[t].current
                        else steps[t].UpsertActive? && m.alert == steps[t].alert
  {
    if steps != [] {
      StampedByReconcile(steps[1..], m);
      if steps[0].Reconcile? {
        SeesMentioned(steps[0].current, steps[0].now, m);
      }
      assert steps == [steps[0]] + steps[1..];
    }
  }

  lemma {:induction false} SeesMentioned(current: seq<Alert>, now: int, m: Statement)
    ensures m in SeesOf(current, now) <==> m.See? && m.stamp && m.now == now && m.alert.key != "" && m.alert in current
  {
    if current != [] {
      SeesMentioned(current[..|current| - 1], now, m);
      assert current == current[..|current| - 1] + [current[|current| - 1]];
    }
  }

  /** A step that finds a warning and leaves it critical dates the escalation exactly if it is a
      reconciliation. */
  lemma StepDatesIff(rows: seq<Event>, step: Step, i: nat)
    requires AllCoherent(rows) && i < |rows| && rows[i].severity == Warning
    ensures i < |Do(rows, step)|
    ensures Do(rows, step)[i].severity == Critical ==> (Do(rows, step)[i].escalatedAt.Some? <==> step.Reconcile?)
  {
    StepEvolves(rows, step);
    if step.Reconcile? {
      UpsertAllDates(rows, step.current, step.now, i);
    }
  }

  lemma {:induction false} UpsertAllDates(rows: seq<Event>, current: seq<Alert>, now: int, i: nat)
    requires i < |rows| && rows[i].severity == Warning
    ensures i < |UpsertedAll(rows, current, now)|
    ensures var e := UpsertedAll(rows, current, now)[i]; e.severity == Critical ==> e.escalatedAt == Some(now)
  {
    if current != [] {
      UpsertAllDates(rows, current[..|current| - 1], now, i);
    }
  }

  lemma ReconcileOne(rows: seq<Event>, a: Alert, now: int)
    requires a.key != "" && forall i :: 0 <= i < |rows| ==> rows[i].key == a.key
    ensures Reconciled(rows, [a], now) == Upserted(rows, a, now, true)
  {
    assert [a][..0] == [] && a in [a] && a.key in Keys([a]);
    assert UpsertedAll(rows, [a], now) == Upserted(rows, a, now, true);
  }

  /** UpsertActive escalates without recording when; the next reconciliation no longer sees an escalation,
      so the time is never recorded. */
  lemma EscalationTimeCanBeLost(key: string, kind: string, value: int)
    requires key != ""
    ensures var warning, critical := Alert(key, kind, Warning, value), Alert(key, kind, Critical, value);
            var rows := After([], [Reconcile([warning], 1), UpsertActive(critical, 2), Reconcile([critical], 3)]);
            |rows| == 1 && rows[0].active && rows[0].severity == Critical && rows[0].occurrences == 3 && rows[0].escalatedAt.None?
  {
    var warning, critical := Alert(key, kind, Warning, value), Alert(key, kind, Critical, value);
    var s1, s2, s3 := Reconcile([warning], 1), UpsertActive(critical, 2), Reconcile([critical], 3);
    assert [s1, s2, s3][1..] == [s2, s3] && [s2, s3][1..] == [s3] && [s3][1..] == [];
    ReconcileOne([], warning, 1);
    var r1 := Do([], s1);
    assert r1 == [FirstSeen(warning, 1)];
    var r2 := Do(r1, s2);
    assert r2 == [SeenAgain(r1[0], critical, 2, false)];
    ReconcileOne(r2, critical, 3);
    var r3 := Do(r2, s3);
    assert r3 == [SeenAgain(r2[0], critical, 3, true)];
    assert After(r3, []) == r3 && After(r2, [s3]) == r3 && After(r1, [s2, s3]) == r3;
  }

  // ---- Recovery ----

  lemma {:induction false} UpsertsLeaveActive(rows: seq<Event>, current: seq<Alert>, now: int, i: nat)
    requires i < |rows|
    ensures var after := UpsertedAll(rows, current, now);
            i < |after| && after[i].active == rows[i].active && after[i].key == rows[i].key && after[i].recoveredAt == rows[i].recoveredAt
  {
    if current != [] {
      UpsertsLeaveActive(rows, current[..|current| - 1], now, i);
    }
  }

  /** The operation finds the alert of this key gone: a reconciliation that does not list it, or the message that it
      is over. */
  predicate EndsAlert(step: Step, key: string) {
    match step
    case Reconcile(current, _) => forall a :: a in current ==> a.key != key
    case UpsertActive(_, _) => false
    case ResolveKey(gone, _) => gone == key
  }

  /** An active row recovers exactly by such an operation, and records its time; no other row is touched by recovery. */
  lemma RecoversExactly(rows: seq<Event>, step: Step, i: nat)
    requires i < |rows| && rows[i].active && rows[i].recoveredAt == None && rows[i].key != ""
    ensures i < |Do(rows, step)|
    ensures var e := Do(rows, step)[i];
            if EndsAlert(step, rows[i].key) then !e.active && e.recoveredAt == Some(step.now) else e.active && e.recoveredAt == None
  {
    match step
    case Reconcile(current, now) => UpsertsLeaveActive(rows, current, now, i);
    case _ =>
  }
}
