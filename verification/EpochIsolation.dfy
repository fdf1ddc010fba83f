/** Write first, publish later (cmd/checker/main.go, internal/store/postgres.go): a round of checks writes
    its rows under an epoch that readers cannot see yet and then publishes it. A snapshot reads the epoch
    once and the tables in several later queries (internal/router/snapshot.go). */
module EpochStore {
  datatype Table = HealthChecks | DeclaredPrices

  /** What a health check finds, and what a channel asks for a model. */
  datatype Value = Alive(alive: bool) | Ratios(prompt: real, completion: real)

  /** A row of one of the two tables: the upstream and the model it is about, under which epoch, and what
      it says. A health check names no model. */
  datatype Row = Row(key: (int, string), epoch: int, value: Value)

  /** The rows in the order of insertion, and the epoch counter. */
  datatype Database = Database(rows: seq<Row>, current: int)

  function Published(db: Database, epoch: int): Database {
    if db.current < epoch then db.(current := epoch) else db
  }

  class Store {
    var rows: seq<Row>
    var current: int

    function Contents(): Database
      reads this
    {
      Database(rows, current)
    }

    constructor (epoch: int)
      ensures Contents() == Database([], epoch)
    {
      rows, current := [], epoch;
    }

    method PeekNextEpoch() returns (epoch: int)
      ensures epoch == current + 1
    {
      epoch := current + 1;
    }

    /** Publishing only moves forward. */
    method PublishEpoch(epoch: int) returns (published: bool)
      modifies this
      ensures published == (old(current) < epoch)
      ensures Contents() == Published(old(Contents()), epoch)
    {
      published := current < epoch;
      if published {
        current := epoch;
      }
    }

    method Insert(row: Row)
      modifies this
      ensures Contents() == old(Contents()).(rows := old(rows) + [row])
    {
      rows := rows + [row];
    }

    /** One round, as the checker runs it when nothing fails: peek, write everything, publish. */
    method RunRound(values: seq<((int, string), Value)>)
      modifies this
      ensures current == old(current) + 1 && |rows| == old(|rows|) + |values| && old(rows) == rows[..old(|rows|)]
      ensures forall i :: 0 <= i < |values| ==>
                rows[old(|rows|) + i] == Row(values[i].0, old(current) + 1, values[i].1)
    {
      var epoch := PeekNextEpoch();
      for i := 0 to |values|
        invariant current == old(current) && |rows| == old(|rows|) + i && old(rows) == rows[..old(|rows|)]
        invariant forall j :: 0 <= j < i ==> rows[old(|rows|) + j] == Row(values[j].0, epoch, values[j].1)
      {
        Insert(Row(values[i].0, epoch, values[i].1));
      }
      var published := PublishEpoch(epoch);
    }
  }

  // ---- Queries ----

  /** The rows of the table that its query accepts: a price without a model or with a ratio that is not
      positive is passed over. */
  predicate Concerns(r: Row, table: Table) {
    match table
    case HealthChecks => r.value.Alive?
    case DeclaredPrices => r.value.Ratios? && r.key.1 != "" && r.value.prompt > 0.0 && r.value.completion > 0.0
  }

  predicate Visible(r: Row, table: Table, epoch: int) {
    Concerns(r, table) && r.epoch <= epoch
  }

  /** The rows a query for epochs up to the given one considers. */
  function VisibleRows(rows: seq<Row>, table: Table, epoch: int): seq<Row> {
    if rows == [] then []
    else
      var last := rows[|rows| - 1];
      VisibleRows(rows[..|rows| - 1], table, epoch) + (if Visible(last, table, epoch) then [last] else [])
  }

  /** A row no other visible row of its key is newer than. */
  predicate Newest(rows: seq<Row>, r: Row) {
    r in rows && forall q :: q in rows && q.key == r.key ==> q.epoch <= r.epoch
  }

  ghost predicate Answers(rows: seq<Row>, key: (int, string), value: Value) {
    exists r :: Newest(rows, r) && r.key == key && r.value == value
  }

  /** What the query may return: per key the value of a newest row. Which one, if several share the epoch,
      the query does not say. */
  ghost predicate IsLatest(rows: seq<Row>, m: map<(int, string), Value>) {
    && (forall key :: key in m <==> exists r :: r in rows && r.key == key)
    && (forall key :: key in m ==> Answers(rows, key, m[key]))
  }

  ghost predicate NoTies(rows: seq<Row>) {
    forall q, r :: Newest(rows, q) && Newest(rows, r) && q.key == r.key ==> q.value == r.value
  }

  method Latest(rows: seq<Row>) returns (m: map<(int, string), Value>)
    ensures IsLatest(rows, m)
  {
    var best: map<(int, string), Row> := map[];
    for i := 0 to |rows|
      invariant forall key :: key in best <==> exists r :: r in rows[..i] && r.key == key
      invariant forall key :: key in best ==> Newest(rows[..i], best[key]) && best[key].key == key
    {
      var r := rows[i];
      assert rows[..i + 1] == rows[..i] + [r];
      assert forall q :: q in rows[..i + 1] <==> q in rows[..i] || q == r;
      if r.key !in best || best[r.key].epoch <= r.epoch {
        best := best[r.key := r];
      }
    }
    assert rows[..|rows|] == rows;
    m := map key | key in best :: best[key].value;
  }

  lemma ResultExists(rows: seq<Row>) returns (m: map<(int, string), Value>)
    ensures IsLatest(rows, m)
  {
    if rows == [] {
      m := map[];
    } else {
      var last := rows[|rows| - 1];
      var front := rows[..|rows| - 1];
      assert forall q :: q in rows <==> q in front || q == last;
      var m0 := ResultExists(front);
      if last.key in m0 {
        var r :| Newest(front, r) && r.key == last.key && r.value == m0[last.key];
        m := if r.epoch <= last.epoch then m0[last.key := last.value] else m0;
        OneMoreRow(front, rows, last, r, m0, m);
      } else {
        m := m0[last.key := last.value];
        FirstRow(front, rows, last, m0, m);
      }
    }
  }

  lemma FirstRow(front: seq<Row>, rows: seq<Row>, last: Row, m0: map<(int, string), Value>, m: map<(int, string), Value>)
    requires IsLatest(front, m0) && last.key !in m0 && m == m0[last.key := last.value]
    requires forall q :: q in rows <==> q in front || q == last
    ensures IsLatest(rows, m)
  {
    assert Newest(rows, last);
    forall key | key in m0 ensures Answers(rows, key, m[key]) {
      var r :| Newest(front, r) && r.key == key && r.value == m0[key];
      assert Newest(rows, r);
    }
  }

  lemma OneMoreRow(front: seq<Row>, rows: seq<Row>, last: Row, best: Row, m0: map<(int, string), Value>, m: map<(int, string), Value>)
    requires IsLatest(front, m0) && last.key in m0 && Newest(front, best) && best.key == last.key && best.value == m0[last.key]
    requires m == if best.epoch <= last.epoch then m0[last.key := last.value] else m0
    requires forall q :: q in rows <==> q in front || q == last
    ensures IsLatest(rows, m)
  {
    assert if best.epoch <= last.epoch then Newest(rows, last) else Newest(rows, best);
    forall key | key in m0 && key != last.key ensures Answers(rows, key, m[key]) {
      var r :| Newest(front, r) && r.key == key && r.value == m0[key];
      assert Newest(rows, r);
    }
  }

  lemma NewestAnswers(rows: seq<Row>, m: map<(int, string), Value>, q: Row)
    requires IsLatest(rows, m) && Newest(rows, q)
    ensures IsLatest(rows, m[q.key := q.value])
  {
    var n := m[q.key := q.value];
    forall key | key in n ensures Answers(rows, key, n[key]) {
      if key == q.key {
        assert Newest(rows, q) && q.value == n[key];
      } else {
        var r :| Newest(rows, r) && r.key == key && r.value == m[key];
        assert r.value == n[key];
      }
    }
  }

  lemma OneValue(rows: seq<Row>, key: (int, string), v: Value, w: Value)
    requires NoTies(rows) && Answers(rows, key, v) && Answers(rows, key, w)
    ensures v == w
  {
  }

  lemma NoTiesOneAnswer(rows: seq<Row>, m: map<(int, string), Value>, n: map<(int, string), Value>)
    requires NoTies(rows) && IsLatest(rows, m) && IsLatest(rows, n)
    ensures m == n
  {
    assert forall key :: key in m <==> key in n;
    forall key | key in m ensures m[key] == n[key] {
      OneValue(rows, key, m[key], n[key]);
    }
  }

  predicate OneAnswer(m: map<(int, string), Value>, n: map<(int, string), Value>) { m == n }

  /** The query has only one possible answer exactly when no two newest rows of a key disagree. */
  lemma AnswerIsUniqueIff(rows: seq<Row>)
    ensures NoTies(rows) <==> forall m, n :: IsLatest(rows, m) && IsLatest(rows, n) ==> OneAnswer(m, n)
  {
    if NoTies(rows) {
      forall m, n | IsLatest(rows, m) && IsLatest(rows, n) ensures OneAnswer(m, n) {
        NoTiesOneAnswer(rows, m, n);
      }
    } else {
      var q, r :| Newest(rows, q) && Newest(rows, r) && q.key == r.key && q.value != r.value;
      var m := ResultExists(rows);
      NewestAnswers(rows, m, q);
      NewestAnswers(rows, m, r);
      assert m[q.key := q.value][q.key] != m[q.key := r.value][q.key];
      assert !OneAnswer(m[q.key := q.value], m[q.key := r.value]);
    }
  }

  /** No price that the query answers is free. */
  lemma AnswersAreValid(rows: seq<Row>, epoch: int, m: map<(int, string), Value>)
    requires IsLatest(VisibleRows(rows, DeclaredPrices, epoch), m)
    ensures forall key :: key in m ==> key.1 != "" && m[key].Ratios? && m[key].prompt > 0.0 && m[key].completion > 0.0
  {
    forall key | key in m ensures key.1 != "" && m[key].Ratios? && m[key].prompt > 0.0 && m[key].completion > 0.0 {
      var r :| Newest(VisibleRows(rows, DeclaredPrices, epoch), r) && r.key == key && r.value == m[key];
      VisibleRowsIff(rows, DeclaredPrices, epoch, r);
    }
  }

  lemma {:induction false} VisibleRowsIff(rows: seq<Row>, table: Table, epoch: int, r: Row)
    ensures r in VisibleRows(rows, table, epoch) <==> r in rows && Visible(r, table, epoch)
  {
    if rows != [] {
      VisibleRowsIff(rows[..|rows| - 1], table, epoch, r);
      assert rows == rows[..|rows| - 1] + [rows[|rows| - 1]];
    }
  }
}

/** Any number of checkers and of readers, in any interleaving. */
module EpochIsolation {
  import opened EpochStore

  /** The database, the round that wrote each row, the epoch of each round, and the open round of each
      checker that is working. */
  datatype System = System(db: Database, writers: seq<nat>, epochs: seq<int>, working: map<int, nat>)

  /** Begin a round; write a row; end the round, with the publication failing or not. */
  datatype Step = Begin(checker: int) | Write(checker: int, key: (int, string), value: Value) | End(checker: int, published: bool)

  predicate Enabled(s: System, step: Step) {
    if step.Begin? then step.checker !in s.working
    else step.checker in s.working && s.working[step.checker] < |s.epochs|
  }

  /** The epoch a working checker writes under. */
  function EpochOf(s: System, checker: int): int
    requires checker in s.working && s.working[checker] < |s.epochs|
  {
    s.epochs[s.working[checker]]
  }

  function Do(s: System, step: Step): System
    requires Enabled(s, step)
  {
    match step
    case Begin(checker) => s.(epochs := s.epochs + [s.db.current + 1], working := s.working[checker := |s.epochs|])
    case Write(checker, key, value) =>
      s.(db := s.db.(rows := s.db.rows + [Row(key, EpochOf(s, checker), value)]), writers := s.writers + [s.working[checker]])
    case End(checker, published) =>
      s.(db := if published then Published(s.db, EpochOf(s, checker)) else s.db, working := s.working - {checker})
  }

  predicate IsRun(s: System, steps: seq<Step>)
    decreases |steps|
  {
    steps == [] || (Enabled(s, steps[0]) && IsRun(Do(s, steps[0]), steps[1..]))
  }

  function After(s: System, steps: seq<Step>): System
    requires IsRun(s, steps)
    decreases |steps|
  {
    if steps == [] then s else After(Do(s, steps[0]), steps[1..])
  }

  /** Every row has the epoch of the round that wrote it, and no round is more than one epoch ahead. */
  ghost predicate Inv(s: System) {
    && |s.writers| == |s.db.rows|
    && (forall i :: 0 <= i < |s.writers| ==> s.writers[i] < |s.epochs| && s.db.rows[i].epoch == s.epochs[s.writers[i]])
    && (forall k :: 0 <= k < |s.epochs| ==> s.epochs[k] <= s.db.current + 1)
    && (forall c :: c in s.working ==> s.working[c] < |s.epochs|)
    && (forall c, d :: c in s.working && d in s.working && c != d ==> s.working[c] != s.working[d])
  }

  function Start(epoch: int): System {
    System(Database([], epoch), [], [], map[])
  }

  lemma StepKeepsInv(s: System, step: Step)
    requires Inv(s) && Enabled(s, step)
    ensures Inv(Do(s, step)) && Do(s, step).db.current >= s.db.current
  {
  }

  /** No round that may still write is visible at the epoch. */
  predicate Clear(s: System, epoch: int) {
    forall c :: c in s.working ==> s.working[c] < |s.epochs| && EpochOf(s, c) > epoch
  }

  lemma StepKeepsRows(s: System, step: Step, table: Table, epoch: int)
    requires Inv(s) && Enabled(s, step) && epoch <= s.db.current && Clear(s, epoch)
    ensures Clear(Do(s, step), epoch)
    ensures VisibleRows(Do(s, step).db.rows, table, epoch) == VisibleRows(s.db.rows, table, epoch)
  {
    if step.Write? {
      VisibleAppend(s.db.rows, Row(step.key, EpochOf(s, step.checker), step.value), table, epoch);
    }
  }

  lemma VisibleAppend(rows: seq<Row>, row: Row, table: Table, epoch: int)
    ensures VisibleRows(rows + [row], table, epoch) == VisibleRows(rows, table, epoch) + (if Visible(row, table, epoch) then [row] else [])
  {
    assert (rows + [row])[..|rows|] == rows;
  }

  /** Once no open round works below a published epoch, nothing is ever added there. */
  lemma {:induction false} PublishedRowsNeverGrow(s: System, steps: seq<Step>, table: Table, epoch: int)
    requires Inv(s) && IsRun(s, steps) && epoch <= s.db.current && Clear(s, epoch)
    ensures Inv(After(s, steps)) && s.db.current <= After(s, steps).db.current && Clear(After(s, steps), epoch)
    ensures VisibleRows(After(s, steps).db.rows, table, epoch) == VisibleRows(s.db.rows, table, epoch)
    decreases |steps|
  {
    if steps != [] {
      StepKeepsInv(s, steps[0]);
      StepKeepsRows(s, steps[0], table, epoch);
      PublishedRowsNeverGrow(Do(s, steps[0]), steps[1..], table, epoch);
    }
  }

  /** What a reader of the epoch sees is the same after the steps. */
  predicate Unchanged(s: System, steps: seq<Step>, epoch: int)
    requires IsRun(s, steps)
  {
    forall table :: VisibleRows(After(s, steps).db.rows, table, epoch) == VisibleRows(s.db.rows, table, epoch)
  }

  lemma AfterOne(s: System, step: Step)
    requires Enabled(s, step)
    ensures IsRun(s, [step]) && After(s, [step]) == Do(s, step)
  {
    assert [step][1..] == [];
    assert IsRun(Do(s, step), []) && After(Do(s, step), []) == Do(s, step);
  }

  /** What readers of a published epoch see stays as it is, whatever happens later, exactly if no open round
      works at or below that epoch. */
  lemma IsolatedIff(s: System, epoch: int)
    requires Inv(s) && epoch <= s.db.current
    ensures Clear(s, epoch) <==> forall steps :: IsRun(s, steps) ==> Unchanged(s, steps, epoch)
  {
    if Clear(s, epoch) {
      forall steps | IsRun(s, steps) ensures Unchanged(s, steps, epoch) {
        forall table ensures VisibleRows(After(s, steps).db.rows, table, epoch) == VisibleRows(s.db.rows, table, epoch) {
          PublishedRowsNeverGrow(s, steps, table, epoch);
        }
      }
    } else {
      var c :| c in s.working && EpochOf(s, c) <= epoch;
      var step := Write(c, (0, ""), Alive(true));
      AfterOne(s, step);
      VisibleAppend(s.db.rows, Row(step.key, EpochOf(s, c), step.value), HealthChecks, epoch);
      assert !Unchanged(s, [step], epoch);
    }
  }

  // ---- Which runs isolate ----

  /** The step moves the published epoch while another round is open. */
  predicate PublishesBesideOthers(s: System, step: Step)
    requires Enabled(s, step)
  {
    step.End? && step.published && EpochOf(s, step.checker) > s.db.current && exists d :: d in s.working && d != step.checker
  }

  lemma StepStaysClearIff(s: System, step: Step)
    requires Inv(s) && Enabled(s, step) && Clear(s, s.db.current)
    ensures Clear(Do(s, step), Do(s, step).db.current) <==> !PublishesBesideOthers(s, step)
  {
    var t := Do(s, step);
    if PublishesBesideOthers(s, step) {
      var d :| d in s.working && d != step.checker;
      assert EpochOf(s, d) == s.db.current + 1 == t.db.current;
      assert d in t.working && EpochOf(t, d) <= t.db.current;
    }
  }

  /** Readers are isolated at every moment of the run. */
  predicate AlwaysClear(s: System, steps: seq<Step>)
    requires IsRun(s, steps)
    decreases |steps|
  {
    Clear(s, s.db.current) && (steps == [] || AlwaysClear(Do(s, steps[0]), steps[1..]))
  }

  /** No round is published while another one is open. */
  predicate PublishesAlone(s: System, steps: seq<Step>)
    requires IsRun(s, steps)
    decreases |steps|
  {
    steps == [] || (!PublishesBesideOthers(s, steps[0]) && PublishesAlone(Do(s, steps[0]), steps[1..]))
  }

  lemma {:induction false} RunIsolatesIff(s: System, steps: seq<Step>)
    requires Inv(s) && IsRun(s, steps) && Clear(s, s.db.current)
    ensures AlwaysClear(s, steps) <==> PublishesAlone(s, steps)
    ensures Inv(After(s, steps)) && (PublishesAlone(s, steps) ==> Clear(After(s, steps), After(s, steps).db.current))
    decreases |steps|
  {
    if steps != [] {
      StepKeepsInv(s, steps[0]);
      StepStaysClearIff(s, steps[0]);
      if PublishesBesideOthers(s, steps[0]) {
        assert !AlwaysClear(Do(s, steps[0]), steps[1..]);
        RunKeepsInv(Do(s, steps[0]), steps[1..]);
      } else {
        RunIsolatesIff(Do(s, steps[0]), steps[1..]);
      }
    }
  }

  lemma {:induction false} RunKeepsInv(s: System, steps: seq<Step>)
    requires Inv(s) && IsRun(s, steps)
    ensures Inv(After(s, steps))
    decreases |steps|
  {
    if steps != [] {
      StepKeepsInv(s, steps[0]);
      RunKeepsInv(Do(s, steps[0]), steps[1..]);
    }
  }

  /** One checker alone always isolates. */
  lemma {:induction false} OneCheckerIsolates(s: System, steps: seq<Step>, checker: int)
    requires Inv(s) && IsRun(s, steps) && s.working.Keys <= {checker}
    requires forall i :: 0 <= i < |steps| ==> steps[i].checker == checker
    ensures PublishesAlone(s, steps)
    decreases |steps|
  {
    if steps != [] {
      assert steps[0].checker == checker;
      StepKeepsInv(s, steps[0]);
      assert checker in s.working ==> s.working.Keys == {checker};
      OneCheckerIsolates(Do(s, steps[0]), steps[1..], checker);
    }
  }

  /** From any moment at which nobody is working, two checkers that begin together break the isolation:
      one publishes the epoch that the other still writes under. */
  lemma TwoCheckersBreakIsolation(s: System, one: int, other: int, key: (int, string), alive: bool)
    requires Inv(s) && s.working == map[] && one != other
    ensures var t1 := Do(Do(s, Begin(one)), Begin(other));
            Enabled(t1, End(one, true)) &&
            var t2 := Do(t1, End(one, true));
            Enabled(t2, Write(other, key, Alive(alive))) &&
            var t3 := Do(t2, Write(other, key, Alive(alive)));
            && t2.db.current == t3.db.current == s.db.current + 1
            && VisibleRows(t3.db.rows, HealthChecks, t2.db.current)
               == VisibleRows(t2.db.rows, HealthChecks, t2.db.current) + [Row(key, t2.db.current, Alive(alive))]
  {
    var t2 := Do(Do(Do(s, Begin(one)), Begin(other)), End(one, true));
    VisibleAppend(t2.db.rows, Row(key, t2.db.current, Alive(alive)), HealthChecks, t2.db.current);
  }

  // ---- What a reader sees ----

  predicate SeenRound(s: System, k: nat, epoch: int) {
    k < |s.epochs| && s.epochs[k] <= epoch
  }

  /** The rows of the table that the first n rows have from rounds up to the epoch. */
  function RowsOfSeen(s: System, table: Table, epoch: int, n: nat): seq<Row>
    requires n <= |s.db.rows| && n <= |s.writers|
  {
    if n == 0 then []
    else
      RowsOfSeen(s, table, epoch, n - 1)
      + (if SeenRound(s, s.writers[n - 1], epoch) && Concerns(s.db.rows[n - 1], table) then [s.db.rows[n - 1]] else [])
  }

  /** What a reader sees are all the rows of some rounds and no row of the others. */
  lemma {:induction false} RoundsAreWhole(s: System, table: Table, epoch: int, n: nat)
    requires Inv(s) && n <= |s.db.rows|
    ensures VisibleRows(s.db.rows[..n], table, epoch) == RowsOfSeen(s, table, epoch, n)
  {
    if n > 0 {
      RoundsAreWhole(s, table, epoch, n - 1);
      assert s.db.rows[..n] == s.db.rows[..n - 1] + [s.db.rows[n - 1]];
      VisibleAppend(s.db.rows[..n - 1], s.db.rows[n - 1], table, epoch);
    }
  }

  /** A snapshot reads the epoch at a moment when the readers are isolated, and the two tables at any two
      later moments of any run. Each query sees, of its table, exactly the rows of the rounds published when
      the epoch was read, and none of these rounds is still open. */
  lemma SnapshotIsAtomic(s: System, beforeAlive: seq<Step>, beforePrices: seq<Step>)
    requires Inv(s) && Clear(s, s.db.current) && IsRun(s, beforeAlive) && IsRun(After(s, beforeAlive), beforePrices)
    ensures var epoch := s.db.current;
            var alive := After(s, beforeAlive);
            var prices := After(alive, beforePrices);
            && VisibleRows(alive.db.rows, HealthChecks, epoch) == RowsOfSeen(s, HealthChecks, epoch, |s.db.rows|)
            && VisibleRows(prices.db.rows, DeclaredPrices, epoch) == RowsOfSeen(s, DeclaredPrices, epoch, |s.db.rows|)
            && (forall c :: c in s.working ==> !SeenRound(s, s.working[c], epoch))
            && s.db.current <= alive.db.current <= prices.db.current
  {
    var epoch := s.db.current;
    PublishedRowsNeverGrow(s, beforeAlive, HealthChecks, epoch);
    PublishedRowsNeverGrow(s, beforeAlive, DeclaredPrices, epoch);
    PublishedRowsNeverGrow(After(s, beforeAlive), beforePrices, DeclaredPrices, epoch);
    RoundsAreWhole(s, HealthChecks, epoch, |s.db.rows|);
    RoundsAreWhole(s, DeclaredPrices, epoch, |s.db.rows|);
    assert s.db.rows[..|s.db.rows|] == s.db.rows;
  }

  /** So in every run from an empty database in which no round is published beside another, whatever the two
      queries of a snapshot answer is what they could have answered together at the moment the epoch was
      read. */
  lemma SnapshotsAreSerialisable(start: int, steps: seq<Step>, beforeAlive: seq<Step>, beforePrices: seq<Step>,
                                 alive: map<(int, string), Value>, prices: map<(int, string), Value>)
    requires IsRun(Start(start), steps) && PublishesAlone(Start(start), steps)
    requires var s := After(Start(start), steps);
             IsRun(s, beforeAlive) && IsRun(After(s, beforeAlive), beforePrices)
    requires var s := After(Start(start), steps);
             && IsLatest(VisibleRows(After(s, beforeAlive).db.rows, HealthChecks, s.db.current), alive)
             && IsLatest(VisibleRows(After(After(s, beforeAlive), beforePrices).db.rows, DeclaredPrices, s.db.current), prices)
    ensures var s := After(Start(start), steps);
            && IsLatest(VisibleRows(s.db.rows, HealthChecks, s.db.current), alive)
            && IsLatest(VisibleRows(s.db.rows, DeclaredPrices, s.db.current), prices)
  {
    RunIsolatesIff(Start(start), steps);
    var s := After(Start(start), steps);
    PublishedRowsNeverGrow(s, beforeAlive, HealthChecks, s.db.current);
    PublishedRowsNeverGrow(s, beforeAlive, DeclaredPrices, s.db.current);
    PublishedRowsNeverGrow(After(s, beforeAlive), beforePrices, DeclaredPrices, s.db.current);
  }

  /** A round that ends unpublished shares its epoch with the checker's next one exactly if nobody else has
      moved the epoch in the meantime; neither is visible until that one is published, and then both are. */
  lemma FailedPublicationIsCarriedOver(s: System, checker: int)
    requires Inv(s) && Enabled(s, End(checker, false))
    ensures var t := Do(Do(s, End(checker, false)), Begin(checker));
            EpochOf(t, checker) == EpochOf(s, checker) <==> EpochOf(s, checker) > s.db.current
  {
  }
}
