/** The circuit breaker (internal/api/circuit.go): one row per channel, model and group bucket,
    updated from the outcome of every request. Times are seconds since 1970. */
module CircuitBreaker {
  import opened Options

  datatype State = Closed | Open | HalfOpen | Degraded

  datatype Config = Config(minSamples: nat, openFailureRate: real, openMinFailures: nat, initialCooling: nat,
                           maxCooling: nat, backoff: seq<nat>, recoverySuccesses: nat)

  /** The part of the start-up validation that the breaker relies on. */
  predicate Usable(cfg: Config) {
    cfg.minSamples >= 1 && cfg.backoff != [] && cfg.recoverySuccesses >= 1
  }

  /** A group's own settings; zero means that the group does not override the global value. */
  datatype Overrides = Overrides(minSamples: nat, openFailureRate: real, openMinFailures: nat, initialCooling: nat, maxCooling: nat)

  datatype Configs = Configs(global: Config, groups: map<int, Overrides>)

  function Override(own: nat, inherited: nat): nat {
    if own > 0 then own else inherited
  }

  /** Group overrides win over the global configuration; an unknown group has none. */
  function EffectiveConfig(c: Configs, group: Option<int>): (cfg: Config)
    requires Usable(c.global)
    ensures Usable(cfg)
  {
    if group.None? || group.value !in c.groups then c.global
    else
      var o, g := c.groups[group.value], c.global;
      Config(Override(o.minSamples, g.minSamples),
             if o.openFailureRate > 0.0 then o.openFailureRate else g.openFailureRate,
             Override(o.openMinFailures, g.openMinFailures), Override(o.initialCooling, g.initialCooling),
             Override(o.maxCooling, g.maxCooling), g.backoff, g.recoverySuccesses)
  }

  datatype Row = Row(state: State, failures: nat, successes: nat, level: nat, until: Option<int>)

  const FreshRow := Row(Closed, 0, 0, 0, None)

  /** cooling_until as it is read: NULL counts as 1970. */
  function Deadline(until: Option<int>): int {
    if until.Some? then until.value else 0
  }

  datatype Transition = Transition(state: State, until: Option<int>, level: nat)

  function CoolingAtLevel(level: nat, cfg: Config): nat
    requires Usable(cfg)
  {
    var i := if level >= |cfg.backoff| then |cfg.backoff| - 1 else level;
    if cfg.backoff[i] > cfg.maxCooling then cfg.maxCooling else cfg.backoff[i]
  }

  function NextCooling(failures: nat, cfg: Config): nat
    requires Usable(cfg)
  {
    CoolingAtLevel(if failures == 0 then 0 else failures - 1, cfg)
  }

  /** An open row whose deadline has passed counts as half-open. */
  function Effective(state: State, deadline: int, now: int): State {
    if state == Open && now >= deadline then HalfOpen else state
  }

  function NextState(state: State, deadline: int, level: nat, success: bool, failures: nat, successes: nat,
                     shouldOpen: bool, cfg: Config, now: int): Transition
    requires Usable(cfg)
  {
    match Effective(state, deadline, now)
    case Closed =>
      if shouldOpen then Transition(Open, Some(now + cfg.initialCooling), 0)
      else Transition(state, None, level)
    case HalfOpen =>
      if success then Transition(Degraded, None, level)
      else Transition(Open, Some(now + NextCooling(failures, cfg)), level)
    case Degraded =>
      if successes >= cfg.recoverySuccesses then Transition(Closed, None, 0)
      else if !success && shouldOpen
      then Transition(Open, Some(now + CoolingAtLevel(level + 1, cfg)), level + 1)
      else Transition(state, None, level)
    case Open => Transition(state, None, level)
  }

  /** What one outcome does to a row. tripped is the verdict of the failure-rate window, which is
      only asked for failures in the closed and degraded states. */
  function UpdateRow(r: Row, success: bool, tripped: bool, cfg: Config, now: int): Row
    requires Usable(cfg)
  {
    var successes := if success then r.successes + 1 else 0;
    var failures := if success then 0 else r.failures + 1;
    var shouldOpen := !success && (r.state == Closed || r.state == Degraded) && tripped;
    var next := NextState(r.state, Deadline(r.until), r.level, success, failures, successes, shouldOpen, cfg, now);
    Row(next.state, failures, successes, next.level, next.until)
  }

  /** The administrator's reset keeps the level. */
  function ResetRow(r: Row): Row {
    r.(state := Closed, failures := 0, successes := 0, until := None)
  }

  datatype Key = Key(channel: int, model: string, bucket: int)

  /** A finished request; at is the time at which the sample is processed. */
  datatype Sample = Sample(request: string, channel: int, model: string, group: Option<int>, success: bool,
                           errorClass: string, skipCircuit: bool, at: int)

  function KeyOf(s: Sample): Key {
    Key(s.channel, s.model, if s.group.Some? then s.group.value else 0)
  }

  /** The request history in insertion order and the circuit rows. */
  datatype Store = Store(history: seq<Sample>, rows: map<Key, Row>)

  predicate InWindow(h: Sample, k: Key, now: int) {
    && h.channel == k.channel && h.model == k.model && h.at >= now - 600
    && ((k.bucket == 0 && h.group == None) || h.group == Some(k.bucket))
    && h.errorClass != "client_canceled"
  }

  function Window(history: seq<Sample>, k: Key, now: int): seq<Sample> {
    if history == [] then []
    else
      var n := |history| - 1;
      if InWindow(history[n], k, now) then Window(history[..n], k, now) + [history[n]] else Window(history[..n], k, now)
  }

  function FailureCount(samples: seq<Sample>): (n: nat)
    ensures n <= |samples|
  {
    if samples == [] then 0 else (if samples[0].success then 0 else 1) + FailureCount(samples[1..])
  }

  /** The failure rate over the most recent minSamples outcomes of the last ten minutes. */
  function Tripped(history: seq<Sample>, k: Key, cfg: Config, now: int): bool
    requires Usable(cfg)
  {
    var w := Window(history, k, now);
    if |w| < cfg.minSamples then false
    else
      var failed := FailureCount(w[|w| - cfg.minSamples..]);
      failed as real / cfg.minSamples as real > cfg.openFailureRate && failed >= cfg.openMinFailures
  }

  function RowAt(rows: map<Key, Row>, k: Key): Row {
    if k in rows then rows[k] else FreshRow
  }

  /** One sample in one transaction: first the history row, then the circuit row, so that the
      failure-rate window includes the sample itself. */
  function Apply(st: Store, s: Sample, configs: Configs): Store
    requires Usable(configs.global)
  {
    var history := st.history + [s];
    var k, cfg := KeyOf(s), EffectiveConfig(configs, s.group);
    Store(history, if s.skipCircuit then st.rows
                   else st.rows[k := UpdateRow(RowAt(st.rows, k), s.success, Tripped(history, k, cfg, s.at), cfg, s.at)])
  }

  /** The rows of a channel after the administrator's reset. */
  function Reset(st: Store, channel: int): Store {
    Store(st.history, map k | k in st.rows :: if k.channel == channel then ResetRow(st.rows[k]) else st.rows[k])
  }
}

/** Invariants of a row over every sequence of outcomes and resets. */
module CircuitTheorems {
  import opened Options
  import opened CircuitBreaker

  datatype Event = Outcome(success: bool, tripped: bool, now: int) | Reset

  ghost function RowStep(r: Row, e: Event, cfg: Config): Row
    requires Usable(cfg)
  {
    if e.Reset? then ResetRow(r) else UpdateRow(r, e.success, e.tripped, cfg, e.now)
  }

  ghost function RowAfter(r: Row, events: seq<Event>, cfg: Config): Row
    requires Usable(cfg)
  {
    if events == [] then r else RowStep(RowAfter(r, events[..|events| - 1], cfg), events[|events| - 1], cfg)
  }

  /** The length of the run of outcomes equal to success at the end of the events. */
  ghost function Streak(events: seq<Event>, success: bool): nat {
    if events == [] then 0
    else
      var e := events[|events| - 1];
      if e.Outcome? && e.success == success then Streak(events[..|events| - 1], success) + 1 else 0
  }

  /** Degraded-to-open relapses since the circuit last opened from closed. */
  ghost function Relapses(events: seq<Event>, cfg: Config): nat
    requires Usable(cfg)
  {
    if events == [] then 0
    else
      var before := events[..|events| - 1];
      var r, r' := RowAfter(FreshRow, before, cfg), RowAfter(FreshRow, events, cfg);
      if r.state == Closed then 0
      else if r.state == Degraded && r'.state == Open then Relapses(before, cfg) + 1
      else Relapses(before, cfg)
  }

  /** The stored row is a faithful account of the events: the counters are the trailing streaks, the
      level of a row that is not closed counts its relapses, and half-open is never stored. */
  lemma {:induction false} RowReflectsEvents(events: seq<Event>, cfg: Config)
    requires Usable(cfg)
    ensures var r := RowAfter(FreshRow, events, cfg);
            && r.successes == Streak(events, true) && r.failures == Streak(events, false)
            && (r.successes == 0 || r.failures == 0)
            && (r.state != Closed ==> r.level == Relapses(events, cfg))
            && r.state != HalfOpen
            && (r.until.Some? ==> r.state == Open)
  {
    if events != [] {
      RowReflectsEvents(events[..|events| - 1], cfg);
    }
  }

  /** A circuit that was never reset has level 0 whenever it is closed. */
  lemma {:induction false} ClosedHasLevelZero(events: seq<Event>, cfg: Config)
    requires Usable(cfg) && forall i :: 0 <= i < |events| ==> events[i].Outcome?
    ensures var r := RowAfter(FreshRow, events, cfg); r.state == Closed ==> r.level == 0
  {
    if events != [] {
      ClosedHasLevelZero(events[..|events| - 1], cfg);
    }
  }

  /** A reset leaves the level that the row had, over any history; a circuit that closes by itself has level 0. */
  lemma ResetKeepsLevel(events: seq<Event>, cfg: Config)
    requires Usable(cfg)
    ensures var r := RowAfter(FreshRow, events, cfg); RowAfter(FreshRow, events + [Reset], cfg) == ResetRow(r)
    ensures RowAfter(FreshRow, events + [Reset], cfg).level == RowAfter(FreshRow, events, cfg).level
    ensures RowAfter(FreshRow, events, cfg).state != Closed ==> RowAfter(FreshRow, events + [Reset], cfg).level == Relapses(events, cfg)
  {
    assert (events + [Reset])[..|events|] == events;
    RowReflectsEvents(events, cfg);
  }

  /** Two rows that differ at most in the level of a closed circuit. */
  predicate AlikeBut(r: Row, r': Row) {
    r' == r.(level := r'.level) && (r.state != Closed ==> r' == r) && r.state != HalfOpen
  }

  /** The level that a reset keeps has no effect: whatever happens next, the row goes the way it would have gone
      with level 0, and opening sets the level anew. */
  lemma {:induction false} KeptLevelIsIdle(r: Row, events: seq<Event>, cfg: Config)
    requires Usable(cfg)
    ensures AlikeBut(RowAfter(ResetRow(r), events, cfg), RowAfter(ResetRow(r).(level := 0), events, cfg))
  {
    if events != [] {
      KeptLevelIsIdle(r, events[..|events| - 1], cfg);
    }
  }

  /** Which state changes an outcome can cause, in terms of the events alone. A success never opens
      the circuit; closed is left exactly by a failure with which the window trips; open is left exactly by a
      success whose time has reached the stored deadline; degraded is left for closed exactly when the trailing
      successes reach the threshold. */
  lemma StateChanges(events: seq<Event>, cfg: Config)
    requires Usable(cfg) && events != [] && events[|events| - 1].Outcome?
    ensures var e := events[|events| - 1];
            var r, r' := RowAfter(FreshRow, events[..|events| - 1], cfg), RowAfter(FreshRow, events, cfg);
            && (e.success && r.state != Open ==> r'.state != Open)
            && (r.state == Open ==> (r'.state != Open <==> e.success && e.now >= Deadline(r.until)))
            && (r.state == Open && r'.state != Open ==> r'.state == Degraded)
            && (r.state == Degraded ==> (r'.state == Closed <==> Streak(events, true) >= cfg.recoverySuccesses))
            && (r.state == Closed ==> r'.state == if !e.success && e.tripped then Open else Closed)
  {
    RowReflectsEvents(events[..|events| - 1], cfg);
    RowReflectsEvents(events, cfg);
  }

  ghost predicate AllSuccessesFrom(events: seq<Event>, start: int) {
    forall i :: 0 <= i < |events| ==> events[i].Outcome? && events[i].success && events[i].now >= start
  }

  /** From any open row past its deadline, max(2, threshold) straight successes close the circuit,
      and it stays closed for as long as the successes last. */
  lemma {:induction false} SelfHealing(r: Row, events: seq<Event>, cfg: Config)
    requires Usable(cfg) && r.state == Open && AllSuccessesFrom(events, Deadline(r.until))
    ensures var r' := RowAfter(r, events, cfg);
            && r'.successes >= |events|
            && (|events| >= 1 ==> r'.state == Degraded || r'.state == Closed)
            && (|events| >= 2 && |events| >= cfg.recoverySuccesses ==> r'.state == Closed)
  {
    if events != [] {
      SelfHealing(r, events[..|events| - 1], cfg);
    }
  }

  /** Every deadline that an outcome stores is bounded by the initial cooling or the maximum. */
  lemma CoolingIsBounded(r: Row, success: bool, tripped: bool, cfg: Config, now: int)
    requires Usable(cfg)
    ensures var until := UpdateRow(r, success, tripped, cfg, now).until;
            until.Some? ==> now <= until.value <= now + if cfg.initialCooling > cfg.maxCooling then cfg.initialCooling else cfg.maxCooling
  {
  }

  ghost predicate NonDecreasing(table: seq<nat>) {
    forall i, j :: 0 <= i <= j < |table| ==> table[i] <= table[j]
  }

  /** While the circuit is not closed its level never falls. */
  lemma {:induction false} LevelNeverFalls(r: Row, events: seq<Event>, cfg: Config)
    requires Usable(cfg) && r.state != Closed && r.state != HalfOpen && NeverCloses(r, events, cfg)
    ensures RowAfter(r, events, cfg).level >= r.level && RowAfter(r, events, cfg).state != HalfOpen
  {
    if events != [] {
      var before := events[..|events| - 1];
      forall n | 0 <= n <= |before| ensures RowAfter(r, before[..n], cfg).state != Closed {
        assert before[..n] == events[..n];
      }
      LevelNeverFalls(r, before, cfg);
      assert events[..|events|] == events;
    }
  }

  ghost predicate NeverCloses(r: Row, events: seq<Event>, cfg: Config)
    requires Usable(cfg)
  {
    forall n :: 0 <= n <= |events| ==> RowAfter(r, events[..n], cfg).state != Closed
  }

  /** A degraded row that opens again. */
  ghost predicate Relapse(r: Row, e: Event, cfg: Config)
    requires Usable(cfg)
  {
    e.Outcome? && r.state == Degraded && RowStep(r, e, cfg).state == Open
  }

  /** With a non-decreasing table a relapse never cools for less time than an earlier relapse of the
      same episode: whatever happens between them, as long as the circuit does not close. */
  lemma RelapsesNeverCoolShorter(r: Row, e1: Event, between: seq<Event>, e2: Event, cfg: Config)
    requires Usable(cfg) && NonDecreasing(cfg.backoff)
    requires Relapse(r, e1, cfg) && NeverCloses(RowStep(r, e1, cfg), between, cfg)
    requires Relapse(RowAfter(RowStep(r, e1, cfg), between, cfg), e2, cfg)
    ensures var u1 := RowStep(r, e1, cfg).until;
            var u2 := RowStep(RowAfter(RowStep(r, e1, cfg), between, cfg), e2, cfg).until;
            u1.Some? && u2.Some? && u1.value - e1.now <= u2.value - e2.now
  {
    LevelNeverFalls(RowStep(r, e1, cfg), between, cfg);
  }

  /** A sample that arrives while the circuit is still cooling erases the deadline, whatever its
      outcome: the row stays open but counts as half-open from then on. */
  lemma LateSampleEndsCooling(r: Row, success: bool, tripped: bool, cfg: Config, now: int, later: int)
    requires Usable(cfg) && r.state == Open && now < Deadline(r.until) && later >= 0
    ensures var r' := UpdateRow(r, success, tripped, cfg, now);
            r'.state == Open && r'.until == None && Effective(r'.state, Deadline(r'.until), later) == HalfOpen
  {
  }

  /** A row that is still cooling leaves open within two samples exactly when the second succeeds: the
      first sample, whatever it is, has erased the deadline that the second would have been held to. */
  lemma CoolingEndsAfterTwoSamples(r: Row, e1: Event, e2: Event, cfg: Config)
    requires Usable(cfg) && r.state == Open && e1.Outcome? && e2.Outcome?
    requires 0 <= e1.now < Deadline(r.until) && 0 <= e2.now < Deadline(r.until)
    ensures RowAfter(r, [e1], cfg).state == Open
    ensures RowAfter(r, [e1, e2], cfg).state != Open <==> e2.success
  {
    assert [e1, e2][..1] == [e1] && [e1][..0] == [];
    assert RowAfter(r, [e1], cfg) == RowStep(r, e1, cfg);
    LateSampleEndsCooling(r, e1.success, e1.tripped, cfg, e1.now, e2.now);
  }
}
