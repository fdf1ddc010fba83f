/** When a circuit opens and for how long (internal/api/circuit.go): what the failure window counts, what each
    outcome makes of a row, and what that means in the store. */
module CircuitOpening {
  import opened Options
  import opened CircuitBreaker
  import opened CircuitTheorems
  import opened CircuitBuffers

  // ---- What the window counts ----

  /** The places in the history of the outcomes that count: those of the channel, model and group bucket in the
      last ten minutes, except where the client cancelled. Bucket 0 is the traffic without a group. */
  ghost function Counted(history: seq<Sample>, k: Key, now: int): set<nat> {
    set i: nat | i < |history| && history[i].channel == k.channel && history[i].model == k.model
                 && (history[i].group == Some(k.bucket) || (history[i].group == None && k.bucket == 0))
                 && now - history[i].at <= 600 && history[i].errorClass != "client_canceled"
  }

  /** The n last of them. */
  ghost predicate AreLast(places: set<nat>, recent: set<nat>, n: nat) {
    recent <= places && |recent| == n && forall i, j :: i in recent && j in places && j !in recent ==> j < i
  }

  ghost function Failed(history: seq<Sample>, places: set<nat>): set<nat> {
    set i | i in places && i < |history| && !history[i].success
  }

  /** So many failures among minSamples outcomes exceed the rate, and are enough in number. */
  predicate Exceeds(failures: nat, cfg: Config)
    requires Usable(cfg)
  {
    failures as real / cfg.minSamples as real > cfg.openFailureRate && failures >= cfg.openMinFailures
  }

  /** The minSamples last outcomes that count are there, with too many failures among them. */
  ghost predicate TooManyFailures(history: seq<Sample>, k: Key, cfg: Config, now: int)
    requires Usable(cfg)
  {
    exists recent :: AreLast(Counted(history, k, now), recent, cfg.minSamples) && Exceeds(|Failed(history, recent)|, cfg)
  }

  ghost function Members(places: seq<nat>): set<nat> {
    set i | i in places
  }

  ghost predicate Ascending(places: seq<nat>) {
    forall a, b :: 0 <= a < b < |places| ==> places[a] < places[b]
  }

  /** The window is the history at these places. */
  ghost predicate Lists(history: seq<Sample>, places: seq<nat>, w: seq<Sample>) {
    && |places| == |w| && Ascending(places)
    && forall a :: 0 <= a < |places| ==> places[a] < |history| && w[a] == history[places[a]]
  }

  lemma {:induction false} WindowLists(history: seq<Sample>, k: Key, now: int) returns (places: seq<nat>)
    ensures Lists(history, places, Window(history, k, now)) && Members(places) == Counted(history, k, now)
  {
    if history == [] {
      places := [];
    } else {
      var n := |history| - 1;
      var before := history[..n];
      places := WindowLists(before, k, now);
      CountedUpTo(history, n, k, now);
      if InWindow(history[n], k, now) {
        assert Members(places + [n]) == Members(places) + {n};
        places := places + [n];
      }
    }
  }

  lemma CountedUpTo(history: seq<Sample>, n: nat, k: Key, now: int)
    requires n + 1 == |history|
    ensures Counted(history, k, now) == Counted(history[..n], k, now) + if InWindow(history[n], k, now) then {n} else {}
  {
    assert forall i :: 0 <= i < n ==> history[..n][i] == history[i];
  }

  lemma {:induction false} MembersCount(places: seq<nat>)
    requires Ascending(places)
    ensures |Members(places)| == |places|
  {
    if places != [] {
      var n := |places| - 1;
      MembersCount(places[..n]);
      assert places == places[..n] + [places[n]];
      assert Members(places) == Members(places[..n]) + {places[n]};
    }
  }

  lemma FirstFailed(history: seq<Sample>, places: seq<nat>)
    requires places != [] && Ascending(places) && places[0] < |history|
    ensures |Failed(history, Members(places))| == |Failed(history, Members(places[1..]))| + if history[places[0]].success then 0 else 1
  {
    var first, rest := places[0], places[1..];
    FirstMember(places);
    FailedWithout(history, first, Members(rest));
  }

  lemma FirstMember(places: seq<nat>)
    requires places != [] && Ascending(places)
    ensures Members(places) == {places[0]} + Members(places[1..]) && places[0] !in Members(places[1..])
  {
    var first, rest := places[0], places[1..];
    assert places == [first] + rest;
    assert forall a :: 0 <= a < |rest| ==> rest[a] == places[a + 1];
  }

  lemma FailedWithout(history: seq<Sample>, first: nat, rest: set<nat>)
    requires first < |history| && first !in rest
    ensures |Failed(history, {first} + rest)| == |Failed(history, rest)| + if history[first].success then 0 else 1
  {
    assert Failed(history, {first} + rest) == Failed(history, rest) + if history[first].success then {} else {first};
  }

  lemma {:induction false} FailuresCount(history: seq<Sample>, places: seq<nat>, w: seq<Sample>)
    requires Lists(history, places, w)
    ensures FailureCount(w) == |Failed(history, Members(places))|
  {
    if w != [] {
      FailuresCount(history, places[1..], w[1..]);
      FirstFailed(history, places);
    } else {
      assert Failed(history, Members(places)) == {};
    }
  }

  lemma SubsetWhole(a: set<nat>, b: set<nat>)
    requires a <= b && |a| == |b|
    ensures a == b
  {
    if exists x :: x in b && x !in a {
      var x :| x in b && x !in a;
      assert a < b;
      Smaller(a, b, x);
    }
  }

  lemma Smaller(a: set<nat>, b: set<nat>, x: nat)
    requires a <= b && x in b && x !in a
    ensures |a| < |b|
  {
    assert b == (b - a) + a && |b| == |b - a| + |a|;
    assert x in b - a;
  }

  lemma LastAreUnique(places: set<nat>, r: set<nat>, s: set<nat>, n: nat)
    requires AreLast(places, r, n) && AreLast(places, s, n)
    ensures r == s
  {
    assert r <= s || s <= r;
    if r <= s {
      SubsetWhole(r, s);
    } else {
      SubsetWhole(s, r);
    }
  }

  lemma LastOfAscending(places: seq<nat>, n: nat)
    requires Ascending(places) && n <= |places|
    ensures AreLast(Members(places), Members(places[|places| - n..]), n)
  {
    var tail := places[|places| - n..];
    MembersCount(tail);
    assert forall a :: 0 <= a < |tail| ==> tail[a] == places[|places| - n + a];
  }

  /** The end of the window is the last outcomes that count. */
  lemma EndOfWindow(history: seq<Sample>, k: Key, now: int, n: nat) returns (recent: set<nat>)
    requires n <= |Window(history, k, now)|
    ensures AreLast(Counted(history, k, now), recent, n)
    ensures var w := Window(history, k, now); FailureCount(w[|w| - n..]) == |Failed(history, recent)|
  {
    var w := Window(history, k, now);
    var places := WindowLists(history, k, now);
    var tail := places[|places| - n..];
    LastOfAscending(places, n);
    EndLists(history, places, w, n);
    FailuresCount(history, tail, w[|w| - n..]);
    recent := Members(tail);
  }

  lemma EndLists(history: seq<Sample>, places: seq<nat>, w: seq<Sample>, n: nat)
    requires Lists(history, places, w) && n <= |w|
    ensures Lists(history, places[|places| - n..], w[|w| - n..])
  {
  }

  lemma TooFewInWindow(history: seq<Sample>, k: Key, now: int, n: nat, recent: set<nat>)
    requires AreLast(Counted(history, k, now), recent, n)
    ensures n <= |Window(history, k, now)|
  {
    var places := WindowLists(history, k, now);
    MembersCount(places);
    FewerMembers(recent, Counted(history, k, now));
  }

  lemma TrippedForm(history: seq<Sample>, k: Key, cfg: Config, now: int)
    requires Usable(cfg)
    ensures Tripped(history, k, cfg, now) ==
            var w := Window(history, k, now);
            |w| >= cfg.minSamples && Exceeds(FailureCount(w[|w| - cfg.minSamples..]), cfg)
  {
  }

  /** The window trips exactly if there are too many failures. */
  lemma TrippedIff(history: seq<Sample>, k: Key, cfg: Config, now: int)
    requires Usable(cfg)
    ensures Tripped(history, k, cfg, now) <==> TooManyFailures(history, k, cfg, now)
  {
    var n := cfg.minSamples;
    TrippedForm(history, k, cfg, now);
    if TooManyFailures(history, k, cfg, now) {
      var recent :| AreLast(Counted(history, k, now), recent, n) && Exceeds(|Failed(history, recent)|, cfg);
      TooFewInWindow(history, k, now, n, recent);
      var end := EndOfWindow(history, k, now, n);
      LastAreUnique(Counted(history, k, now), recent, end, n);
    } else if n <= |Window(history, k, now)| {
      var end := EndOfWindow(history, k, now, n);
    }
  }

  lemma FewerMembers(a: set<nat>, b: set<nat>)
    requires a <= b
    ensures |a| <= |b|
  {
    assert b == (b - a) + a && |b| == |b - a| + |a|;
  }

  // ---- What an outcome makes of a row ----

  /** The n-th entry of the table, or its last if it is shorter, but no more than the maximum. */
  ghost predicate IsEntry(cfg: Config, n: nat, seconds: int) {
    var last := |cfg.backoff| - 1;
    && (seconds == cfg.maxCooling || exists i :: 0 <= i <= last && (i == n || (i == last && n > last)) && seconds == cfg.backoff[i])
    && seconds <= cfg.maxCooling
    && forall i :: 0 <= i <= last && (i == n || (i == last && n > last)) ==> seconds <= cfg.backoff[i]
  }

  lemma LevelEntry(level: nat, cfg: Config)
    requires Usable(cfg)
    ensures IsEntry(cfg, level, CoolingAtLevel(level, cfg))
  {
  }

  /** A closed circuit opens exactly by a failure with which the window trips, at level 0, for the initial cooling;
      otherwise it stays closed. */
  lemma ClosedOpensIff(events: seq<Event>, cfg: Config)
    requires Usable(cfg) && events != [] && events[|events| - 1].Outcome?
    requires RowAfter(FreshRow, events[..|events| - 1], cfg).state == Closed
    ensures var e, r' := events[|events| - 1], RowAfter(FreshRow, events, cfg);
            if !e.success && e.tripped then r'.state == Open && r'.until == Some(e.now + cfg.initialCooling) && r'.level == 0
            else r'.state == Closed && r'.until == None
  {
    var e := events[|events| - 1];
    ClosedRow(RowAfter(FreshRow, events[..|events| - 1], cfg), e.success, e.tripped, cfg, e.now);
  }

  /** A circuit past its deadline is opened again by any failure, for the entry of the table that belongs to the
      length of the row of failures; a success makes it degraded. */
  lemma CooledReopensIff(events: seq<Event>, cfg: Config)
    requires Usable(cfg) && events != [] && events[|events| - 1].Outcome?
    requires var r := RowAfter(FreshRow, events[..|events| - 1], cfg); r.state == Open && events[|events| - 1].now >= Deadline(r.until)
    ensures var e, r' := events[|events| - 1], RowAfter(FreshRow, events, cfg);
            if e.success then r'.state == Degraded && r'.until == None
            else r'.state == Open && r'.until.Some? && IsEntry(cfg, Streak(events, false) - 1, r'.until.value - e.now)
  {
    RowReflectsEvents(events[..|events| - 1], cfg);
    RowReflectsEvents(events, cfg);
    LevelEntry(Streak(events, false) - if events[|events| - 1].success then 0 else 1, cfg);
  }

  /** A degraded circuit relapses exactly by a failure with which the window trips, for the entry that belongs to the
      number of relapses; otherwise it stays degraded until there are enough successes in a row. */
  lemma DegradedRelapsesIff(events: seq<Event>, cfg: Config)
    requires Usable(cfg) && events != [] && events[|events| - 1].Outcome?
    requires RowAfter(FreshRow, events[..|events| - 1], cfg).state == Degraded
    ensures var e, r' := events[|events| - 1], RowAfter(FreshRow, events, cfg);
            if !e.success && e.tripped then
              r'.state == Open && r'.until.Some? && IsEntry(cfg, Relapses(events, cfg), r'.until.value - e.now)
            else r'.state == (if Streak(events, true) >= cfg.recoverySuccesses then Closed else Degraded) && r'.until == None
  {
    RowReflectsEvents(events[..|events| - 1], cfg);
    RowReflectsEvents(events, cfg);
    LevelEntry(Relapses(events, cfg), cfg);
  }

  lemma ClosedRow(r: Row, success: bool, tripped: bool, cfg: Config, now: int)
    requires Usable(cfg)
    ensures var r' := UpdateRow(r, success, tripped, cfg, now);
            r.state == Closed ==>
              if !success && tripped then r'.state == Open && r'.until == Some(now + cfg.initialCooling) && r'.level == 0
              else r'.state == Closed && r'.until == None
  {
  }

  // ---- In the store ----

  /** The row at a key after some samples, from scratch. */
  ghost function RowOf(samples: seq<Sample>, configs: Configs, k: Key): Row
    requires Usable(configs.global)
  {
    RowAt(Fold(Store([], map[]), samples, Processing(configs)).rows, k)
  }

  lemma OneMoreSample(samples: seq<Sample>, s: Sample, configs: Configs, k: Key)
    requires Usable(configs.global)
    ensures var cfg := EffectiveConfig(configs, s.group);
            RowOf(samples + [s], configs, k) ==
            if s.skipCircuit || KeyOf(s) != k then RowOf(samples, configs, k)
            else UpdateRow(RowOf(samples, configs, k), s.success, Tripped(samples + [s], k, cfg, s.at), cfg, s.at)
  {
    var start := Store([], map[]);
    FoldHistory(start, samples, configs);
    assert [] + samples == samples;
    assert (samples + [s])[..|samples|] == samples;
    ApplyActsOnOneRow(Fold(start, samples, Processing(configs)), s, k, configs, EffectiveConfig(configs, s.group));
  }

  /** In the store a closed circuit opens exactly by a failure of its own channel, model and bucket with which there
      are too many failures, the failure itself included; then for the initial cooling of its group. Samples that
      skip the circuit, and samples of others, leave it as it is. */
  lemma StoreOpensIff(samples: seq<Sample>, s: Sample, configs: Configs, k: Key)
    requires Usable(configs.global)
    ensures var cfg, r, r' := EffectiveConfig(configs, s.group), RowOf(samples, configs, k), RowOf(samples + [s], configs, k);
            && (k != KeyOf(s) || s.skipCircuit ==> r' == r)
            && (k == KeyOf(s) && !s.skipCircuit && r.state == Closed ==>
                  if !s.success && TooManyFailures(samples + [s], k, cfg, s.at)
                  then r'.state == Open && r'.until == Some(s.at + cfg.initialCooling) && r'.level == 0
                  else r'.state == Closed && r'.until == None)
  {
    var cfg := EffectiveConfig(configs, s.group);
    OneMoreSample(samples, s, configs, k);
    TrippedIff(samples + [s], k, cfg, s.at);
    ClosedRow(RowOf(samples, configs, k), s.success, Tripped(samples + [s], k, cfg, s.at), cfg, s.at);
  }

  // ---- The configuration ----

  ghost function WithOverrides(c: Configs, group: int, o: Overrides): Configs {
    c.(groups := c.groups[group := o])
  }

  /** A group that sets nothing has the global configuration, and each setting it makes replaces just that one. */
  lemma SettingsReplaceOneEach(c: Configs, group: int, o: Overrides, n: nat, rate: real)
    requires Usable(c.global) && n > 0 && rate > 0.0
    ensures EffectiveConfig(WithOverrides(c, group, Overrides(0, 0.0, 0, 0, 0)), Some(group)) == c.global
    ensures var cfg := EffectiveConfig(WithOverrides(c, group, o), Some(group));
            && EffectiveConfig(WithOverrides(c, group, o.(minSamples := n)), Some(group)) == cfg.(minSamples := n)
            && EffectiveConfig(WithOverrides(c, group, o.(openFailureRate := rate)), Some(group)) == cfg.(openFailureRate := rate)
            && EffectiveConfig(WithOverrides(c, group, o.(openMinFailures := n)), Some(group)) == cfg.(openMinFailures := n)
            && EffectiveConfig(WithOverrides(c, group, o.(initialCooling := n)), Some(group)) == cfg.(initialCooling := n)
            && EffectiveConfig(WithOverrides(c, group, o.(maxCooling := n)), Some(group)) == cfg.(maxCooling := n)
    ensures EffectiveConfig(c, None) == c.global && (group !in c.groups ==> EffectiveConfig(c, Some(group)) == c.global)
  {
  }

  /** An administrator's reset closes the rows of the channel and leaves their levels; it touches no others. */
  lemma ResetClosesTheChannel(st: Store, channel: int, k: Key)
    ensures var r, r' := RowAt(st.rows, k), RowAt(CircuitBreaker.Reset(st, channel).rows, k);
            && (k in CircuitBreaker.Reset(st, channel).rows <==> k in st.rows)
            && (k.channel != channel ==> r' == r)
            && (k.channel == channel ==> r'.state == Closed && r'.until == None && r'.failures == 0 && r'.successes == 0 && r'.level == r.level)
  {
  }
}
