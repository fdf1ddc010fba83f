/** How the router reads the circuit rows (internal/router/snapshot.go): all rows of one channel and
    bucket are aggregated to a single state, which the filter then gates on. */
module CircuitSnapshot {
  import opened Options
  import opened CircuitBreaker

  /** A row as the snapshot query returns it; a missing deadline has become 1970. */
  datatype Reading = Reading(channel: int, bucket: int, state: State, deadline: int)

  function Rank(s: State): nat {
    match s
    case Closed => 0
    case HalfOpen => 1
    case Degraded => 2
    case Open => 3
  }

  datatype Aggregate = Aggregate(worst: State, maxCooling: Option<int>)

  /** The bucket key of a reading: channel and group. */
  function BucketOf(r: Reading): (int, int) {
    (r.channel, r.bucket)
  }

  ghost predicate HasRow(rows: seq<Reading>, key: (int, int), state: State) {
    exists r :: r in rows && BucketOf(r) == key && r.state == state
  }

  /** An open row of the bucket that is still cooling. */
  ghost predicate Cooling(rows: seq<Reading>, key: (int, int), now: int) {
    exists r :: r in rows && BucketOf(r) == key && r.state == Open && now < r.deadline
  }

  ghost predicate Present(rows: seq<Reading>, key: (int, int)) {
    exists r :: r in rows && BucketOf(r) == key
  }

  /** What a bucket means, independently of the order of its rows. */
  ghost function BucketState(rows: seq<Reading>, key: (int, int), now: int): State {
    if Cooling(rows, key, now) then Open
    else if HasRow(rows, key, Open) then HalfOpen
    else if HasRow(rows, key, Degraded) then Degraded
    else if HasRow(rows, key, HalfOpen) then HalfOpen
    else Closed
  }

  /** The running aggregate of a bucket: the worst state, and the latest deadline of its open rows. */
  ghost predicate Summarises(a: Aggregate, rows: seq<Reading>, key: (int, int)) {
    && (forall r :: r in rows && BucketOf(r) == key ==> Rank(r.state) <= Rank(a.worst))
    && (a.worst == Closed || HasRow(rows, key, a.worst))
    && (a.maxCooling.Some? <==> HasRow(rows, key, Open))
    && (forall r :: r in rows && BucketOf(r) == key && r.state == Open && a.maxCooling.Some? ==> r.deadline <= a.maxCooling.value)
    && (a.maxCooling.Some? ==> exists r :: r in rows && BucketOf(r) == key && r.state == Open && r.deadline == a.maxCooling.value)
  }

  function Accumulate(a: Aggregate, r: Reading): Aggregate {
    Aggregate(if Rank(r.state) > Rank(a.worst) then r.state else a.worst,
              if r.state == Open && (a.maxCooling.None? || r.deadline > a.maxCooling.value) then Some(r.deadline) else a.maxCooling)
  }

  lemma AccumulateSummarises(a: Aggregate, rows: seq<Reading>, r: Reading)
    requires Summarises(a, rows, BucketOf(r))
    ensures Summarises(Accumulate(a, r), rows + [r], BucketOf(r))
  {
    var key, more, b := BucketOf(r), rows + [r], Accumulate(a, r);
    assert forall x :: x in more <==> x in rows || x == r;
    assert HasRow(rows, key, Open) ==> HasRow(more, key, Open);
    if r.state == Open { assert r in more; }
    if Rank(r.state) > Rank(a.worst) { assert r in more; }
    else if a.worst != Closed { assert HasRow(more, key, a.worst); }
  }

  lemma OtherBucketsUnchanged(a: Aggregate, rows: seq<Reading>, r: Reading, key: (int, int))
    requires Summarises(a, rows, key) && BucketOf(r) != key
    ensures Summarises(a, rows + [r], key)
  {
    assert forall x :: x in rows + [r] <==> x in rows || x == r;
    assert forall s :: HasRow(rows, key, s) <==> HasRow(rows + [r], key, s);
  }

  /** The deadline of a bucket without open rows is the zero time, which never counts as passed. */
  function EffectiveReading(a: Aggregate, now: int): State {
    if a.worst == Open && a.maxCooling.Some? && now >= a.maxCooling.value then HalfOpen else a.worst
  }

  lemma AggregateReadsBucket(a: Aggregate, rows: seq<Reading>, key: (int, int), now: int)
    requires Summarises(a, rows, key)
    ensures EffectiveReading(a, now) == BucketState(rows, key, now)
  {
    if a.maxCooling.Some? {
      var r :| r in rows && BucketOf(r) == key && r.state == Open && r.deadline == a.maxCooling.value;
      assert Rank(r.state) <= Rank(a.worst);
    }
  }

  /** A bucket of a known channel that has a row. */
  ghost predicate Known(rows: seq<Reading>, known: set<int>, key: (int, int)) {
    key.0 in known && Present(rows, key)
  }

  lemma OneMoreRow(rows: seq<Reading>, r: Reading, known: set<int>)
    ensures forall k :: Known(rows + [r], known, k) <==> Known(rows, known, k) || (r.channel in known && k == BucketOf(r))
  {
    forall k ensures Present(rows + [r], k) <==> Present(rows, k) || k == BucketOf(r) {
      if Present(rows, k) {
        var x :| x in rows && BucketOf(x) == k;
        assert x in rows + [r];
      }
      assert r in rows + [r];
    }
  }

  /** The worst state among the buckets of a channel, closed if there is none. */
  ghost predicate IsWorst(states: map<(int, int), State>, among: set<(int, int)>, channel: int, worst: State)
    requires among <= states.Keys
  {
    && (forall key :: key in among && key.0 == channel ==> Rank(states[key]) <= Rank(worst))
    && (worst == Closed || exists key :: key in among && key.0 == channel && states[key] == worst)
  }

  /** The aggregation loop: every bucket of a known channel that has a row gets its state, whatever the row order;
      rows of other channels are passed over. */
  method LoadCircuitStates(rows: seq<Reading>, known: set<int>, now: int) returns (states: map<(int, int), State>, overall: map<int, State>)
    ensures forall key :: key in states <==> Known(rows, known, key)
    ensures forall key :: key in states ==> states[key] == BucketState(rows, key, now)
    ensures forall channel :: channel in overall <==> exists key :: key in states && key.0 == channel
    ensures forall channel :: channel in overall ==> IsWorst(states, states.Keys, channel, overall[channel])
  {
    var agg: map<(int, int), Aggregate> := map[];
    for i := 0 to |rows|
      invariant forall key :: key in agg <==> Known(rows[..i], known, key)
      invariant forall key :: key in agg ==> Summarises(agg[key], rows[..i], key)
    {
      var r := rows[i];
      var key := BucketOf(r);
      assert rows[..i + 1] == rows[..i] + [r];
      OneMoreRow(rows[..i], r, known);
      forall k | k in agg && k != key ensures Summarises(agg[k], rows[..i + 1], k) {
        OtherBucketsUnchanged(agg[k], rows[..i], r, k);
      }
      if r.channel !in known {
        continue;
      }
      var a := if key in agg then agg[key] else Aggregate(Closed, None);
      assert Summarises(a, rows[..i], key) by {
        if key !in agg { assert !Present(rows[..i], key); }
      }
      AccumulateSummarises(a, rows[..i], r);
      agg := agg[key := Accumulate(a, r)];
    }
    assert rows[..|rows|] == rows;
    states := map key | key in agg :: EffectiveReading(agg[key], now);
    forall key | key in states ensures states[key] == BucketState(rows, key, now) {
      AggregateReadsBucket(agg[key], rows, key, now);
    }
    overall := WorstOfChannels(states);
  }

  lemma OneMoreBucket(states: map<(int, int), State>, among: set<(int, int)>, key: (int, int), worst: State)
    requires among <= states.Keys && key in states && IsWorst(states, among, key.0, worst)
    ensures IsWorst(states, among + {key}, key.0, if Rank(states[key]) > Rank(worst) then states[key] else worst)
  {
    assert key in among + {key};
    assert forall k :: k in among ==> k in among + {key};
  }

  lemma OtherChannel(states: map<(int, int), State>, among: set<(int, int)>, key: (int, int), channel: int, worst: State)
    requires among <= states.Keys && key in states && channel != key.0 && IsWorst(states, among, channel, worst)
    ensures IsWorst(states, among + {key}, channel, worst)
  {
    assert forall k :: k in among ==> k in among + {key};
  }

  /** The state of a channel as a whole, over its buckets in whatever order the map yields them. */
  method WorstOfChannels(states: map<(int, int), State>) returns (overall: map<int, State>)
    ensures forall channel :: channel in overall <==> exists key :: key in states && key.0 == channel
    ensures forall channel :: channel in overall ==> IsWorst(states, states.Keys, channel, overall[channel])
  {
    overall := map[];
    var todo := states.Keys;
    ghost var done: set<(int, int)> := {};
    while exists key :: key in todo
      invariant todo <= states.Keys && done == states.Keys - todo
      invariant forall channel :: channel in overall <==> exists key :: key in done && key.0 == channel
      invariant forall channel :: channel in overall ==> IsWorst(states, done, channel, overall[channel])
      decreases todo
    {
      var key :| key in todo;
      var worst := if key.0 in overall then overall[key.0] else Closed;
      assert IsWorst(states, done, key.0, worst);
      OneMoreBucket(states, done, key, worst);
      forall channel | channel in overall && channel != key.0 ensures IsWorst(states, done + {key}, channel, overall[channel]) {
        OtherChannel(states, done, key, channel, overall[channel]);
      }
      assert key in done + {key} && forall k :: k in done ==> k in done + {key};
      todo, done := todo - {key}, done + {key};
      overall := overall[key.0 := if Rank(states[key]) > Rank(worst) then states[key] else worst];
    }
    assert done == states.Keys;
  }

  /** The bucket of the group, else the global bucket, else closed. */
  function StateForGroup(states: map<(int, int), State>, channel: int, group: Option<int>): State {
    if group.Some? && (channel, group.value) in states then states[(channel, group.value)]
    else if (channel, 0) in states then states[(channel, 0)]
    else Closed
  }

  /** The bucket that StateForGroup reads. */
  ghost function EffectiveBucket(rows: seq<Reading>, channel: int, group: Option<int>): (int, int) {
    if group.Some? && Present(rows, (channel, group.value)) then (channel, group.value) else (channel, 0)
  }

  /** Reader and updater agree. A channel reads open exactly when its effective bucket has a row that is still
      cooling. When it reads half-open on account of open rows, the updater would at that
      moment treat every one of them as half-open, so a probe's outcome counts for each of them. */
  lemma GateAgreesWithUpdater(rows: seq<Reading>, known: set<int>, states: map<(int, int), State>, channel: int, group: Option<int>, now: int)
    requires channel in known && forall key :: key in states <==> Known(rows, known, key)
    requires forall key :: key in states ==> states[key] == BucketState(rows, key, now)
    ensures var key, s := EffectiveBucket(rows, channel, group), StateForGroup(states, channel, group);
            && s == BucketState(rows, key, now)
            && (s == Open <==> Cooling(rows, key, now))
            && (s == HalfOpen ==> forall r :: r in rows && BucketOf(r) == key && r.state == Open ==>
                  Effective(r.state, r.deadline, now) == HalfOpen)
            && (s != HalfOpen && s != Open ==> forall r :: r in rows && BucketOf(r) == key ==> r.state != Open)
  {
    var key := EffectiveBucket(rows, channel, group);
    if !Present(rows, key) {
      assert BucketState(rows, key, now) == Closed;
    }
  }

  /** The reading depends on the set of rows only. */
  lemma RowOrderDoesNotMatter(a: seq<Reading>, b: seq<Reading>, key: (int, int), now: int)
    requires forall r :: r in a <==> r in b
    ensures BucketState(a, key, now) == BucketState(b, key, now)
  {
    assert forall s :: HasRow(a, key, s) <==> HasRow(b, key, s);
  }
}
