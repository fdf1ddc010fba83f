/** From outcomes to routing: what the circuit rows, as the snapshot reads them (internal/router/snapshot.go), mean
    for the routing decision, and so what a failure that trips the window means for the requests that follow. */
module RoutingCircuits {
  import opened Options
  import Circuits = CircuitBreaker
  import Openings = CircuitOpening
  import opened CircuitSnapshot
  import opened RoutingTypes
  import opened RoutingStrategies
  import opened Routing
  import opened RoutingGate

  function NameOf(s: Circuits.State): string {
    match s
    case Closed => "closed"
    case Open => "open"
    case HalfOpen => "half_open"
    case Degraded => "degraded"
  }

  /** The channel carries the states of its buckets by name, and none if it has no bucket. */
  ghost predicate Carries(ch: Channel, states: map<(int, int), Circuits.State>) {
    if exists bucket :: (ch.id, bucket) in states then
      && ch.circuitStates.Some?
      && (forall bucket :: bucket in ch.circuitStates.value <==> (ch.id, bucket) in states)
      && (forall bucket :: bucket in ch.circuitStates.value ==> ch.circuitStates.value[bucket] == NameOf(states[(ch.id, bucket)]))
    else ch.circuitStates == None && ch.circuitState == ""
  }

  /** The snapshot has read the circuit rows for its channels, at the time now. */
  ghost predicate IsLoaded(channels: map<int, Channel>, rows: seq<Reading>, states: map<(int, int), Circuits.State>, now: int) {
    && (forall key :: key in states <==> Known(rows, channels.Keys, key))
    && (forall key :: key in states ==> states[key] == BucketState(rows, key, now))
    && (forall id :: id in channels ==> Carries(channels[id], states))
  }

  lemma NamesDiffer(s: Circuits.State)
    ensures NameOf(s) == "open" <==> s.Open?
    ensures NameOf(s) != "cooling"
  {
    assert |"closed"| == 6 && |"open"| == 4 && |"half_open"| == 9 && |"degraded"| == 8 && |"cooling"| == 7;
  }

  lemma ReadsItsBucket(channels: map<int, Channel>, rows: seq<Reading>, states: map<(int, int), Circuits.State>, now: int,
                       id: int, group: Option<int>, state: string)
    requires WellKeyed(channels) && IsLoaded(channels, rows, states, now) && id in channels && state != ""
    ensures ReadsCircuit(channels[id], group, state) <==> state == NameOf(BucketState(rows, EffectiveBucket(rows, id, group), now))
  {
    var ch, key := channels[id], EffectiveBucket(rows, id, group);
    assert Carries(ch, states) && ch.id == id;
    assert forall bucket :: (id, bucket) in states <==> Present(rows, (id, bucket));
    CarriedReads(ch, states, group, state);
    if !Present(rows, key) {
      AbsentIsClosed(rows, key, now);
    }
  }

  lemma AbsentIsClosed(rows: seq<Reading>, key: (int, int), now: int)
    requires !Present(rows, key)
    ensures BucketState(rows, key, now) == Circuits.Closed
  {
  }

  lemma CarriedReads(ch: Channel, states: map<(int, int), Circuits.State>, group: Option<int>, state: string)
    requires Carries(ch, states) && state != ""
    ensures ReadsCircuit(ch, group, state) <==>
            state == if group.Some? && (ch.id, group.value) in states then NameOf(states[(ch.id, group.value)])
                     else if (ch.id, 0) in states then NameOf(states[(ch.id, 0)]) else NameOf(Circuits.Closed)
  {
    if exists bucket :: (ch.id, bucket) in states {
      var m := ch.circuitStates.value;
      assert 0 in m <==> (ch.id, 0) in states;
      if group.Some? {
        var own: int := group.value;
        assert own in m <==> (ch.id, own) in states;
      }
      assert ReadsCircuit(ch, group, state) <==>
             state == if group.Some? && group.value in m then m[group.value] else if 0 in m then m[0] else "closed";
    } else {
      assert (ch.id, 0) !in states && (group.Some? ==> (ch.id, group.value) !in states);
      assert ReadsCircuit(ch, group, state) <==> state == "closed";
    }
  }

  lemma BucketOpenIff(rows: seq<Reading>, key: (int, int), now: int)
    ensures BucketState(rows, key, now) == Circuits.Open <==> Cooling(rows, key, now)
  {
  }

  /** On a snapshot, the check of the circuit fails exactly while a row of the channel's effective bucket still
      cools; one that is half-open, degraded or closed passes. */
  lemma CircuitFailsIff(c: Context, channels: map<int, Channel>, rows: seq<Reading>, states: map<(int, int), Circuits.State>, now: int, id: int)
    requires WellKeyed(channels) && IsLoaded(channels, rows, states, now) && id in channels
    ensures Fails(CircuitOpen, c, channels[id], now) <==> Cooling(rows, EffectiveBucket(rows, id, c.req.groupId), now)
    ensures !Fails(CircuitCools, c, channels[id], now)
  {
    var key := EffectiveBucket(rows, id, c.req.groupId);
    ReadsItsBucket(channels, rows, states, now, id, c.req.groupId, "open");
    ReadsItsBucket(channels, rows, states, now, id, c.req.groupId, "cooling");
    NamesDiffer(BucketState(rows, key, now));
    BucketOpenIff(rows, key, now);
  }

  /** So routing leaves a channel out for its circuit exactly if it passes the five checks before and a row of its
      effective bucket still cools. */
  lemma OpenIffCooling(policy: Policy, replaying: bool, group: GroupLookup, snapshot: Snapshot, req: Request, now: int, outcome: Outcome,
                       rows: seq<Reading>, states: map<(int, int), Circuits.State>, id: int)
    requires WellKeyed(snapshot.content.channels) && IsOutcome(policy, replaying, group, snapshot, req, now, outcome)
    requires (outcome.Routed? || outcome.NoActiveChannel?) && id in snapshot.content.channels
    requires IsLoaded(snapshot.content.channels, rows, states, now)
    ensures var c, ch := Context(req, policy, snapshot.content.prices), snapshot.content.channels[id];
            var cooling := Cooling(rows, EffectiveBucket(rows, id, req.groupId), now);
            && (Exclusion(id, "circuit_open") in LeftOut(outcome) <==> PassesFirst(5, c, ch, now) && cooling)
            && (outcome.Routed? && cooling ==> id !in outcome.decision.order)
            && Exclusion(id, "circuit_cooling") !in LeftOut(outcome)
  {
    var c := Context(req, policy, snapshot.content.prices);
    RankedOrLeftOut(policy, replaying, group, snapshot, req, now, outcome, id);
    CircuitFailsIff(c, snapshot.content.channels, rows, states, now, id);
    assert Checks()[5] == CircuitOpen && Checks()[6] == CircuitCools;
    assert ReasonFor(Checks()[5]) == "circuit_open" && ReasonFor(Checks()[6]) == "circuit_cooling";
  }

  // ---- From a failure to the requests that follow ----

  /** The rows as the query of the snapshot returns them. */
  ghost predicate IsReadFrom(rows: seq<Reading>, store: map<Circuits.Key, Circuits.Row>) {
    && (forall k :: k in store ==> Reading(k.channel, k.bucket, store[k].state, Circuits.Deadline(store[k].until)) in rows)
    && (forall r :: r in rows ==> exists k :: k in store && r == Reading(k.channel, k.bucket, store[k].state, Circuits.Deadline(store[k].until)))
  }

  /** A failure of a closed circuit that makes too many takes the station out of the routing of its group until the
      initial cooling is over, whatever else the store holds. */
  lemma FailingStationIsLeftOut(samples: seq<Circuits.Sample>, s: Circuits.Sample, configs: Circuits.Configs, store: map<Circuits.Key, Circuits.Row>,
                                channels: map<int, Channel>, rows: seq<Reading>, states: map<(int, int), Circuits.State>, c: Context, now: int)
    requires Circuits.Usable(configs.global) && !s.skipCircuit && !s.success
    requires Openings.RowOf(samples, configs, Circuits.KeyOf(s)).state == Circuits.Closed
    requires var cfg := Circuits.EffectiveConfig(configs, s.group);
             Openings.TooManyFailures(samples + [s], Circuits.KeyOf(s), cfg, s.at) && now < s.at + cfg.initialCooling
    requires Circuits.KeyOf(s) in store && store[Circuits.KeyOf(s)] == Openings.RowOf(samples + [s], configs, Circuits.KeyOf(s))
    requires IsReadFrom(rows, store) && WellKeyed(channels) && IsLoaded(channels, rows, states, now)
    requires s.channel in channels && c.req.groupId == s.group
    ensures Fails(CircuitOpen, c, channels[s.channel], now)
  {
    var k := Circuits.KeyOf(s);
    Openings.StoreOpensIff(samples, s, configs, k);
    var r := Reading(k.channel, k.bucket, store[k].state, Circuits.Deadline(store[k].until));
    assert r in rows && BucketOf(r) == (s.channel, k.bucket);
    assert EffectiveBucket(rows, s.channel, c.req.groupId) == (s.channel, k.bucket);
    CircuitFailsIff(c, channels, rows, states, now, s.channel);
  }

  /** And once no row of its bucket cools any more it is let through again, to be probed. */
  lemma CooledStationIsProbed(store: map<Circuits.Key, Circuits.Row>, channels: map<int, Channel>, rows: seq<Reading>,
                              states: map<(int, int), Circuits.State>, c: Context, id: int, now: int)
    requires IsReadFrom(rows, store) && WellKeyed(channels) && IsLoaded(channels, rows, states, now) && id in channels
    requires forall k :: k in store && k.channel == id && store[k].state == Circuits.Open ==>
               Circuits.Effective(store[k].state, Circuits.Deadline(store[k].until), now) == Circuits.HalfOpen
    ensures !Fails(CircuitOpen, c, channels[id], now) && !Fails(CircuitCools, c, channels[id], now)
  {
    CircuitFailsIff(c, channels, rows, states, now, id);
    var key := EffectiveBucket(rows, id, c.req.groupId);
    forall r | r in rows && BucketOf(r) == key && r.state == Circuits.Open ensures now >= r.deadline {
      var k :| k in store && r == Reading(k.channel, k.bucket, store[k].state, Circuits.Deadline(store[k].until));
    }
  }
}
