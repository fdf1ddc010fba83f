/** Which channels a routing decision leaves out, and why, in plain terms (internal/router/filter.go, router.go). */
module RoutingGate {
  import opened Options
  import opened RoutingTypes
  import opened RoutingStrategies
  import opened Routing
  import opened RoutingTheorems
  import opened RoutingCriteria

  /** The circuit of the channel reads so for the group: its own bucket first, then that of all traffic, then closed.
      A channel without buckets has one state for all. */
  predicate ReadsCircuit(ch: Channel, group: Option<int>, state: string) {
    if ch.circuitStates.None? then state == ch.circuitState || (ch.circuitState == "" && state == "closed")
    else
      var m := ch.circuitStates.value;
      if group.Some? && group.value in m then state == m[group.value]
      else if 0 in m then state == m[0]
      else state == "closed"
  }

  /** The checks, in their order. */
  datatype Check = InNoGroup | Disabled | Unsupported | Incapable | TooExpensive | CircuitOpen | CircuitCools | TooSlow

  function Checks(): seq<Check> {
    [InNoGroup, Disabled, Unsupported, Incapable, TooExpensive, CircuitOpen, CircuitCools, TooSlow]
  }

  ghost predicate Fails(check: Check, c: Context, ch: Channel, now: int) {
    var model := c.req.model;
    match check
    case InNoGroup => c.req.groupIds != [] && forall g :: g in ch.groupIds ==> g !in c.req.groupIds
    case Disabled => !ch.enabled
    case Unsupported => model in ch.modelMapping ==> ch.modelMapping[model] == ""
    case Incapable => exists needed :: needed in c.req.capabilities && needed !in ch.capabilities
    case TooExpensive => exists cap :: IsSet(c.policy, "max_price_cap", 100.0, cap) && EstimateCost(c, ch) > cap
    case CircuitOpen => ReadsCircuit(ch, c.req.groupId, "open")
    case CircuitCools => ReadsCircuit(ch, c.req.groupId, "cooling") && now < ch.coolingUntil
    case TooSlow =>
      c.policy.strategy == "latency_first" && model in ch.ttftP50 && ch.ttftP50[model] > c.policy.GetConfigInt("max_ttft_ms", 5000)
  }

  function ReasonFor(check: Check): string {
    match check
    case InNoGroup => "group_not_allowed"
    case Disabled => "user_disabled"
    case Unsupported => "model_not_supported"
    case Incapable => "capability_missing"
    case TooExpensive => "over_price_cap"
    case CircuitOpen => "circuit_open"
    case CircuitCools => "circuit_cooling"
    case TooSlow => "latency_cap_exceeded"
  }

  ghost predicate PassesFirst(n: nat, c: Context, ch: Channel, now: int)
    requires n <= |Checks()|
  {
    forall i :: 0 <= i < n ==> !Fails(Checks()[i], c, ch, now)
  }

  /** The n-th check is the first that the channel fails. */
  ghost predicate FailsAt(n: nat, c: Context, ch: Channel, now: int) {
    n < |Checks()| && PassesFirst(n, c, ch, now) && Fails(Checks()[n], c, ch, now)
  }

  lemma ReadsOnlyOnce(ch: Channel, group: Option<int>, state: string)
    requires state != "" && state != "closed"
    ensures ReadsCircuit(ch, group, state) <==> CircuitStateForGroup(ch, group) == state
  {
  }

  lemma GroupCheck(c: Context, ch: Channel, now: int)
    ensures InGroups(ch, c.req.groupIds) <==> !Fails(InNoGroup, c, ch, now)
  {
  }

  lemma CapabilityCheck(c: Context, ch: Channel, now: int)
    ensures HasCapabilities(ch, c.req.capabilities) <==> !Fails(Incapable, c, ch, now)
  {
    if HasCapabilities(ch, c.req.capabilities) {
    } else {
      var i :| 0 <= i < |c.req.capabilities| && c.req.capabilities[i] !in ch.capabilities;
      assert c.req.capabilities[i] in c.req.capabilities;
    }
  }

  lemma PriceCheck(c: Context, ch: Channel, now: int)
    ensures EstimateCost(c, ch) > c.policy.GetConfigFloat("max_price_cap", 100.0) <==> Fails(TooExpensive, c, ch, now)
  {
    FloatIsSet(c.policy, "max_price_cap", 100.0);
  }

  lemma CircuitChecks(c: Context, ch: Channel, now: int)
    ensures CircuitStateForGroup(ch, c.req.groupId) == "open" <==> Fails(CircuitOpen, c, ch, now)
    ensures CircuitStateForGroup(ch, c.req.groupId) == "cooling" && now < ch.coolingUntil <==> Fails(CircuitCools, c, ch, now)
  {
    ReadsOnlyOnce(ch, c.req.groupId, "open");
    ReadsOnlyOnce(ch, c.req.groupId, "cooling");
  }

  /** The verdict on a channel is the reason for the first check it fails. */
  lemma VerdictIsFirstFailure(c: Context, ch: Channel, now: int) returns (n: nat)
    ensures n <= |Checks()| && PassesFirst(n, c, ch, now)
    ensures if n < |Checks()| then FailsAt(n, c, ch, now) && Verdict(c, ch, now) == Some(ReasonFor(Checks()[n]))
            else Verdict(c, ch, now) == None
  {
    GroupCheck(c, ch, now);
    CapabilityCheck(c, ch, now);
    PriceCheck(c, ch, now);
    CircuitChecks(c, ch, now);
    n := if Fails(InNoGroup, c, ch, now) then 0 else if Fails(Disabled, c, ch, now) then 1
         else if Fails(Unsupported, c, ch, now) then 2 else if Fails(Incapable, c, ch, now) then 3
         else if Fails(TooExpensive, c, ch, now) then 4 else if Fails(CircuitOpen, c, ch, now) then 5
         else if Fails(CircuitCools, c, ch, now) then 6 else if Fails(TooSlow, c, ch, now) then 7 else 8;
  }

  lemma ReasonsDiffer(a: Check, b: Check)
    ensures a != b ==> ReasonFor(a) != ReasonFor(b)
  {
    assert |ReasonFor(InNoGroup)| == 17 && |ReasonFor(Disabled)| == 13 && |ReasonFor(Unsupported)| == 19 && |ReasonFor(Incapable)| == 18;
    assert |ReasonFor(TooExpensive)| == 14 && |ReasonFor(CircuitOpen)| == 12 && |ReasonFor(CircuitCools)| == 15 && |ReasonFor(TooSlow)| == 20;
  }

  lemma ChecksDiffer(n: nat, m: nat)
    requires n < |Checks()| && m < |Checks()| && n != m
    ensures Checks()[n] != Checks()[m]
  {
  }

  /** A channel is listed with a reason exactly if that belongs to the first check it fails. */
  lemma ListedIff(c: Context, channels: map<int, Channel>, now: int, excluded: seq<Exclusion>, id: int, n: nat)
    requires IsExcluded(c, channels, now, channels.Keys, excluded) && id in channels && n < |Checks()|
    ensures Exclusion(id, ReasonFor(Checks()[n])) in excluded <==> FailsAt(n, c, channels[id], now)
  {
    var m := VerdictIsFirstFailure(c, channels[id], now);
    if m < |Checks()| && m != n {
      ChecksDiffer(n, m);
      ReasonsDiffer(Checks()[n], Checks()[m]);
    }
  }

  lemma RankedIff(c: Context, content: Content, now: int, d: Decision, id: int)
    requires WellKeyed(content.channels) && Decides(c, content, now, d) && id in content.channels
    ensures id in d.order <==> PassesFirst(|Checks()|, c, content.channels[id], now)
  {
    RankedOrExcluded(c, content, now, d, id);
    var n := VerdictIsFirstFailure(c, content.channels[id], now);
    if n < |Checks()| {
      assert Exclusion(id, ReasonFor(Checks()[n])) in d.excluded;
    }
  }

  /** The channels that an outcome leaves out, with the reasons. */
  function LeftOut(outcome: Outcome): seq<Exclusion> {
    match outcome
    case Routed(d) => d.excluded
    case NoActiveChannel(excluded) => excluded
    case _ => []
  }

  /** Routing ranks exactly the channels that pass all checks, and leaves each other one out with the reason for the
      first check it fails. */
  lemma RankedOrLeftOut(policy: Policy, replaying: bool, group: GroupLookup, snapshot: Snapshot, req: Request, now: int, outcome: Outcome, id: int)
    requires WellKeyed(snapshot.content.channels) && IsOutcome(policy, replaying, group, snapshot, req, now, outcome)
    requires (outcome.Routed? || outcome.NoActiveChannel?) && id in snapshot.content.channels
    ensures var c, ch := Context(req, policy, snapshot.content.prices), snapshot.content.channels[id];
            && (outcome.Routed? ==> (id in outcome.decision.order <==> PassesFirst(|Checks()|, c, ch, now)))
            && (outcome.NoActiveChannel? ==> !PassesFirst(|Checks()|, c, ch, now))
            && forall n: nat :: n < |Checks()| ==> (Exclusion(id, ReasonFor(Checks()[n])) in LeftOut(outcome) <==> FailsAt(n, c, ch, now))
  {
    var c, channels := Context(req, policy, snapshot.content.prices), snapshot.content.channels;
    if outcome.Routed? {
      RankedIff(c, snapshot.content, now, outcome.decision, id);
    } else {
      CandidateIff(c, channels, now, id);
    }
    forall n: nat | n < |Checks()|
      ensures Exclusion(id, ReasonFor(Checks()[n])) in LeftOut(outcome) <==> FailsAt(n, c, channels[id], now)
    {
      ListedIff(c, channels, now, LeftOut(outcome), id, n);
    }
  }

  lemma CandidateIff(c: Context, channels: map<int, Channel>, now: int, id: int)
    requires WellKeyed(channels) && id in channels
    ensures channels[id] in Candidates(c, channels, now) <==> PassesFirst(|Checks()|, c, channels[id], now)
  {
    var n := VerdictIsFirstFailure(c, channels[id], now);
  }
}
