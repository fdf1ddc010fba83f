/** The hard filter and the routing decision (internal/router/filter.go, router.go). */
module Routing {
  import opened Options
  import opened Rankings
  import opened RoutingTypes
  import opened RoutingStrategies

  // ---- The hard filter ----

  function CircuitStateForGroup(ch: Channel, group: Option<int>): string {
    match ch.circuitStates
    case None => if ch.circuitState == "" then "closed" else ch.circuitState
    case Some(states) =>
      var key := if group.Some? then group.value else 0;
      if key in states then states[key] else if 0 in states then states[0] else "closed"
  }

  predicate HasCapabilities(ch: Channel, needed: seq<string>) {
    forall i :: 0 <= i < |needed| ==> needed[i] in ch.capabilities
  }

  /** The reason for excluding a channel, if there is one; checks in the order of the source. */
  function Filter(c: Context, ch: Channel, now: int): Option<string> {
    var model := c.req.model;
    var circuit := CircuitStateForGroup(ch, c.req.groupId);
    if !ch.enabled then Some("user_disabled")
    else if model !in ch.modelMapping || ch.modelMapping[model] == "" then Some("model_not_supported")
    else if !HasCapabilities(ch, c.req.capabilities) then Some("capability_missing")
    else if EstimateCost(c, ch) > c.policy.GetConfigFloat("max_price_cap", 100.0) then Some("over_price_cap")
    else if circuit == "open" then Some("circuit_open")
    else if circuit == "cooling" && now < ch.coolingUntil then Some("circuit_cooling")
    else if c.policy.strategy == "latency_first" && model in ch.ttftP50
            && ch.ttftP50[model] > c.policy.GetConfigInt("max_ttft_ms", 5000) then Some("latency_cap_exceeded")
    else None
  }

  predicate InGroups(ch: Channel, groupIds: seq<int>) {
    groupIds == [] || exists g :: g in ch.groupIds && g in groupIds
  }

  function Verdict(c: Context, ch: Channel, now: int): Option<string> {
    if !InGroups(ch, c.req.groupIds) then Some("group_not_allowed") else Filter(c, ch, now)
  }

  // ---- The decision ----

  /** How the lookup of the request's group ended. */
  datatype GroupLookup = NotAsked | LoadFailed | Loaded(name: string, enabled: bool)

  datatype Exclusion = Exclusion(channelId: int, reason: string)

  datatype Decision = Decision(order: seq<int>, scores: map<int, real>, excluded: seq<Exclusion>, policy: Policy, epoch: int, checksum: string)

  datatype Outcome = GroupNotLoaded | GroupDisabled(name: string) | NoActiveChannel(excluded: seq<Exclusion>) | Routed(decision: Decision)

  function WithOverride(policy: Policy, overrideStrategy: string): Policy {
    if overrideStrategy != "" then policy.(strategy := overrideStrategy) else policy
  }

  /** An override names the strategy only. */
  lemma OverrideNamesStrategy(policy: Policy, overrideStrategy: string)
    ensures var p := WithOverride(policy, overrideStrategy);
            && p.config == policy.config && p.version == policy.version
            && p.strategy == if |overrideStrategy| > 0 then overrideStrategy else policy.strategy
  {
  }

  predicate WellKeyed(channels: map<int, Channel>) {
    forall id :: id in channels ==> channels[id].id == id
  }

  ghost function Candidates(c: Context, channels: map<int, Channel>, now: int): set<Channel> {
    set id | id in channels && Verdict(c, channels[id], now).None? :: channels[id]
  }

  /** Every channel that is not a candidate, once, with its reason; in no particular order. */
  ghost predicate IsExcluded(c: Context, channels: map<int, Channel>, now: int, ids: set<int>, excluded: seq<Exclusion>) {
    && (forall e :: e in excluded <==> e.channelId in ids && e.channelId in channels && Verdict(c, channels[e.channelId], now) == Some(e.reason))
    && (forall i, j :: 0 <= i < j < |excluded| ==> excluded[i] != excluded[j])
  }

  function Ids(r: seq<Scored>): (ids: seq<int>)
    ensures |ids| == |r| && forall i :: 0 <= i < |r| ==> ids[i] == r[i].channel.id
  {
    seq(|r|, i requires 0 <= i < |r| => r[i].channel.id)
  }

  /** The scores by channel, filled in the order of the ranking. */
  function ScoreMap(r: seq<Scored>): map<int, real> {
    if r == [] then map[] else ScoreMap(r[..|r| - 1])[r[|r| - 1].channel.id := r[|r| - 1].score]
  }

  /** The decision for a given context and content: it ranks exactly the candidates and excludes the
      rest. */
  ghost predicate Decides(c: Context, content: Content, now: int, d: Decision) {
    && IsExcluded(c, content.channels, now, content.channels.Keys, d.excluded)
    && d.policy == c.policy && d.order != []
    && exists r :: IsSorted(GetStrategy(c.policy.strategy), c, Candidates(c, content.channels, now), r)
                   && d.order == Ids(r) && d.scores == ScoreMap(r)
  }

  lemma CandidateIdsDistinct(c: Context, channels: map<int, Channel>, now: int)
    requires WellKeyed(channels)
    ensures DistinctIds(Candidates(c, channels, now))
  {
  }

  /** The candidates among the given channels, each once. */
  ghost predicate IsChosen(c: Context, channels: map<int, Channel>, now: int, ids: set<int>, candidates: seq<Channel>) {
    && (forall ch :: ch in candidates <==> ch.id in ids && ch.id in channels && ch == channels[ch.id] && Verdict(c, ch, now).None?)
    && (forall i, j :: 0 <= i < j < |candidates| ==> candidates[i] != candidates[j])
  }

  lemma AcceptOne(c: Context, channels: map<int, Channel>, now: int, done: set<int>, id: int, candidates: seq<Channel>, excluded: seq<Exclusion>)
    requires WellKeyed(channels) && id in channels && id !in done && Verdict(c, channels[id], now).None?
    requires IsChosen(c, channels, now, done, candidates) && IsExcluded(c, channels, now, done, excluded)
    ensures IsChosen(c, channels, now, done + {id}, candidates + [channels[id]]) && IsExcluded(c, channels, now, done + {id}, excluded)
  {
    assert forall i :: 0 <= i < |candidates| ==> candidates[i] in candidates;
  }

  lemma RejectOne(c: Context, channels: map<int, Channel>, now: int, done: set<int>, id: int, candidates: seq<Channel>, excluded: seq<Exclusion>)
    requires WellKeyed(channels) && id in channels && id !in done && Verdict(c, channels[id], now).Some?
    requires IsChosen(c, channels, now, done, candidates) && IsExcluded(c, channels, now, done, excluded)
    ensures IsChosen(c, channels, now, done + {id}, candidates)
    ensures IsExcluded(c, channels, now, done + {id}, excluded + [Exclusion(id, Verdict(c, channels[id], now).value)])
  {
    assert forall i :: 0 <= i < |excluded| ==> excluded[i] in excluded;
  }

  lemma AllChosen(c: Context, channels: map<int, Channel>, now: int, candidates: seq<Channel>)
    requires WellKeyed(channels) && IsChosen(c, channels, now, channels.Keys, candidates)
    ensures Elements(candidates) == Candidates(c, channels, now)
  {
  }

  lemma OneDone(all: set<int>, todo: set<int>, id: int)
    requires todo <= all && id in todo
    ensures all - (todo - {id}) == (all - todo) + {id} && |todo - {id}| < |todo|
  {
  }

  lemma SomeId(ids: set<int>)
    requires ids != {}
    ensures exists id :: id in ids
  {
    assert (forall id :: id !in ids) ==> ids == {};
  }

  /** The loop over the channels, in whatever order the map yields them. */
  method Partition(c: Context, channels: map<int, Channel>, now: int) returns (candidates: seq<Channel>, excluded: seq<Exclusion>)
    requires WellKeyed(channels)
    ensures Elements(candidates) == Candidates(c, channels, now)
    ensures forall i, j :: 0 <= i < j < |candidates| ==> candidates[i] != candidates[j]
    ensures IsExcluded(c, channels, now, channels.Keys, excluded)
  {
    candidates, excluded := [], [];
    var todo: set<int> := channels.Keys;
    ghost var done: set<int> := {};
    while todo != {}
      invariant todo <= channels.Keys && done == channels.Keys - todo
      invariant IsChosen(c, channels, now, done, candidates)
      invariant IsExcluded(c, channels, now, done, excluded)
      decreases |todo|
    {
      SomeId(todo);
      var id :| id in todo;
      OneDone(channels.Keys, todo, id);
      var verdict := Verdict(c, channels[id], now);
      if verdict.Some? {
        RejectOne(c, channels, now, done, id, candidates, excluded);
        excluded := excluded + [Exclusion(id, verdict.value)];
      } else {
        AcceptOne(c, channels, now, done, id, candidates, excluded);
        candidates := candidates + [channels[id]];
      }
      todo, done := todo - {id}, done + {id};
    }
    AllChosen(c, channels, now, candidates);
  }

  /** What Route returns, for the policy it was given or the override. */
  ghost predicate IsOutcome(policy: Policy, replaying: bool, group: GroupLookup, snapshot: Snapshot, req: Request, now: int, outcome: Outcome) {
    var c := Context(req, policy, snapshot.content.prices);
    var channels := snapshot.content.channels;
    && (outcome.GroupNotLoaded? <==> req.groupId.Some? && group.LoadFailed? && !replaying)
    && (outcome.GroupDisabled? <==> req.groupId.Some? && group.Loaded? && !group.enabled)
    && match outcome
       case NoActiveChannel(excluded) =>
         Candidates(c, channels, now) == {} && IsExcluded(c, channels, now, channels.Keys, excluded)
       case Routed(d) =>
         Decides(c, snapshot.content, now, d) && d.epoch == snapshot.epoch && d.checksum == snapshot.hash
       case _ => true
  }

  method Route(policy0: Policy, overrideStrategy: string, replaying: bool, group: GroupLookup,
               snapshot: Snapshot, req: Request, now: int) returns (outcome: Outcome)
    requires WellKeyed(snapshot.content.channels)
    ensures IsOutcome(WithOverride(policy0, overrideStrategy), replaying, group, snapshot, req, now, outcome)
  {
    if req.groupId.Some? {
      match group {
        case NotAsked =>
        case LoadFailed =>
          if !replaying {
            return GroupNotLoaded;
          }
        case Loaded(name, enabled) =>
          if !enabled {
            return GroupDisabled(name);
          }
      }
    }
    var policy := policy0;
    if overrideStrategy != "" {
      policy := policy.(strategy := overrideStrategy);
    }
    var c := Context(req, policy, snapshot.content.prices);
    var candidates, excluded := Partition(c, snapshot.content.channels, now);
    if |candidates| == 0 {
      return NoActiveChannel(excluded);
    }
    CandidateIdsDistinct(c, snapshot.content.channels, now);
    var scored := RoutingStrategies.Sort(GetStrategy(policy.strategy), c, candidates);
    SortedKeepsAll(GetStrategy(policy.strategy), c, Elements(candidates), scored, candidates[0]);
    var order, scores := CollectScores(scored);
    outcome := Routed(Decision(order, scores, excluded, policy, snapshot.epoch, snapshot.hash));
  }

  /** The result maps are filled in the order of the ranking. */
  method CollectScores(scored: seq<Scored>) returns (order: seq<int>, scores: map<int, real>)
    ensures order == Ids(scored) && scores == ScoreMap(scored)
  {
    order, scores := [], map[];
    for i := 0 to |scored|
      invariant order == Ids(scored[..i]) && scores == ScoreMap(scored[..i])
    {
      assert scored[..i + 1][..i] == scored[..i];
      scores := scores[scored[i].channel.id := scored[i].score];
      order := order + [scored[i].channel.id];
    }
    assert scored[..|scored|] == scored;
  }

  lemma SortedKeepsAll(strategy: Strategy, c: Context, channels: set<Channel>, r: seq<Scored>, ch: Channel)
    requires IsSorted(strategy, c, channels, r) && ch in channels
    ensures exists i: nat :: i < |r| && r[i].channel == ch
  {
    var m :| IsMaxima(c, channels, m) && IsRanking(Less(strategy, c), ScoredSet(strategy, c, m, channels), r);
    assert Scored(ch, Score(strategy, c, m, ch)) in r;
  }
}

/** Routing is a function of policy, request and snapshot content, and so can be replayed. */
module RoutingTheorems {
  import opened Options
  import opened Rankings
  import opened RoutingTypes
  import opened RoutingStrategies
  import opened Routing

  /** Two decisions on the same content agree in order, scores and the set of exclusions, whatever the
      order in which the channels were enumerated. The order of the exclusions may differ. */
  lemma DecisionIsDetermined(c: Context, content: Content, now: int, d: Decision, e: Decision)
    requires WellKeyed(content.channels) && Decides(c, content, now, d) && Decides(c, content, now, e)
    ensures d.order == e.order && d.scores == e.scores && forall x :: x in d.excluded <==> x in e.excluded
  {
    var candidates := Candidates(c, content.channels, now);
    var strategy := GetStrategy(c.policy.strategy);
    var r: seq<Scored> :| IsSorted(strategy, c, candidates, r) && d.order == Ids(r) && d.scores == ScoreMap(r);
    var s: seq<Scored> :| IsSorted(strategy, c, candidates, s) && e.order == Ids(s) && e.scores == ScoreMap(s);
    CandidateIdsDistinct(c, content.channels, now);
    SortingIsDetermined(strategy, c, candidates, r, s);
  }

  /** Each channel is either ranked, once, or excluded, once. */
  lemma RankedOrExcluded(c: Context, content: Content, now: int, d: Decision, id: int)
    requires WellKeyed(content.channels) && Decides(c, content, now, d) && id in content.channels
    ensures id in d.order <==> forall e :: e in d.excluded ==> e.channelId != id
    ensures forall i, j :: 0 <= i < j < |d.order| ==> d.order[i] != d.order[j]
    ensures forall i, j :: 0 <= i < j < |d.excluded| ==> d.excluded[i].channelId != d.excluded[j].channelId
  {
    var channels := content.channels;
    var candidates := Candidates(c, channels, now);
    var strategy := GetStrategy(c.policy.strategy);
    var r: seq<Scored> :| IsSorted(strategy, c, candidates, r) && d.order == Ids(r) && d.scores == ScoreMap(r);
    if Verdict(c, channels[id], now).None? {
      SortedKeepsAll(strategy, c, candidates, r, channels[id]);
      var i: nat :| i < |r| && r[i].channel == channels[id];
      assert d.order[i] == id;
    } else {
      var e := Exclusion(id, Verdict(c, channels[id], now).value);
      assert e in d.excluded;
      OnlyCandidatesRanked(strategy, c, candidates, r);
    }
    RankedOnce(c, channels, now, strategy, r);
    ExcludedOnce(c, channels, now, d.excluded);
  }

  lemma OnlyCandidatesRanked(strategy: Strategy, c: Context, candidates: set<Channel>, r: seq<Scored>)
    requires IsSorted(strategy, c, candidates, r)
    ensures forall i :: 0 <= i < |r| ==> r[i].channel in candidates
  {
    var m :| IsMaxima(c, candidates, m) && IsRanking(Less(strategy, c), ScoredSet(strategy, c, m, candidates), r);
    forall i | 0 <= i < |r| ensures r[i].channel in candidates {
      assert r[i] in r;
    }
  }

  lemma RankedOnce(c: Context, channels: map<int, Channel>, now: int, strategy: Strategy, r: seq<Scored>)
    requires WellKeyed(channels) && IsSorted(strategy, c, Candidates(c, channels, now), r)
    ensures forall i, j :: 0 <= i < j < |r| ==> r[i].channel.id != r[j].channel.id
  {
    var candidates := Candidates(c, channels, now);
    var m :| IsMaxima(c, candidates, m) && IsRanking(Less(strategy, c), ScoredSet(strategy, c, m, candidates), r);
    CandidateIdsDistinct(c, channels, now);
    forall i, j | 0 <= i < j < |r| ensures r[i].channel.id != r[j].channel.id {
      assert Less(strategy, c)(r[i], r[j]) && r[i] in r && r[j] in r;
      BeforeIsStrict(strategy, MetricsOf(c, r[i]), MetricsOf(c, r[j]), MetricsOf(c, r[j]));
    }
  }

  lemma ExcludedOnce(c: Context, channels: map<int, Channel>, now: int, excluded: seq<Exclusion>)
    requires IsExcluded(c, channels, now, channels.Keys, excluded)
    ensures forall i, j :: 0 <= i < j < |excluded| ==> excluded[i].channelId != excluded[j].channelId
  {
    forall i, j | 0 <= i < j < |excluded| ensures excluded[i].channelId != excluded[j].channelId {
      assert excluded[i] in excluded && excluded[j] in excluded;
    }
  }

  /** No channel reads "cooling" in the bucket of the request. The snapshot loader never produces that
      state; only a foreign archive could. */
  predicate NoCooling(channels: map<int, Channel>, group: Option<int>) {
    forall id :: id in channels ==> CircuitStateForGroup(channels[id], group) != "cooling"
  }

  lemma VerdictIgnoresTime(c: Context, channels: map<int, Channel>, now: int, later: int)
    requires NoCooling(channels, c.req.groupId)
    ensures forall id :: id in channels ==> Verdict(c, channels[id], now) == Verdict(c, channels[id], later)
  {
  }

  lemma DecisionIgnoresTime(c: Context, content: Content, now: int, later: int, d: Decision)
    requires NoCooling(content.channels, c.req.groupId) && Decides(c, content, later, d)
    ensures Decides(c, content, now, d)
  {
    VerdictIgnoresTime(c, content.channels, now, later);
    assert Candidates(c, content.channels, now) == Candidates(c, content.channels, later);
  }

  // ---- Policies that went through JSON ----

  function NumberFromJson(n: Number): Number { FloatNumber(AsReal(n)) }

  function FromJson(v: Value): Value {
    match v
    case Numeric(n) => Numeric(NumberFromJson(n))
    case Table(fields) => Table(map k | k in fields :: NumberFromJson(fields[k]))
    case Other => Other
  }

  /** The policy as the decision log gives it back: every number has become a float. */
  function Logged(p: Policy): Policy {
    Policy(p.strategy, p.version, map k | k in p.config :: FromJson(p.config[k]))
  }

  /** Reading the configuration gives the same values before and after. */
  lemma LoggedReadsTheSame(p: Policy, key: string, field: string, x: real, n: int)
    ensures Logged(p).GetConfigFloat(key, x) == p.GetConfigFloat(key, x)
    ensures Logged(p).GetConfigInt(key, n) == p.GetConfigInt(key, n)
    ensures Logged(p).GetConfigNestedFloat(key, field, x) == p.GetConfigNestedFloat(key, field, x)
  {
    if key in p.config && p.config[key].Numeric? && p.config[key].number.IntNumber? {
      assert Truncate(p.config[key].number.n as real) == p.config[key].number.n;
    }
  }

  function WithLogged(c: Context): Context {
    c.(policy := Logged(c.policy))
  }

  lemma LoggedCostsTheSame(c: Context, ch: Channel)
    ensures EstimateCost(WithLogged(c), ch) == EstimateCost(c, ch)
  {
    LoggedReadsTheSame(c.policy, "expected_output_ratio", "", 2.0, 0);
    PriceIgnoresPolicy(c, Logged(c.policy), ch);
  }

  lemma PriceIgnoresPolicy(c: Context, p: Policy, ch: Channel)
    ensures PriceOf(c.(policy := p), ch) == PriceOf(c, ch)
  {
  }

  lemma LoggedWeighsTheSame(p: Policy)
    ensures WeightsOf(Logged(p)) == WeightsOf(p)
  {
    LoggedReadsTheSame(p, "balanced_weights", "cost", 0.35, 0);
    LoggedReadsTheSame(p, "balanced_weights", "reliability", 0.30, 0);
    LoggedReadsTheSame(p, "balanced_weights", "latency", 0.25, 0);
    LoggedReadsTheSame(p, "balanced_weights", "load", 0.10, 0);
  }

  lemma LoggedFiltersTheSame(c: Context, ch: Channel, now: int)
    ensures Verdict(WithLogged(c), ch, now) == Verdict(c, ch, now)
  {
    LoggedReadsTheSame(c.policy, "max_price_cap", "", 100.0, 0);
    LoggedReadsTheSame(c.policy, "max_ttft_ms", "", 0.0, 5000);
    LoggedCostsTheSame(c, ch);
  }

  lemma LoggedScoresTheSame(strategy: Strategy, c: Context, m: Maxima, ch: Channel)
    requires m.cost >= 0.0 && m.ttft >= 0
    ensures Score(strategy, WithLogged(c), m, ch) == Score(strategy, c, m, ch)
  {
    LoggedCostsTheSame(c, ch);
    LoggedWeighsTheSame(c.policy);
  }

  lemma LoggedMeasuresTheSame(c: Context, channels: set<Channel>, m: Maxima)
    ensures IsMaxima(WithLogged(c), channels, m) == IsMaxima(c, channels, m)
  {
    forall ch ensures EstimateCost(WithLogged(c), ch) == EstimateCost(c, ch) {
      LoggedCostsTheSame(c, ch);
    }
  }

  lemma LoggedOrdersTheSame(strategy: Strategy, c: Context, a: Scored, b: Scored)
    ensures Less(strategy, WithLogged(c))(a, b) == Less(strategy, c)(a, b)
  {
    LoggedCostsTheSame(c, a.channel);
    LoggedCostsTheSame(c, b.channel);
    assert MetricsOf(WithLogged(c), a) == MetricsOf(c, a) && MetricsOf(WithLogged(c), b) == MetricsOf(c, b);
  }

  lemma SameOrderRanks(less: (Scored, Scored) -> bool, less': (Scored, Scored) -> bool, entries: set<Scored>, r: seq<Scored>)
    requires IsRanking(less, entries, r) && forall a, b :: less(a, b) == less'(a, b)
    ensures IsRanking(less', entries, r)
  {
  }

  lemma LoggedSortsTheSame(strategy: Strategy, c: Context, channels: set<Channel>, r: seq<Scored>)
    requires IsSorted(strategy, WithLogged(c), channels, r)
    ensures IsSorted(strategy, c, channels, r)
  {
    var k := WithLogged(c);
    var m :| IsMaxima(k, channels, m) && IsRanking(Less(strategy, k), ScoredSet(strategy, k, m, channels), r);
    LoggedMeasuresTheSame(c, channels, m);
    LoggedScoredSet(strategy, c, m, channels);
    forall a, b ensures Less(strategy, k)(a, b) == Less(strategy, c)(a, b) {
      LoggedOrdersTheSame(strategy, c, a, b);
    }
    SameOrderRanks(Less(strategy, k), Less(strategy, c), ScoredSet(strategy, c, m, channels), r);
  }

  lemma LoggedScoredSet(strategy: Strategy, c: Context, m: Maxima, channels: set<Channel>)
    requires m.cost >= 0.0 && m.ttft >= 0
    ensures ScoredSet(strategy, WithLogged(c), m, channels) == ScoredSet(strategy, c, m, channels)
  {
    forall ch ensures Score(strategy, WithLogged(c), m, ch) == Score(strategy, c, m, ch) {
      LoggedScoresTheSame(strategy, c, m, ch);
    }
  }

  lemma LoggedDecidesTheSame(c: Context, content: Content, now: int, d: Decision)
    requires Decides(WithLogged(c), content, now, d)
    ensures Decides(c, content, now, d.(policy := c.policy))
  {
    var k, channels := WithLogged(c), content.channels;
    forall ch ensures Verdict(k, ch, now) == Verdict(c, ch, now) {
      LoggedFiltersTheSame(c, ch, now);
    }
    assert Candidates(k, channels, now) == Candidates(c, channels, now);
    var strategy := GetStrategy(c.policy.strategy);
    var r: seq<Scored> :| IsSorted(strategy, k, Candidates(k, channels, now), r) && d.order == Ids(r) && d.scores == ScoreMap(r);
    LoggedSortsTheSame(strategy, c, Candidates(c, channels, now), r);
  }
}

/** Replaying logged decisions (internal/replay/replayer.go). */
module Replay {
  import opened Options
  import opened RoutingTypes
  import opened Routing
  import opened RoutingTheorems

  /** What the decision log keeps of a decision and of the request it answered. */
  datatype DecisionLog = DecisionLog(checksum: string, req: Request, effectivePolicy: Option<Policy>, selected: Option<int>)

  function LogDecision(req: Request, d: Decision): DecisionLog {
    DecisionLog(d.checksum, req, Some(Logged(d.policy)), if d.order == [] then None else Some(d.order[0]))
  }

  datatype ReplayResult = ReplayResult(originalChannel: int, replayChannel: int, channelChanged: bool, deterministic: bool)

  /** The hash stands for the content it was computed from. */
  ghost predicate Injective(hash: Content -> string) {
    forall a, b :: hash(a) == hash(b) ==> a == b
  }

  ghost predicate ArchiveValid(hash: Content -> string, archive: map<string, Snapshot>) {
    forall k :: k in archive ==> hash(archive[k].content) == k && WellKeyed(archive[k].content.channels)
  }

  /** What Route needs when archive or policy are missing: the present state. */
  datatype Present = Present(snapshot: Snapshot, policy: Policy)

  predicate Usable(log: DecisionLog) {
    log.effectivePolicy.Some? && log.effectivePolicy.value.strategy != ""
  }

  predicate Archived(log: DecisionLog, archive: map<string, Snapshot>) {
    log.checksum != "" && log.checksum in archive
  }

  function SnapshotFor(log: DecisionLog, archive: map<string, Snapshot>, present: Present): Snapshot {
    if Archived(log, archive) then archive[log.checksum] else present.snapshot
  }

  function PolicyFor(log: DecisionLog, newStrategy: string, present: Present): Policy {
    WithOverride(if Usable(log) then log.effectivePolicy.value else present.policy, newStrategy)
  }

  /** A successful replay compares the first channel then and now, and is marked deterministic exactly
      when both the archived snapshot and the logged policy were there. */
  ghost predicate IsReplay(log: DecisionLog, archive: map<string, Snapshot>, outcome: Outcome, result: Option<ReplayResult>) {
    && (result.Some? <==> outcome.Routed?)
    && (result.Some? ==>
          var original := if log.selected.Some? then log.selected.value else 0;
          && outcome.decision.order != []
          && result.value == ReplayResult(original, outcome.decision.order[0], original != outcome.decision.order[0],
                                          Archived(log, archive) && Usable(log)))
  }

  method ReplayOne(log: DecisionLog, newStrategy: string, archive: map<string, Snapshot>, present: Present,
                   group: GroupLookup, now: int) returns (result: Option<ReplayResult>, outcome: Outcome)
    requires WellKeyed(present.snapshot.content.channels)
    requires forall k :: k in archive ==> WellKeyed(archive[k].content.channels)
    ensures IsOutcome(PolicyFor(log, newStrategy, present), Usable(log), group, SnapshotFor(log, archive, present), log.req, now, outcome)
    ensures IsReplay(log, archive, outcome, result)
  {
    var deterministic := true;
    var snapshot := present.snapshot;
    if log.checksum != "" && log.checksum in archive {
      snapshot := archive[log.checksum];
    } else {
      deterministic := false;
    }
    var policy, override := present.policy, false;
    if log.effectivePolicy.Some? {
      if log.effectivePolicy.value.strategy != "" {
        policy, override := log.effectivePolicy.value, true;
      } else {
        deterministic := false;
      }
    } else {
      deterministic := false;
    }
    outcome := Route(policy, newStrategy, override, group, snapshot, log.req, now);
    result := Compare(log, outcome, deterministic);
  }

  /** The comparison of the replayed outcome with the logged one. */
  method Compare(log: DecisionLog, outcome: Outcome, deterministic: bool) returns (result: Option<ReplayResult>)
    requires outcome.Routed? ==> outcome.decision.order != []
    ensures result.Some? <==> outcome.Routed?
    ensures result.Some? ==>
              var original := if log.selected.Some? then log.selected.value else 0;
              result.value == ReplayResult(original, outcome.decision.order[0], original != outcome.decision.order[0], deterministic)
  {
    match outcome
    case Routed(d) =>
      var replayChannel := d.order[0];
      var originalChannel := if log.selected.Some? then log.selected.value else 0;
      result := Some(ReplayResult(originalChannel, replayChannel, originalChannel != replayChannel, deterministic));
    case _ =>
      result := None;
  }

  /** A decision that names no content is replayed on the present, and one without a strategy by the present policy. */
  lemma WithoutArchive(log: DecisionLog, newStrategy: string, archive: map<string, Snapshot>, present: Present)
    ensures log.checksum == "" || log.checksum !in archive ==> SnapshotFor(log, archive, present) == present.snapshot
    ensures log.effectivePolicy.None? || log.effectivePolicy.value.strategy == "" ==>
              PolicyFor(log, newStrategy, present) == WithOverride(present.policy, newStrategy)
  {
  }

  /** A logged decision, replayed without a new strategy on an archive that holds its content, comes out
      as it was: same order, same scores, same exclusions, whenever it is done. */
  lemma ReplayAgrees(hash: Content -> string, archive: map<string, Snapshot>, c: Context, content: Content, decided: int, d: Decision,
                     replayed: int, e: Decision)
    requires Injective(hash) && ArchiveValid(hash, archive) && WellKeyed(content.channels)
    requires c.prices == content.prices && NoCooling(content.channels, c.req.groupId)
    requires Decides(c, content, decided, d) && d.checksum == hash(content) && d.checksum in archive
    requires var log, s := LogDecision(c.req, d), archive[d.checksum];
             Decides(Context(log.req, WithOverride(log.effectivePolicy.value, ""), s.content.prices), s.content, replayed, e)
    ensures e.order == d.order && e.scores == d.scores && forall x :: x in e.excluded <==> x in d.excluded
  {
    assert archive[d.checksum].content == content;
    LoggedDecidesTheSame(c, content, replayed, e);
    DecisionIgnoresTime(c, content, decided, replayed, e.(policy := c.policy));
    DecisionIsDetermined(c, content, decided, d, e.(policy := c.policy));
  }

  /** A decision that had a candidate has one in the replay. */
  lemma ReplayHasCandidates(c: Context, content: Content, decided: int, d: Decision, replayed: int)
    requires Decides(c, content, decided, d) && NoCooling(content.channels, c.req.groupId)
    ensures Candidates(WithLogged(c), content.channels, replayed) != {}
  {
    var strategy := RoutingStrategies.GetStrategy(c.policy.strategy);
    var candidates := Candidates(c, content.channels, decided);
    var r: seq<RoutingStrategies.Scored> :| RoutingStrategies.IsSorted(strategy, c, candidates, r) && d.order == Ids(r);
    OnlyCandidatesRanked(strategy, c, Candidates(c, content.channels, decided), r);
    var ch := r[0].channel;
    VerdictIgnoresTime(c, content.channels, decided, replayed);
    LoggedFiltersTheSame(c, ch, replayed);
    assert ch in Candidates(WithLogged(c), content.channels, replayed);
  }

  lemma LogIsUsable(hash: Content -> string, archive: map<string, Snapshot>, present: Present, c: Context, content: Content, d: Decision)
    requires Injective(hash) && ArchiveValid(hash, archive) && d.checksum == hash(content) && Archived(LogDecision(c.req, d), archive)
    requires c.prices == content.prices && d.policy == c.policy && c.policy.strategy != "" && d.order != []
    ensures var log := LogDecision(c.req, d);
            && Usable(log) && log.selected == Some(d.order[0])
            && SnapshotFor(log, archive, present).content == content
            && Context(log.req, PolicyFor(log, "", present), content.prices) == WithLogged(c)
  {
  }

  /** So the replay of a logged decision whose content is archived reports no change, and is marked
      deterministic. It fails only if the group has been disabled since: that much of the present still
      enters. */
  lemma ReplayReportsNoChange(hash: Content -> string, archive: map<string, Snapshot>, c: Context, content: Content, decided: int, d: Decision,
                              present: Present, group: GroupLookup, replayed: int, outcome: Outcome, result: Option<ReplayResult>)
    requires Injective(hash) && ArchiveValid(hash, archive) && WellKeyed(content.channels)
    requires c.prices == content.prices && NoCooling(content.channels, c.req.groupId) && c.policy.strategy != ""
    requires Decides(c, content, decided, d) && d.checksum == hash(content)
    requires var log := LogDecision(c.req, d);
             && Archived(log, archive) && IsReplay(log, archive, outcome, result)
             && IsOutcome(PolicyFor(log, "", present), Usable(log), group, SnapshotFor(log, archive, present), log.req, replayed, outcome)
    ensures result.None? <==> c.req.groupId.Some? && group.Loaded? && !group.enabled
    ensures result.Some? ==> result.value == ReplayResult(d.order[0], d.order[0], false, true)
  {
    LogIsUsable(hash, archive, present, c, content, d);
    ReplayHasCandidates(c, content, decided, d, replayed);
    match outcome
    case Routed(e) =>
      ReplayAgrees(hash, archive, c, content, decided, d, replayed, e);
    case _ =>
  }
}
