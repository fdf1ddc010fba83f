/** What the routing decision goes by, in plain terms (internal/router/policy.go, strategy.go): settings, estimated
    costs, and the criteria of each strategy in their order. */
module RoutingCriteria {
  import opened Options
  import opened Rankings
  import opened RoutingTypes
  import opened RoutingStrategies
  import opened Routing
  import opened RoutingTheorems
  import opened BalancedTheorems

  // ---- Settings ----

  /** x is what the configuration says under the key; a key that is missing or no number stands for the default. */
  predicate IsSet(p: Policy, key: string, default: real, x: real) {
    if key in p.config && p.config[key].Numeric? then
      (p.config[key].number.IntNumber? ==> x == p.config[key].number.n as real)
      && (p.config[key].number.FloatNumber? ==> x == p.config[key].number.x)
    else x == default
  }

  lemma FloatIsSet(p: Policy, key: string, default: real)
    ensures IsSet(p, key, default, p.GetConfigFloat(key, default))
  {
  }

  /** A whole number is taken as it is; of another the fraction is dropped. */
  lemma IntIsSet(p: Policy, key: string, default: int, x: real)
    requires IsSet(p, key, default as real, x)
    ensures var n := p.GetConfigInt(key, default);
            if x >= 0.0 then n as real <= x < n as real + 1.0 else n as real - 1.0 < x <= n as real
  {
  }

  /** A field of a table can also be given under the flat key, which comes first. */
  lemma NestedIsSet(p: Policy, table: string, field: string, default: real)
    ensures var flat, x := table + "." + field, p.GetConfigNestedFloat(table, field, default);
            if flat in p.config && p.config[flat].Numeric? then IsSet(p, flat, default, x)
            else if table in p.config && p.config[table].Table? && field in p.config[table].fields
            then x == AsReal(p.config[table].fields[field]) else x == default
  {
  }

  // ---- Costs ----

  /** Output tokens: the request's own limit, else the input times the expected ratio, rounded down. */
  ghost predicate OutputTokens(c: Context, n: int) {
    if c.req.maxOutput != 0 then n == c.req.maxOutput
    else exists ratio :: IsSet(c.policy, "expected_output_ratio", 2.0, ratio) && n == Truncate(c.req.estimatedInput as real * ratio)
  }

  /** Prices per million tokens and the factor on them: the measured ratio on the official prices if it refers to them
      and they are known, and on 10 dollars if not; else the declared prices; else a cautious guess. */
  ghost predicate Priced(c: Context, ch: Channel, base: Price, factor: real) {
    var model := c.req.model;
    if model in ch.realRatio && ch.realRatio[model] > 0.0 then
      && factor == ch.realRatio[model]
      && if model in ch.realRatioBasis && ch.realRatioBasis[model] == "official" && exists p :: OfficiallyPriced(c, ch, p)
         then OfficiallyPriced(c, ch, base) else base == Price(10.0, 10.0)
    else if model in ch.declaredPrice && ch.declaredPrice[model].input > 0.0 && ch.declaredPrice[model].output > 0.0 then
      base == ch.declaredPrice[model] && factor == 1.0
    else base == Price(10.0, 30.0) && factor == 1.0
  }

  /** The two prices recorded with the ratio, if they are positive; else those known now, if they are. */
  ghost predicate OfficiallyPriced(c: Context, ch: Channel, p: Price) {
    var model := c.req.model;
    && p.input > 0.0 && p.output > 0.0
    && if (model in ch.officialIn && ch.officialIn[model] > 0.0) && (model in ch.officialOut && ch.officialOut[model] > 0.0)
       then p == Price(ch.officialIn[model], ch.officialOut[model])
       else model in c.prices && p == c.prices[model]
  }

  lemma PriceIs(c: Context, ch: Channel) returns (base: Price, factor: real)
    ensures Priced(c, ch, base, factor) && PriceOf(c, ch) == PerToken(base, factor)
  {
    var model := c.req.model;
    if model in ch.realRatio && ch.realRatio[model] > 0.0 {
      factor := ch.realRatio[model];
      var official := OfficialPrice(c, ch);
      assert official.input > 0.0 && official.output > 0.0 <==> OfficiallyPriced(c, ch, official);
      assert forall p :: OfficiallyPriced(c, ch, p) ==> p == official;
      base := if model in ch.realRatioBasis && ch.realRatioBasis[model] == "official" && official.input > 0.0 && official.output > 0.0
              then official else Price(10.0, 10.0);
    } else if model in ch.declaredPrice && ch.declaredPrice[model].input > 0.0 && ch.declaredPrice[model].output > 0.0 {
      base, factor := ch.declaredPrice[model], 1.0;
    } else {
      base, factor := Price(10.0, 30.0), 1.0;
    }
  }

  function Total(input: int, output: int, price: Price): real {
    input as real * price.input + output as real * price.output
  }

  lemma TotalIs(req: Request, ratio: real, n: int, price: Price)
    requires n == if req.maxOutput == 0 then Truncate(req.estimatedInput as real * ratio) else req.maxOutput
    ensures TotalCost(req, ratio, price) == Total(req.estimatedInput, n, price)
  {
  }

  lemma PerMillion(p: Price, factor: real)
    ensures PerToken(p, factor).input * 1000000.0 == factor * p.input && PerToken(p, factor).output * 1000000.0 == factor * p.output
  {
  }

  lemma TokensAre(c: Context) returns (ratio: real, n: int)
    ensures ratio == c.policy.GetConfigFloat("expected_output_ratio", 2.0)
    ensures OutputTokens(c, n) && n == if c.req.maxOutput == 0 then Truncate(c.req.estimatedInput as real * ratio) else c.req.maxOutput
  {
    ratio := c.policy.GetConfigFloat("expected_output_ratio", 2.0);
    FloatIsSet(c.policy, "expected_output_ratio", 2.0);
    n := if c.req.maxOutput == 0 then Truncate(c.req.estimatedInput as real * ratio) else c.req.maxOutput;
  }

  lemma EstimateForm(c: Context, ch: Channel, ratio: real)
    requires ratio == c.policy.GetConfigFloat("expected_output_ratio", 2.0)
    ensures EstimateCost(c, ch) == TotalCost(c.req, ratio, PriceOf(c, ch))
  {
  }

  /** The estimate is input tokens at the input price and output tokens at the output price, per token. */
  lemma CostIs(c: Context, ch: Channel) returns (n: int, base: Price, factor: real)
    ensures OutputTokens(c, n) && Priced(c, ch, base, factor)
    ensures EstimateCost(c, ch) == Total(c.req.estimatedInput, n, PerToken(base, factor))
  {
    var ratio;
    ratio, n := TokensAre(c);
    base, factor := PriceIs(c, ch);
    TotalIs(c.req, ratio, n, PerToken(base, factor));
    EstimateForm(c, ch, ratio);
  }

  // ---- The criteria of the strategies ----

  /** Roles in their order, and latencies that were never measured. */
  lemma RolesAndLatencies(role: string, ch: Channel, model: string)
    ensures RoleLevel("primary") == 3 && RoleLevel("backup") == 2 && RoleLevel("emergency") == 1
    ensures role != "primary" && role != "backup" && role != "emergency" ==> RoleLevel(role) == 0
    ensures Ttft(ch, model) == if model in ch.ttftP50 then ch.ttftP50[model] else 9999
    ensures TtftP95(ch, model) == if model in ch.ttftP95 then ch.ttftP95[model] else 9999
  {
    assert |"primary"| == 7 && |"backup"| == 6 && |"emergency"| == 9;
  }

  lemma StrategiesByName(name: string)
    ensures GetStrategy("price_first") == PriceFirst && GetStrategy("latency_first") == LatencyFirst
    ensures GetStrategy("reliability_first") == ReliabilityFirst && GetStrategy("balanced") == Balanced
    ensures name !in {"price_first", "latency_first", "reliability_first", "balanced"} ==> GetStrategy(name) == CustomPriority
  {
    assert |"price_first"| == 11 && |"latency_first"| == 13 && |"reliability_first"| == 17 && |"balanced"| == 8;
  }

  /** What a strategy compares, most important first; smaller is better. */
  function Criteria(strategy: Strategy, m: Metrics): seq<real> {
    var id, slow, poor := m.id as real, m.p50 as real, -m.reliability;
    match strategy
    case CustomPriority => [-(m.role as real), -(m.priority as real), poor, slow, id]
    case PriceFirst => [-m.score, poor, slow, id]
    case LatencyFirst => [slow, m.p95 as real, poor, id]
    case ReliabilityFirst => [poor, slow, m.cost, id]
    case Balanced => [-m.score, poor, id]
  }

  /** The first criterion in which they differ decides. */
  predicate Smaller(a: seq<real>, b: seq<real>) {
    exists i :: 0 <= i < |a| && i < |b| && a[i] < b[i] && forall j :: 0 <= j < i ==> a[j] == b[j]
  }

  lemma DecidedAt(a: seq<real>, b: seq<real>, i: nat)
    requires |a| == |b| && i < |a| && a[i] != b[i] && forall j :: 0 <= j < i ==> a[j] == b[j]
    ensures Smaller(a, b) <==> a[i] < b[i]
  {
  }

  lemma Undecided(a: seq<real>, b: seq<real>)
    requires a == b
    ensures !Smaller(a, b)
  {
  }

  lemma BeforeByCriteria(strategy: Strategy, a: Metrics, b: Metrics)
    ensures Before(strategy, a, b) <==> Smaller(Criteria(strategy, a), Criteria(strategy, b))
  {
    var x, y := Criteria(strategy, a), Criteria(strategy, b);
    if x[0] != y[0] {
      DecidedAt(x, y, 0);
    } else if x[1] != y[1] {
      DecidedAt(x, y, 1);
    } else if x[2] != y[2] {
      DecidedAt(x, y, 2);
    } else if |x| > 3 && x[3] != y[3] {
      DecidedAt(x, y, 3);
    } else if |x| > 4 && x[4] != y[4] {
      DecidedAt(x, y, 4);
    } else {
      Undecided(x, y);
    }
  }

  lemma RankingBehind(c: Context, content: Content, now: int, d: Decision) returns (m: Maxima, r: seq<Scored>)
    requires WellKeyed(content.channels) && Decides(c, content, now, d)
    ensures IsMaxima(c, Candidates(c, content.channels, now), m)
    ensures IsRanking(Less(GetStrategy(c.policy.strategy), c),
                      ScoredSet(GetStrategy(c.policy.strategy), c, m, Candidates(c, content.channels, now)), r)
    ensures d.order == Ids(r) && d.scores == ScoreMap(r)
    ensures forall i, j :: 0 <= i < j < |r| ==> r[i].channel.id != r[j].channel.id
  {
    var strategy, candidates := GetStrategy(c.policy.strategy), Candidates(c, content.channels, now);
    r :| IsSorted(strategy, c, candidates, r) && d.order == Ids(r) && d.scores == ScoreMap(r);
    m :| IsMaxima(c, candidates, m) && IsRanking(Less(strategy, c), ScoredSet(strategy, c, m, candidates), r);
    RankedOnce(c, content.channels, now, strategy, r);
  }

  lemma {:induction false} ScoreMapAt(r: seq<Scored>, i: nat)
    requires i < |r| && forall a, b :: 0 <= a < b < |r| ==> r[a].channel.id != r[b].channel.id
    ensures r[i].channel.id in ScoreMap(r) && ScoreMap(r)[r[i].channel.id] == r[i].score
  {
    var n := |r| - 1;
    if i < n {
      assert r[..n][i] == r[i];
      ScoreMapAt(r[..n], i);
    }
  }

  /** The candidate in place i of a decision, with its published score. */
  ghost predicate InPlace(content: Content, d: Decision, i: nat, s: Scored) {
    i < |d.order| && d.order[i] in content.channels && s.channel == content.channels[d.order[i]]
    && d.order[i] in d.scores && s.score == d.scores[d.order[i]]
  }

  lemma EntryInPlace(c: Context, content: Content, now: int, d: Decision, m: Maxima, r: seq<Scored>, i: nat)
    requires WellKeyed(content.channels) && IsMaxima(c, Candidates(c, content.channels, now), m) && i < |r|
    requires IsRanking(Less(GetStrategy(c.policy.strategy), c),
                       ScoredSet(GetStrategy(c.policy.strategy), c, m, Candidates(c, content.channels, now)), r)
    requires d.order == Ids(r) && d.scores == ScoreMap(r)
    requires forall i, j :: 0 <= i < j < |r| ==> r[i].channel.id != r[j].channel.id
    ensures InPlace(content, d, i, r[i]) && r[i].score == Score(GetStrategy(c.policy.strategy), c, m, r[i].channel)
    ensures r[i].channel in Candidates(c, content.channels, now)
  {
    ScoreMapAt(r, i);
    ScoreOfEntry(GetStrategy(c.policy.strategy), c, m, Candidates(c, content.channels, now), r, i);
  }

  /** Of two candidates of a decision the earlier one is better in the first criterion of its strategy in which they
      differ. */
  lemma OrderFollowsTheCriteria(c: Context, content: Content, now: int, d: Decision, i: nat, j: nat) returns (a: Scored, b: Scored)
    requires WellKeyed(content.channels) && Decides(c, content, now, d) && i < j < |d.order|
    ensures InPlace(content, d, i, a) && InPlace(content, d, j, b)
    ensures var strategy := GetStrategy(c.policy.strategy);
            Smaller(Criteria(strategy, MetricsOf(c, a)), Criteria(strategy, MetricsOf(c, b)))
  {
    var m, r := RankingBehind(c, content, now, d);
    EntryInPlace(c, content, now, d, m, r, i);
    EntryInPlace(c, content, now, d, m, r, j);
    a, b := r[i], r[j];
    assert Less(GetStrategy(c.policy.strategy), c)(a, b);
    BeforeByCriteria(GetStrategy(c.policy.strategy), MetricsOf(c, a), MetricsOf(c, b));
  }

  // ---- Scores ----

  /** How far below the largest value, as a share of it. */
  function ShareBelow(x: real, max: real): real {
    if max == 0.0 then 1.0 - x else 1.0 - x / max
  }

  /** The weights of the balanced strategy, in hundredths, unless configured. */
  lemma WeightsAre(p: Policy)
    ensures WeightsOf(p).cost == p.GetConfigNestedFloat("balanced_weights", "cost", 35.0 / 100.0)
    ensures WeightsOf(p).reliability == p.GetConfigNestedFloat("balanced_weights", "reliability", 30.0 / 100.0)
    ensures WeightsOf(p).latency == p.GetConfigNestedFloat("balanced_weights", "latency", 25.0 / 100.0)
    ensures WeightsOf(p).load == p.GetConfigNestedFloat("balanced_weights", "load", 10.0 / 100.0)
  {
  }

  /** Weighted shares: the lower the cost, latency and load the better. */
  function Balance(w: Weights, m: Maxima, cost: real, reliability: real, ttft: int, load: nat): real {
    w.cost * ShareBelow(cost, m.cost) + w.reliability * reliability
    + w.latency * ShareBelow(ttft as real, m.ttft as real) + w.load * ShareBelow(load as real, m.load as real)
  }

  /** What the published score is made of. */
  ghost predicate ScoredFor(strategy: Strategy, c: Context, m: Maxima, ch: Channel, score: real) {
    match strategy
    case CustomPriority => ScoredByPriority(ch, Ttft(ch, c.req.model), score)
    case PriceFirst => score + EstimateCost(c, ch) == 0.0
    case LatencyFirst => score + Ttft(ch, c.req.model) as real == 0.0
    case ReliabilityFirst => score == ch.reliability
    case Balanced =>
      score == Balance(WeightsOf(c.policy), m, EstimateCost(c, ch), ch.reliability, Ttft(ch, c.req.model), ch.recentAttempts)
  }

  /** 100 points a role level, 1 a priority, 10 for full reliability, and 1000 over the latency if that is positive. */
  predicate ScoredByPriority(ch: Channel, ttft: int, score: real) {
    var rest := score - 100.0 * RoleLevel(ch.role) as real - ch.userPriority as real - 10.0 * ch.reliability;
    if ttft > 0 then rest * ttft as real == 1000.0 else rest == 0.0
  }

  lemma CompositeIs(w: Weights, m: Maxima, cost: real, reliability: real, ttft: int, load: nat)
    requires m.cost >= 0.0 && m.ttft >= 0 && load <= m.load
    ensures CompositeScore(w, Divisors(m), cost, reliability, ttft, load) == Balance(w, m, cost, reliability, ttft, load)
  {
    assert CostScore(Divisors(m), cost) == ShareBelow(cost, m.cost);
    assert LatencyScore(Divisors(m), ttft) == ShareBelow(ttft as real, m.ttft as real);
    assert LoadScore(Divisors(m), load) == ShareBelow(load as real, m.load as real);
  }

  lemma BonusIs(ttft: int)
    ensures if ttft > 0 then LatencyBonus(ttft) * ttft as real == 1000.0 else LatencyBonus(ttft) == 0.0
  {
  }

  lemma PriorityScoreIs(ch: Channel, ttft: int)
    ensures ScoredByPriority(ch, ttft, PriorityScore(ch, ttft))
  {
    BonusIs(ttft);
    var score, bonus := PriorityScore(ch, ttft), LatencyBonus(ttft);
    assert score - 100.0 * RoleLevel(ch.role) as real - ch.userPriority as real - 10.0 * ch.reliability == bonus;
  }

  lemma ScoreIs(strategy: Strategy, c: Context, m: Maxima, channels: set<Channel>, ch: Channel)
    requires IsMaxima(c, channels, m) && ch in channels
    ensures ScoredFor(strategy, c, m, ch, Score(strategy, c, m, ch))
  {
    match strategy
    case Balanced =>
      CompositeIs(WeightsOf(c.policy), m, EstimateCost(c, ch), ch.reliability, Ttft(ch, c.req.model), ch.recentAttempts);
    case CustomPriority => PriorityScoreIs(ch, Ttft(ch, c.req.model));
    case _ =>
  }

  lemma EntryScored(c: Context, content: Content, now: int, d: Decision, m: Maxima, r: seq<Scored>, i: nat)
    requires WellKeyed(content.channels) && IsMaxima(c, Candidates(c, content.channels, now), m) && i < |r|
    requires IsRanking(Less(GetStrategy(c.policy.strategy), c),
                       ScoredSet(GetStrategy(c.policy.strategy), c, m, Candidates(c, content.channels, now)), r)
    requires d.order == Ids(r) && d.scores == ScoreMap(r)
    requires forall i, j :: 0 <= i < j < |r| ==> r[i].channel.id != r[j].channel.id
    ensures d.order[i] in content.channels && d.order[i] in d.scores
    ensures ScoredFor(GetStrategy(c.policy.strategy), c, m, content.channels[d.order[i]], d.scores[d.order[i]])
  {
    EntryInPlace(c, content, now, d, m, r, i);
    ScoreIs(GetStrategy(c.policy.strategy), c, m, Candidates(c, content.channels, now), r[i].channel);
  }

  /** The published scores, on the largest cost, latency and load among the candidates. */
  lemma ScoresAre(c: Context, content: Content, now: int, d: Decision) returns (m: Maxima)
    requires WellKeyed(content.channels) && Decides(c, content, now, d)
    ensures IsMaxima(c, Candidates(c, content.channels, now), m)
    ensures forall id :: id in d.order ==> id in content.channels && id in d.scores
    ensures forall id :: id in d.order ==> ScoredFor(GetStrategy(c.policy.strategy), c, m, content.channels[id], d.scores[id])
  {
    var r;
    m, r := RankingBehind(c, content, now, d);
    forall id | id in d.order
      ensures id in content.channels && id in d.scores
      ensures ScoredFor(GetStrategy(c.policy.strategy), c, m, content.channels[id], d.scores[id])
    {
      var i: nat :| i < |d.order| && d.order[i] == id;
      EntryScored(c, content, now, d, m, r, i);
    }
  }
}
