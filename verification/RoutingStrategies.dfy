/** The five sorting strategies (internal/router/strategy.go). */
module RoutingStrategies {
  import opened Options
  import opened RoutingTypes
  import opened Rankings

  datatype Strategy = CustomPriority | PriceFirst | LatencyFirst | ReliabilityFirst | Balanced

  function GetStrategy(name: string): Strategy {
    if name == "price_first" then PriceFirst
    else if name == "latency_first" then LatencyFirst
    else if name == "reliability_first" then ReliabilityFirst
    else if name == "balanced" then Balanced
    else CustomPriority
  }

  datatype Scored = Scored(channel: Channel, score: real)

  /** What the comparators look at. */
  datatype Metrics = Metrics(score: real, cost: real, role: int, priority: int, reliability: real, p50: int, p95: int, id: int)

  function MetricsOf(c: Context, s: Scored): Metrics {
    Metrics(s.score, EstimateCost(c, s.channel), RoleLevel(s.channel.role), s.channel.userPriority, s.channel.reliability,
            Ttft(s.channel, c.req.model), TtftP95(s.channel, c.req.model), s.channel.id)
  }

  predicate Before(strategy: Strategy, a: Metrics, b: Metrics) {
    match strategy
    case CustomPriority =>
      if a.role != b.role then a.role > b.role
      else if a.priority != b.priority then a.priority > b.priority
      else if a.reliability != b.reliability then a.reliability > b.reliability
      else if a.p50 != b.p50 then a.p50 < b.p50
      else a.id < b.id
    case PriceFirst =>
      if -a.score != -b.score then -a.score < -b.score
      else if a.reliability != b.reliability then a.reliability > b.reliability
      else if a.p50 != b.p50 then a.p50 < b.p50
      else a.id < b.id
    case LatencyFirst =>
      if a.p50 != b.p50 then a.p50 < b.p50
      else if a.p95 != b.p95 then a.p95 < b.p95
      else if a.reliability != b.reliability then a.reliability > b.reliability
      else a.id < b.id
    case ReliabilityFirst =>
      if a.reliability != b.reliability then a.reliability > b.reliability
      else if a.p50 != b.p50 then a.p50 < b.p50
      else if a.cost != b.cost then a.cost < b.cost
      else a.id < b.id
    case Balanced =>
      if a.score != b.score then a.score > b.score
      else if a.reliability != b.reliability then a.reliability > b.reliability
      else a.id < b.id
  }

  lemma BeforeIsStrict(strategy: Strategy, a: Metrics, b: Metrics, c: Metrics)
    ensures Before(strategy, a, b) ==> !Before(strategy, b, a)
    ensures Before(strategy, a, b) && Before(strategy, b, c) ==> Before(strategy, a, c)
    ensures a.id != b.id ==> Before(strategy, a, b) || Before(strategy, b, a)
  {
  }

  function Less(strategy: Strategy, c: Context): (Scored, Scored) -> bool {
    (a, b) => Before(strategy, MetricsOf(c, a), MetricsOf(c, b))
  }

  /** The largest cost, latency and load among the candidates, never below 0. */
  datatype Maxima = Maxima(cost: real, ttft: int, load: int)

  /** Divisors of the normalisation: a zero maximum of cost or latency counts as 1. */
  function Divisors(m: Maxima): Maxima {
    Maxima(if m.cost == 0.0 then 1.0 else m.cost, if m.ttft == 0 then 1 else m.ttft, m.load)
  }

  /** The largest value of the candidates, or 0 if none is above that. */
  ghost predicate IsMaximum(value: Channel -> real, channels: set<Channel>, max: real) {
    && max >= 0.0 && (forall ch :: ch in channels ==> value(ch) <= max)
    && (max == 0.0 || exists ch :: ch in channels && value(ch) == max)
  }

  function CostOf(c: Context): Channel -> real { (ch: Channel) => EstimateCost(c, ch) }

  function TtftOf(c: Context): Channel -> real { (ch: Channel) => Ttft(ch, c.req.model) as real }

  function LoadOf(): Channel -> real { (ch: Channel) => ch.recentAttempts as real }

  ghost predicate IsMaxima(c: Context, channels: set<Channel>, m: Maxima) {
    && IsMaximum(CostOf(c), channels, m.cost)
    && IsMaximum(TtftOf(c), channels, m.ttft as real)
    && IsMaximum(LoadOf(), channels, m.load as real)
  }

  lemma MaximaUnique(c: Context, channels: set<Channel>, m: Maxima, n: Maxima)
    requires IsMaxima(c, channels, m) && IsMaxima(c, channels, n)
    ensures m == n
  {
  }

  datatype Weights = Weights(cost: real, reliability: real, latency: real, load: real)

  function WeightsOf(p: Policy): Weights {
    Weights(p.GetConfigNestedFloat("balanced_weights", "cost", 0.35),
            p.GetConfigNestedFloat("balanced_weights", "reliability", 0.30),
            p.GetConfigNestedFloat("balanced_weights", "latency", 0.25),
            p.GetConfigNestedFloat("balanced_weights", "load", 0.10))
  }

  /** Without recent attempts anywhere every channel counts as idle. */
  function LoadScore(m: Maxima, load: int): real {
    if m.load > 0 then 1.0 - load as real / m.load as real else 1.0
  }

  function CostScore(m: Maxima, cost: real): real
    requires m.cost > 0.0
  {
    1.0 - cost / m.cost
  }

  function LatencyScore(m: Maxima, ttft: int): real
    requires m.ttft > 0
  {
    1.0 - ttft as real / m.ttft as real
  }

  function Weigh(w: Weights, cost: real, reliability: real, latency: real, load: real): real {
    w.cost * cost + w.reliability * reliability + w.latency * latency + w.load * load
  }

  function CompositeScore(w: Weights, m: Maxima, cost: real, reliability: real, ttft: int, load: int): real
    requires m.cost > 0.0 && m.ttft > 0
  {
    Weigh(w, CostScore(m, cost), reliability, LatencyScore(m, ttft), LoadScore(m, load))
  }

  /** What the score of custom priority grants for a latency. */
  function LatencyBonus(ttft: int): real { if ttft > 0 then 1000.0 / ttft as real else 0.0 }

  function PriorityScore(ch: Channel, ttft: int): real {
    RoleLevel(ch.role) as real * 100.0 + ch.userPriority as real + ch.reliability * 10.0 +
    LatencyBonus(ttft)
  }

  function Score(strategy: Strategy, c: Context, m: Maxima, ch: Channel): real
    requires m.cost >= 0.0 && m.ttft >= 0
  {
    match strategy
    case CustomPriority => PriorityScore(ch, Ttft(ch, c.req.model))
    case PriceFirst => -EstimateCost(c, ch)
    case LatencyFirst => (-Ttft(ch, c.req.model)) as real
    case ReliabilityFirst => ch.reliability
    case Balanced =>
      CompositeScore(WeightsOf(c.policy), Divisors(m), EstimateCost(c, ch), ch.reliability, Ttft(ch, c.req.model), ch.recentAttempts)
  }

  ghost function ScoredSet(strategy: Strategy, c: Context, m: Maxima, channels: set<Channel>): set<Scored>
    requires m.cost >= 0.0 && m.ttft >= 0
  {
    set ch | ch in channels :: Scored(ch, Score(strategy, c, m, ch))
  }

  /** What Sort promises: the candidates with their scores, ranked. */
  ghost predicate IsSorted(strategy: Strategy, c: Context, channels: set<Channel>, r: seq<Scored>) {
    exists m :: IsMaxima(c, channels, m) && IsRanking(Less(strategy, c), ScoredSet(strategy, c, m, channels), r)
  }

  ghost predicate DistinctIds(channels: set<Channel>) {
    forall a, b :: a in channels && b in channels && a.id == b.id ==> a == b
  }

  lemma ScoredOrderIsTotal(strategy: Strategy, c: Context, m: Maxima, channels: set<Channel>)
    requires DistinctIds(channels) && m.cost >= 0.0 && m.ttft >= 0
    ensures StrictTotal(Less(strategy, c), Whole(ScoredSet(strategy, c, m, channels)))
  {
    var less := Less(strategy, c);
    forall x, y ensures less(x, y) ==> !less(y, x) {
      BeforeIsStrict(strategy, MetricsOf(c, x), MetricsOf(c, y), MetricsOf(c, y));
    }
    forall x, y, z ensures less(x, y) && less(y, z) ==> less(x, z) {
      BeforeIsStrict(strategy, MetricsOf(c, x), MetricsOf(c, y), MetricsOf(c, z));
    }
    forall x: Scored, y: Scored | x.channel.id != y.channel.id ensures less(x, y) || less(y, x) {
      BeforeIsStrict(strategy, MetricsOf(c, x), MetricsOf(c, y), MetricsOf(c, y));
    }
  }

  /** Whatever the order in which the candidates are listed, sorting gives one and the same result. */
  lemma SortingIsDetermined(strategy: Strategy, c: Context, channels: set<Channel>, r: seq<Scored>, s: seq<Scored>)
    requires DistinctIds(channels) && IsSorted(strategy, c, channels, r) && IsSorted(strategy, c, channels, s)
    ensures r == s
  {
    var m :| IsMaxima(c, channels, m) && IsRanking(Less(strategy, c), ScoredSet(strategy, c, m, channels), r);
    var n :| IsMaxima(c, channels, n) && IsRanking(Less(strategy, c), ScoredSet(strategy, c, n, channels), s);
    MaximaUnique(c, channels, m, n);
    ScoredOrderIsTotal(strategy, c, m, channels);
    RankingUnique(Less(strategy, c), ScoredSet(strategy, c, m, channels), r, s);
  }

  /** The running maxima of the normalisation. */
  method FindMaxima(c: Context, candidates: seq<Channel>) returns (m: Maxima)
    ensures IsMaxima(c, Elements(candidates), m)
  {
    m := Maxima(0.0, 0, 0);
    for i := 0 to |candidates|
      invariant IsMaxima(c, Elements(candidates[..i]), m)
    {
      var ch := candidates[i];
      var cost, ttft := EstimateCost(c, ch), Ttft(ch, c.req.model);
      ghost var before := Elements(candidates[..i]);
      assert candidates[..i + 1] == candidates[..i] + [ch];
      assert Elements(candidates[..i + 1]) == before + {ch};
      OneMore(CostOf(c), before, ch, m.cost);
      OneMore(TtftOf(c), before, ch, m.ttft as real);
      OneMore(LoadOf(), before, ch, m.load as real);
      if cost > m.cost {
        m := m.(cost := cost);
      }
      if ttft > m.ttft {
        m := m.(ttft := ttft);
      }
      if ch.recentAttempts > m.load {
        m := m.(load := ch.recentAttempts);
      }
    }
    assert candidates[..|candidates|] == candidates;
  }

  lemma OneMore(value: Channel -> real, channels: set<Channel>, ch: Channel, max: real)
    requires IsMaximum(value, channels, max)
    ensures IsMaximum(value, channels + {ch}, if value(ch) > max then value(ch) else max)
  {
    assert ch in channels + {ch};
    assert forall x :: x in channels ==> x in channels + {ch};
  }

  method Sort(strategy: Strategy, c: Context, candidates: seq<Channel>) returns (scores: seq<Scored>)
    requires DistinctIds(Elements(candidates))
    requires forall i, j :: 0 <= i < j < |candidates| ==> candidates[i] != candidates[j]
    ensures IsSorted(strategy, c, Elements(candidates), scores)
  {
    var m := FindMaxima(c, candidates);
    var unsorted: seq<Scored> := [];
    for i := 0 to |candidates|
      invariant |unsorted| == i
      invariant forall j :: 0 <= j < i ==> unsorted[j] == Scored(candidates[j], Score(strategy, c, m, candidates[j]))
    {
      unsorted := unsorted + [Scored(candidates[i], Score(strategy, c, m, candidates[i]))];
    }
    AllScored(strategy, c, m, candidates, unsorted);
    ScoredOrderIsTotal(strategy, c, m, Elements(candidates));
    scores := Rankings.Sort(Less(strategy, c), unsorted);
  }

  lemma AllScored(strategy: Strategy, c: Context, m: Maxima, candidates: seq<Channel>, scores: seq<Scored>)
    requires m.cost >= 0.0 && m.ttft >= 0 && |scores| == |candidates|
    requires forall j :: 0 <= j < |scores| ==> scores[j] == Scored(candidates[j], Score(strategy, c, m, candidates[j]))
    ensures Elements(scores) == ScoredSet(strategy, c, m, Elements(candidates))
  {
    forall s ensures s in scores <==> s in ScoredSet(strategy, c, m, Elements(candidates)) {
      if s in scores {
        var j :| 0 <= j < |scores| && scores[j] == s;
        assert candidates[j] in candidates;
      }
      if s in ScoredSet(strategy, c, m, Elements(candidates)) {
        var j :| 0 <= j < |candidates| && candidates[j] == s.channel;
        assert scores[j] in scores;
      }
    }
  }
}

/** What the balanced strategy promises beyond a definite order. */
module BalancedTheorems {
  import opened RoutingTypes
  import opened RoutingStrategies
  import opened Rankings

  lemma Share(x: real, max: real)
    requires 0.0 <= x <= max && max > 0.0
    ensures 0.0 <= 1.0 - x / max <= 1.0
  {
    assert x / max <= 1.0 && x / max >= 0.0;
  }

  lemma ShareFalls(x: real, y: real, max: real)
    requires x <= y && max > 0.0
    ensures 1.0 - x / max >= 1.0 - y / max
    ensures x < y ==> 1.0 - x / max > 1.0 - y / max
  {
    assert (y - x) / max == y / max - x / max;
    assert (y - x) / max >= 0.0;
    if x < y {
      assert (y - x) / max > 0.0;
    }
  }

  lemma WeightedWithin(w: real, a: real)
    requires w >= 0.0 && 0.0 <= a <= 1.0
    ensures 0.0 <= w * a <= w
  {
    assert w * (1.0 - a) >= 0.0;
  }

  predicate NonNegative(w: Weights) {
    w.cost >= 0.0 && w.reliability >= 0.0 && w.latency >= 0.0 && w.load >= 0.0
  }

  function Cost(c: Context, ch: Channel): real { EstimateCost(c, ch) }

  /** No worse in any of the four respects, and better in one that carries weight. */
  predicate Dominates(c: Context, a: Channel, b: Channel) {
    var w := WeightsOf(c.policy);
    && Cost(c, a) <= Cost(c, b) && a.reliability >= b.reliability
    && Ttft(a, c.req.model) <= Ttft(b, c.req.model) && a.recentAttempts <= b.recentAttempts
    && ((w.cost > 0.0 && Cost(c, a) < Cost(c, b)) || (w.reliability > 0.0 && a.reliability > b.reliability)
        || (w.latency > 0.0 && Ttft(a, c.req.model) < Ttft(b, c.req.model))
        || (w.load > 0.0 && a.recentAttempts < b.recentAttempts))
  }

  lemma WeighRises(w: Weights, c: real, c': real, r: real, r': real, l: real, l': real, f: real, f': real)
    requires NonNegative(w) && c >= c' && r >= r' && l >= l' && f >= f'
    requires (w.cost > 0.0 && c > c') || (w.reliability > 0.0 && r > r') || (w.latency > 0.0 && l > l') || (w.load > 0.0 && f > f')
    ensures Weigh(w, c, r, l, f) > Weigh(w, c', r', l', f')
  {
    Products(w.cost, c, c', w.reliability, r, r', w.latency, l, l', w.load, f, f');
  }

  lemma Sign(w: real, d: real)
    requires w >= 0.0 && d >= 0.0
    ensures w * d >= 0.0 && (w > 0.0 && d > 0.0 ==> w * d > 0.0)
  {
  }

  lemma Distribute(w: real, b: real, d: real)
    ensures w * (b + d) == w * b + w * d
  {
  }

  /** The weighted gain in one respect. */
  lemma Gain(w: real, a: real, b: real) returns (gain: real)
    requires w >= 0.0 && a >= b
    ensures gain >= 0.0 && w * a == w * b + gain && (w > 0.0 && a > b ==> gain > 0.0)
  {
    var d := a - b;
    gain := w * d;
    assert gain >= 0.0 && (w > 0.0 && d > 0.0 ==> gain > 0.0) by {
      Sign(w, d);
    }
    assert w * a == w * b + gain by {
      Distribute(w, b, d);
      assert a == b + d;
    }
  }

  lemma Products(u: real, a: real, a': real, v: real, b: real, b': real, x: real, c: real, c': real, y: real, d: real, d': real)
    requires u >= 0.0 && v >= 0.0 && x >= 0.0 && y >= 0.0 && a >= a' && b >= b' && c >= c' && d >= d'
    requires (u > 0.0 && a > a') || (v > 0.0 && b > b') || (x > 0.0 && c > c') || (y > 0.0 && d > d')
    ensures u * a + v * b + x * c + y * d > u * a' + v * b' + x * c' + y * d'
  {
    var p := Gain(u, a, a');
    var q := Gain(v, b, b');
    var s := Gain(x, c, c');
    var t := Gain(y, d, d');
    assert p > 0.0 || q > 0.0 || s > 0.0 || t > 0.0;
  }

  lemma CompositeDominates(w: Weights, m: Maxima, costA: real, costB: real, relA: real, relB: real,
                           ttftA: int, ttftB: int, loadA: nat, loadB: nat)
    requires NonNegative(w) && m.cost > 0.0 && m.ttft > 0 && loadB <= m.load
    requires costA <= costB && relA >= relB && ttftA <= ttftB && loadA <= loadB
    requires (w.cost > 0.0 && costA < costB) || (w.reliability > 0.0 && relA > relB)
             || (w.latency > 0.0 && ttftA < ttftB) || (w.load > 0.0 && loadA < loadB)
    ensures CompositeScore(w, m, costA, relA, ttftA, loadA) > CompositeScore(w, m, costB, relB, ttftB, loadB)
  {
    ShareFalls(costA, costB, m.cost);
    ShareFalls(ttftA as real, ttftB as real, m.ttft as real);
    LoadFalls(m, loadA, loadB);
    WeighRises(w, CostScore(m, costA), CostScore(m, costB), relA, relB, LatencyScore(m, ttftA), LatencyScore(m, ttftB),
               LoadScore(m, loadA), LoadScore(m, loadB));
  }

  lemma LoadFalls(m: Maxima, a: nat, b: nat)
    requires a <= b <= m.load
    ensures LoadScore(m, a) >= LoadScore(m, b) && (a < b ==> LoadScore(m, a) > LoadScore(m, b))
  {
    if m.load > 0 {
      ShareFalls(a as real, b as real, m.load as real);
    }
  }

  lemma DominanceScoresHigher(c: Context, m: Maxima, channels: set<Channel>, a: Channel, b: Channel)
    requires IsMaxima(c, channels, m) && b in channels && NonNegative(WeightsOf(c.policy)) && Dominates(c, a, b)
    ensures Score(Balanced, c, m, a) > Score(Balanced, c, m, b)
  {
    CompositeDominates(WeightsOf(c.policy), Divisors(m), Cost(c, a), Cost(c, b), a.reliability, b.reliability,
                       Ttft(a, c.req.model), Ttft(b, c.req.model), a.recentAttempts, b.recentAttempts);
  }

  lemma DominanceShowsInScore(c: Context, channels: set<Channel>, r: seq<Scored>, i: nat, j: nat)
    requires IsSorted(Balanced, c, channels, r) && i < |r| && j < |r|
    requires NonNegative(WeightsOf(c.policy)) && Dominates(c, r[i].channel, r[j].channel)
    ensures r[i].score > r[j].score
  {
    var m :| IsMaxima(c, channels, m) && IsRanking(Less(Balanced, c), ScoredSet(Balanced, c, m, channels), r);
    ScoreOfEntry(Balanced, c, m, channels, r, i);
    ScoreOfEntry(Balanced, c, m, channels, r, j);
    DominanceScoresHigher(c, m, channels, r[i].channel, r[j].channel);
  }

  /** Whatever other candidates are present, a candidate that dominates another precedes it. */
  lemma DominanceIsRespected(c: Context, channels: set<Channel>, r: seq<Scored>, i: nat, j: nat)
    requires IsSorted(Balanced, c, channels, r) && i < |r| && j < |r|
    requires NonNegative(WeightsOf(c.policy)) && Dominates(c, r[i].channel, r[j].channel)
    ensures i < j && r[i].score > r[j].score
  {
    if j < i {
      ScoresFollowTheOrder(Balanced, c, channels, r, j, i);
    }
    DominanceShowsInScore(c, channels, r, i, j);
  }

  /** Scores lie between 0 and the sum of the weights. */
  lemma ScoresAreBounded(c: Context, channels: set<Channel>, m: Maxima, ch: Channel)
    requires IsMaxima(c, channels, m) && ch in channels && NonNegative(WeightsOf(c.policy))
    requires 0.0 <= ch.reliability <= 1.0 && Cost(c, ch) >= 0.0 && Ttft(ch, c.req.model) >= 0
    ensures var w := WeightsOf(c.policy);
            0.0 <= Score(Balanced, c, m, ch) <= w.cost + w.reliability + w.latency + w.load
  {
    CompositeBounded(WeightsOf(c.policy), Divisors(m), Cost(c, ch), ch.reliability, Ttft(ch, c.req.model), ch.recentAttempts);
  }

  lemma WeighBounded(w: Weights, c: real, r: real, l: real, f: real)
    requires NonNegative(w) && 0.0 <= c <= 1.0 && 0.0 <= r <= 1.0 && 0.0 <= l <= 1.0 && 0.0 <= f <= 1.0
    ensures 0.0 <= Weigh(w, c, r, l, f) <= w.cost + w.reliability + w.latency + w.load
  {
    ProductsBounded(w.cost, c, w.reliability, r, w.latency, l, w.load, f);
  }

  /** The weighted share of one respect. */
  lemma Part(w: real, a: real) returns (part: real)
    requires w >= 0.0 && 0.0 <= a <= 1.0
    ensures part == w * a && 0.0 <= part <= w
  {
    part := w * a;
    WeightedWithin(w, a);
  }

  lemma ProductsBounded(u: real, a: real, v: real, b: real, x: real, c: real, y: real, d: real)
    requires u >= 0.0 && v >= 0.0 && x >= 0.0 && y >= 0.0
    requires 0.0 <= a <= 1.0 && 0.0 <= b <= 1.0 && 0.0 <= c <= 1.0 && 0.0 <= d <= 1.0
    ensures 0.0 <= u * a + v * b + x * c + y * d <= u + v + x + y
  {
    var p := Part(u, a);
    var q := Part(v, b);
    var s := Part(x, c);
    var t := Part(y, d);
    SumBounded(p, u, q, v, s, x, t, y);
  }

  lemma SumBounded(a: real, a': real, b: real, b': real, c: real, c': real, d: real, d': real)
    requires 0.0 <= a <= a' && 0.0 <= b <= b' && 0.0 <= c <= c' && 0.0 <= d <= d'
    ensures 0.0 <= a + b + c + d <= a' + b' + c' + d'
  {
  }

  lemma CompositeBounded(w: Weights, m: Maxima, cost: real, rel: real, ttft: int, load: nat)
    requires NonNegative(w) && m.cost > 0.0 && m.ttft > 0 && load <= m.load
    requires 0.0 <= cost <= m.cost && 0.0 <= rel <= 1.0 && 0 <= ttft <= m.ttft
    ensures 0.0 <= CompositeScore(w, m, cost, rel, ttft, load) <= w.cost + w.reliability + w.latency + w.load
  {
    Share(cost, m.cost);
    Share(ttft as real, m.ttft as real);
    if m.load > 0 {
      Share(load as real, m.load as real);
    }
    WeighBounded(w, CostScore(m, cost), rel, LatencyScore(m, ttft), LoadScore(m, load));
  }

  lemma ScoreOfEntry(strategy: Strategy, c: Context, m: Maxima, channels: set<Channel>, r: seq<Scored>, i: nat)
    requires m.cost >= 0.0 && m.ttft >= 0 && IsRanking(Less(strategy, c), ScoredSet(strategy, c, m, channels), r) && i < |r|
    ensures r[i].channel in channels && r[i].score == Score(strategy, c, m, r[i].channel)
  {
    assert r[i] in r;
  }

  /** Along the order of candidates the published scores never rise, except under custom priority. */
  lemma ScoresFollowTheOrder(strategy: Strategy, c: Context, channels: set<Channel>, r: seq<Scored>, i: nat, j: nat)
    requires strategy != CustomPriority && IsSorted(strategy, c, channels, r) && i < j < |r|
    ensures r[i].score >= r[j].score
  {
    var m :| IsMaxima(c, channels, m) && IsRanking(Less(strategy, c), ScoredSet(strategy, c, m, channels), r);
    assert Less(strategy, c)(r[i], r[j]);
    ScoreOfEntry(strategy, c, m, channels, r, i);
    ScoreOfEntry(strategy, c, m, channels, r, j);
  }

  lemma BonusFalls(x: int, y: int)
    requires x < y
    ensures LatencyBonus(x) < LatencyBonus(y) <==> x <= 0 < y
  {
    if 0 < x {
      var u, v := 1000.0 / x as real, 1000.0 / y as real;
      assert u * x as real == 1000.0 && v * y as real == 1000.0;
      Quotients(x as real, y as real, u, v);
    } else if 0 < y {
      assert 1000.0 / y as real > 0.0;
    }
  }

  lemma Quotients(x: real, y: real, u: real, v: real)
    requires 0.0 < x < y && u * x == v * y && v > 0.0
    ensures u > v
  {
    assert v * (y - x) > 0.0;
    assert (u - v) * x > 0.0;
  }

  /** When the score of b exceeds that of a although a comes first: the criterion that decides the order is
      outweighed by those after it, at 100 points a role level, 1 a priority, 10 a unit of reliability; only
      the last, where latency alone decides, is that a has no valid latency. */
  predicate Outweighed(a: Metrics, b: Metrics) {
    var reliability, bonus := b.reliability - a.reliability, LatencyBonus(b.p50) - LatencyBonus(a.p50);
    if a.role != b.role then (b.priority - a.priority) as real + 10.0 * reliability + bonus > 100.0 * (a.role - b.role) as real
    else if a.priority != b.priority then 10.0 * reliability + bonus > (a.priority - b.priority) as real
    else if a.reliability != b.reliability then bonus > 10.0 * (a.reliability - b.reliability)
    else a.p50 <= 0 < b.p50
  }

  /** Under custom priority, an entry that precedes another scores below it exactly when the criterion that
      decides is outweighed. */
  lemma PriorityScoreContradictsIff(c: Context, a: Scored, b: Scored)
    requires Less(CustomPriority, c)(a, b)
    requires a.score == PriorityScore(a.channel, Ttft(a.channel, c.req.model))
    requires b.score == PriorityScore(b.channel, Ttft(b.channel, c.req.model))
    ensures a.score < b.score <==> Outweighed(MetricsOf(c, a), MetricsOf(c, b))
  {
    var x, y := MetricsOf(c, a), MetricsOf(c, b);
    if x.p50 < y.p50 {
      BonusFalls(x.p50, y.p50);
    }
  }

  /** What custom priority compares; the score is no part of it. */
  function Merits(c: Context, ch: Channel): Metrics { MetricsOf(c, Scored(ch, 0.0)) }

  ghost predicate NoneOutweighed(c: Context, channels: set<Channel>) {
    forall a, b :: a in channels && b in channels && Before(CustomPriority, Merits(c, a), Merits(c, b)) ==>
      !Outweighed(Merits(c, a), Merits(c, b))
  }

  lemma PairFollowsIff(c: Context, m: Maxima, channels: set<Channel>, r: seq<Scored>, i: nat, j: nat)
    requires m.cost >= 0.0 && m.ttft >= 0 && i < j < |r|
    requires IsRanking(Less(CustomPriority, c), ScoredSet(CustomPriority, c, m, channels), r)
    ensures r[i].channel in channels && r[j].channel in channels
    ensures Before(CustomPriority, Merits(c, r[i].channel), Merits(c, r[j].channel))
    ensures r[i].score < r[j].score <==> Outweighed(Merits(c, r[i].channel), Merits(c, r[j].channel))
  {
    ScoreOfEntry(CustomPriority, c, m, channels, r, i);
    ScoreOfEntry(CustomPriority, c, m, channels, r, j);
    assert Less(CustomPriority, c)(r[i], r[j]);
    PriorityScoreContradictsIff(c, r[i], r[j]);
  }

  lemma PairIsRanked(c: Context, m: Maxima, channels: set<Channel>, r: seq<Scored>, a: Channel, b: Channel)
    requires m.cost >= 0.0 && m.ttft >= 0 && a in channels && b in channels
    requires IsRanking(Less(CustomPriority, c), ScoredSet(CustomPriority, c, m, channels), r)
    requires Before(CustomPriority, Merits(c, a), Merits(c, b))
    ensures PlaceOf(c, m, channels, r, a) < PlaceOf(c, m, channels, r, b)
  {
    var i, j := PlaceOf(c, m, channels, r, a), PlaceOf(c, m, channels, r, b);
    BeforeIsStrict(CustomPriority, Merits(c, a), Merits(c, b), Merits(c, b));
    if j < i {
      PairFollowsIff(c, m, channels, r, j, i);
    }
  }

  ghost predicate NeverRises(r: seq<Scored>) {
    forall i, j :: 0 <= i < j < |r| ==> r[i].score >= r[j].score
  }

  /** Under custom priority the published scores never rise along the order exactly if among the candidates
      no decisive criterion is outweighed. */
  lemma PriorityScoresFollowIff(c: Context, channels: set<Channel>, r: seq<Scored>)
    requires IsSorted(CustomPriority, c, channels, r)
    ensures NeverRises(r) <==> NoneOutweighed(c, channels)
  {
    var m :| IsMaxima(c, channels, m) && IsRanking(Less(CustomPriority, c), ScoredSet(CustomPriority, c, m, channels), r);
    if NeverRises(r) {
      forall a, b | a in channels && b in channels && Before(CustomPriority, Merits(c, a), Merits(c, b))
        ensures !Outweighed(Merits(c, a), Merits(c, b))
      {
        PairIsRanked(c, m, channels, r, a, b);
        PairFollowsIff(c, m, channels, r, PlaceOf(c, m, channels, r, a), PlaceOf(c, m, channels, r, b));
      }
    }
    if NoneOutweighed(c, channels) {
      forall i, j | 0 <= i < j < |r| ensures r[i].score >= r[j].score {
        PairFollowsIff(c, m, channels, r, i, j);
      }
    }
  }

  ghost function PlaceOf(c: Context, m: Maxima, channels: set<Channel>, r: seq<Scored>, ch: Channel): (i: nat)
    requires m.cost >= 0.0 && m.ttft >= 0 && ch in channels
    requires IsRanking(Less(CustomPriority, c), ScoredSet(CustomPriority, c, m, channels), r)
    ensures i < |r| && r[i].channel == ch
  {
    var s := Scored(ch, Score(CustomPriority, c, m, ch));
    assert s in r;
    var i :| 0 <= i < |r| && r[i] == s;
    i
  }

  /** For instance a backup channel scores above an otherwise equal primary one exactly from a lead of more
      than 100 in priority, yet comes after it. */
  lemma PriorityScoreCanContradictTheOrder(c: Context, primary: Scored, backup: Scored)
    requires primary.channel.role == "primary" && backup.channel.role == "backup"
    requires primary.score == PriorityScore(primary.channel, Ttft(primary.channel, c.req.model))
    requires backup.score == PriorityScore(backup.channel, Ttft(backup.channel, c.req.model))
    requires primary.channel.reliability == backup.channel.reliability
    requires Ttft(primary.channel, c.req.model) == Ttft(backup.channel, c.req.model)
    ensures Less(CustomPriority, c)(primary, backup)
    ensures primary.score < backup.score <==> backup.channel.userPriority > primary.channel.userPriority + 100
  {
    assert |"primary"| == 7 && |"backup"| == 6;
    assert RoleLevel("primary") == 3 && RoleLevel("backup") == 2;
    assert MetricsOf(c, primary).role == 3 && MetricsOf(c, backup).role == 2;
  }
}
