/** What routing decides on (internal/router/snapshot.go, policy.go, filter.go): channels as the
    snapshot describes them, policies with their configuration, requests. Amounts are reals. */
module RoutingTypes {
  import opened Options

  /** Rounding toward zero, as a conversion to an integer does. */
  function Truncate(x: real): (n: int)
    ensures x >= 0.0 ==> n as real <= x < n as real + 1.0
    ensures x < 0.0 ==> n as real - 1.0 < x <= n as real
  {
    if x >= 0.0 then x.Floor else -((-x).Floor)
  }

  /** Decoded configuration: numbers read from JSON are floats, numbers set by the program may be ints. */
  datatype Number = IntNumber(n: int) | FloatNumber(x: real)

  datatype Value = Numeric(number: Number) | Table(fields: map<string, Number>) | Other

  function AsReal(v: Number): real {
    match v
    case IntNumber(n) => n as real
    case FloatNumber(x) => x
  }

  datatype Policy = Policy(strategy: string, version: string, config: map<string, Value>) {
    function GetConfigFloat(key: string, default: real): real {
      if key in config && config[key].Numeric? then AsReal(config[key].number) else default
    }

    function GetConfigInt(key: string, default: int): int {
      if key in config && config[key].Numeric? then
        match config[key].number
        case IntNumber(n) => n
        case FloatNumber(x) => Truncate(x)
      else default
    }

    /** "table.field": the flat key first, then the field of the table. */
    function GetConfigNestedFloat(table: string, field: string, default: real): real {
      var flat := table + "." + field;
      if flat in config && config[flat].Numeric? then AsReal(config[flat].number)
      else if table in config && config[table].Table? && field in config[table].fields then
        AsReal(config[table].fields[field])
      else default
    }
  }

  datatype Price = Price(input: real, output: real)

  datatype Channel = Channel(
    id: int, name: string, role: string, enabled: bool, userPriority: int,
    modelMapping: map<string, string>, capabilities: seq<string>, groupIds: seq<int>,
    declaredPrice: map<string, Price>, realRatio: map<string, real>, realRatioBasis: map<string, string>,
    officialIn: map<string, real>, officialOut: map<string, real>,
    ttftP50: map<string, int>, ttftP95: map<string, int>,
    recentAttempts: nat, reliability: real,
    circuitState: string, coolingUntil: int, circuitStates: Option<map<int, string>>)

  /** What the content hash covers. */
  datatype Content = Content(channels: map<int, Channel>, prices: map<string, Price>)

  datatype Snapshot = Snapshot(epoch: int, generatedAt: int, content: Content, hash: string)

  datatype Request = Request(model: string, capabilities: seq<string>, estimatedInput: int, maxOutput: int,
                             groupId: Option<int>, groupIds: seq<int>)

  /** What scoring and filtering look at besides the channel. */
  datatype Context = Context(req: Request, policy: Policy, prices: map<string, Price>)

  function RoleLevel(role: string): int {
    if role == "primary" then 3 else if role == "backup" then 2 else if role == "emergency" then 1 else 0
  }

  function Lookup(m: map<string, int>, model: string): int {
    if model in m then m[model] else 9999
  }

  function Ttft(ch: Channel, model: string): int { Lookup(ch.ttftP50, model) }

  function TtftP95(ch: Channel, model: string): int { Lookup(ch.ttftP95, model) }

  function AmountAt(m: map<string, real>, model: string): real {
    if model in m then m[model] else 0.0
  }

  /** Estimated input tokens, and output tokens by the expected ratio when the request sets no maximum. */
  function TotalCost(req: Request, ratio: real, price: Price): real {
    var maxOutput := if req.maxOutput == 0 then Truncate(req.estimatedInput as real * ratio) else req.maxOutput;
    req.estimatedInput as real * price.input + maxOutput as real * price.output
  }

  function CostAt(c: Context, price: Price): real {
    TotalCost(c.req, c.policy.GetConfigFloat("expected_output_ratio", 2.0), price)
  }

  /** The official price recorded when the ratio was measured, else the current one, per million. */
  function OfficialPrice(c: Context, ch: Channel): Price {
    var recorded := Price(AmountAt(ch.officialIn, c.req.model), AmountAt(ch.officialOut, c.req.model));
    if (recorded.input <= 0.0 || recorded.output <= 0.0) && c.req.model in c.prices then c.prices[c.req.model] else recorded
  }

  function PerToken(price: Price, factor: real): Price {
    Price(factor * price.input / 1000000.0, factor * price.output / 1000000.0)
  }

  /** The price a request is estimated at. */
  function PriceOf(c: Context, ch: Channel): Price {
    var model := c.req.model;
    if model in ch.realRatio && ch.realRatio[model] > 0.0 then
      var official := OfficialPrice(c, ch);
      if model in ch.realRatioBasis && ch.realRatioBasis[model] == "official" && official.input > 0.0 && official.output > 0.0 then
        PerToken(official, ch.realRatio[model])
      else PerToken(Price(10.0, 10.0), ch.realRatio[model])
    else if model in ch.declaredPrice && ch.declaredPrice[model].input > 0.0 && ch.declaredPrice[model].output > 0.0 then
      PerToken(ch.declaredPrice[model], 1.0)
    else PerToken(Price(10.0, 30.0), 1.0)
  }

  function EstimateCost(c: Context, ch: Channel): real {
    CostAt(c, PriceOf(c, ch))
  }

  lemma PerTokenPositive(price: Price, factor: real)
    requires price.input > 0.0 && price.output > 0.0 && factor > 0.0
    ensures PerToken(price, factor).input > 0.0 && PerToken(price, factor).output > 0.0
  {
  }

  /** No channel is ever estimated as free: unknown and zero prices are replaced by a cautious guess. */
  lemma NothingIsFree(c: Context, ch: Channel)
    requires c.req.estimatedInput > 0 && c.req.maxOutput >= 0 && c.policy.GetConfigFloat("expected_output_ratio", 2.0) >= 0.0
    ensures EstimateCost(c, ch) > 0.0
  {
    var model := c.req.model;
    PerTokenPositive(Price(10.0, 30.0), 1.0);
    if model in ch.realRatio && ch.realRatio[model] > 0.0 {
      PerTokenPositive(Price(10.0, 10.0), ch.realRatio[model]);
      var official := OfficialPrice(c, ch);
      if official.input > 0.0 && official.output > 0.0 {
        PerTokenPositive(official, ch.realRatio[model]);
      }
    } else if model in ch.declaredPrice && ch.declaredPrice[model].input > 0.0 && ch.declaredPrice[model].output > 0.0 {
      PerTokenPositive(ch.declaredPrice[model], 1.0);
    }
    var price := PriceOf(c, ch);
    assert price.input > 0.0 && price.output > 0.0;
    CostPositive(c, price);
  }

  lemma CostPositive(c: Context, price: Price)
    requires price.input > 0.0 && price.output > 0.0
    requires c.req.estimatedInput > 0 && c.req.maxOutput >= 0 && c.policy.GetConfigFloat("expected_output_ratio", 2.0) >= 0.0
    ensures CostAt(c, price) > 0.0
  {
    var ratio := c.policy.GetConfigFloat("expected_output_ratio", 2.0);
    assert c.req.estimatedInput as real * ratio >= 0.0;
    var maxOutput := if c.req.maxOutput == 0 then Truncate(c.req.estimatedInput as real * ratio) else c.req.maxOutput;
    assert maxOutput >= 0;
    ProductPositive(c.req.estimatedInput as real, price.input);
    ProductNonNegative(maxOutput as real, price.output);
  }

  lemma ProductPositive(a: real, b: real)
    requires a > 0.0 && b > 0.0
    ensures a * b > 0.0
  {
  }

  lemma ProductNonNegative(a: real, b: real)
    requires a >= 0.0 && b >= 0.0
    ensures a * b >= 0.0
  {
  }
}
