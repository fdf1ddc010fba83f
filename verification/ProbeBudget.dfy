/** The daily budget of paid probes (internal/checker/budget.go, probe.go): two shared counters per day,
    one per channel and one for all, on which every prober reserves before and settles after its probe. */
module ProbeBudget {
  import opened Options

  // ---- Amounts ----

  /** Rounding half away from zero. */
  function Round(x: real): int {
    if x >= 0.0 then (x + 0.5).Floor else -((-x + 0.5).Floor)
  }

  /** Dollars to micro-dollars; a positive amount never becomes zero. */
  function ToBudgetUnits(usd: real): int {
    var u := Round(usd * 1000000.0);
    if usd > 0.0 && u == 0 then 1 else u
  }

  lemma UnitsArePositive(usd: real)
    ensures usd > 0.0 ==> ToBudgetUnits(usd) >= 1
    ensures usd == 0.0 ==> ToBudgetUnits(usd) == 0
    ensures ToBudgetUnits(usd) as real - usd * 1000000.0 <= if usd > 0.0 then 1.0 else 0.5
    ensures usd * 1000000.0 - ToBudgetUnits(usd) as real <= 0.5
  {
  }

  // ---- One probe ----

  datatype Stage = NoStage | BalanceBefore | Chat | BalanceAfter | Ok

  datatype ProbeResult = ProbeResult(stage: Stage, cost: real, costPending: bool, success: bool)

  /** What happens to a probe from outside: each step may fail. */
  datatype World = World(locked: bool, before: Option<real>, chat: bool, after: Option<real>, recorded: bool)

  /** The chat request is sent once the lock is held and the balance has been read. */
  predicate ChatIssued(w: World) {
    w.locked && w.before.Some?
  }

  /** The stages of a probe. An error may come with any stage. */
  method ProbeOne(w: World) returns (res: ProbeResult, failed: bool)
    ensures failed <==> !(w.locked && w.before.Some? && w.chat && w.after.Some? && w.recorded)
    ensures res == ResultOf(w) && res.success == !failed
    ensures res.costPending <==> w.locked && w.before.Some? && w.chat && w.after.None?
  {
    res, failed := ProbeResult(NoStage, 0.0, false, false), true;
    if !w.locked {
      return;
    }
    res := res.(stage := BalanceBefore);
    if w.before.None? {
      return;
    }
    res := res.(stage := Chat);
    if !w.chat {
      return;
    }
    res := res.(stage := BalanceAfter);
    if w.after.None? {
      res := res.(costPending := true);
      return;
    }
    res := res.(cost := w.before.value - w.after.value);
    if !w.recorded {
      return;
    }
    res, failed := res.(stage := Ok, success := true), false;
  }

  function ResultOf(w: World): ProbeResult {
    if !w.locked then ProbeResult(NoStage, 0.0, false, false)
    else if w.before.None? then ProbeResult(BalanceBefore, 0.0, false, false)
    else if !w.chat then ProbeResult(Chat, 0.0, false, false)
    else if w.after.None? then ProbeResult(BalanceAfter, 0.0, true, false)
    else ProbeResult(if w.recorded then Ok else BalanceAfter, w.before.value - w.after.value, false, w.recorded)
  }

  datatype Settlement = Settlement(keep: bool, cost: real)

  /** None stands for a probe that was never started. */
  function BudgetSettlement(res: Option<ProbeResult>): Settlement {
    match res
    case None => Settlement(true, 0.0)
    case Some(r) =>
      match r.stage
      case BalanceBefore => Settlement(false, 0.0)
      case Chat => Settlement(true, 0.0)
      case BalanceAfter => Settlement(true, 0.0)
      case _ => if r.cost > 0.0 then Settlement(false, r.cost) else Settlement(true, 0.0)
  }

  function OrZero(x: Option<real>): real {
    if x.Some? then x.value else 0.0
  }

  /** What a probe is charged in the end. */
  function Charge(estimate: int, res: Option<ProbeResult>): int {
    var s := BudgetSettlement(res);
    if s.keep then estimate else ToBudgetUnits(s.cost)
  }

  /** A probe is charged nothing exactly when the first balance could not be read; one whose chat went out
      stays charged at least one unit, and the measured cost only when it is positive and recorded. */
  lemma ChargeOfProbe(estimate: int, w: World)
    requires estimate >= 1
    ensures var charge := Charge(estimate, Some(ResultOf(w)));
            && (charge == 0 <==> w.locked && w.before.None?)
            && (ChatIssued(w) ==> charge >= 1)
            && (charge == (if ResultOf(w).success && w.before.value > w.after.value then ToBudgetUnits(w.before.value - w.after.value)
                           else if w.locked && w.before.None? then 0 else estimate))
  {
    if w.before.Some? && w.after.Some? {
      UnitsArePositive(w.before.value - w.after.value);
    }
    UnitsArePositive(0.0);
  }

  // ---- The counters ----

  datatype Key = ChannelKey(channel: int, day: int) | GlobalKey(day: int)

  /** A missing key is one that was never set or has been lost. */
  type Counters = map<Key, int>

  function Get(c: Counters, k: Key, missing: int): int {
    if k in c then c[k] else missing
  }

  datatype Budgets = Budgets(channel: int, global: int)
  datatype Spent = Spent(channel: int, global: int)

  predicate CanReserve(c: Counters, channel: int, day: int, amount: int, b: Budgets, spent: Spent) {
    && Get(c, ChannelKey(channel, day), spent.channel) + amount <= b.channel
    && Get(c, GlobalKey(day), spent.global) + amount <= b.global
  }

  function Reserved(c: Counters, channel: int, day: int, amount: int, spent: Spent): Counters {
    c[ChannelKey(channel, day) := Get(c, ChannelKey(channel, day), spent.channel) + amount]
     [GlobalKey(day) := Get(c, GlobalKey(day), spent.global) + amount]
  }

  function Clamp(x: int): int { if x < 0 then 0 else x }

  function Adjusted(c: Counters, channel: int, day: int, delta: int): Counters {
    var ch, gl := ChannelKey(channel, day), GlobalKey(day);
    if ch !in c || gl !in c then c else c[ch := Clamp(c[ch] + delta)][gl := Clamp(c[gl] + delta)]
  }

  /** What other probers and their settlements do to the counters. */
  datatype Other =
    | Reserves(channel: int, day: int, amount: int, budgets: Budgets, spent: Spent)
    | Settles(channel: int, day: int, delta: int)

  function Acted(c: Counters, o: Other): Counters {
    match o
    case Reserves(channel, day, amount, b, spent) =>
      if CanReserve(c, channel, day, amount, b, spent) then Reserved(c, channel, day, amount, spent) else c
    case Settles(channel, day, delta) => Adjusted(c, channel, day, delta)
  }

  function ActedAll(c: Counters, os: seq<Other>): Counters {
    if os == [] then c else Acted(ActedAll(c, os[..|os| - 1]), os[|os| - 1])
  }

  /** How a call of a script goes: it is answered, it never gets there, or it is carried out and the answer
      is lost. */
  datatype Call = Served | NotReached | AnswerLost

  /** The two scripts, each one atomic step on the shared store. */
  class BudgetTracker {
    var counters: Counters

    constructor ()
      ensures counters == map[]
    {
      counters := map[];
    }

    method Reserve(channel: int, day: int, amount: int, b: Budgets, spent: Spent) returns (ok: bool)
      modifies this
      ensures ok == old(CanReserve(counters, channel, day, amount, b, spent))
      ensures counters == if ok then Reserved(old(counters), channel, day, amount, spent) else old(counters)
    {
      var chKey, glKey := ChannelKey(channel, day), GlobalKey(day);
      var ch := if chKey in counters then counters[chKey] else 0;
      var gl := if glKey in counters then counters[glKey] else 0;
      if chKey !in counters {
        ch := spent.channel;
      }
      if glKey !in counters {
        gl := spent.global;
      }
      if ch + amount > b.channel || gl + amount > b.global {
        return false;
      }
      counters := counters[chKey := ch + amount];
      counters := counters[glKey := gl + amount];
      return true;
    }

    method Adjust(channel: int, day: int, delta: int)
      modifies this
      ensures counters == Adjusted(old(counters), channel, day, delta)
    {
      var chKey, glKey := ChannelKey(channel, day), GlobalKey(day);
      if chKey !in counters || glKey !in counters {
        return;
      }
      var ch, gl := counters[chKey] + delta, counters[glKey] + delta;
      if ch < 0 {
        ch := 0;
      }
      if gl < 0 {
        gl := 0;
      }
      counters := counters[chKey := ch];
      counters := counters[glKey := gl];
    }

    method Act(os: seq<Other>)
      modifies this
      ensures counters == ActedAll(old(counters), os)
    {
      for i := 0 to |os|
        invariant counters == ActedAll(old(counters), os[..i])
      {
        assert os[..i + 1][..i] == os[..i];
        match os[i] {
          case Reserves(channel, day, amount, b, spent) =>
            var ok := Reserve(channel, day, amount, b, spent);
          case Settles(channel, day, delta) =>
            Adjust(channel, day, delta);
        }
      }
      assert os[..|os|] == os;
    }

    /** One scheduled probe (cmd/checker/main.go, runProbe): reserve, probe, settle, whatever other probers do
        while it runs. Each database read and each script call may fail. A settlement that fails disables the
        other probes of the tick. */
    method RunProbe(channel: int, day: int, upstreamSpent: Option<real>, available: bool, globalSpent: Option<real>,
                    estimate: Option<real>, channelBudget: real, globalBudget: real, reserving: Call, settling: Call, w: World,
                    during: seq<Other>)
      returns (markedDone: bool, failed: bool, costMicro: int, disabled: bool)
      modifies this
      ensures markedDone
      ensures var runs := available && upstreamSpent.Some? && upstreamSpent.value < channelBudget && estimate.Some? && globalSpent.Some?;
              var spent := Spent(ToBudgetUnits(OrZero(upstreamSpent)), ToBudgetUnits(OrZero(globalSpent)));
              var amount := ToBudgetUnits(OrZero(estimate));
              var b := Budgets(ToBudgetUnits(channelBudget), ToBudgetUnits(globalBudget));
              var taken := runs && reserving != NotReached && CanReserve(old(counters), channel, day, amount, b, spent);
              var runs' := taken && reserving == Served;
              var reserved := Reserved(old(counters), channel, day, amount, spent);
              var found := ActedAll(reserved, during);
              && counters == (if !taken then old(counters)
                              else if runs' && settling != NotReached
                                   then Adjusted(found, channel, day, Charge(amount, Some(ResultOf(w))) - amount)
                              else if runs' then found else reserved)
              && disabled == (runs' && settling != Served)
              && failed == (runs' && !ResultOf(w).success)
              && costMicro == if runs' && !failed then ToBudgetUnits(ResultOf(w).cost) else 0
    {
      if upstreamSpent.None? || upstreamSpent.value >= channelBudget {
        return true, false, 0, false;
      }
      if !available {
        return true, false, 0, false;
      }
      if estimate.None? {
        return true, false, 0, false;
      }
      var estimateUnits := ToBudgetUnits(estimate.value);
      if globalSpent.None? {
        return true, false, 0, false;
      }
      var spent := Spent(ToBudgetUnits(upstreamSpent.value), ToBudgetUnits(globalSpent.value));
      if reserving == NotReached {
        return true, false, 0, false;
      }
      var ok := Reserve(channel, day, estimateUnits, Budgets(ToBudgetUnits(channelBudget), ToBudgetUnits(globalBudget)), spent);
      if reserving == AnswerLost || !ok {
        return true, false, 0, false;
      }
      var res, err := ProbeOne(w);
      Act(during);
      var s := BudgetSettlement(Some(res));
      var actualUnits := ToBudgetUnits(s.cost);
      if s.keep {
        actualUnits := estimateUnits;
      }
      if settling != NotReached {
        Adjust(channel, day, actualUnits - estimateUnits);
      }
      disabled := settling != Served;
      if err {
        return true, true, 0, disabled;
      }
      return true, false, ToBudgetUnits(res.cost), disabled;
    }
  }

  lemma ChargeNonNegative(estimate: int, res: Option<ProbeResult>)
    requires estimate >= 0
    ensures Charge(estimate, res) >= 0
  {
    UnitsArePositive(0.0);
    if res.Some? && res.value.cost > 0.0 {
      UnitsArePositive(res.value.cost);
    }
  }

  /** Settling a reservation at the actual amount is as good as having reserved that. */
  predicate SettlesAt(c: Counters, channel: int, day: int, estimate: int, spent: Spent, actual: int) {
    Adjusted(Reserved(c, channel, day, estimate, spent), channel, day, actual - estimate) == Reserved(c, channel, day, actual, spent)
  }

  /** Reserving an estimate and settling at the actual amount is charging the actual amount, whatever that
      is, exactly if neither counter, or the seed for a missing one, is negative. */
  lemma ReserveThenSettleIff(c: Counters, channel: int, day: int, estimate: int, spent: Spent)
    ensures (forall actual :: actual >= 0 ==> SettlesAt(c, channel, day, estimate, spent, actual))
       <==> Get(c, ChannelKey(channel, day), spent.channel) >= 0 && Get(c, GlobalKey(day), spent.global) >= 0
  {
    var ch, gl := Get(c, ChannelKey(channel, day), spent.channel), Get(c, GlobalKey(day), spent.global);
    if forall actual :: actual >= 0 ==> SettlesAt(c, channel, day, estimate, spent, actual) {
      assert SettlesAt(c, channel, day, estimate, spent, 0);
      assert Adjusted(Reserved(c, channel, day, estimate, spent), channel, day, -estimate)[ChannelKey(channel, day)] == Clamp(ch);
      assert Adjusted(Reserved(c, channel, day, estimate, spent), channel, day, -estimate)[GlobalKey(day)] == Clamp(gl);
    }
  }

  /** With counters and seeds that are not negative a scheduled probe charges both ledgers exactly what it
      is to be charged. */
  lemma ProbeIsCharged(c: Counters, channel: int, day: int, estimate: int, spent: Spent, w: World)
    requires estimate >= 0
    requires Get(c, ChannelKey(channel, day), spent.channel) >= 0 && Get(c, GlobalKey(day), spent.global) >= 0
    ensures var charge := Charge(estimate, Some(ResultOf(w)));
            Adjusted(Reserved(c, channel, day, estimate, spent), channel, day, charge - estimate) == Reserved(c, channel, day, charge, spent)
  {
    ChargeNonNegative(estimate, Some(ResultOf(w)));
    ReserveThenSettleIff(c, channel, day, estimate, spent);
    assert SettlesAt(c, channel, day, estimate, spent, Charge(estimate, Some(ResultOf(w))));
  }
}

/** Many probers on the same counters, in any interleaving. */
module ProbeLedger {
  import opened Options
  import opened ProbeBudget

  /** A granted reservation: what was reserved under which budgets, and what it was settled at. */
  datatype Reservation = Reservation(channel: int, day: int, estimate: int, budgets: Budgets, settled: Option<int>)

  /** What a reservation stands for at present: its estimate until it is settled. */
  function Amount(r: Reservation): int {
    if r.settled.Some? then r.settled.value else r.estimate
  }

  function Overrun(r: Reservation): int {
    if Amount(r) > r.estimate then Amount(r) - r.estimate else 0
  }

  predicate On(r: Reservation, k: Key) {
    match k
    case ChannelKey(channel, day) => r.channel == channel && r.day == day
    case GlobalKey(day) => r.day == day
  }

  function BudgetFor(r: Reservation, k: Key): int {
    if k.ChannelKey? then r.budgets.channel else r.budgets.global
  }

  /** The counters, the reservations granted so far, and what each counter was seeded with. */
  datatype State = State(counters: Counters, granted: seq<Reservation>, seeds: map<Key, int>)

  /** A step of some prober. Lose is a key vanishing from the store. */
  datatype Step =
    | Reserve(channel: int, day: int, estimate: int, budgets: Budgets, spent: Spent)
    | Settle(index: nat, actual: int)
    | Lose(key: Key)

  predicate Enabled(s: State, step: Step) {
    match step
    case Reserve(_, _, estimate, _, _) => estimate >= 1
    case Settle(i, actual) => i < |s.granted| && s.granted[i].settled.None? && actual >= 0
    case Lose(_) => true
  }

  function Seed(seeds: map<Key, int>, k: Key, spent: int): map<Key, int> {
    if k in seeds then seeds else seeds[k := spent]
  }

  function Do(s: State, step: Step): State
    requires Enabled(s, step)
  {
    match step
    case Reserve(channel, day, estimate, b, spent) =>
      if CanReserve(s.counters, channel, day, estimate, b, spent) then
        State(Reserved(s.counters, channel, day, estimate, spent), s.granted + [Reservation(channel, day, estimate, b, None)],
              Seed(Seed(s.seeds, ChannelKey(channel, day), spent.channel), GlobalKey(day), spent.global))
      else s
    case Settle(i, actual) =>
      var r := s.granted[i];
      State(Adjusted(s.counters, r.channel, r.day, actual - r.estimate), s.granted[i := r.(settled := Some(actual))], s.seeds)
    case Lose(key) => s.(counters := s.counters - {key})
  }

  function Total(granted: seq<Reservation>, k: Key): int {
    if granted == [] then 0
    else Total(granted[..|granted| - 1], k) + (if On(granted[|granted| - 1], k) then Amount(granted[|granted| - 1]) else 0)
  }

  function Overruns(granted: seq<Reservation>, k: Key): nat {
    if granted == [] then 0
    else Overruns(granted[..|granted| - 1], k) + (if On(granted[|granted| - 1], k) then Overrun(granted[|granted| - 1]) else 0)
  }

  /** The ledger: every counter is its seed plus what the reservations on it stand for. */
  ghost predicate Balanced(s: State) {
    && (forall k :: k in s.counters <==> k in s.seeds)
    && (forall k :: k in s.counters ==> s.counters[k] == s.seeds[k] + Total(s.granted, k))
  }

  ghost predicate Sound(s: State) {
    && (forall i :: 0 <= i < |s.granted| ==> s.granted[i].estimate >= 1 && Amount(s.granted[i]) >= 0)
    && (forall k :: k in s.seeds ==> s.seeds[k] >= 0)
    && (forall i :: 0 <= i < |s.granted| ==>
          ChannelKey(s.granted[i].channel, s.granted[i].day) in s.seeds && GlobalKey(s.granted[i].day) in s.seeds)
  }

  /** No counter is over the largest budget its reservations were granted under by more than they have
      overrun their estimates. */
  ghost predicate WithinBudget(s: State) {
    forall k :: k in s.counters ==> Within(s.granted, k, s.counters[k])
  }

  ghost predicate Within(granted: seq<Reservation>, k: Key, count: int) {
    exists i :: 0 <= i < |granted| && On(granted[i], k) && count <= BudgetFor(granted[i], k) + Overruns(granted, k)
  }

  predicate Grants(s: State, step: Step) {
    step.Reserve? && Enabled(s, step) && CanReserve(s.counters, step.channel, step.day, step.estimate, step.budgets, step.spent)
  }

  /** A missing counter is never seeded with a negative spending. */
  predicate SeedsWell(s: State, step: Step) {
    Grants(s, step) ==>
      && (ChannelKey(step.channel, step.day) !in s.counters ==> step.spent.channel >= 0)
      && (GlobalKey(step.day) !in s.counters ==> step.spent.global >= 0)
  }

  lemma {:induction false} TotalUpdate(granted: seq<Reservation>, i: nat, r: Reservation, k: Key)
    requires i < |granted| && On(granted[i], k) == On(r, k)
    ensures Total(granted[i := r], k) == Total(granted, k) + (if On(r, k) then Amount(r) - Amount(granted[i]) else 0)
    ensures Overruns(granted[i := r], k) == Overruns(granted, k) + (if On(r, k) then Overrun(r) - Overrun(granted[i]) else 0)
  {
    var last := |granted| - 1;
    if i == last {
      assert granted[i := r][..last] == granted[..last];
    } else {
      assert granted[i := r][..last] == granted[..last][i := r];
      TotalUpdate(granted[..last], i, r, k);
    }
  }

  lemma TotalAppend(granted: seq<Reservation>, r: Reservation, k: Key)
    ensures Total(granted + [r], k) == Total(granted, k) + (if On(r, k) then Amount(r) else 0)
    ensures Overruns(granted + [r], k) == Overruns(granted, k) + (if On(r, k) then Overrun(r) else 0)
  {
    assert (granted + [r])[..|granted|] == granted;
  }

  lemma {:induction false} TotalHolds(granted: seq<Reservation>, i: nat, k: Key)
    requires i < |granted| && On(granted[i], k) && forall j :: 0 <= j < |granted| ==> Amount(granted[j]) >= 0
    ensures Total(granted, k) >= Amount(granted[i])
  {
    var last := |granted| - 1;
    if i < last {
      TotalHolds(granted[..last], i, k);
    } else {
      TotalNonNegative(granted[..last], k);
    }
  }

  lemma {:induction false} TotalNonNegative(granted: seq<Reservation>, k: Key)
    requires forall j :: 0 <= j < |granted| ==> Amount(granted[j]) >= 0
    ensures Total(granted, k) >= 0
  {
    if granted != [] {
      TotalNonNegative(granted[..|granted| - 1], k);
    }
  }

  /** Settling never runs into the clamp: the counter still holds at least the estimate. */
  lemma ClampNeverFires(s: State, step: Step)
    requires Balanced(s) && Sound(s) && step.Settle? && Enabled(s, step)
    ensures var r := s.granted[step.index];
            && ChannelKey(r.channel, r.day) in s.counters && GlobalKey(r.day) in s.counters
            && s.counters[ChannelKey(r.channel, r.day)] + step.actual - r.estimate >= 0
            && s.counters[GlobalKey(r.day)] + step.actual - r.estimate >= 0
  {
    var r := s.granted[step.index];
    TotalHolds(s.granted, step.index, ChannelKey(r.channel, r.day));
    TotalHolds(s.granted, step.index, GlobalKey(r.day));
  }

  lemma ReserveStaysSound(s: State, step: Step)
    requires Balanced(s) && Sound(s) && step.Reserve? && Enabled(s, step) && SeedsWell(s, step)
    ensures Sound(Do(s, step))
  {
  }

  lemma ReserveAt(s: State, step: Step, k: Key)
    requires Balanced(s) && Sound(s) && step.Reserve? && Enabled(s, step)
    requires CanReserve(s.counters, step.channel, step.day, step.estimate, step.budgets, step.spent)
    ensures var t := Do(s, step);
            && (k in t.counters <==> k in t.seeds)
            && (k in t.counters ==> t.counters[k] == t.seeds[k] + Total(t.granted, k))
  {
    var r := Reservation(step.channel, step.day, step.estimate, step.budgets, None);
    TotalAppend(s.granted, r, k);
    if k !in s.seeds {
      NothingOn(s, k);
    }
  }

  lemma ReserveBalances(s: State, step: Step)
    requires Balanced(s) && Sound(s) && step.Reserve? && Enabled(s, step) && SeedsWell(s, step)
    ensures Balanced(Do(s, step)) && Sound(Do(s, step))
  {
    ReserveStaysSound(s, step);
    if CanReserve(s.counters, step.channel, step.day, step.estimate, step.budgets, step.spent) {
      var t := Do(s, step);
      forall k ensures (k in t.counters <==> k in t.seeds) && (k in t.counters ==> t.counters[k] == t.seeds[k] + Total(t.granted, k)) {
        ReserveAt(s, step, k);
      }
    }
  }

  lemma NothingOn(s: State, k: Key)
    requires Sound(s) && k !in s.seeds
    ensures Total(s.granted, k) == 0
  {
    forall i | 0 <= i < |s.granted| ensures !On(s.granted[i], k) {
      assert ChannelKey(s.granted[i].channel, s.granted[i].day) in s.seeds && GlobalKey(s.granted[i].day) in s.seeds;
    }
    NoneOn(s.granted, k);
  }

  lemma {:induction false} NoneOn(granted: seq<Reservation>, k: Key)
    requires forall i :: 0 <= i < |granted| ==> !On(granted[i], k)
    ensures Total(granted, k) == 0
  {
    if granted != [] {
      NoneOn(granted[..|granted| - 1], k);
    }
  }

  lemma SettleBalances(s: State, step: Step)
    requires Balanced(s) && Sound(s) && step.Settle? && Enabled(s, step)
    ensures Balanced(Do(s, step)) && Sound(Do(s, step))
  {
    ClampNeverFires(s, step);
    var r := s.granted[step.index];
    var r' := r.(settled := Some(step.actual));
    forall k ensures Total(s.granted[step.index := r'], k) == Total(s.granted, k) + (if On(r, k) then step.actual - r.estimate else 0) {
      assert On(r, k) == On(r', k);
      TotalUpdate(s.granted, step.index, r', k);
    }
  }

  // ---- Whole runs ----

  const Start := State(map[], [], map[])

  predicate IsRun(s: State, steps: seq<Step>)
    decreases |steps|
  {
    steps == [] || (Enabled(s, steps[0]) && IsRun(Do(s, steps[0]), steps[1..]))
  }

  function After(s: State, steps: seq<Step>): State
    requires IsRun(s, steps)
    decreases |steps|
  {
    if steps == [] then s else After(Do(s, steps[0]), steps[1..])
  }

  predicate KeepsKeys(steps: seq<Step>) {
    forall i :: 0 <= i < |steps| ==> !steps[i].Lose?
  }

  predicate AlwaysSeedsWell(s: State, steps: seq<Step>)
    requires IsRun(s, steps)
    decreases |steps|
  {
    steps == [] || (SeedsWell(s, steps[0]) && AlwaysSeedsWell(Do(s, steps[0]), steps[1..]))
  }

  lemma RestKeepsKeys(steps: seq<Step>)
    requires KeepsKeys(steps) && steps != []
    ensures !steps[0].Lose? && KeepsKeys(steps[1..])
  {
    assert forall i :: 0 <= i < |steps| - 1 ==> steps[1..][i] == steps[i + 1];
  }

  lemma {:induction false} RunBalances(s: State, steps: seq<Step>)
    requires IsRun(s, steps) && Balanced(s) && Sound(s) && WithinBudget(s) && KeepsKeys(steps) && AlwaysSeedsWell(s, steps)
    ensures Balanced(After(s, steps)) && Sound(After(s, steps)) && WithinBudget(After(s, steps))
    decreases |steps|
  {
    if steps != [] {
      RestKeepsKeys(steps);
      StepBalances(s, steps[0]);
      RunBalances(Do(s, steps[0]), steps[1..]);
      assert After(s, steps) == After(Do(s, steps[0]), steps[1..]);
    }
  }

  lemma StepBalances(s: State, step: Step)
    requires Balanced(s) && Sound(s) && WithinBudget(s) && Enabled(s, step) && !step.Lose? && SeedsWell(s, step)
    ensures Balanced(Do(s, step)) && Sound(Do(s, step)) && WithinBudget(Do(s, step))
  {
    if step.Reserve? {
      ReserveBalances(s, step);
      ReserveWithin(s, step);
    } else {
      SettleBalances(s, step);
      SettleWithin(s, step);
    }
  }

  /** In every interleaving of probers, as long as no key is lost and no missing counter is seeded with a
      negative amount, both ledgers show exactly the seed, the settled amounts and the reservations still
      outstanding, and exceed the budget only by overruns. */
  lemma LedgerIsExact(steps: seq<Step>)
    requires IsRun(Start, steps) && KeepsKeys(steps) && AlwaysSeedsWell(Start, steps)
    ensures Balanced(After(Start, steps)) && WithinBudget(After(Start, steps))
  {
    RunBalances(Start, steps);
  }

  // ---- The condition on seeds is exact ----

  /** Settling the reservation just granted, at the given amount, leaves the ledger exact. */
  ghost predicate SettlesExactly(s: State, step: Step, actual: nat)
    requires Grants(s, step)
  {
    Balanced(Do(Do(s, step), Settle(|s.granted|, actual)))
  }

  /** A counter that was missing holds its seed and the estimate, and nothing else stands on it. */
  lemma GrantedOnMissing(s: State, step: Step, k: Key)
    requires Balanced(s) && Sound(s) && Grants(s, step) && k !in s.counters
    requires k == ChannelKey(step.channel, step.day) || k == GlobalKey(step.day)
    ensures var t, seed := Do(s, step), if k.ChannelKey? then step.spent.channel else step.spent.global;
            && k in t.counters && k in t.seeds && t.counters[k] == seed + step.estimate && t.seeds[k] == seed
            && ChannelKey(step.channel, step.day) in t.counters && GlobalKey(step.day) in t.counters
            && t.granted == s.granted + [Reservation(step.channel, step.day, step.estimate, step.budgets, None)]
            && Total(s.granted, k) == 0
  {
    NothingOn(s, k);
  }

  lemma TotalOfOne(granted: seq<Reservation>, r: Reservation, k: Key)
    requires Total(granted, k) == 0 && On(r, k)
    ensures Total((granted + [r])[|granted| := r.(settled := Some(0))], k) == 0
  {
    TotalAppend(granted, r, k);
    TotalUpdate(granted + [r], |granted|, r.(settled := Some(0)), k);
  }

  lemma SettledAtNothing(s: State, step: Step, k: Key)
    requires Balanced(s) && Sound(s) && Grants(s, step) && k !in s.counters
    requires k == ChannelKey(step.channel, step.day) || k == GlobalKey(step.day)
    ensures var t := Do(Do(s, step), Settle(|s.granted|, 0));
            var seed := if k.ChannelKey? then step.spent.channel else step.spent.global;
            k in t.counters && k in t.seeds && t.counters[k] == Clamp(seed) && t.seeds[k] == seed && Total(t.granted, k) == 0
  {
    var r := Reservation(step.channel, step.day, step.estimate, step.budgets, None);
    GrantedOnMissing(s, step, k);
    TotalOfOne(s.granted, r, k);
  }

  ghost predicate SettlesAtWill(s: State, step: Step) {
    Grants(s, step) ==> forall actual: nat :: SettlesExactly(s, step, actual)
  }

  /** A granted reservation can be settled exactly at whatever it comes to, if and only if the counters that
      were missing got seeds that are not negative. */
  lemma GrantSettlesIff(s: State, step: Step)
    requires Balanced(s) && Sound(s)
    ensures SettlesAtWill(s, step) <==> SeedsWell(s, step)
  {
    if !Grants(s, step) {
    } else if SeedsWell(s, step) {
      forall actual: nat ensures SettlesExactly(s, step, actual) {
        ReserveBalances(s, step);
        SettleBalances(Do(s, step), Settle(|s.granted|, actual));
      }
    } else {
      var k := if ChannelKey(step.channel, step.day) !in s.counters && step.spent.channel < 0 then ChannelKey(step.channel, step.day)
               else GlobalKey(step.day);
      SettledAtNothing(s, step, k);
      assert !SettlesExactly(s, step, 0);
    }
  }

  /** Every reservation of the run, at the time it is granted, can be settled exactly. */
  ghost predicate AlwaysSettlesExactly(s: State, steps: seq<Step>)
    requires IsRun(s, steps)
    decreases |steps|
  {
    steps == [] || (SettlesAtWill(s, steps[0]) && AlwaysSettlesExactly(Do(s, steps[0]), steps[1..]))
  }

  /** Over whole runs without key loss: every reservation can be settled exactly at whatever it comes to, if
      and only if no missing counter is seeded with a negative amount. */
  lemma {:induction false} RunSettlesIff(s: State, steps: seq<Step>)
    requires IsRun(s, steps) && Balanced(s) && Sound(s) && WithinBudget(s) && KeepsKeys(steps)
    ensures AlwaysSettlesExactly(s, steps) <==> AlwaysSeedsWell(s, steps)
    decreases |steps|
  {
    if steps != [] {
      RestKeepsKeys(steps);
      GrantSettlesIff(s, steps[0]);
      if SeedsWell(s, steps[0]) {
        StepBalances(s, steps[0]);
        RunSettlesIff(Do(s, steps[0]), steps[1..]);
      }
    }
  }

  lemma AppendWithin(granted: seq<Reservation>, r: Reservation, k: Key, count: int)
    requires if On(r, k) then count <= BudgetFor(r, k) else Within(granted, k, count)
    ensures Within(granted + [r], k, count)
  {
    TotalAppend(granted, r, k);
    var more := granted + [r];
    if On(r, k) {
      assert more[|granted|] == r;
    } else {
      var i :| 0 <= i < |granted| && On(granted[i], k) && count <= BudgetFor(granted[i], k) + Overruns(granted, k);
      assert more[i] == granted[i];
    }
  }

  lemma ReserveWithin(s: State, step: Step)
    requires WithinBudget(s) && step.Reserve? && Enabled(s, step)
    ensures WithinBudget(Do(s, step))
    ensures CanReserve(s.counters, step.channel, step.day, step.estimate, step.budgets, step.spent) ==>
              Do(s, step).counters[ChannelKey(step.channel, step.day)] <= step.budgets.channel
              && Do(s, step).counters[GlobalKey(step.day)] <= step.budgets.global
  {
    if CanReserve(s.counters, step.channel, step.day, step.estimate, step.budgets, step.spent) {
      var counters := Reserved(s.counters, step.channel, step.day, step.estimate, step.spent);
      var r := Reservation(step.channel, step.day, step.estimate, step.budgets, None);
      forall k | k in counters ensures Within(s.granted + [r], k, counters[k]) {
        AppendWithin(s.granted, r, k, counters[k]);
      }
    }
  }

  lemma UpdateWithin(granted: seq<Reservation>, i: nat, actual: int, k: Key, count: int, after: int)
    requires i < |granted| && granted[i].settled.None? && Within(granted, k, count)
    requires after <= if On(granted[i], k) then count + actual - granted[i].estimate else count
    ensures Within(granted[i := granted[i].(settled := Some(actual))], k, after)
  {
    var r := granted[i];
    var r' := r.(settled := Some(actual));
    TotalUpdate(granted, i, r', k);
    var j :| 0 <= j < |granted| && On(granted[j], k) && count <= BudgetFor(granted[j], k) + Overruns(granted, k);
    var more := granted[i := r'];
    assert On(more[j], k) && BudgetFor(more[j], k) == BudgetFor(granted[j], k);
  }

  lemma AdjustedAt(s: State, step: Step, k: Key)
    requires Balanced(s) && Sound(s) && step.Settle? && Enabled(s, step) && k in Do(s, step).counters
    ensures k in s.counters
    ensures var r := s.granted[step.index];
            Do(s, step).counters[k] == if On(r, k) then s.counters[k] + step.actual - r.estimate else s.counters[k]
  {
    ClampNeverFires(s, step);
  }

  lemma SettleWithin(s: State, step: Step)
    requires Balanced(s) && Sound(s) && WithinBudget(s) && step.Settle? && Enabled(s, step)
    ensures WithinBudget(Do(s, step))
  {
    var t := Do(s, step);
    forall k | k in t.counters ensures Within(t.granted, k, t.counters[k]) {
      AdjustedAt(s, step, k);
      UpdateWithin(s.granted, step.index, step.actual, k, s.counters[k], t.counters[k]);
    }
  }

  // ---- Where it does not hold ----

  /** For instance, a negative spending in the database, as after a recharge during a probe, becomes a
      negative seed. The counter then admits more than the budget, and the settlement clamps it to zero. */
  lemma NegativeSeedBreaksTheLedger(credit: int, budget: int)
    requires credit > budget + 1 > 1
    ensures var b, spent := Budgets(budget, budget), Spent(-credit, -credit);
            var steps := [Reserve(1, 0, budget + 1, b, spent), Settle(0, budget + 1)];
            && IsRun(Start, steps)
            && Total(After(Start, steps).granted, GlobalKey(0)) == budget + 1 > budget
            && GlobalKey(0) in After(Start, steps).counters && After(Start, steps).counters[GlobalKey(0)] == 0
            && !Balanced(After(Start, steps))
  {
    var b, spent := Budgets(budget, budget), Spent(-credit, -credit);
    var one, two := Reserve(1, 0, budget + 1, b, spent), Settle(0, budget + 1);
    var steps := [one, two];
    var s1 := Do(Start, one);
    var s2 := Do(s1, two);
    var r := Reservation(1, 0, budget + 1, b, None);
    assert [] + [r] == [r] && [r][0] == r && s1.granted == [r];
    assert steps[1..] == [two] && [two][1..] == [];
    assert IsRun(s2, []) && IsRun(s1, [two]) && After(s2, []) == s2 && After(s1, [two]) == s2;
    assert After(Start, steps) == s2;
    assert s2.granted == [r.(settled := Some(budget + 1))] && s2.granted[..0] == [];
    assert Total([], GlobalKey(0)) == 0 && Total(s2.granted, GlobalKey(0)) == budget + 1;
    assert s2.counters[GlobalKey(0)] == 0 && s2.seeds[GlobalKey(0)] == -credit;
  }
}
