/** The slots for probes of half-open channels (internal/router/circuit_probe.go): a shared counter per
    channel, model and group, never left at zero or below. */
module ProbeSlots {
  datatype Key = Key(channel: int, model: string, bucket: int)

  type Slots = map<Key, int>

  function Count(s: Slots, k: Key): int {
    if k in s then s[k] else 0
  }

  predicate Positive(s: Slots) {
    forall k :: k in s ==> s[k] >= 1
  }

  function Reserved(s: Slots, k: Key): Slots {
    s[k := Count(s, k) + 1]
  }

  predicate CanReserve(s: Slots, k: Key, limit: int) {
    limit > 0 && Count(s, k) + 1 <= limit
  }

  function Released(s: Slots, k: Key): Slots {
    if k !in s then s else if s[k] - 1 <= 0 then s - {k} else s[k := s[k] - 1]
  }

  class SlotStore {
    var slots: Slots

    constructor ()
      ensures slots == map[]
    {
      slots := map[];
    }

    /** Count up, and down again if that is over the limit. */
    method Reserve(k: Key, limit: int) returns (ok: bool)
      requires Positive(slots)
      modifies this
      ensures ok == old(CanReserve(slots, k, limit))
      ensures slots == if ok then Reserved(old(slots), k) else old(slots)
    {
      // A rejected first reservation would leave the key at zero; with a positive limit there is none.
      if limit <= 0 {
        return false;
      }
      var n := (if k in slots then slots[k] else 0) + 1;
      slots := slots[k := n];
      if n <= limit {
        return true;
      }
      slots := slots[k := n - 1];
      return false;
    }

    method Release(k: Key)
      modifies this
      ensures slots == Released(old(slots), k)
    {
      if k in slots {
        var n := slots[k] - 1;
        slots := slots[k := n];
        if n <= 0 {
          slots := slots - {k};
        }
      }
    }
  }

  lemma ReleaseUndoesReserve(s: Slots, k: Key)
    requires Positive(s)
    ensures Released(Reserved(s, k), k) == s && Positive(Reserved(s, k))
  {
  }

  // ---- Many requests on the same slots ----

  /** A request takes a slot, or gives back the one it holds, or ends without giving it back. */
  datatype Step = Take(request: int, key: Key, limit: int) | Give(request: int) | Leak(request: int)

  /** The counters, the slots held by running requests, and those never given back. */
  datatype State = State(slots: Slots, held: map<int, Key>, lost: seq<Key>)

  predicate Enabled(s: State, step: Step) {
    match step
    case Take(request, _, _) => request !in s.held
    case Give(request) => request in s.held
    case Leak(request) => request in s.held
  }

  function Do(s: State, step: Step): State
    requires Enabled(s, step)
  {
    match step
    case Take(request, key, limit) =>
      if CanReserve(s.slots, key, limit) then State(Reserved(s.slots, key), s.held[request := key], s.lost) else s
    case Give(request) => State(Released(s.slots, s.held[request]), s.held - {request}, s.lost)
    case Leak(request) => State(s.slots, s.held - {request}, s.lost + [s.held[request]])
  }

  ghost function Holders(s: State, k: Key): set<int> {
    set request | request in s.held && s.held[request] == k
  }

  function LostFor(lost: seq<Key>, k: Key): nat {
    if lost == [] then 0 else LostFor(lost[..|lost| - 1], k) + (if lost[|lost| - 1] == k then 1 else 0)
  }

  /** The counter counts the slots held and the slots lost. */
  ghost predicate Exact(s: State) {
    Positive(s.slots) && forall k :: Count(s.slots, k) == |Holders(s, k)| + LostFor(s.lost, k)
  }

  lemma HoldersAfterTake(s: State, request: int, key: Key, k: Key)
    requires request !in s.held
    ensures |Holders(s.(held := s.held[request := key]), k)| == |Holders(s, k)| + (if k == key then 1 else 0)
  {
    var t := s.(held := s.held[request := key]);
    assert Holders(t, k) == Holders(s, k) + (if k == key then {request} else {});
  }

  lemma HoldersAfterDrop(s: State, request: int, k: Key)
    requires request in s.held
    ensures |Holders(s.(held := s.held - {request}), k)| == |Holders(s, k)| - (if k == s.held[request] then 1 else 0)
  {
    var t := s.(held := s.held - {request});
    assert Holders(t, k) == Holders(s, k) - (if k == s.held[request] then {request} else {});
  }

  lemma StepStaysExact(s: State, step: Step)
    requires Exact(s) && Enabled(s, step)
    ensures Exact(Do(s, step))
    ensures step.Take? && CanReserve(s.slots, step.key, step.limit) ==> Count(Do(s, step).slots, step.key) <= step.limit
  {
    var t := Do(s, step);
    match step
    case Take(request, key, limit) =>
      if CanReserve(s.slots, key, limit) {
        forall k ensures Count(t.slots, k) == |Holders(t, k)| + LostFor(t.lost, k) {
          HoldersAfterTake(s, request, key, k);
          assert Holders(t, k) == Holders(s.(held := s.held[request := key]), k);
        }
      }
    case Give(request) =>
      forall k ensures Count(t.slots, k) == |Holders(t, k)| + LostFor(t.lost, k) {
        HoldersAfterDrop(s, request, k);
        assert Holders(t, k) == Holders(s.(held := s.held - {request}), k);
        assert Count(s.slots, k) == |Holders(s, k)| + LostFor(s.lost, k);
      }
    case Leak(request) =>
      forall k ensures Count(t.slots, k) == |Holders(t, k)| + LostFor(t.lost, k) {
        HoldersAfterDrop(s, request, k);
        assert Holders(t, k) == Holders(s.(held := s.held - {request}), k);
        assert t.lost[..|s.lost|] == s.lost;
      }
  }

  predicate IsRun(s: State, steps: seq<Step>)
    decreases |steps|
  {
    steps == [] || (Enabled(s, steps[0]) && IsRun(Do(s, steps[0]), steps[1..]))
  }

  function After(s: State, steps: seq<Step>): State
    requires IsRun(s, steps)
    decreases |steps|
  {
    if steps == [] then s else After(Do(s, steps[0]), steps[1..])
  }

  lemma {:induction false} RunsCompose(s: State, first: seq<Step>, second: seq<Step>)
    requires IsRun(s, first) && IsRun(After(s, first), second)
    ensures IsRun(s, first + second) && After(s, first + second) == After(After(s, first), second)
    decreases |first|
  {
    if first == [] {
      assert first + second == second;
    } else {
      RunsCompose(Do(s, first[0]), first[1..], second);
      assert (first + second)[1..] == first[1..] + second;
    }
  }

  /** All reservations of a key use the same limit. */
  ghost predicate Limited(steps: seq<Step>, limits: Key -> int) {
    forall i :: 0 <= i < |steps| && steps[i].Take? ==> steps[i].limit == limits(steps[i].key)
  }

  ghost predicate Below(s: State, limits: Key -> int) {
    forall k :: 0 <= Count(s.slots, k) && (Count(s.slots, k) > 0 ==> Count(s.slots, k) <= limits(k))
  }

  /** In every interleaving of requests, absent key expiry, the counter is exactly the number of slots out,
      and between 0 and the limit. */
  lemma {:induction false} SlotsAreCounted(s: State, steps: seq<Step>, limits: Key -> int)
    requires Exact(s) && Below(s, limits) && IsRun(s, steps) && Limited(steps, limits)
    ensures Exact(After(s, steps)) && Below(After(s, steps), limits)
    decreases |steps|
  {
    if steps != [] {
      StepStaysExact(s, steps[0]);
      SlotsAreCounted(Do(s, steps[0]), steps[1..], limits);
    }
  }

  /** A slot that is not given back narrows the channel for good: once limit many are lost, no probe gets
      through any more until the key expires. */
  lemma LostSlotsBlockProbes(s: State, request: int, key: Key, limit: int)
    requires Exact(s) && request !in s.held && LostFor(s.lost, key) >= limit
    ensures Do(s, Take(request, key, limit)) == s
  {
    assert Count(s.slots, key) == |Holders(s, key)| + LostFor(s.lost, key);
  }

  // ---- Among other requests ----

  /** A step of another request; one that is not possible does not happen. */
  function Perform(s: State, step: Step, me: int): State {
    if step.request != me && Enabled(s, step) then Do(s, step) else s
  }

  function PerformAll(s: State, steps: seq<Step>, me: int): State {
    if steps == [] then s else Perform(PerformAll(s, steps[..|steps| - 1], me), steps[|steps| - 1], me)
  }

  /** The steps that do happen. */
  function Performed(s: State, steps: seq<Step>, me: int): seq<Step> {
    if steps == [] then []
    else
      var front, step := steps[..|steps| - 1], steps[|steps| - 1];
      Performed(s, front, me) + (if step.request != me && Enabled(PerformAll(s, front, me), step) then [step] else [])
  }

  lemma OneStep(s: State, step: Step)
    requires Enabled(s, step)
    ensures IsRun(s, [step]) && After(s, [step]) == Do(s, step)
  {
    assert [step][1..] == [];
    assert IsRun(Do(s, step), []) && After(Do(s, step), []) == Do(s, step);
  }

  lemma {:induction false} PerformedIsARun(s: State, steps: seq<Step>, me: int)
    ensures IsRun(s, Performed(s, steps, me)) && After(s, Performed(s, steps, me)) == PerformAll(s, steps, me)
  {
    if steps != [] {
      var front, step := steps[..|steps| - 1], steps[|steps| - 1];
      PerformedIsARun(s, front, me);
      if step.request != me && Enabled(PerformAll(s, front, me), step) {
        OneStep(PerformAll(s, front, me), step);
        RunsCompose(s, Performed(s, front, me), [step]);
      } else {
        assert Performed(s, front, me) + [] == Performed(s, front, me);
      }
    }
  }

  /** The slot of a request stays its own, and no counter falls to zero. */
  lemma PerformKeepsMine(s: State, step: Step, me: int)
    requires Positive(s.slots)
    ensures var t := Perform(s, step, me);
            Positive(t.slots) && (me in t.held <==> me in s.held) && (me in s.held ==> t.held[me] == s.held[me])
  {
  }

  lemma {:induction false} OthersKeepMine(s: State, steps: seq<Step>, me: int)
    requires Positive(s.slots)
    ensures var t := PerformAll(s, steps, me);
            Positive(t.slots) && (me in t.held <==> me in s.held) && (me in s.held ==> t.held[me] == s.held[me])
  {
    if steps != [] {
      OthersKeepMine(s, steps[..|steps| - 1], me);
      PerformKeepsMine(PerformAll(s, steps[..|steps| - 1], me), steps[|steps| - 1], me);
    }
  }

  /** The steps of one request. */
  function OwnSteps(steps: seq<Step>, me: int): seq<Step> {
    if steps == [] then []
    else OwnSteps(steps[..|steps| - 1], me) + (if steps[|steps| - 1].request == me then [steps[|steps| - 1]] else [])
  }

  lemma {:induction false} OwnConcat(a: seq<Step>, b: seq<Step>, me: int)
    ensures OwnSteps(a + b, me) == OwnSteps(a, me) + OwnSteps(b, me)
  {
    if b == [] {
      assert a + b == a;
    } else {
      assert (a + b)[..|a + b| - 1] == a + b[..|b| - 1];
      OwnConcat(a, b[..|b| - 1], me);
    }
  }

  lemma {:induction false} NoneOwn(s: State, steps: seq<Step>, me: int)
    ensures OwnSteps(Performed(s, steps, me), me) == []
  {
    if steps != [] {
      var front := steps[..|steps| - 1];
      NoneOwn(s, front, me);
      var last := Performed(s, steps, me)[|Performed(s, front, me)|..];
      OwnConcat(Performed(s, front, me), last, me);
      assert Performed(s, steps, me) == Performed(s, front, me) + last;
      assert last != [] ==> last[..0] == [];
    }
  }

  /** The other requests that hold slots. */
  class Requests {
    var held: map<int, Key>

    constructor (held: map<int, Key>)
      ensures this.held == held
    {
      this.held := held;
    }

    /** One step of one of them, if it is possible. */
    method Act(store: SlotStore, step: Step, me: int, ghost s: State)
      requires store.slots == s.slots && held == s.held - {me} && Positive(s.slots)
      modifies store, this
      ensures store.slots == Perform(s, step, me).slots && held == Perform(s, step, me).held - {me}
    {
      if step.request == me {
        return;
      }
      match step {
        case Take(request, key, limit) =>
          if request !in held {
            var ok := store.Reserve(key, limit);
            if ok {
              held := held[request := key];
            }
          }
        case Give(request) =>
          if request in held {
            store.Release(held[request]);
            held := held - {request};
          }
        case Leak(request) =>
          if request in held {
            held := held - {request};
          }
      }
    }

    method ActAll(store: SlotStore, steps: seq<Step>, me: int, ghost s: State)
      requires store.slots == s.slots && held == s.held - {me} && Positive(s.slots)
      modifies store, this
      ensures store.slots == PerformAll(s, steps, me).slots && held == PerformAll(s, steps, me).held - {me}
    {
      assert steps[..0] == [];
      for i := 0 to |steps|
        invariant store.slots == PerformAll(s, steps[..i], me).slots && held == PerformAll(s, steps[..i], me).held - {me}
      {
        OthersKeepMine(s, steps[..i], me);
        assert steps[..i + 1][..i] == steps[..i];
        Act(store, steps[i], me, PerformAll(s, steps[..i], me));
      }
      assert steps[..|steps|] == steps;
    }
  }
}

/** The failover loop of a request (internal/api/proxy.go): candidates are tried in order until one has
    sent something to the client. */
module Failover {
  import opened ProbeSlots

  // ---- Forwarding a stream ----

  datatype End = More | EndOfFile | ReadError

  /** One read from the upstream: whether it gave bytes, whether the client took them, and the error. */
  datatype Read = Read(bytes: bool, written: bool, end: End)

  predicate Delivers(r: Read) { r.bytes && r.written }

  predicate ClientLost(r: Read) { r.bytes && !r.written }

  /** Where forwarding stops: the client is lost or the upstream has ended. */
  predicate Stops(r: Read) { ClientLost(r) || r.end != More }

  method StreamResponse(results: seq<Read>) returns (committed: bool, ok: bool, clientGone: bool, last: nat)
    requires exists i :: 0 <= i < |results| && Stops(results[i])
    ensures last < |results| && Stops(results[last]) && forall i :: 0 <= i < last ==> !Stops(results[i])
    ensures committed <==> exists i :: 0 <= i <= last && Delivers(results[i])
    ensures clientGone <==> ClientLost(results[last])
    ensures ok <==> committed && !clientGone && results[last].end == EndOfFile
  {
    committed := false;
    var i := 0;
    while true
      invariant 0 <= i < |results| && forall j :: 0 <= j < i ==> !Stops(results[j])
      invariant exists j :: i <= j < |results| && Stops(results[j])
      invariant committed <==> exists j :: 0 <= j < i && Delivers(results[j])
      decreases |results| - i
    {
      var r := results[i];
      last := i;
      if r.bytes {
        if !r.written {
          return committed, false, true, i;
        }
        committed := true;
        assert Delivers(results[i]);
      }
      if r.end != More {
        if r.end == EndOfFile {
          return committed, committed, false, i;
        }
        return committed, false, false, i;
      }
      i := i + 1;
    }
  }

  // ---- One attempt ----

  /** How a call or the reading of its answer fails. */
  datatype CallError = FirstByteTimeout | Status(code: int) | DeadlineExceeded | Canceled | OtherFailure

  /** A cancellation while the caller is still there and nothing has come back was the gateway's own, for want of
      a first byte. */
  function AsAttempt(e: CallError, live: bool, firstByte: bool): CallError {
    if e == Canceled && live && !firstByte then FirstByteTimeout else e
  }

  /** Whether another candidate may be tried; live tells whether the caller is still there. */
  predicate IsRetryable(e: CallError, live: bool) {
    match e
    case FirstByteTimeout => live
    case Status(code) => code == 429 || code == 408 || code >= 500
    case DeadlineExceeded => live
    case Canceled => false
    case OtherFailure => true
  }

  /** What becomes of an attempt once the upstream has been called. A stream that ends well has sent
      something; so has one that is buffered and answered. */
  datatype Reply =
    | CallFailed(error: CallError, live: bool)
    | Streamed(committed: bool, ok: bool, clientGone: bool)
    | ReadFailed(error: CallError, live: bool, firstByte: bool)
    | InvalidJson
    | Answered

  /** How a call of the slot store for a reservation goes: it is answered, it never gets there, it is carried
      out and the answer is lost, or there is no store, and then nothing is counted. */
  datatype Call = Served | NotReached | AnswerLost | NoStore

  /** A candidate and its circumstances: whether the snapshot has it, whether it is half-open, the time
      since the start of the request, how the reservation goes, the reply, and whether a release of the
      slot would reach the store. It does not once the client has left, since it runs under the context of
      the request, nor while the store is down; its failure is ignored. Other requests use the slots before
      the candidate is looked at and during its call. */
  datatype Candidate = Candidate(id: int, present: bool, halfOpen: bool, connectMS: int, elapsed: nat, reservation: Call, reply: Reply,
                                 releaseReaches: bool, before: seq<Step>, during: seq<Step>)

  datatype Attempt = Attempt(channel: int, committed: bool, elapsed: nat, budget: int)

  datatype Outcome = Success(channel: int) | UpstreamError(channel: int) | Interrupted(channel: int) | ClientCanceled(channel: int) | AllFailed

  function AttemptTTFBBudget(remainingTotalMS: int, maxTTFTMS: int, connectMS: int): (budget: int)
    ensures budget >= 1000 && budget <= (if remainingTotalMS < 1000 then 1000 else remainingTotalMS)
    ensures maxTTFTMS > 0 && connectMS > 0 && maxTTFTMS + connectMS >= 1000 && remainingTotalMS >= 1000 ==>
              budget <= maxTTFTMS + connectMS && (budget == maxTTFTMS + connectMS || budget == remainingTotalMS)
    ensures maxTTFTMS <= 0 && connectMS <= 0 && remainingTotalMS >= 10000 ==> budget == 10000
    ensures maxTTFTMS <= 0 < connectMS && remainingTotalMS >= 5000 + connectMS ==> budget == 5000 + connectMS
    ensures connectMS <= 0 < maxTTFTMS && remainingTotalMS >= 5000 + maxTTFTMS ==> budget == 5000 + maxTTFTMS
  {
    var total := if remainingTotalMS < 1000 then 1000 else remainingTotalMS;
    var ttft := if maxTTFTMS <= 0 then 5000 else maxTTFTMS;
    var connect := if connectMS <= 0 then 5000 else connectMS;
    var budget := if ttft + connect < total then ttft + connect else total;
    if budget < 1000 then 1000 else budget
  }

  function EffectiveAttempts(maxAttempts: int): nat { if maxAttempts <= 0 then 1 else maxAttempts }

  function EffectiveBudget(totalMS: int): nat { if totalMS <= 0 then 30000 else totalMS }

  /** Failing and succeeding both try to give the slot back first. */
  method FinishAttempt(store: SlotStore, probeReserved: bool, key: Key, reaches: bool)
    modifies store
    ensures store.slots == if probeReserved && reaches then Released(old(store.slots), key) else old(store.slots)
  {
    if probeReserved && reaches {
      store.Release(key);
    }
  }

  /** What a reply means for the loop. Once something has been sent to the client there is no next
      candidate. */
  datatype Verdict = NextCandidate | StopError | StopInterrupted | StopCanceled | StopSuccess

  function VerdictOf(r: Reply): Verdict {
    match r
    case CallFailed(e, live) => if IsRetryable(AsAttempt(e, live, false), live) then NextCandidate else StopError
    case Streamed(committed, ok, clientGone) =>
      if ok then StopSuccess
      else if !committed then NextCandidate
      else if clientGone then StopCanceled
      else StopInterrupted
    case ReadFailed(e, live, firstByte) => if IsRetryable(AsAttempt(e, live, firstByte), live) then NextCandidate else StopError
    case InvalidJson => NextCandidate
    case Answered => StopSuccess
  }

  /** A client that leaves ends the request if its call or its reading is cancelled by that, and a stream if it
      has sent something; a stream that has sent nothing counts as failed and the loop goes on. A cancellation for
      want of a first byte lets it go on exactly while the client is there. */
  lemma WhenTheClientLeaves(firstByte: bool, live: bool)
    ensures VerdictOf(CallFailed(Canceled, live)) == if live then NextCandidate else StopError
    ensures VerdictOf(ReadFailed(Canceled, live, firstByte)) == if live && !firstByte then NextCandidate else StopError
    ensures VerdictOf(Streamed(true, false, true)) == StopCanceled && VerdictOf(Streamed(false, false, true)) == NextCandidate
  {
  }

  predicate Commits(v: Verdict) {
    v == StopInterrupted || v == StopSuccess
  }

  /** Whether the store counts a slot for the candidate. */
  predicate TakesSlot(c: Candidate, slots: Slots, key: Key, slotLimit: int) {
    c.present && c.halfOpen && (c.reservation == Served || c.reservation == AnswerLost) && CanReserve(slots, key, slotLimit)
  }

  /** Whether a candidate is tried at all. */
  predicate IsTried(c: Candidate, slots: Slots, key: Key, slotLimit: int) {
    c.present && (c.halfOpen ==> (c.reservation == NoStore && slotLimit > 0) || (c.reservation == Served && CanReserve(slots, key, slotLimit)))
  }

  /** Whether a slot taken for the candidate is not given back: the reservation went unnoticed, the client
      left after a first byte, or the release does not get through. */
  predicate Leaks(c: Candidate) {
    c.reservation == AnswerLost || VerdictOf(c.reply) == StopCanceled || !c.releaseReaches
  }

  /** The state of the slots with one taken for the candidate. */
  function Taken(s: State, me: int, key: Key): State {
    State(Reserved(s.slots, key), s.held[me := key], s.lost)
  }

  /** And with that one given back or lost. */
  function Ended(s: State, me: int, key: Key, leaks: bool): State {
    if leaks then State(s.slots, s.held - {me}, s.lost + [key]) else State(Released(s.slots, key), s.held - {me}, s.lost)
  }

  /** What a candidate and the other requests make of the slots. */
  function StateAfter(c: Candidate, s: State, me: int, key: Key, slotLimit: int): State {
    var now := PerformAll(s, c.before, me);
    if TakesSlot(c, now.slots, key, slotLimit) then
      if c.reservation == AnswerLost then Ended(Taken(now, me, key), me, key, true)
      else Ended(PerformAll(Taken(now, me, key), c.during, me), me, key, Leaks(c))
    else if IsTried(c, now.slots, key, slotLimit) then PerformAll(now, c.during, me)
    else now
  }

  /** One candidate: take a slot if it is half-open, call it, give the slot back, while other requests do the
      same. */
  method TryCandidate(store: SlotStore, others: Requests, me: int, key: Key, slotLimit: int, c: Candidate, ghost s: State)
    returns (tried: bool, verdict: Verdict)
    requires Positive(s.slots) && store.slots == s.slots && me !in s.held && others.held == s.held
    modifies store, others
    ensures tried == IsTried(c, PerformAll(s, c.before, me).slots, key, slotLimit)
    ensures tried ==> verdict == VerdictOf(c.reply)
    ensures store.slots == StateAfter(c, s, me, key, slotLimit).slots && others.held == StateAfter(c, s, me, key, slotLimit).held
  {
    verdict := NextCandidate;
    assert s.held - {me} == s.held;
    others.ActAll(store, c.before, me, s);
    OthersKeepMine(s, c.before, me);
    ghost var now := PerformAll(s, c.before, me);
    assert now.held - {me} == now.held;
    if !c.present {
      return false, verdict;
    }
    var probeReserved := false;
    if c.halfOpen {
      if slotLimit > 0 && c.reservation == NotReached {
        return false, verdict;
      }
      if slotLimit <= 0 || c.reservation != NoStore {
        var ok := store.Reserve(key, slotLimit);
        if (slotLimit > 0 && c.reservation == AnswerLost) || !ok {
          assert Taken(now, me, key).held - {me} == now.held;
          return false, verdict;
        }
        probeReserved := true;
      }
    }
    ghost var called := if probeReserved then Taken(now, me, key) else now;
    assert called.held - {me} == now.held && Positive(called.slots);
    others.ActAll(store, c.during, me, called);
    OthersKeepMine(called, c.during, me);
    verdict := Attend(store, c, probeReserved, key);
    assert !probeReserved ==> PerformAll(called, c.during, me).held - {me} == PerformAll(called, c.during, me).held;
    return true, verdict;
  }

  /** What follows from the reply. Only when the client leaves after a first byte is the slot not given
      back. */
  method Attend(store: SlotStore, c: Candidate, probeReserved: bool, key: Key) returns (verdict: Verdict)
    modifies store
    ensures verdict == VerdictOf(c.reply)
    ensures store.slots == if probeReserved && verdict != StopCanceled && c.releaseReaches then Released(old(store.slots), key)
                           else old(store.slots)
  {
    match c.reply {
      case CallFailed(e, live) =>
        FinishAttempt(store, probeReserved, key, c.releaseReaches);
        verdict := if IsRetryable(AsAttempt(e, live, false), live) then NextCandidate else StopError;
      case Streamed(committed, ok, clientGone) =>
        if !ok {
          if clientGone && committed {
            return StopCanceled;
          }
          FinishAttempt(store, probeReserved, key, c.releaseReaches);
          verdict := if committed then StopInterrupted else NextCandidate;
        } else {
          FinishAttempt(store, probeReserved, key, c.releaseReaches);
          verdict := StopSuccess;
        }
      case ReadFailed(e, live, firstByte) =>
        FinishAttempt(store, probeReserved, key, c.releaseReaches);
        verdict := if IsRetryable(AsAttempt(e, live, firstByte), live) then NextCandidate else StopError;
      case InvalidJson =>
        FinishAttempt(store, probeReserved, key, c.releaseReaches);
        verdict := NextCandidate;
      case Answered =>
        FinishAttempt(store, probeReserved, key, c.releaseReaches);
        verdict := StopSuccess;
    }
  }

  /** The first byte budget of an attempt that starts at the given time. */
  function BudgetAt(c: Candidate, totalBudgetMS: nat, maxTTFTMS: int): int {
    AttemptTTFBBudget(totalBudgetMS - c.elapsed, maxTTFTMS, c.connectMS)
  }

  function AttemptOn(c: Candidate, totalBudgetMS: nat, maxTTFTMS: int): Attempt {
    Attempt(c.id, Commits(VerdictOf(c.reply)), c.elapsed, BudgetAt(c, totalBudgetMS, maxTTFTMS))
  }

  /** The settings of a request that do not change while it runs. */
  datatype Settings = Settings(model: string, bucket: int, slotLimit: int, maxAttempts: nat, totalBudgetMS: nat, maxTTFTMS: int)

  function SettingsOf(model: string, bucket: int, slotLimit: int, maxAttempts0: int, totalBudget0: int, maxTTFTMS: int): Settings {
    Settings(model, bucket, slotLimit, EffectiveAttempts(maxAttempts0), EffectiveBudget(totalBudget0), maxTTFTMS)
  }

  function KeyOf(g: Settings, c: Candidate): Key { Key(c.id, g.model, g.bucket) }

  /** The slots when the loop comes to candidate i. */
  function StateBefore(g: Settings, s: State, me: int, candidates: seq<Candidate>, i: nat): State
    requires i <= |candidates|
  {
    if i == 0 then s
    else StateAfter(candidates[i - 1], StateBefore(g, s, me, candidates, i - 1), me, KeyOf(g, candidates[i - 1]), g.slotLimit)
  }

  /** The counters that candidate i finds. */
  function Found(g: Settings, s: State, me: int, candidates: seq<Candidate>, i: nat): Slots
    requires i < |candidates|
  {
    PerformAll(StateBefore(g, s, me, candidates, i), candidates[i].before, me).slots
  }

  predicate Tries(g: Settings, s: State, me: int, candidates: seq<Candidate>, i: nat)
    requires i < |candidates|
  {
    IsTried(candidates[i], Found(g, s, me, candidates, i), KeyOf(g, candidates[i]), g.slotLimit)
  }

  /** A slot is taken for candidate i. */
  predicate Takes(g: Settings, s: State, me: int, candidates: seq<Candidate>, i: nat)
    requires i < |candidates|
  {
    TakesSlot(candidates[i], Found(g, s, me, candidates, i), KeyOf(g, candidates[i]), g.slotLimit)
  }

  // ---- The request as a run on the slots ----

  /** What the request and the others do to the slots around a candidate. */
  function StepsFor(c: Candidate, s: State, me: int, key: Key, slotLimit: int): seq<Step> {
    var now, before := PerformAll(s, c.before, me), Performed(s, c.before, me);
    if TakesSlot(c, now.slots, key, slotLimit) then
      before + [Take(me, key, slotLimit)]
      + (if c.reservation == AnswerLost then [] else Performed(Taken(now, me, key), c.during, me))
      + [if Leaks(c) then Leak(me) else Give(me)]
    else if IsTried(c, now.slots, key, slotLimit) then before + Performed(now, c.during, me)
    else before
  }

  lemma TakeIsAStep(s: State, me: int, key: Key, limit: int)
    requires Positive(s.slots) && me !in s.held && CanReserve(s.slots, key, limit)
    ensures IsRun(s, [Take(me, key, limit)]) && After(s, [Take(me, key, limit)]) == Taken(s, me, key)
    ensures Positive(Taken(s, me, key).slots)
  {
    OneStep(s, Take(me, key, limit));
  }

  lemma EndIsAStep(s: State, me: int, key: Key, leaks: bool)
    requires Positive(s.slots) && me in s.held && s.held[me] == key
    ensures var step := if leaks then Leak(me) else Give(me); IsRun(s, [step]) && After(s, [step]) == Ended(s, me, key, leaks)
    ensures Positive(Ended(s, me, key, leaks).slots) && me !in Ended(s, me, key, leaks).held
  {
    OneStep(s, if leaks then Leak(me) else Give(me));
  }

  /** A run that goes through four states. */
  lemma FourRuns(s: State, a: seq<Step>, b: seq<Step>, c: seq<Step>, d: seq<Step>)
    requires IsRun(s, a) && IsRun(After(s, a), b) && IsRun(After(After(s, a), b), c) && IsRun(After(After(After(s, a), b), c), d)
    ensures IsRun(s, a + b + c + d) && After(s, a + b + c + d) == After(After(After(After(s, a), b), c), d)
  {
    RunsCompose(s, a, b);
    RunsCompose(s, a + b, c);
    RunsCompose(s, a + b + c, d);
  }

  lemma SlotIsARun(c: Candidate, s: State, me: int, key: Key, slotLimit: int)
    requires Positive(s.slots) && me !in s.held && TakesSlot(c, PerformAll(s, c.before, me).slots, key, slotLimit)
    ensures IsRun(s, StepsFor(c, s, me, key, slotLimit))
    ensures After(s, StepsFor(c, s, me, key, slotLimit)) == StateAfter(c, s, me, key, slotLimit)
    ensures Positive(StateAfter(c, s, me, key, slotLimit).slots) && me !in StateAfter(c, s, me, key, slotLimit).held
  {
    var now := PerformAll(s, c.before, me);
    PerformedIsARun(s, c.before, me);
    OthersKeepMine(s, c.before, me);
    TakeIsAStep(now, me, key, slotLimit);
    var taken := Taken(now, me, key);
    var during := if c.reservation == AnswerLost then [] else c.during;
    PerformedIsARun(taken, during, me);
    OthersKeepMine(taken, during, me);
    EndIsAStep(PerformAll(taken, during, me), me, key, Leaks(c));
    FourRuns(s, Performed(s, c.before, me), [Take(me, key, slotLimit)], Performed(taken, during, me),
             [if Leaks(c) then Leak(me) else Give(me)]);
  }

  lemma CandidateIsARun(c: Candidate, s: State, me: int, key: Key, slotLimit: int)
    requires Positive(s.slots) && me !in s.held
    ensures IsRun(s, StepsFor(c, s, me, key, slotLimit))
    ensures After(s, StepsFor(c, s, me, key, slotLimit)) == StateAfter(c, s, me, key, slotLimit)
    ensures Positive(StateAfter(c, s, me, key, slotLimit).slots) && me !in StateAfter(c, s, me, key, slotLimit).held
  {
    var now := PerformAll(s, c.before, me);
    if TakesSlot(c, now.slots, key, slotLimit) {
      SlotIsARun(c, s, me, key, slotLimit);
    } else {
      PerformedIsARun(s, c.before, me);
      OthersKeepMine(s, c.before, me);
      if IsTried(c, now.slots, key, slotLimit) {
        PerformedIsARun(now, c.during, me);
        OthersKeepMine(now, c.during, me);
        RunsCompose(s, Performed(s, c.before, me), Performed(now, c.during, me));
      }
    }
  }

  /** What the request and the others do to the slots during the first n candidates. */
  function SlotSteps(g: Settings, s: State, me: int, candidates: seq<Candidate>, n: nat): seq<Step>
    requires n <= |candidates|
  {
    if n == 0 then []
    else SlotSteps(g, s, me, candidates, n - 1)
         + StepsFor(candidates[n - 1], StateBefore(g, s, me, candidates, n - 1), me, KeyOf(g, candidates[n - 1]), g.slotLimit)
  }

  /** Among other requests the request is a run on the slots, and holds none of them before or after. */
  lemma {:induction false} RequestIsARun(g: Settings, s: State, me: int, candidates: seq<Candidate>, n: nat)
    requires n <= |candidates| && Positive(s.slots) && me !in s.held
    ensures IsRun(s, SlotSteps(g, s, me, candidates, n))
    ensures After(s, SlotSteps(g, s, me, candidates, n)) == StateBefore(g, s, me, candidates, n)
    ensures Positive(StateBefore(g, s, me, candidates, n).slots) && me !in StateBefore(g, s, me, candidates, n).held
  {
    if n > 0 {
      RequestIsARun(g, s, me, candidates, n - 1);
      var c, t := candidates[n - 1], StateBefore(g, s, me, candidates, n - 1);
      CandidateIsARun(c, t, me, KeyOf(g, c), g.slotLimit);
      RunsCompose(s, SlotSteps(g, s, me, candidates, n - 1), StepsFor(c, t, me, KeyOf(g, c), g.slotLimit));
    }
  }

  /** The request's own part: a slot taken and given back, or lost, for every candidate it was granted for. */
  function OwnPart(g: Settings, s: State, me: int, candidates: seq<Candidate>, n: nat): seq<Step>
    requires n <= |candidates|
  {
    if n == 0 then []
    else
      OwnPart(g, s, me, candidates, n - 1)
      + (if Takes(g, s, me, candidates, n - 1)
         then [Take(me, KeyOf(g, candidates[n - 1]), g.slotLimit), if Leaks(candidates[n - 1]) then Leak(me) else Give(me)] else [])
  }

  lemma OwnOfOne(step: Step, me: int)
    requires step.request == me
    ensures OwnSteps([step], me) == [step]
  {
    assert [step][..0] == [];
  }

  lemma OwnOfSlot(a: seq<Step>, take: Step, b: seq<Step>, end: Step, me: int)
    requires OwnSteps(a, me) == [] && OwnSteps(b, me) == [] && take.request == me && end.request == me
    ensures OwnSteps(a + [take] + b + [end], me) == [take, end]
  {
    OwnConcat(a + [take] + b, [end], me);
    OwnConcat(a + [take], b, me);
    OwnConcat(a, [take], me);
    OwnOfOne(take, me);
    OwnOfOne(end, me);
  }

  lemma OwnOfCandidate(c: Candidate, s: State, me: int, key: Key, slotLimit: int)
    ensures OwnSteps(StepsFor(c, s, me, key, slotLimit), me) ==
            if TakesSlot(c, PerformAll(s, c.before, me).slots, key, slotLimit)
            then [Take(me, key, slotLimit), if Leaks(c) then Leak(me) else Give(me)] else []
  {
    var now := PerformAll(s, c.before, me);
    NoneOwn(s, c.before, me);
    NoneOwn(now, c.during, me);
    NoneOwn(Taken(now, me, key), c.during, me);
    if TakesSlot(c, now.slots, key, slotLimit) {
      var during := if c.reservation == AnswerLost then [] else Performed(Taken(now, me, key), c.during, me);
      OwnOfSlot(Performed(s, c.before, me), Take(me, key, slotLimit), during, if Leaks(c) then Leak(me) else Give(me), me);
    } else {
      OwnConcat(Performed(s, c.before, me), Performed(now, c.during, me), me);
    }
  }

  lemma OwnOfNext(g: Settings, s: State, me: int, candidates: seq<Candidate>, i: nat)
    requires i < |candidates|
    ensures OwnSteps(SlotSteps(g, s, me, candidates, i + 1), me) ==
            OwnSteps(SlotSteps(g, s, me, candidates, i), me)
            + (if Takes(g, s, me, candidates, i)
               then [Take(me, KeyOf(g, candidates[i]), g.slotLimit), if Leaks(candidates[i]) then Leak(me) else Give(me)] else [])
  {
    var c, t := candidates[i], StateBefore(g, s, me, candidates, i);
    var steps, more := SlotSteps(g, s, me, candidates, i), StepsFor(c, t, me, KeyOf(g, c), g.slotLimit);
    OwnOfCandidate(c, t, me, KeyOf(g, c), g.slotLimit);
    OwnConcat(steps, more, me);
    assert SlotSteps(g, s, me, candidates, i + 1) == steps + more;
  }

  /** Whatever the others do, the request takes exactly the slots of the candidates it is granted one for, and
      loses a slot exactly where its reservation went unnoticed, its client left after a first byte, or its
      release did not get through; all others it gives back. */
  lemma {:induction false} RequestsOwnPart(g: Settings, s: State, me: int, candidates: seq<Candidate>, n: nat)
    requires n <= |candidates|
    ensures OwnSteps(SlotSteps(g, s, me, candidates, n), me) == OwnPart(g, s, me, candidates, n)
  {
    if n > 0 {
      var before := n - 1;
      RequestsOwnPart(g, s, me, candidates, before);
      OwnOfNext(g, s, me, candidates, before);
    }
  }

  /** So after a request, as after every step of it and of the others, each counter is the number of slots held
      and lost, within its limit. */
  lemma RequestKeepsTheCount(g: Settings, s: State, me: int, candidates: seq<Candidate>, n: nat, limits: Key -> int)
    requires n <= |candidates| && me !in s.held && Exact(s) && Below(s, limits)
    requires Limited(SlotSteps(g, s, me, candidates, n), limits)
    ensures Exact(StateBefore(g, s, me, candidates, n)) && Below(StateBefore(g, s, me, candidates, n), limits)
  {
    RequestIsARun(g, s, me, candidates, n);
    SlotsAreCounted(s, SlotSteps(g, s, me, candidates, n), limits);
  }

  // ---- Without others ----

  predicate Quiet(candidates: seq<Candidate>) {
    forall i :: 0 <= i < |candidates| ==> candidates[i].before == [] && candidates[i].during == []
  }

  /** The slots lost on the first n candidates, in order. */
  function SlotsLost(g: Settings, s: State, me: int, candidates: seq<Candidate>, n: nat): seq<Key>
    requires n <= |candidates|
  {
    if n == 0 then []
    else SlotsLost(g, s, me, candidates, n - 1)
         + (if Takes(g, s, me, candidates, n - 1) && Leaks(candidates[n - 1]) then [KeyOf(g, candidates[n - 1])] else [])
  }

  lemma QuietStep(c: Candidate, s: State, me: int, key: Key, slotLimit: int)
    requires Positive(s.slots) && me !in s.held && c.before == [] && c.during == []
    ensures StateAfter(c, s, me, key, slotLimit) ==
            if TakesSlot(c, s.slots, key, slotLimit) && Leaks(c) then State(Reserved(s.slots, key), s.held, s.lost + [key]) else s
  {
    ReleaseUndoesReserve(s.slots, key);
    assert s.held[me := key] - {me} == s.held;
  }

  /** The state t is s with the given slots lost. */
  ghost predicate ShowsLost(s: State, t: State, lost: seq<Key>) {
    && Positive(t.slots) && t.held == s.held && t.lost == s.lost + lost
    && (forall k :: Count(t.slots, k) == Count(s.slots, k) + LostFor(lost, k))
    && (t.slots == s.slots <==> lost == [])
  }

  lemma NothingLost(s: State)
    requires Positive(s.slots)
    ensures ShowsLost(s, s, [])
  {
    assert s.lost + [] == s.lost;
  }

  lemma OneMoreLost(s: State, t: State, lost: seq<Key>, key: Key)
    requires ShowsLost(s, t, lost)
    ensures ShowsLost(s, State(Reserved(t.slots, key), t.held, t.lost + [key]), lost + [key])
  {
    var more := Reserved(t.slots, key);
    assert (lost + [key])[..|lost|] == lost;
    assert s.lost + (lost + [key]) == t.lost + [key];
    assert Count(more, key) > Count(s.slots, key);
  }

  /** If nobody else uses them, the counters end as they were plus the slots lost, and the same exactly if none
      was. */
  lemma {:induction false} CountersShowTheLost(g: Settings, s: State, me: int, candidates: seq<Candidate>, n: nat)
    requires n <= |candidates| && Positive(s.slots) && me !in s.held && Quiet(candidates)
    ensures ShowsLost(s, StateBefore(g, s, me, candidates, n), SlotsLost(g, s, me, candidates, n))
  {
    if n == 0 {
      NothingLost(s);
    } else {
      CountersShowTheLost(g, s, me, candidates, n - 1);
      var c, t := candidates[n - 1], StateBefore(g, s, me, candidates, n - 1);
      var lost := SlotsLost(g, s, me, candidates, n - 1);
      QuietStep(c, t, me, KeyOf(g, c), g.slotLimit);
      OneMoreLost(s, t, lost, KeyOf(g, c));
      assert lost + [] == lost;
    }
  }

  /** The loop does not go on to candidate i. */
  predicate Exhausted(g: Settings, candidates: seq<Candidate>, i: nat) {
    i == |candidates| || i >= g.maxAttempts || (i < |candidates| && candidates[i].elapsed >= g.totalBudgetMS)
  }

  /** The candidates before n that are tried. */
  function Tried(g: Settings, s: State, me: int, candidates: seq<Candidate>, n: nat): seq<nat>
    requires n <= |candidates|
  {
    if n == 0 then []
    else Tried(g, s, me, candidates, n - 1) + (if Tries(g, s, me, candidates, n - 1) then [n - 1] else [])
  }

  /** The records of the attempts on them. */
  function AttemptsBefore(g: Settings, s: State, me: int, candidates: seq<Candidate>, n: nat): seq<Attempt>
    requires n <= |candidates|
  {
    if n == 0 then []
    else AttemptsBefore(g, s, me, candidates, n - 1)
         + (if Tries(g, s, me, candidates, n - 1) then [AttemptOn(candidates[n - 1], g.totalBudgetMS, g.maxTTFTMS)] else [])
  }

  /** The loop comes to candidate n: neither attempts nor time are used up, and whatever was tried failed
      with nothing sent. */
  predicate GoesOn(g: Settings, s: State, me: int, candidates: seq<Candidate>, n: nat) {
    && n <= |candidates|
    && (n > 0 ==> GoesOn(g, s, me, candidates, n - 1) && !Exhausted(g, candidates, n - 1)
                  && (Tries(g, s, me, candidates, n - 1) ==> VerdictOf(candidates[n - 1].reply) == NextCandidate))
  }

  /** How a candidate that ends the loop ends it. */
  function EndsWith(c: Candidate): Outcome {
    match VerdictOf(c.reply)
    case NextCandidate => AllFailed
    case StopError => UpstreamError(c.id)
    case StopInterrupted => Interrupted(c.id)
    case StopCanceled => ClientCanceled(c.id)
    case StopSuccess => Success(c.id)
  }

  /** What a request comes to: n is where the loop gives up, or just behind the candidate that ended it; the
      attempt on a client that has left is not recorded. */
  predicate IsRequest(g: Settings, s: State, me: int, candidates: seq<Candidate>, outcome: Outcome, attempts: seq<Attempt>, n: nat) {
    && n <= |candidates|
    && if outcome.AllFailed? then
         GoesOn(g, s, me, candidates, n) && Exhausted(g, candidates, n) && attempts == AttemptsBefore(g, s, me, candidates, n)
       else
         && n > 0 && GoesOn(g, s, me, candidates, n - 1) && !Exhausted(g, candidates, n - 1) && Tries(g, s, me, candidates, n - 1)
         && outcome == EndsWith(candidates[n - 1])
         && attempts == AttemptsBefore(g, s, me, candidates, if outcome.ClientCanceled? then n - 1 else n)
  }

  /** What becomes of the loop at candidate i. */
  lemma LoopStep(g: Settings, s: State, me: int, candidates: seq<Candidate>, i: nat)
    requires GoesOn(g, s, me, candidates, i) && i < |candidates| && !Exhausted(g, candidates, i)
    ensures !Tries(g, s, me, candidates, i) ==>
              GoesOn(g, s, me, candidates, i + 1) && AttemptsBefore(g, s, me, candidates, i + 1) == AttemptsBefore(g, s, me, candidates, i)
    ensures Tries(g, s, me, candidates, i) ==>
              AttemptsBefore(g, s, me, candidates, i + 1) ==
              AttemptsBefore(g, s, me, candidates, i) + [AttemptOn(candidates[i], g.totalBudgetMS, g.maxTTFTMS)]
    ensures Tries(g, s, me, candidates, i) && VerdictOf(candidates[i].reply) == NextCandidate ==> GoesOn(g, s, me, candidates, i + 1)
    ensures Tries(g, s, me, candidates, i) && VerdictOf(candidates[i].reply) != NextCandidate ==>
              var outcome := EndsWith(candidates[i]);
              IsRequest(g, s, me, candidates, outcome, AttemptsBefore(g, s, me, candidates, if outcome.ClientCanceled? then i else i + 1), i + 1)
  {
  }

  /** The loop over the candidates, among other requests. */
  method HandleRequest(store: SlotStore, others: Requests, me: int, model: string, bucket: int, slotLimit: int, candidates: seq<Candidate>,
                       maxAttempts0: int, totalBudget0: int, maxTTFTMS: int, ghost s: State)
    returns (outcome: Outcome, attempts: seq<Attempt>, ghost wrote: seq<int>, ghost n: nat)
    requires Positive(s.slots) && store.slots == s.slots && me !in s.held && others.held == s.held
    modifies store, others
    ensures IsRequest(SettingsOf(model, bucket, slotLimit, maxAttempts0, totalBudget0, maxTTFTMS), s, me, candidates, outcome, attempts, n)
    ensures wrote == if outcome.Success? || outcome.Interrupted? || outcome.ClientCanceled? then [outcome.channel] else []
    ensures var t := StateBefore(SettingsOf(model, bucket, slotLimit, maxAttempts0, totalBudget0, maxTTFTMS), s, me, candidates, n);
            store.slots == t.slots && others.held == t.held
  {
    attempts, wrote, n := [], [], 0;
    ghost var g := SettingsOf(model, bucket, slotLimit, maxAttempts0, totalBudget0, maxTTFTMS);
    var maxAttempts, totalBudgetMS := EffectiveAttempts(maxAttempts0), EffectiveBudget(totalBudget0);
    for i := 0 to |candidates|
      invariant GoesOn(g, s, me, candidates, i) && attempts == AttemptsBefore(g, s, me, candidates, i)
      invariant wrote == [] && n == i
      invariant store.slots == StateBefore(g, s, me, candidates, i).slots && others.held == StateBefore(g, s, me, candidates, i).held
    {
      RequestIsARun(g, s, me, candidates, i);
      if i >= maxAttempts {
        break;
      }
      var c := candidates[i];
      if c.elapsed >= totalBudgetMS {
        break;
      }
      ghost var now := StateBefore(g, s, me, candidates, i);
      var tried, verdict := TryCandidate(store, others, me, Key(c.id, model, bucket), slotLimit, c, now);
      n := i + 1;
      assert StateBefore(g, s, me, candidates, n) == StateAfter(c, now, me, Key(c.id, model, bucket), slotLimit);
      assert tried == Tries(g, s, me, candidates, i);
      LoopStep(g, s, me, candidates, i);
      if !tried {
        continue;
      }
      if verdict == StopCanceled {
        wrote := [c.id];
        return ClientCanceled(c.id), attempts, wrote, n;
      }
      var attempt := MakeAttempt(c, verdict, totalBudgetMS, maxTTFTMS);
      attempts := attempts + [attempt];
      if verdict != NextCandidate {
        outcome, wrote := Answer(c, verdict);
        return outcome, attempts, wrote, n;
      }
    }
    outcome := AllFailed;
  }

  /** How the request is answered after the attempt that ends it, and which channel has written to the
      client. */
  method Answer(c: Candidate, verdict: Verdict) returns (outcome: Outcome, ghost wrote: seq<int>)
    requires verdict == VerdictOf(c.reply) && verdict != NextCandidate && verdict != StopCanceled
    ensures outcome == EndsWith(c)
    ensures wrote == if outcome.Success? || outcome.Interrupted? then [c.id] else []
  {
    match verdict {
      case StopError => return UpstreamError(c.id), [];
      case StopInterrupted => return Interrupted(c.id), [c.id];
      case StopSuccess => return Success(c.id), [c.id];
    }
  }

  /** The record of an attempt with the budget it was given. */
  method MakeAttempt(c: Candidate, verdict: Verdict, totalBudgetMS: nat, maxTTFTMS: int) returns (a: Attempt)
    requires verdict == VerdictOf(c.reply) && c.elapsed < totalBudgetMS
    ensures a == AttemptOn(c, totalBudgetMS, maxTTFTMS)
    ensures a.elapsed + a.budget <= totalBudgetMS + 999
  {
    var remaining := totalBudgetMS - c.elapsed;
    if remaining < 1000 {
      remaining := 1000;
    }
    a := Attempt(c.id, Commits(verdict), c.elapsed, AttemptTTFBBudget(remaining, maxTTFTMS, c.connectMS));
  }

  /** The attempts are on the listed candidates before n, which are those with the property, in their order. */
  ghost predicate OnThese(g: Settings, candidates: seq<Candidate>, at: seq<nat>, attempts: seq<Attempt>, tries: nat -> bool, n: nat) {
    && |at| == |attempts| <= n <= |candidates|
    && (forall k :: 0 <= k < |at| ==> at[k] < n && attempts[k] == AttemptOn(candidates[at[k]], g.totalBudgetMS, g.maxTTFTMS))
    && (forall j, k :: 0 <= j < k < |at| ==> at[j] < at[k])
    && (forall i: nat :: i < n ==> (i in at <==> tries(i)))
  }

  lemma OneMoreTried(g: Settings, candidates: seq<Candidate>, at: seq<nat>, attempts: seq<Attempt>, tries: nat -> bool, n: nat)
    requires OnThese(g, candidates, at, attempts, tries, n) && n < |candidates|
    ensures tries(n) ==>
              OnThese(g, candidates, at + [n], attempts + [AttemptOn(candidates[n], g.totalBudgetMS, g.maxTTFTMS)], tries, n + 1)
    ensures !tries(n) ==> OnThese(g, candidates, at, attempts, tries, n + 1)
  {
  }

  lemma LastTried(g: Settings, s: State, me: int, candidates: seq<Candidate>, n: nat)
    requires 0 < n <= |candidates|
    ensures var at, attempts := Tried(g, s, me, candidates, n - 1), AttemptsBefore(g, s, me, candidates, n - 1);
            if Tries(g, s, me, candidates, n - 1) then
              && Tried(g, s, me, candidates, n) == at + [n - 1]
              && AttemptsBefore(g, s, me, candidates, n) == attempts + [AttemptOn(candidates[n - 1], g.totalBudgetMS, g.maxTTFTMS)]
            else Tried(g, s, me, candidates, n) == at && AttemptsBefore(g, s, me, candidates, n) == attempts
  {
  }

  /** The attempts are on exactly the candidates that can be tried, in their order. */
  lemma {:induction false} AttemptsAreOnTheTried(g: Settings, s: State, me: int, candidates: seq<Candidate>, tries: nat -> bool, n: nat)
    requires n <= |candidates| && forall i: nat :: i < |candidates| ==> (tries(i) <==> Tries(g, s, me, candidates, i))
    ensures OnThese(g, candidates, Tried(g, s, me, candidates, n), AttemptsBefore(g, s, me, candidates, n), tries, n)
    ensures var at, attempts := Tried(g, s, me, candidates, n), AttemptsBefore(g, s, me, candidates, n);
            forall k :: 0 <= k < |at| ==> attempts[k].channel == candidates[at[k]].id && attempts[k].elapsed == candidates[at[k]].elapsed
  {
    if n > 0 {
      var before := n - 1;
      AttemptsAreOnTheTried(g, s, me, candidates, tries, before);
      LastTried(g, s, me, candidates, n);
      OneMoreTried(g, candidates, Tried(g, s, me, candidates, before), AttemptsBefore(g, s, me, candidates, before), tries, before);
    }
  }

  /** Attempts on candidates that did not end the loop came early enough and sent nothing. */
  lemma {:induction false} AttemptsInVain(g: Settings, s: State, me: int, candidates: seq<Candidate>, n: nat)
    requires GoesOn(g, s, me, candidates, n)
    ensures |AttemptsBefore(g, s, me, candidates, n)| <= n && (n > 0 ==> n <= g.maxAttempts)
    ensures forall a :: a in AttemptsBefore(g, s, me, candidates, n) ==> a.elapsed + a.budget <= g.totalBudgetMS + 999 && !a.committed
  {
    if n > 0 {
      AttemptsInVain(g, s, me, candidates, n - 1);
    }
  }

  /** The promises on the list of attempts: at most maxAttempts of them, each early enough for the time of
      the request, and only the last may have sent something to the client, which it has exactly when the
      request succeeded or was interrupted. */
  lemma AttemptsAreBounded(g: Settings, s: State, me: int, candidates: seq<Candidate>, outcome: Outcome, attempts: seq<Attempt>, n: nat)
    requires IsRequest(g, s, me, candidates, outcome, attempts, n)
    ensures |attempts| <= g.maxAttempts
    ensures forall k :: 0 <= k < |attempts| ==> attempts[k].elapsed + attempts[k].budget <= g.totalBudgetMS + 999
    ensures forall k :: 0 <= k < |attempts| - 1 ==> !attempts[k].committed
    ensures attempts != [] && attempts[|attempts| - 1].committed <==> outcome.Success? || outcome.Interrupted?
  {
    AttemptsInVain(g, s, me, candidates, if outcome.AllFailed? then n else n - 1);
    if !outcome.AllFailed? && !outcome.ClientCanceled? {
      assert attempts[..|attempts| - 1] == AttemptsBefore(g, s, me, candidates, n - 1);
    }
  }

  /** With distinct candidates no channel is tried twice. */
  lemma AttemptsAreDistinct(g: Settings, s: State, me: int, candidates: seq<Candidate>, outcome: Outcome, attempts: seq<Attempt>, n: nat)
    requires IsRequest(g, s, me, candidates, outcome, attempts, n)
    requires forall i, j :: 0 <= i < j < |candidates| ==> candidates[i].id != candidates[j].id
    ensures forall j, k :: 0 <= j < k < |attempts| ==> attempts[j].channel != attempts[k].channel
  {
    var m := if outcome.ClientCanceled? then n - 1 else n;
    AttemptsAreOnTheTried(g, s, me, candidates, (i: nat) => i < |candidates| && Tries(g, s, me, candidates, i), m);
    var at := Tried(g, s, me, candidates, m);
    forall j, k | 0 <= j < k < |attempts| ensures attempts[j].channel != attempts[k].channel {
      assert at[j] < at[k];
    }
  }
}
