/** What a request comes to (internal/api/proxy.go), from the replies of its candidates alone. */
module FailoverOutcomes {
  import opened ProbeSlots
  import opened Failover

  /** The failure is no reason to stop: too many requests, a request time-out, a fault of the server or of the network,
      or no answer in time while the client is still there. */
  predicate Passing(e: CallError, live: bool, firstByte: bool) {
    match e
    case Status(code) => code == 429 || code == 408 || 500 <= code
    case OtherFailure => true
    case FirstByteTimeout => live
    case DeadlineExceeded => live
    case Canceled => live && !firstByte
  }

  /** After this reply the next candidate is tried. */
  predicate GoesToNext(r: Reply) {
    match r
    case CallFailed(e, live) => Passing(e, live, false)
    case ReadFailed(e, live, firstByte) => Passing(e, live, firstByte)
    case Streamed(committed, ok, _) => !committed && !ok
    case InvalidJson => true
    case Answered => false
  }

  /** Otherwise the request ends so. */
  predicate EndsSo(c: Candidate, outcome: Outcome) {
    match c.reply
    case CallFailed(_, _) => outcome == UpstreamError(c.id)
    case ReadFailed(_, _, _) => outcome == UpstreamError(c.id)
    case Streamed(_, ok, clientGone) =>
      outcome == if ok then Success(c.id) else if clientGone then ClientCanceled(c.id) else Interrupted(c.id)
    case Answered => outcome == Success(c.id)
    case InvalidJson => outcome == AllFailed
  }

  lemma VerdictGoesOn(r: Reply)
    ensures VerdictOf(r) == NextCandidate <==> GoesToNext(r)
  {
  }

  lemma VerdictEnds(c: Candidate)
    requires !GoesToNext(c.reply)
    ensures EndsSo(c, EndsWith(c)) && !EndsWith(c).AllFailed?
  {
  }

  /** The request comes to candidate k: neither attempts nor time are used up by then, at least one attempt and 30
      seconds being allowed, and every candidate before that is tried goes on to the next. */
  ghost predicate Reaches(g: Settings, s: State, me: int, candidates: seq<Candidate>, maxAttempts: int, totalMS: int, k: nat) {
    && k < |candidates| && k < (if maxAttempts > 0 then maxAttempts else 1)
    && (forall i :: 0 <= i <= k ==> candidates[i].elapsed < if totalMS > 0 then totalMS else 30000)
    && (forall i :: 0 <= i < k && Tries(g, s, me, candidates, i) ==> GoesToNext(candidates[i].reply))
  }

  lemma {:induction false} ReachesGoesOn(g: Settings, s: State, me: int, candidates: seq<Candidate>, k: nat)
    requires k <= |candidates| && k <= g.maxAttempts
    requires forall i :: 0 <= i < k ==> candidates[i].elapsed < g.totalBudgetMS
    requires forall i :: 0 <= i < k && Tries(g, s, me, candidates, i) ==> GoesToNext(candidates[i].reply)
    ensures GoesOn(g, s, me, candidates, k)
  {
    if k > 0 {
      var before := k - 1;
      ReachesGoesOn(g, s, me, candidates, before);
      VerdictGoesOn(candidates[before].reply);
    }
  }

  lemma {:induction false} GoesOnUpTo(g: Settings, s: State, me: int, candidates: seq<Candidate>, n: nat, i: nat)
    requires GoesOn(g, s, me, candidates, n) && i < n
    ensures !Exhausted(g, candidates, i) && (Tries(g, s, me, candidates, i) ==> VerdictOf(candidates[i].reply) == NextCandidate)
  {
    if i < n - 1 {
      GoesOnUpTo(g, s, me, candidates, n - 1, i);
    }
  }

  /** The first candidate that is tried and does not go on to the next decides: a success if it answers; the error
      of its station, however many candidates are left, if its failure is none of the passing ones. */
  lemma FirstToEndDecides(model: string, bucket: int, slotLimit: int, maxAttempts: int, totalMS: int, maxTTFTMS: int, s: State, me: int,
                          candidates: seq<Candidate>, outcome: Outcome, attempts: seq<Attempt>, n: nat, k: nat)
    requires var g := SettingsOf(model, bucket, slotLimit, maxAttempts, totalMS, maxTTFTMS);
             && IsRequest(g, s, me, candidates, outcome, attempts, n)
             && Reaches(g, s, me, candidates, maxAttempts, totalMS, k)
             && Tries(g, s, me, candidates, k) && !GoesToNext(candidates[k].reply)
    ensures EndsSo(candidates[k], outcome) && n == k + 1
  {
    var g := SettingsOf(model, bucket, slotLimit, maxAttempts, totalMS, maxTTFTMS);
    ReachesGoesOn(g, s, me, candidates, k);
    VerdictEnds(candidates[k]);
    VerdictGoesOn(candidates[k].reply);
    var last := if outcome.AllFailed? then n else n - 1;
    if k < last {
      GoesOnUpTo(g, s, me, candidates, last, k);
    } else if last < k {
      GoesOnUpTo(g, s, me, candidates, k, last);
    }
  }

  /** For instance stations that are overloaded, broken or silent do not fail a request that a later one answers in
      time. */
  lemma LaterStationAnswers(model: string, bucket: int, slotLimit: int, maxAttempts: int, totalMS: int, maxTTFTMS: int, s: State, me: int,
                            candidates: seq<Candidate>, outcome: Outcome, attempts: seq<Attempt>, n: nat, k: nat)
    requires var g := SettingsOf(model, bucket, slotLimit, maxAttempts, totalMS, maxTTFTMS);
             && IsRequest(g, s, me, candidates, outcome, attempts, n)
             && Reaches(g, s, me, candidates, maxAttempts, totalMS, k)
             && Tries(g, s, me, candidates, k) && candidates[k].reply == Answered
    ensures outcome == Success(candidates[k].id)
  {
    FirstToEndDecides(model, bucket, slotLimit, maxAttempts, totalMS, maxTTFTMS, s, me, candidates, outcome, attempts, n, k);
  }

  /** The candidate that ended the request is such a one. */
  lemma EndedByOne(model: string, bucket: int, slotLimit: int, maxAttempts: int, totalMS: int, maxTTFTMS: int, s: State, me: int,
                   candidates: seq<Candidate>, outcome: Outcome, attempts: seq<Attempt>, n: nat)
    requires IsRequest(SettingsOf(model, bucket, slotLimit, maxAttempts, totalMS, maxTTFTMS), s, me, candidates, outcome, attempts, n)
    requires !outcome.AllFailed?
    ensures var g, k := SettingsOf(model, bucket, slotLimit, maxAttempts, totalMS, maxTTFTMS), n - 1;
            k >= 0 && Reaches(g, s, me, candidates, maxAttempts, totalMS, k) && Tries(g, s, me, candidates, k)
            && !GoesToNext(candidates[k].reply)
  {
    var g, k := SettingsOf(model, bucket, slotLimit, maxAttempts, totalMS, maxTTFTMS), n - 1;
    forall i: nat | i < k
      ensures !Exhausted(g, candidates, i) && (Tries(g, s, me, candidates, i) ==> GoesToNext(candidates[i].reply))
    {
      GoesOnUpTo(g, s, me, candidates, k, i);
      VerdictGoesOn(candidates[i].reply);
    }
    VerdictGoesOn(candidates[k].reply);
  }

  /** All have failed exactly if there is none. */
  lemma AllFailedIff(model: string, bucket: int, slotLimit: int, maxAttempts: int, totalMS: int, maxTTFTMS: int, s: State, me: int,
                     candidates: seq<Candidate>, outcome: Outcome, attempts: seq<Attempt>, n: nat)
    requires IsRequest(SettingsOf(model, bucket, slotLimit, maxAttempts, totalMS, maxTTFTMS), s, me, candidates, outcome, attempts, n)
    ensures var g := SettingsOf(model, bucket, slotLimit, maxAttempts, totalMS, maxTTFTMS);
            outcome.AllFailed? <==> !exists k: nat :: Reaches(g, s, me, candidates, maxAttempts, totalMS, k)
                                                      && Tries(g, s, me, candidates, k) && !GoesToNext(candidates[k].reply)
  {
    var g := SettingsOf(model, bucket, slotLimit, maxAttempts, totalMS, maxTTFTMS);
    if outcome.AllFailed? {
      forall k: nat | Reaches(g, s, me, candidates, maxAttempts, totalMS, k) && Tries(g, s, me, candidates, k)
        ensures GoesToNext(candidates[k].reply)
      {
        if !GoesToNext(candidates[k].reply) {
          FirstToEndDecides(model, bucket, slotLimit, maxAttempts, totalMS, maxTTFTMS, s, me, candidates, outcome, attempts, n, k);
        }
      }
    } else {
      EndedByOne(model, bucket, slotLimit, maxAttempts, totalMS, maxTTFTMS, s, me, candidates, outcome, attempts, n);
    }
  }

  // ---- Slots ----

  /** A closed candidate is tried if the snapshot has it; a half-open one if besides fewer slots are out than the
      limit and the store has said so, or if there is no store. A slot is taken for it unless the limit is reached
      or the store was not reached, and not given back if the answer was lost, the client left after a first byte,
      or the release does not get through. */
  lemma RulesForSlots(g: Settings, s: State, me: int, candidates: seq<Candidate>, i: nat)
    requires i < |candidates|
    ensures var c := candidates[i];
            var out := Count(Found(g, s, me, candidates, i), Key(c.id, g.model, g.bucket));
            && (!c.present ==> !Tries(g, s, me, candidates, i))
            && (c.present && !c.halfOpen ==> Tries(g, s, me, candidates, i))
            && (c.present && c.halfOpen && c.reservation == Served ==> (Tries(g, s, me, candidates, i) <==> out < g.slotLimit && 0 < g.slotLimit))
            && (c.present && c.halfOpen && c.reservation == NoStore ==> (Tries(g, s, me, candidates, i) <==> 0 < g.slotLimit))
            && (c.halfOpen && (c.reservation == NotReached || c.reservation == AnswerLost) ==> !Tries(g, s, me, candidates, i))
            && (Takes(g, s, me, candidates, i) <==>
                c.present && c.halfOpen && c.reservation in {Served, AnswerLost} && out < g.slotLimit && 0 < g.slotLimit)
            && (Leaks(c) <==> c.reservation == AnswerLost || !c.releaseReaches || c.reply == Streamed(true, false, true))
  {
  }

  /** Every slot is taken on the channel of a candidate, for the model and group of the request, within its limit. */
  lemma {:induction false} SlotsAreItsOwn(g: Settings, s: State, me: int, candidates: seq<Candidate>, n: nat, step: Step)
    requires n <= |candidates| && step in OwnPart(g, s, me, candidates, n) && step.Take?
    ensures step.request == me && step.limit == g.slotLimit
    ensures step.key.model == g.model && step.key.bucket == g.bucket
    ensures exists i :: 0 <= i < n && Takes(g, s, me, candidates, i) && candidates[i].id == step.key.channel
  {
    if n > 0 {
      var before := n - 1;
      if step in OwnPart(g, s, me, candidates, before) {
        SlotsAreItsOwn(g, s, me, candidates, before, step);
      }
    }
  }
}
