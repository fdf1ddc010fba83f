/** The asynchronous sample buffer (internal/api/circuit_buffer.go): samples queue up, a worker writes
    them in batches, and a batch whose transaction fails is replayed one sample at a time. */
module CircuitBuffers {
  import opened Options
  import opened CircuitBreaker
  import opened CircuitTheorems

  /** What processing one sample does to the store. */
  function Processing(configs: Configs): (Store, Sample) -> Store
    requires Usable(configs.global)
  {
    (st, s) => Apply(st, s, configs)
  }

  /** The reference: samples processed one after the other. */
  function Fold(st: Store, samples: seq<Sample>, process: (Store, Sample) -> Store): Store {
    if samples == [] then st else process(Fold(st, samples[..|samples| - 1], process), samples[|samples| - 1])
  }

  lemma {:induction false} FoldConcat(st: Store, a: seq<Sample>, b: seq<Sample>, process: (Store, Sample) -> Store)
    ensures Fold(st, a + b, process) == Fold(Fold(st, a, process), b, process)
  {
    if b == [] {
      assert a + b == a;
    } else {
      assert (a + b)[..|a + b| - 1] == a + b[..|b| - 1];
      FoldConcat(st, a, b[..|b| - 1], process);
    }
  }

  /** The outcomes that one circuit row sees while samples are applied after a given history. */
  ghost function EventsOf(history: seq<Sample>, samples: seq<Sample>, k: Key, cfg: Config): seq<Event>
    requires Usable(cfg)
  {
    if samples == [] then []
    else
      var s := samples[|samples| - 1];
      EventsOf(history, samples[..|samples| - 1], k, cfg)
        + if s.skipCircuit || KeyOf(s) != k then []
          else [Outcome(s.success, Tripped(history + samples, k, cfg, s.at), s.at)]
  }

  lemma {:induction false} FoldHistory(st: Store, samples: seq<Sample>, configs: Configs)
    requires Usable(configs.global)
    ensures Fold(st, samples, Processing(configs)).history == st.history + samples
  {
    if samples == [] {
      assert st.history + samples == st.history;
    } else {
      FoldHistory(st, samples[..|samples| - 1], configs);
      assert st.history + samples[..|samples| - 1] + [samples[|samples| - 1]] == st.history + samples;
    }
  }

  lemma ApplyActsOnOneRow(st: Store, s: Sample, k: Key, configs: Configs, cfg: Config)
    requires Usable(cfg) && Usable(configs.global) && (KeyOf(s) == k ==> EffectiveConfig(configs, s.group) == cfg)
    ensures RowAt(Apply(st, s, configs).rows, k) ==
            if s.skipCircuit || KeyOf(s) != k then RowAt(st.rows, k)
            else UpdateRow(RowAt(st.rows, k), s.success, Tripped(st.history + [s], k, cfg, s.at), cfg, s.at)
  {
  }

  /** Applying samples of many channels in order drives each circuit row by its own outcomes alone. */
  lemma {:induction false} FoldActsPerRow(st: Store, samples: seq<Sample>, k: Key, configs: Configs, cfg: Config)
    requires Usable(configs.global)
    requires 0 !in configs.groups && cfg == EffectiveConfig(configs, Some(k.bucket))
    ensures RowAt(Fold(st, samples, Processing(configs)).rows, k) == RowAfter(RowAt(st.rows, k), EventsOf(st.history, samples, k, cfg), cfg)
  {
    if samples != [] {
      var before, s := samples[..|samples| - 1], samples[|samples| - 1];
      FoldActsPerRow(st, before, k, configs, cfg);
      FoldHistory(st, before, configs);
      ApplyActsOnOneRow(Fold(st, before, Processing(configs)), s, k, configs, cfg);
      assert st.history + before + [s] == st.history + samples;
      RowAfterConcat(RowAt(st.rows, k), EventsOf(st.history, before, k, cfg),
                     Outcome(s.success, Tripped(st.history + samples, k, cfg, s.at), s.at), cfg);
    }
  }

  lemma RowAfterConcat(r: Row, events: seq<Event>, e: Event, cfg: Config)
    requires Usable(cfg)
    ensures RowAfter(r, events + [e], cfg) == RowStep(RowAfter(r, events, cfg), e, cfg)
    ensures events + [] == events
  {
    assert (events + [e])[..|events|] == events;
  }

  /** So in a store built from scratch the counters and the level of every row are the streaks and the
      relapses of that row's own outcomes. */
  lemma StoredRowsReflectTheirOutcomes(samples: seq<Sample>, k: Key, configs: Configs)
    requires Usable(configs.global) && 0 !in configs.groups
    ensures var cfg := EffectiveConfig(configs, Some(k.bucket));
            var r, events := RowAt(Fold(Store([], map[]), samples, Processing(configs)).rows, k), EventsOf([], samples, k, cfg);
            && r.successes == Streak(events, true) && r.failures == Streak(events, false)
            && r.state != HalfOpen && (r.state != Closed ==> r.level == Relapses(events, cfg))
  {
    var cfg := EffectiveConfig(configs, Some(k.bucket));
    FoldActsPerRow(Store([], map[]), samples, k, configs, cfg);
    RowReflectsEvents(EventsOf([], samples, k, cfg), cfg);
  }

  /** What became of a sample: applied or lost, having come through the queue or around a full one. */
  datatype Entry = Entry(sample: Sample, queued: bool, lost: bool)

  ghost function Kept(log: seq<Entry>): seq<Sample> {
    if log == [] then []
    else Kept(log[..|log| - 1]) + if log[|log| - 1].lost then [] else [log[|log| - 1].sample]
  }

  ghost function Queued(log: seq<Entry>): seq<Sample> {
    if log == [] then []
    else Queued(log[..|log| - 1]) + if log[|log| - 1].queued then [log[|log| - 1].sample] else []
  }

  /** The samples that were written ahead of a full queue. */
  ghost function Overtakers(log: seq<Entry>): seq<Sample> {
    if log == [] then []
    else Overtakers(log[..|log| - 1]) + if log[|log| - 1].queued then [] else [log[|log| - 1].sample]
  }

  lemma {:induction false} LogConcat(a: seq<Entry>, b: seq<Entry>)
    ensures Kept(a + b) == Kept(a) + Kept(b) && Queued(a + b) == Queued(a) + Queued(b)
  {
    if b == [] {
      assert a + b == a;
    } else {
      assert (a + b)[..|a + b| - 1] == a + b[..|b| - 1];
      LogConcat(a, b[..|b| - 1]);
    }
  }

  lemma {:induction false} OvertakersConcat(a: seq<Entry>, b: seq<Entry>)
    ensures Overtakers(a + b) == Overtakers(a) + Overtakers(b)
  {
    if b == [] {
      assert a + b == a;
    } else {
      assert (a + b)[..|a + b| - 1] == a + b[..|b| - 1];
      OvertakersConcat(a, b[..|b| - 1]);
    }
  }

  /** Where the transaction of a batch fails, if anywhere. */
  datatype BatchFault = NoFault | BeginFails | StatementFails(at: nat) | CommitFails

  /** The database's behaviour during one flush: the batch transaction, and for each sample of the
      batch whether its own fallback transaction fails. */
  datatype Faults = Faults(batch: BatchFault, fallbackFails: nat -> bool)

  predicate BatchCommits(f: Faults, n: nat) {
    f.batch == NoFault || (f.batch.StatementFails? && f.batch.at >= n)
  }

  ghost function Entries(batch: seq<Sample>, f: Faults): (log: seq<Entry>)
    ensures |log| == |batch|
    ensures forall i :: 0 <= i < |batch| ==> log[i].sample == batch[i] && log[i].queued
    ensures forall i :: 0 <= i < |batch| ==> (log[i].lost <==> !BatchCommits(f, |batch|) && f.fallbackFails(i))
  {
    seq(|batch|, i requires 0 <= i < |batch| => Entry(batch[i], true, !BatchCommits(f, |batch|) && f.fallbackFails(i)))
  }

  lemma {:induction false} EntriesAccount(batch: seq<Sample>, log: seq<Entry>)
    requires |log| == |batch| && forall i :: 0 <= i < |batch| ==> log[i].sample == batch[i] && log[i].queued
    ensures Queued(log) == batch && Overtakers(log) == []
    ensures (forall i :: 0 <= i < |log| ==> !log[i].lost) ==> Kept(log) == batch
  {
    if batch != [] {
      var n := |batch| - 1;
      EntriesAccount(batch[..n], log[..n]);
      assert batch == batch[..n] + [batch[n]];
    }
  }

  lemma Extend<T>(s: seq<T>, i: nat)
    requires i < |s|
    ensures s[..i + 1] == s[..i] + [s[i]] && s[..|s|] == s
  {
  }

  /** A flushed batch in the log; when its transaction commits, all of it is kept. */
  lemma BatchAccount(log: seq<Entry>, batch: seq<Sample>, f: Faults)
    ensures Queued(log + Entries(batch, f)) == Queued(log) + batch
    ensures Overtakers(log + Entries(batch, f)) == Overtakers(log)
    ensures BatchCommits(f, |batch|) ==> Kept(log + Entries(batch, f)) == Kept(log) + batch
  {
    EntriesAccount(batch, Entries(batch, f));
    LogConcat(log, Entries(batch, f));
    OvertakersConcat(log, Entries(batch, f));
    assert Overtakers(log) + [] == Overtakers(log);
  }

  datatype Happening = Arrive(s: Sample, fallbackFails: bool) | Receive | Tick

  /** The samples that arrive. */
  function Arrivals(events: seq<Happening>): seq<Sample> {
    if events == [] then []
    else Arrivals(events[..|events| - 1]) + if events[|events| - 1].Arrive? then [events[|events| - 1].s] else []
  }

  lemma OneMoreKept(st: Store, log: seq<Entry>, e: Entry, process: (Store, Sample) -> Store)
    ensures Fold(st, Kept(log + [e]), process) ==
            if e.lost then Fold(st, Kept(log), process) else process(Fold(st, Kept(log), process), e.sample)
  {
    assert (log + [e])[..|log|] == log;
    var kept := Kept(log);
    assert kept + [] == kept && (kept + [e.sample])[..|kept|] == kept;
  }

  lemma LogOvertaker(log: seq<Entry>, e: Entry)
    requires !e.queued
    ensures Queued(log + [e]) == Queued(log) && Overtakers(log + [e]) == Overtakers(log) + [e.sample]
  {
    assert (log + [e])[..|log|] == log;
  }

  lemma Behind(a: seq<Sample>, b: seq<Sample>, q: seq<Sample>, s: Sample)
    ensures a + b + (q + [s]) == a + b + q + [s]
  {
  }

  /** A flushed batch has moved from the batch to the log; nothing else has. */
  lemma FlushedLog(log: seq<Entry>, batch: seq<Sample>, q: seq<Sample>, f: Faults)
    ensures Queued(log + Entries(batch, f)) + [] + q == Queued(log) + batch + q
    ensures Overtakers(log + Entries(batch, f)) == Overtakers(log)
    ensures Grows(log, log + Entries(batch, f), FallbacksWork(f))
  {
    BatchAccount(log, batch, f);
  }

  lemma ArrivalsUpTo(events: seq<Happening>, i: nat, arrived: seq<Sample>)
    requires i < |events|
    ensures arrived + Arrivals(events[..i + 1]) ==
            arrived + Arrivals(events[..i]) + if events[i].Arrive? then [events[i].s] else []
  {
    assert events[..i + 1][..i] == events[..i];
  }

  /** c is an interleaving of a and b. */
  ghost predicate IsMerge(a: seq<Sample>, b: seq<Sample>, c: seq<Sample>) {
    if c == [] then a == [] && b == []
    else
      var last, front := c[|c| - 1], c[..|c| - 1];
      || (a != [] && a[|a| - 1] == last && IsMerge(a[..|a| - 1], b, front))
      || (b != [] && b[|b| - 1] == last && IsMerge(a, b[..|b| - 1], front))
  }

  lemma MergeMore(a: seq<Sample>, b: seq<Sample>, c: seq<Sample>, s: Sample)
    requires IsMerge(a, b, c)
    ensures IsMerge(a + [s], b, c + [s]) && IsMerge(a, b + [s], c + [s])
  {
    assert (a + [s])[..|a|] == a && (b + [s])[..|b|] == b && (c + [s])[..|c|] == c;
  }

  /** An arrival is either accepted or overtakes; nothing else does either. */
  ghost predicate Took(h: Happening, a: seq<Sample>, b: seq<Sample>, a': seq<Sample>, b': seq<Sample>) {
    if h.Arrive? then (a' == a + [h.s] && b' == b) || (a' == a && b' == b + [h.s]) else a' == a && b' == b
  }

  lemma MergeStep(events: seq<Happening>, i: nat, arrived: seq<Sample>, a: seq<Sample>, b: seq<Sample>, a': seq<Sample>, b': seq<Sample>)
    requires i < |events| && IsMerge(a, b, arrived + Arrivals(events[..i])) && Took(events[i], a, b, a', b')
    ensures IsMerge(a', b', arrived + Arrivals(events[..i + 1]))
  {
    ArrivalsUpTo(events, i, arrived);
    var c := arrived + Arrivals(events[..i]);
    if events[i].Arrive? {
      MergeMore(a, b, c, events[i].s);
    } else {
      assert c + [] == c;
    }
  }

  class CircuitBuffer {
    const process: (Store, Sample) -> Store
    const capacity := 1024
    const flushBatch := 64

    var q: seq<Sample>
    var batch: seq<Sample>
    var store: Store

    ghost const initial: Store
    ghost var accepted: seq<Sample>  // everything the queue has taken, in order
    ghost var log: seq<Entry>        // everything that has been dealt with, in order
    ghost var overtakers: seq<Sample>  // what found the queue full

    /** The store is the fold of exactly the samples kept so far, and every sample the queue took is
        either dealt with once, in its order, or still waiting in the batch or the queue. */
    ghost predicate Valid()
      reads this
    {
      && |q| <= capacity && |batch| < flushBatch
      && store == Fold(initial, Kept(log), process)
      && Queued(log) + batch + q == accepted
      && Overtakers(log) == overtakers
    }

    constructor (process: (Store, Sample) -> Store, store: Store)
      ensures Valid() && initial == store && this.store == store && this.process == process
      ensures accepted == [] && log == [] && q == [] && batch == [] && overtakers == []
    {
      this.process, this.store, this.initial := process, store, store;
      q, batch, accepted, log, overtakers := [], [], [], [], [];
    }

    /** The fallback: one sample in a transaction of its own. */
    method FlushSync(s: Sample, fails: bool, ghost queued: bool)
      requires store == Fold(initial, Kept(log), process)
      modifies this`store, this`log
      ensures log == old(log) + [Entry(s, queued, fails)]
      ensures store == Fold(initial, Kept(log), process)
    {
      OneMoreKept(initial, log, Entry(s, queued, fails), process);
      if !fails {
        store := process(store, s);
      }
      log := log + [Entry(s, queued, fails)];
    }

    /** A sample that finds the queue full is written at once. */
    method Overtake(s: Sample, fails: bool)
      requires Valid()
      modifies this`store, this`log, this`overtakers
      ensures Valid() && log == old(log) + [Entry(s, false, fails)] && overtakers == old(overtakers) + [s]
      ensures Grows(old(log), log, true)
    {
      LogOvertaker(log, Entry(s, false, fails));
      FlushSync(s, fails, false);
      overtakers := overtakers + [s];
    }

    method Enqueue(s: Sample, fallbackFails: bool)
      requires Valid()
      modifies this`q, this`store, this`log, this`accepted, this`overtakers
      ensures Valid()
      ensures |old(q)| < 1024 ==>
                q == old(q) + [s] && accepted == old(accepted) + [s] && log == old(log) && overtakers == old(overtakers)
      ensures |old(q)| == 1024 ==>
                q == old(q) && accepted == old(accepted) && log == old(log) + [Entry(s, false, fallbackFails)]
                && overtakers == old(overtakers) + [s]
      ensures Grows(old(log), log, true)
    {
      if |q| < capacity {
        Behind(Queued(log), batch, q, s);
        q := q + [s];
        accepted := accepted + [s];
      } else {
        Overtake(s, fallbackFails);
      }
    }

    /** The transaction of a batch: all of it or nothing. */
    method TryBatch(f: Faults) returns (committed: bool)
      modifies this`store
      ensures committed <==> BatchCommits(f, |batch|)
      ensures store == if committed then Fold(old(store), batch, process) else old(store)
    {
      if f.batch == BeginFails {
        return false;
      }
      var tx := store;
      for i := 0 to |batch|
        invariant store == old(store) && tx == Fold(store, batch[..i], process)
        invariant f.batch.StatementFails? ==> i <= f.batch.at
      {
        if f.batch == StatementFails(i) {
          return false;
        }
        assert batch[..i + 1][..i] == batch[..i];
        tx := process(tx, batch[i]);
      }
      if f.batch == CommitFails {
        return false;
      }
      assert batch[..|batch|] == batch;
      store := tx;
      return true;
    }

    /** Writes the batch in one transaction; if any part of it fails, nothing of it remains and the
        samples are replayed one by one. */
    method Settle(f: Faults)
      requires store == Fold(initial, Kept(log), process)
      modifies this`store, this`log
      ensures log == old(log) + Entries(batch, f) && store == Fold(initial, Kept(log), process)
    {
      var committed := TryBatch(f);
      if committed {
        RecordBatch(f);
      } else {
        FlushSyncAll(f);
      }
    }

    method Flush(f: Faults)
      requires |q| <= capacity && |batch| <= flushBatch
      requires store == Fold(initial, Kept(log), process) && Queued(log) + batch + q == accepted && Overtakers(log) == overtakers
      modifies this`batch, this`store, this`log
      ensures Valid() && batch == []
      ensures log == old(log) + Entries(old(batch), f) && Grows(old(log), log, FallbacksWork(f))
    {
      FlushedLog(log, batch, q, f);
      Settle(f);
      batch := [];
    }

    /** A committed batch is entered in the log. */
    ghost method RecordBatch(f: Faults)
      requires BatchCommits(f, |batch|) && store == Fold(Fold(initial, Kept(log), process), batch, process)
      modifies this`log
      ensures log == old(log) + Entries(batch, f) && store == Fold(initial, Kept(log), process)
    {
      BatchAccount(log, batch, f);
      FoldConcat(initial, Kept(log), batch, process);
      log := log + Entries(batch, f);
    }

    method FlushSyncAll(f: Faults)
      requires store == Fold(initial, Kept(log), process) && !BatchCommits(f, |batch|)
      modifies this`store, this`log
      ensures log == old(log) + Entries(batch, f) && store == Fold(initial, Kept(log), process)
    {
      ghost var entries := Entries(batch, f);
      for i := 0 to |batch|
        invariant log == old(log) + entries[..i]
        invariant store == Fold(initial, Kept(log), process)
      {
        FlushSync(batch[i], f.fallbackFails(i), true);
        Extend(entries, i);
      }
    }

    /** Takes the head of the queue, and flushes when the batch is full. */
    method ReceiveOne(f: Faults)
      requires Valid() && q != []
      modifies this
      ensures Valid() && q == old(q)[1..] && accepted == old(accepted) && overtakers == old(overtakers)
      ensures if |old(batch)| < 63 then batch == old(batch) + [old(q)[0]] && log == old(log) else batch == []
      ensures Grows(old(log), log, FallbacksWork(f))
    {
      batch, q := batch + [q[0]], q[1..];
      if |batch| >= flushBatch {
        Flush(f);
      }
    }

    /** One thing that happens to the buffer while it is open. */
    method Happen(h: Happening, f: Faults)
      requires Valid()
      modifies this
      ensures Valid() && Grows(old(log), log, FallbacksWork(f))
      ensures Took(h, old(accepted), old(overtakers), accepted, overtakers)
      ensures h.Arrive? && |old(q)| < 1024 ==> accepted == old(accepted) + [h.s]
    {
      match h {
        case Arrive(s, fallbackFails) => Enqueue(s, fallbackFails);
        case Receive => if q != [] { ReceiveOne(f); }
        case Tick => Flush(f);
      }
    }

    /** The worker's loop before Close: any interleaving of arrivals, receipts and ticks. Every arrival is
        either accepted, in order, or overtakes a full queue. */
    method Work(events: seq<Happening>, oracle: nat -> Faults, ghost arrived: seq<Sample>)
      requires Valid() && IsMerge(accepted, overtakers, arrived)
      modifies this
      ensures Valid() && IsMerge(accepted, overtakers, arrived + Arrivals(events))
      ensures Grows(old(log), log, forall n :: FallbacksWork(oracle(n)))
    {
      ghost var works := forall n :: FallbacksWork(oracle(n));
      assert arrived + Arrivals(events[..0]) == arrived;
      for i := 0 to |events|
        invariant Valid() && Grows(old(log), log, works)
        invariant IsMerge(accepted, overtakers, arrived + Arrivals(events[..i]))
      {
        ghost var before, a, b := log, accepted, overtakers;
        Happen(events[i], oracle(i));
        MergeStep(events, i, arrived, a, b, accepted, overtakers);
        GrowsOn(old(log), before, log, FallbacksWork(oracle(i)), works);
      }
      assert events[..|events|] == events;
    }

    /** The worker after Close: flush, empty the queue, flush. */
    method Drain(oracle: nat -> Faults)
      requires Valid()
      modifies this
      ensures Valid() && q == [] && batch == [] && accepted == old(accepted) && overtakers == old(overtakers)
      ensures Grows(old(log), log, forall n :: FallbacksWork(oracle(n)))
    {
      ghost var works := forall n :: FallbacksWork(oracle(n));
      Flush(oracle(0));
      var n := 1;
      while q != []
        invariant Valid() && accepted == old(accepted) && overtakers == old(overtakers)
        invariant Grows(old(log), log, works)
        decreases |q|
      {
        ghost var before := log;
        ReceiveOne(oracle(n));
        GrowsOn(old(log), before, log, FallbacksWork(oracle(n)), works);
        n := n + 1;
      }
      ghost var before := log;
      Flush(oracle(n));
      GrowsOn(old(log), before, log, FallbacksWork(oracle(n)), works);
    }

    /** When the worker returns, every sample the queue ever took has been dealt with exactly once and
        in order, every sample that arrived was either taken or overtook, and the store is the fold of the
        kept ones. So if no sample overtook a full queue
        and the fallback transactions work, the store is the one-at-a-time fold of all samples,
        however they were batched and whichever batches failed. */
    method Run(events: seq<Happening>, oracle: nat -> Faults, drainOracle: nat -> Faults)
      requires Valid() && log == [] && accepted == []
      modifies this
      ensures Valid() && q == [] && batch == [] && IsMerge(accepted, Overtakers(log), Arrivals(events))
      ensures Queued(log) == accepted && store == Fold(initial, Kept(log), process)
      ensures (forall n :: FallbacksWork(oracle(n)) && FallbacksWork(drainOracle(n))) && (forall e :: e in log ==> e.queued)
              ==> store == Fold(initial, accepted, process)
    {
      Work(events, oracle, []);
      assert [] + Arrivals(events) == Arrivals(events);
      Drain(drainOracle);
      assert Queued(log) + [] + [] == Queued(log);
      if (forall n :: FallbacksWork(oracle(n)) && FallbacksWork(drainOracle(n))) && (forall e :: e in log ==> e.queued) {
        AllKept(log);
      }
    }
  }

  /** Either the batches commit or every fallback does. */
  ghost predicate FallbacksWork(f: Faults) {
    f.batch == NoFault || forall i :: !f.fallbackFails(i)
  }

  /** The log only grows, and when the fallbacks work no sample from the queue is lost. */
  ghost predicate Grows(before: seq<Entry>, log: seq<Entry>, fallbacksWork: bool) {
    before <= log && (fallbacksWork ==> forall i :: |before| <= i < |log| && log[i].queued ==> !log[i].lost)
  }

  lemma GrowsOn(a: seq<Entry>, b: seq<Entry>, c: seq<Entry>, worksNow: bool, works: bool)
    requires Grows(a, b, works) && Grows(b, c, worksNow) && (works ==> worksNow)
    ensures Grows(a, c, works)
  {
  }

  lemma {:induction false} AllKept(log: seq<Entry>)
    requires forall i :: 0 <= i < |log| ==> !log[i].lost && log[i].queued
    ensures Kept(log) == Queued(log)
  {
    if log != [] {
      AllKept(log[..|log| - 1]);
    }
  }
}
