/** The observability counters: what they bound, and that they are never behind the answers. */
module SchedulerStats {
  import opened Basics
  import opened Scheduler
  import opened SchedulerSafety

  ghost predicate WaitsBounded(st: Stats, requests: nat) {
    st.maxWait <= st.totalWait <= requests * st.maxWait
  }

  ghost predicate Consistent(st: Stats, maxBatch: nat) {
    && st.totalBatches <= st.totalRequests <= st.totalBatches * st.maxBatchSeen
    && st.maxBatchSeen <= maxBatch
    && WaitsBounded(st, st.totalRequests)
  }

  lemma {:induction false} MulMono(c: nat, m: nat, n: nat)
    requires m <= n
    ensures c * m <= c * n
  {
    if c != 0 {
      MulMono(c - 1, m, n);
      assert c * m == (c - 1) * m + m && c * n == (c - 1) * n + n;
    }
  }

  lemma OneMoreWait(requests: nat, total: nat, most: nat, wait: nat)
    requires most <= total <= requests * most
    ensures Max(most, wait) <= total + wait <= (requests + 1) * Max(most, wait)
  {
    MulMono(requests, most, Max(most, wait));
    assert (requests + 1) * Max(most, wait) == requests * Max(most, wait) + Max(most, wait);
  }

  lemma {:induction false} WaitsCounted(st: Stats, requests: nat, batch: seq<Request>, now: int)
    requires WaitsBounded(st, requests)
    ensures WaitsBounded(CountWaits(st, batch, now), requests + |batch|)
    ensures CountWaits(st, batch, now).totalBatches == st.totalBatches
    ensures CountWaits(st, batch, now).totalRequests == st.totalRequests
    ensures CountWaits(st, batch, now).maxBatchSeen == st.maxBatchSeen
    decreases |batch|
  {
    if batch != [] {
      var n := |batch| - 1;
      WaitsCounted(st, requests, batch[..n], now);
      var before := CountWaits(st, batch[..n], now);
      OneMoreWait(requests + n, before.totalWait, before.maxWait, Waited(now, batch[n]));
    }
  }

  lemma BatchCounted(st: Stats, maxBatch: nat, batch: seq<Request>, now: int)
    requires Consistent(st, maxBatch) && 0 < |batch| <= maxBatch
    ensures Consistent(CountBatch(st, batch, now), maxBatch)
    ensures CountBatch(st, batch, now).totalRequests == st.totalRequests + |batch|
  {
    var most := Max(st.maxBatchSeen, |batch|);
    MulMono(st.totalBatches, st.maxBatchSeen, most);
    assert (st.totalBatches + 1) * most == st.totalBatches * most + most;
    var st0 := st.(totalBatches := st.totalBatches + 1, totalRequests := st.totalRequests + |batch|,
                   maxBatchSeen := most);
    WaitsCounted(st0, st.totalRequests, batch, now);
  }

  lemma ConsistentStep(s: State, step: Step)
    requires Shape(s.cfg, s.worker) && Consistent(s.stats, s.cfg.maxBatch) && Enabled(s, step)
    ensures Consistent(Apply(s, step).stats, s.cfg.maxBatch) && Apply(s, step).cfg == s.cfg
  {
    if step.FilterDone? && s.worker.batch != [] {
      BatchCounted(s.stats, s.cfg.maxBatch, s.worker.batch, step.now);
    }
  }

  /** Tickets drained but not yet past the size check. */
  function BeingFiltered(w: Worker): set<nat> { if w.Filtering? then TicketsOf(Held(w)) else {} }

  /** `counted` is exactly the well-sized requests among the first `taken` that are not in `pending`. */
  ghost predicate CountedSet(cfg: Config, accepted: seq<Request>, taken: int, pending: set<nat>, counted: set<nat>) {
    taken <= |accepted| &&
    forall t: nat :: t in counted <==> t < taken && WellSized(cfg, accepted[t]) && t !in pending
  }

  /** The counted tickets are exactly the well-sized requests taken off the queue and past the size
      check, and the request counter is their number since the last reset. */
  ghost predicate Counted(s: State) {
    && CountedSet(s.cfg, s.accepted, Taken(s), BeingFiltered(s.worker), s.counted)
    && |s.counted| == s.countedAtReset + s.stats.totalRequests
  }

  lemma {:induction false} DistinctTickets(rs: seq<Request>)
    requires Increasing(rs)
    ensures |TicketsOf(rs)| == |rs|
    decreases |rs|
  {
    if rs == [] {
      assert TicketsOf(rs) == {};
    } else {
      var n := |rs| - 1;
      DistinctTickets(rs[..n]);
      assert rs == rs[..n] + [rs[n]];
      forall r | r in rs[..n] ensures r.ticket != rs[n].ticket {
        var i :| 0 <= i < n && rs[i] == r;
      }
      assert rs[n].ticket !in TicketsOf(rs[..n]);
      assert TicketsOf(rs) == TicketsOf(rs[..n]) + {rs[n].ticket};
    }
  }

  lemma CountPending(cfg: Config, accepted: seq<Request>, taken: int, batch: seq<Request>, counted: set<nat>)
    requires CountedSet(cfg, accepted, taken, TicketsOf(batch), counted)
    requires Increasing(batch) && Genuine(batch, accepted) && AllWellSized(cfg, batch)
    requires forall t :: t in TicketsOf(batch) ==> t < taken
    ensures CountedSet(cfg, accepted, taken, {}, counted + TicketsOf(batch))
    ensures |counted + TicketsOf(batch)| == |counted| + |batch|
  {
    DistinctTickets(batch);
    assert counted !! TicketsOf(batch);
    forall t | t in TicketsOf(batch) ensures WellSized(cfg, accepted[t]) {
      var i :| 0 <= i < |batch| && batch[i].ticket == t;
    }
  }

  lemma BatchIsPending(s: State, now: int)
    requires Placement(s) && Shape(s.cfg, s.worker) && Enabled(s, FilterDone(now))
    ensures var b := s.worker.batch;
            && Increasing(b) && Genuine(b, s.accepted) && AllWellSized(s.cfg, b)
            && BeingFiltered(s.worker) == TicketsOf(b) && TicketsOf(b) <= Upto(Taken(s))
  {
    assert Held(s.worker) == s.worker.batch;
  }

  lemma FilterDoneCounts(s: State, now: int)
    requires Enabled(s, FilterDone(now)) && s.worker.batch != []
    requires CountedSet(s.cfg, s.accepted, Taken(s), {}, s.counted + TicketsOf(s.worker.batch))
    requires |s.counted + TicketsOf(s.worker.batch)| ==
             s.countedAtReset + CountBatch(s.stats, s.worker.batch, now).totalRequests
    ensures Counted(Apply(s, FilterDone(now)))
  {
  }

  lemma FilterDoneStep(s: State, now: int)
    requires Placement(s) && Shape(s.cfg, s.worker) && Counted(s) && Enabled(s, FilterDone(now))
    requires Consistent(s.stats, s.cfg.maxBatch)
    ensures Counted(Apply(s, FilterDone(now)))
  {
    var b := s.worker.batch;
    BatchIsPending(s, now);
    if b != [] {
      BatchCounted(s.stats, s.cfg.maxBatch, b, now);
      assert forall t :: t in TicketsOf(b) ==> t in Upto(Taken(s));
      CountPending(s.cfg, s.accepted, Taken(s), b, s.counted);
      FilterDoneCounts(s, now);
    } else {
      assert TicketsOf([]) == {};
    }
  }

  lemma DrainPending(cfg: Config, accepted: seq<Request>, taken: nat, k: nat, counted: set<nat>)
    requires CountedSet(cfg, accepted, taken, {}, counted) && taken + k <= |accepted|
    ensures CountedSet(cfg, accepted, taken + k, Upto(taken + k) - Upto(taken), counted)
  {
  }

  lemma DrainFilters(s: State, d: seq<Request>)
    requires Enabled(s, Drain) && d == s.queue[..Min(s.cfg.maxBatch, |s.queue|)]
    ensures var s' := Apply(s, Drain);
      && BeingFiltered(s'.worker) == TicketsOf(d) && Taken(s') == Taken(s) + |d|
      && s'.cfg == s.cfg && s'.accepted == s.accepted && s'.counted == s.counted
      && s'.countedAtReset == s.countedAtReset && s'.stats == s.stats
  {
    DrainTakes(s, d);
    assert d == [] ==> TicketsOf(d) == {};
  }

  lemma DrainCounts(s: State)
    requires Fifo(s) && Taken(s) >= 0 && Counted(s) && Enabled(s, Drain)
    ensures Counted(Apply(s, Drain))
  {
    var d := s.queue[..Min(s.cfg.maxBatch, |s.queue|)];
    DrainFilters(s, d);
    DrainedRange(s, d);
    TicketsOfRange(d, Taken(s));
    DrainPending(s.cfg, s.accepted, Taken(s), |d|, s.counted);
  }

  lemma SkipPending(cfg: Config, accepted: seq<Request>, taken: int, pending: set<nat>, counted: set<nat>, r: Request)
    requires CountedSet(cfg, accepted, taken, pending, counted)
    requires r.ticket < |accepted| && r == accepted[r.ticket] && !WellSized(cfg, r)
    ensures CountedSet(cfg, accepted, taken, pending - {r.ticket}, counted)
  {
  }

  lemma FilterOnePending(w: Worker, w': Worker, keep: bool)
    requires w.Filtering? && w.next < |w.drained| && Increasing(Held(w))
    requires w' == Filtering(w.drained, w.next + 1, if keep then w.batch + [w.drained[w.next]] else w.batch)
    ensures BeingFiltered(w') ==
            if keep then BeingFiltered(w) else BeingFiltered(w) - {w.drained[w.next].ticket}
  {
    HeldWhileFiltering(w);
    if !keep {
      TicketsWithout(Held(w), |w.batch|, Held(w'));
    }
  }

  lemma NextIsGenuine(w: Worker, accepted: seq<Request>)
    requires w.Filtering? && w.next < |w.drained| && Genuine(Held(w), accepted)
    ensures var r := w.drained[w.next]; r.ticket < |accepted| && r == accepted[r.ticket]
  {
    HeldWhileFiltering(w);
  }

  lemma CountedFrom(s: State, s': State, pending: set<nat>)
    requires CountedSet(s.cfg, s.accepted, Taken(s), pending, s.counted)
    requires |s.counted| == s.countedAtReset + s.stats.totalRequests
    requires s'.cfg == s.cfg && s'.accepted == s.accepted && Taken(s') == Taken(s) && s'.counted == s.counted
    requires s'.countedAtReset == s.countedAtReset && s'.stats == s.stats && BeingFiltered(s'.worker) == pending
    ensures Counted(s')
  {
  }

  /** What is still pending after one pass of the size check. */
  lemma PendingAfterFilter(cfg: Config, accepted: seq<Request>, taken: int, w: Worker, counted: set<nat>,
                           pending: set<nat>)
    requires w.Filtering? && w.next < |w.drained| && Genuine(Held(w), accepted)
    requires CountedSet(cfg, accepted, taken, BeingFiltered(w), counted)
    requires var r := w.drained[w.next];
             pending == if WellSized(cfg, r) then BeingFiltered(w) else BeingFiltered(w) - {r.ticket}
    ensures CountedSet(cfg, accepted, taken, pending, counted)
  {
    var r := w.drained[w.next];
    if !WellSized(cfg, r) {
      NextIsGenuine(w, accepted);
      SkipPending(cfg, accepted, taken, BeingFiltered(w), counted, r);
    }
  }

  lemma FilterPends(s: State)
    requires Increasing(Held(s.worker)) && Enabled(s, FilterOne)
    ensures var r, before := s.worker.drained[s.worker.next], BeingFiltered(s.worker);
            BeingFiltered(Apply(s, FilterOne).worker) ==
              if WellSized(s.cfg, r) then before else before - {r.ticket}
  {
    FilterEffect(s);
    FilterOnePending(s.worker, Apply(s, FilterOne).worker, WellSized(s.cfg, s.worker.drained[s.worker.next]));
  }

  lemma FilterOneCounts(s: State)
    requires Increasing(Held(s.worker)) && Genuine(Held(s.worker), s.accepted)
    requires Counted(s) && Enabled(s, FilterOne)
    ensures Counted(Apply(s, FilterOne))
  {
    var pending := BeingFiltered(Apply(s, FilterOne).worker);
    FilterPends(s);
    PendingAfterFilter(s.cfg, s.accepted, Taken(s), s.worker, s.counted, pending);
    FilterEffect(s);
    CountedFrom(s, Apply(s, FilterOne), pending);
  }

  lemma CountedStep(s: State, step: Step)
    requires Inv(s) && Counted(s) && Consistent(s.stats, s.cfg.maxBatch) && Enabled(s, step)
    ensures Counted(Apply(s, step))
  {
    match step
    case Drain => DrainCounts(s);
    case FilterOne => FilterOneCounts(s);
    case FilterDone(now) => FilterDoneStep(s, now);
    case _ => CountedKept(s, step);
  }

  /** The other steps count nothing; a reset starts the count afresh. */
  lemma CountedEffect(s: State, step: Step)
    requires Enabled(s, step) && !step.Drain? && !step.FilterOne? && !step.FilterDone?
    ensures var s' := Apply(s, step);
      && s'.counted == s.counted && BeingFiltered(s'.worker) == BeingFiltered(s.worker)
      && if step.ResetStats? then s'.stats.totalRequests == 0 && s'.countedAtReset == |s.counted|
         else s'.stats.totalRequests == s.stats.totalRequests && s'.countedAtReset == s.countedAtReset
  {
  }

  lemma CountedKept(s: State, step: Step)
    requires Counted(s) && Enabled(s, step)
    requires !step.Drain? && !step.FilterOne? && !step.FilterDone?
    ensures Counted(Apply(s, step))
  {
    QueueEffect(s, step);
    CountedEffect(s, step);
  }

  /** The engine's time is on the books for every well-sized request already answered. */
  ghost predicate Timed(s: State) {
    && (forall t :: t in s.promises ==> t < |s.accepted| && (WellSized(s.cfg, s.accepted[t]) ==> t in s.timed))
    && (s.worker.Delivering? || s.worker.Failing? ==> TicketsOf(s.worker.batch) <= s.timed)
  }

  lemma TimedFilterOne(s: State)
    requires Inv(s) && Timed(s) && Enabled(s, FilterOne)
    ensures Timed(Apply(s, FilterOne))
  {
    HeldWhileFiltering(s.worker);
  }

  lemma TimedResolve(s: State, step: Step)
    requires Timed(s) && Genuine(Held(s.worker), s.accepted) && Enabled(s, step) && (step.DeliverOne? || step.FailOne?)
    ensures Timed(Apply(s, step))
  {
    var r := s.worker.batch[s.worker.next];
    assert Held(s.worker)[0] == r;
    assert r in s.worker.batch;
  }

  /** The other steps forget no time, and a batch is timed before it is answered. */
  lemma TimedEffect(s: State, step: Step)
    requires Enabled(s, step) && !Resolves(step)
    ensures var s' := Apply(s, step);
      && s.timed <= s'.timed
      && (s'.worker.Delivering? || s'.worker.Failing? ==>
            s'.worker == s.worker || TicketsOf(s'.worker.batch) <= s'.timed)
  {
  }

  lemma TimedKept(s: State, step: Step)
    requires Timed(s) && Enabled(s, step) && !Resolves(step)
    ensures Timed(Apply(s, step))
  {
    KeptEffect(s, step);
    TimedEffect(s, step);
  }

  lemma TimedStep(s: State, step: Step)
    requires Inv(s) && Timed(s) && Enabled(s, step)
    ensures Timed(Apply(s, step))
  {
    if step.FilterOne? {
      TimedFilterOne(s);
    } else if step.DeliverOne? || step.FailOne? {
      TimedResolve(s, step);
    } else {
      TimedKept(s, step);
    }
  }

  /** In every reachable state: the counters bound each other as a reader expects, the request counter
      is exact, and a well-sized request has been counted and its batch's execution time recorded
      before its promise resolves. A batch is counted in one step and a reset is one step, so a reset
      comes before or after a count, never inside it; SchedulerCounters takes them apart. */
  lemma {:induction false} CountersTellTheTruth(cfg: Config, steps: seq<Step>)
    requires cfg.maxBatch >= 1 && Runs(Init(cfg), steps)
    ensures var s := After(Init(cfg), steps);
            && s.cfg == cfg && Consistent(s.stats, cfg.maxBatch) && Counted(s) && Timed(s)
            && (forall t :: t in s.promises && WellSized(cfg, s.accepted[t]) ==> t in s.counted && t in s.timed)
    decreases |steps|
  {
    InvInit(cfg);
    InvRun(Init(cfg), steps);
    if steps != [] {
      var n := |steps| - 1;
      var s := After(Init(cfg), steps[..n]);
      CountersTellTheTruth(cfg, steps[..n]);
      InvRun(Init(cfg), steps[..n]);
      ConsistentStep(s, steps[n]);
      CountedStep(s, steps[n]);
      TimedStep(s, steps[n]);
    }
    AnsweredIsCounted(After(Init(cfg), steps));
  }

  lemma AnsweredIsCounted(s: State)
    requires Inv(s) && Counted(s) && Timed(s)
    ensures forall t :: t in s.promises && WellSized(s.cfg, s.accepted[t]) ==> t in s.counted && t in s.timed
  {
    forall t | t in s.promises && WellSized(s.cfg, s.accepted[t]) ensures t in s.counted {
      assert t in Upto(Taken(s));
    }
  }

  // ---- exact totals ----

  function SumWaits(batch: seq<Request>, now: int): nat {
    if batch == [] then 0 else SumWaits(batch[..|batch| - 1], now) + Waited(now, batch[|batch| - 1])
  }

  /** A batch adds the sum of its waits, and the maximum becomes the larger of the old maximum and
      the longest wait of the batch. */
  lemma {:induction false} WaitsAreExact(st: Stats, batch: seq<Request>, now: int)
    ensures var st' := CountWaits(st, batch, now);
      && st'.totalWait == st.totalWait + SumWaits(batch, now)
      && st.maxWait <= st'.maxWait
      && (forall i :: 0 <= i < |batch| ==> Waited(now, batch[i]) <= st'.maxWait)
      && (st'.maxWait == st.maxWait || exists i :: 0 <= i < |batch| && st'.maxWait == Waited(now, batch[i]))
    decreases |batch|
  {
    if batch != [] {
      var n := |batch| - 1;
      WaitsAreExact(st, batch[..n], now);
      assert forall i :: 0 <= i < n ==> batch[i] == batch[..n][i];
      var before := CountWaits(st, batch[..n], now);
      if before.maxWait != st.maxWait {
        var i :| 0 <= i < n && before.maxWait == Waited(now, batch[..n][i]);
        assert before.maxWait == Waited(now, batch[i]);
      }
    }
  }

  /** Batches handed to the engine since the last reset. */
  function Batches(s: State, steps: seq<Step>): nat
    requires Runs(s, steps)
    decreases |steps|
  {
    if steps == [] then 0 else
      var n := |steps| - 1;
      var before := Batches(s, steps[..n]);
      if steps[n].ResetStats? then 0
      else before + if Apply(After(s, steps[..n]), steps[n]).worker.Computing? &&
                       !After(s, steps[..n]).worker.Computing? then 1 else 0
  }

  /** Time spent in engine calls that ended since the last reset. */
  function EngineTime(steps: seq<Step>): nat {
    if steps == [] then 0 else
      var before := EngineTime(steps[..|steps| - 1]);
      match steps[|steps| - 1]
      case ResetStats => 0
      case EngineReturns(_, elapsed) => before + elapsed
      case EngineThrows(_, elapsed) => before + elapsed
      case _ => before
  }

  lemma {:induction false} WaitsLeaveTheRest(st: Stats, batch: seq<Request>, now: int)
    ensures CountWaits(st, batch, now).totalBatches == st.totalBatches
    ensures CountWaits(st, batch, now).totalExec == st.totalExec
    decreases |batch|
  {
    if batch != [] {
      WaitsLeaveTheRest(st, batch[..|batch| - 1], now);
    }
  }

  lemma TotalsStep(s: State, step: Step)
    requires Enabled(s, step)
    ensures var s' := Apply(s, step);
      && s'.stats.totalBatches ==
           (if step.ResetStats? then 0
            else s.stats.totalBatches + if s'.worker.Computing? && !s.worker.Computing? then 1 else 0)
      && s'.stats.totalExec ==
           match step
           case ResetStats => 0
           case EngineReturns(_, elapsed) => s.stats.totalExec + elapsed
           case EngineThrows(_, elapsed) => s.stats.totalExec + elapsed
           case _ => s.stats.totalExec
  {
    if step.FilterDone? && s.worker.batch != [] {
      var b := s.worker.batch;
      WaitsLeaveTheRest(s.stats.(totalBatches := s.stats.totalBatches + 1, totalRequests := s.stats.totalRequests + |b|,
                                 maxBatchSeen := Max(s.stats.maxBatchSeen, |b|)), b, step.now);
    }
  }

  /** Since the last reset, whenever it came: the batch counter is the number of batches handed to the
      engine, and the execution total is the time of the calls that ended, returned or thrown. */
  lemma {:induction false} EngineTotalsAreExact(cfg: Config, steps: seq<Step>)
    requires Runs(Init(cfg), steps)
    ensures var st := After(Init(cfg), steps).stats;
            st.totalBatches == Batches(Init(cfg), steps) && st.totalExec == EngineTime(steps)
    decreases |steps|
  {
    if steps != [] {
      var n := |steps| - 1;
      EngineTotalsAreExact(cfg, steps[..n]);
      TotalsStep(After(Init(cfg), steps[..n]), steps[n]);
    }
  }

  function SumOf(xs: seq<nat>): nat {
    if xs == [] then 0 else SumOf(xs[..|xs| - 1]) + xs[|xs| - 1]
  }

  /** `m` is the largest of `xs`, or zero when there is none. */
  ghost predicate IsMost(xs: seq<nat>, m: nat) {
    (forall i :: 0 <= i < |xs| ==> xs[i] <= m) && (m in xs || (xs == [] && m == 0))
  }

  lemma OneMore(xs: seq<nat>, m: nat, x: nat)
    requires IsMost(xs, m)
    ensures IsMost(xs + [x], Max(m, x)) && SumOf(xs + [x]) == SumOf(xs) + x
  {
    assert (xs + [x])[..|xs|] == xs && (xs + [x])[|xs|] == x;
  }

  /** How long each request of the batch had waited at `now`. */
  function WaitsIn(batch: seq<Request>, now: int): seq<nat> {
    seq(|batch|, i requires 0 <= i < |batch| => if batch[i].arrival < now then now - batch[i].arrival else 0)
  }

  /** The sizes of the batches handed to the engine since the last reset. */
  function SizesSince(s: State, steps: seq<Step>): seq<nat>
    requires Runs(s, steps)
    decreases |steps|
  {
    if steps == [] then [] else
      var n := |steps| - 1;
      if steps[n].ResetStats? then []
      else SizesSince(s, steps[..n]) + NewSize(After(s, steps[..n]).worker, steps[n])
  }

  function NewSize(w: Worker, step: Step): seq<nat> {
    if step.FilterDone? && w.Filtering? && w.batch != [] then [|w.batch|] else []
  }

  /** The waits of the requests handed to the engine since the last reset. */
  function WaitsSince(s: State, steps: seq<Step>): seq<nat>
    requires Runs(s, steps)
    decreases |steps|
  {
    if steps == [] then [] else
      var n := |steps| - 1;
      if steps[n].ResetStats? then []
      else WaitsSince(s, steps[..n]) + NewWaits(After(s, steps[..n]).worker, steps[n])
  }

  function NewWaits(w: Worker, step: Step): seq<nat> {
    if step.FilterDone? && w.Filtering? then WaitsIn(w.batch, step.now) else []
  }

  /** The counters are what these batch sizes and waits say. */
  ghost predicate Tallies(st: Stats, sizes: seq<nat>, waits: seq<nat>) {
    && st.totalBatches == |sizes| && st.totalRequests == SumOf(sizes) && IsMost(sizes, st.maxBatchSeen)
    && st.totalWait == SumOf(waits) && IsMost(waits, st.maxWait)
  }

  lemma {:induction false} WaitsTally(st: Stats, waits: seq<nat>, batch: seq<Request>, now: int)
    requires st.totalWait == SumOf(waits) && IsMost(waits, st.maxWait)
    ensures var st', waits' := CountWaits(st, batch, now), waits + WaitsIn(batch, now);
      && st'.totalWait == SumOf(waits') && IsMost(waits', st'.maxWait)
      && st' == st.(totalWait := st'.totalWait, maxWait := st'.maxWait)
    decreases |batch|
  {
    if batch == [] {
      assert waits + WaitsIn(batch, now) == waits;
    } else {
      var n := |batch| - 1;
      WaitsTally(st, waits, batch[..n], now);
      var before := waits + WaitsIn(batch[..n], now);
      assert before + [Waited(now, batch[n])] == waits + WaitsIn(batch, now);
      OneMore(before, CountWaits(st, batch[..n], now).maxWait, Waited(now, batch[n]));
    }
  }

  lemma BatchTally(st: Stats, sizes: seq<nat>, waits: seq<nat>, batch: seq<Request>, now: int)
    requires Tallies(st, sizes, waits)
    ensures Tallies(CountBatch(st, batch, now), sizes + [|batch|], waits + WaitsIn(batch, now))
  {
    OneMore(sizes, st.maxBatchSeen, |batch|);
    WaitsTally(st.(totalBatches := st.totalBatches + 1, totalRequests := st.totalRequests + |batch|,
                   maxBatchSeen := Max(st.maxBatchSeen, |batch|)), waits, batch, now);
  }

  lemma OtherTally(s: State, step: Step)
    requires Enabled(s, step) && !step.ResetStats? && !(step.FilterDone? && s.worker.batch != [])
    ensures Apply(s, step).stats == s.stats.(totalExec := Apply(s, step).stats.totalExec)
    ensures NewSize(s.worker, step) == [] == NewWaits(s.worker, step)
  {
  }

  lemma TallyStep(s: State, step: Step, sizes: seq<nat>, waits: seq<nat>)
    requires Enabled(s, step) && Tallies(s.stats, sizes, waits) && !step.ResetStats?
    ensures Tallies(Apply(s, step).stats, sizes + NewSize(s.worker, step), waits + NewWaits(s.worker, step))
  {
    if step.FilterDone? && s.worker.batch != [] {
      BatchTally(s.stats, sizes, waits, s.worker.batch, step.now);
    } else {
      OtherTally(s, step);
      assert sizes + [] == sizes && waits + [] == waits;
    }
  }

  /** Since the last reset, whenever it came: the counters are the number, the sum and the largest of the
      batches handed to the engine, and the sum and the longest of the waits of the requests in them. */
  lemma {:induction false} TotalsAreExact(cfg: Config, steps: seq<Step>)
    requires Runs(Init(cfg), steps)
    ensures Tallies(After(Init(cfg), steps).stats, SizesSince(Init(cfg), steps), WaitsSince(Init(cfg), steps))
    decreases |steps|
  {
    if steps != [] {
      var n := |steps| - 1;
      if !steps[n].ResetStats? {
        TotalsAreExact(cfg, steps[..n]);
        TallyStep(After(Init(cfg), steps[..n]), steps[n], SizesSince(Init(cfg), steps[..n]),
                  WaitsSince(Init(cfg), steps[..n]));
      }
    }
  }
}
