/** The queue and the scheduler as objects updated in place, each operation proved to take the
    object through steps of the transition system. */
module SchedulerCode {
  import opened Basics
  import opened Tensor
  import opened Scheduler
  import opened SchedulerSafety
  import opened SchedulerTheorems
  import opened Engines

  /** The well-sized requests of a drained batch, in order. */
  function WellSizedOf(cfg: Config, rs: seq<Request>): seq<Request> {
    if rs == [] then [] else
      var front := WellSizedOf(cfg, rs[..|rs| - 1]);
      if WellSized(cfg, rs[|rs| - 1]) then front + [rs[|rs| - 1]] else front
  }

  /** What request `i` of a batch gets from one engine call: its own row, or the batch's error. */
  function Answer(cfg: Config, batch: seq<Request>, result: EngineResult, i: nat): Outcome
    requires i < |batch|
  {
    match result
    case Threw(code) => Exception(EngineFailed(code))
    case Returned(out) =>
      if |out| == |batch| * cfg.outputElems then Value(batch[i].id, RowAt(out, i, cfg.outputElems))
      else Exception(WrongOutputSize)
  }

  /** `s'` can be reached from `s` by steps of the transition system. */
  ghost predicate Reaches(s: State, s': State) {
    exists steps {:trigger Runs(s, steps)} :: Runs(s, steps) && After(s, steps) == s'
  }

  lemma ReachesSelf(s: State)
    ensures Reaches(s, s)
  {
    assert Runs(s, []) && After(s, []) == s;
  }

  lemma ReachesStep(s: State, mid: State, step: Step)
    requires Reaches(s, mid) && Enabled(mid, step)
    ensures Reaches(s, Apply(mid, step))
  {
    var steps :| Runs(s, steps) && After(s, steps) == mid;
    var longer, end := Extend(s, steps, mid, step);
  }

  lemma {:induction false} ReachesAlong(s: State, mid: State, steps: seq<Step>)
    requires Reaches(s, mid) && Runs(mid, steps)
    ensures Reaches(s, After(mid, steps))
    decreases |steps|
  {
    if steps != [] {
      var n := |steps| - 1;
      ReachesAlong(s, mid, steps[..n]);
      ReachesStep(s, After(mid, steps[..n]), steps[n]);
    }
  }

  lemma ReachesTrans(s: State, mid: State, end: State)
    requires Reaches(s, mid) && Reaches(mid, end)
    ensures Reaches(s, end)
  {
    var steps :| Runs(mid, steps) && After(mid, steps) == end;
    ReachesAlong(s, mid, steps);
  }

  lemma InvReaches(s: State, s': State)
    requires Inv(s) && Reaches(s, s')
    ensures Inv(s') && Kept(s.promises, s'.promises)
    ensures s.stopRequested ==> s'.stopRequested && s'.accepted == s.accepted
  {
    var steps :| Runs(s, steps) && After(s, steps) == s';
    InvRun(s, steps);
    AnswersAreFinal(s, steps);
    if s.stopRequested {
      StoppedAcceptsNothing(s, steps);
    }
  }

  class RequestQueue {
    var queue: seq<Request>
    var stopRequested: bool

    constructor ()
      ensures queue == [] && !stopRequested
    {
      queue, stopRequested := [], false;
    }

    /** Enqueues unless shutdown won the lock first. */
    method Push(r: Request) returns (ok: bool)
      modifies this`queue
      ensures ok <==> !stopRequested
      ensures queue == if ok then old(queue) + [r] else old(queue)
    {
      if stopRequested {
        return false;
      }
      queue := queue + [r];
      return true;
    }

    /** The draining half of wait_and_drain(), run with the lock held once both waits are over:
        the oldest requests, as many as fit, in order; the rest stay queued in order. */
    method TakeBatch(maxBatch: nat) returns (batch: seq<Request>)
      modifies this`queue
      ensures batch + queue == old(queue)
      ensures |batch| == Min(maxBatch, |old(queue)|)
    {
      var drainCount := Min(maxBatch, |queue|);
      batch := [];
      for i := 0 to drainCount
        invariant |batch| == i && batch + queue == old(queue)
      {
        batch := batch + [queue[0]];
        queue := queue[1..];
      }
    }

    method Shutdown()
      modifies this`stopRequested
      ensures stopRequested
    {
      stopRequested := true;
    }
  }

  /** Concatenates the inputs of a batch: request `i` occupies input row `i`. */
  method Pack(batch: seq<Request>) returns (x: Row)
    ensures x == Concat(Inputs(batch))
  {
    x := [];
    for i := 0 to |batch|
      invariant x == Concat(Inputs(batch[..i]))
    {
      x := x + batch[i].input;
      assert Inputs(batch[..i + 1]) == Inputs(batch[..i]) + [batch[i].input];
      ConcatSnoc(Inputs(batch[..i]), batch[i].input);
    }
    assert batch[..|batch|] == batch;
  }

  /** Adds a finalized batch to the counters, one queue wait at a time. */
  method Count(before: Stats, batch: seq<Request>, now: int) returns (st: Stats)
    ensures st == CountBatch(before, batch, now)
  {
    st := before.(totalBatches := before.totalBatches + 1, totalRequests := before.totalRequests + |batch|);
    if |batch| > st.maxBatchSeen {
      st := st.(maxBatchSeen := |batch|);
    }
    ghost var st0 := st;
    for i := 0 to |batch|
      invariant st == CountWaits(st0, batch[..i], now)
    {
      var waited := if now > batch[i].arrival then now - batch[i].arrival else 0;
      st := st.(totalWait := st.totalWait + waited);
      if waited > st.maxWait {
        st := st.(maxWait := waited);
      }
      assert batch[..i + 1][..i] == batch[..i];
    }
    assert batch[..|batch|] == batch;
  }

  /** The mis-sized requests among `rs` have been given the size error. */
  ghost predicate Rejected(cfg: Config, rs: seq<Request>, promises: map<nat, Outcome>) {
    forall i :: 0 <= i < |rs| && !WellSized(cfg, rs[i]) ==>
      rs[i].ticket in promises && promises[rs[i].ticket] == Exception(WrongInputSize)
  }

  lemma RejectedNext(cfg: Config, rs: seq<Request>, i: nat, p: map<nat, Outcome>, p': map<nat, Outcome>)
    requires i < |rs| && Increasing(rs) && Rejected(cfg, rs[..i], p)
    requires p' == if WellSized(cfg, rs[i]) then p else p[rs[i].ticket := Exception(WrongInputSize)]
    ensures Rejected(cfg, rs[..i + 1], p')
  {
    assert forall j :: 0 <= j < i ==> rs[..i][j] == rs[j];
  }

  function EngineStep(result: EngineResult, elapsed: nat): Step {
    match result
    case Threw(code) => EngineThrows(code, elapsed)
    case Returned(out) => EngineReturns(out, elapsed)
  }

  /** A returned buffer of the right size is delivered; anything else fails the whole batch. */
  function AfterEngine(cfg: Config, batch: seq<Request>, result: EngineResult): Worker {
    match result
    case Threw(code) => Failing(batch, EngineFailed(code), 0)
    case Returned(out) =>
      if |out| == |batch| * cfg.outputElems then Delivering(batch, out, 0)
      else Failing(batch, WrongOutputSize, 0)
  }

  ghost predicate DeliveredTo(cfg: Config, batch: seq<Request>, output: Row, i: nat, promises: map<nat, Outcome>) {
    i <= |batch| && forall j :: 0 <= j < i ==>
      batch[j].ticket in promises && promises[batch[j].ticket] == Answer(cfg, batch, Returned(output), j)
  }

  lemma DeliveredNext(cfg: Config, batch: seq<Request>, output: Row, i: nat, promises: map<nat, Outcome>)
    requires i < |batch| && Increasing(batch) && DeliveredTo(cfg, batch, output, i, promises)
    ensures DeliveredTo(cfg, batch, output, i + 1,
                        promises[batch[i].ticket := Answer(cfg, batch, Returned(output), i)])
  {
  }

  ghost predicate FailedTo(batch: seq<Request>, i: nat, e: Error, promises: map<nat, Outcome>) {
    i <= |batch| && forall j :: 0 <= j < i ==>
      batch[j].ticket in promises && promises[batch[j].ticket] == Exception(e)
  }

  lemma FailedNext(batch: seq<Request>, i: nat, e: Error, promises: map<nat, Outcome>)
    requires i < |batch| && Increasing(batch) && FailedTo(batch, i, e, promises)
    ensures FailedTo(batch, i + 1, e, promises[batch[i].ticket := Exception(e)])
  {
  }

  lemma FilteredBatch(s: State, filtered: State, batch: seq<Request>)
    requires Inv(s) && Reaches(s, filtered)
    requires filtered.worker.Filtering? && filtered.worker.next == |filtered.worker.drained|
    requires filtered.worker.batch == batch
    ensures Increasing(batch)
  {
    InvReaches(s, filtered);
    assert Held(filtered.worker) == batch;
  }

  lemma RejectedStays(cfg: Config, rs: seq<Request>, s: State, filtered: State, end: State)
    requires Inv(s) && Reaches(s, filtered) && Reaches(filtered, end) && Rejected(cfg, rs, filtered.promises)
    ensures Rejected(cfg, rs, end.promises)
  {
    InvReaches(s, filtered);
    InvReaches(filtered, end);
  }

  class SchedulerObject {
    const cfg: Config
    const engine: (Row, nat) -> EngineResult
    const q: RequestQueue
    var running: bool
    var promises: map<nat, Outcome>
    var futures: nat
    var stats: Stats
    ghost var st: State

    /** The object is the concrete part of the transition system's state `st`. */
    ghost predicate Valid()
      reads this, q
    {
      && st.cfg == cfg && st.queue == q.queue && st.stopRequested == q.stopRequested
      && st.running == running && st.promises == promises && st.stats == stats
      && futures == |st.accepted|
    }

    constructor (cfg: Config, engine: (Row, nat) -> EngineResult)
      ensures Valid() && st == Init(cfg) && fresh(q) && this.cfg == cfg && this.engine == engine
    {
      this.cfg, this.engine := cfg, engine;
      q := new RequestQueue();
      running, promises, futures, stats := false, map[], 0, NoStats;
      st := Init(cfg);
    }

    /** A second call while running does nothing. */
    method Start()
      requires Valid() && Enabled(st, Scheduler.Step.Start)
      modifies this
      ensures Valid() && st == Apply(old(st), Scheduler.Step.Start)
    {
      st := Apply(st, Scheduler.Step.Start);
      running := true;
    }

    /** The future's name is handed out only when the queue accepted the request. */
    method Submit(id: nat, input: Row, arrival: int) returns (future: Option<nat>)
      requires Valid()
      modifies this, q
      ensures Valid() && st == Apply(old(st), Scheduler.Step.Submit(id, input, arrival))
      ensures future == if old(q.stopRequested) then None else Some(old(futures))
    {
      ghost var step := Scheduler.Step.Submit(id, input, arrival);
      var ok := q.Push(Request(futures, id, input, arrival));
      if ok {
        future := Some(futures);
        futures := futures + 1;
      } else {
        future := None;
      }
      st := Apply(st, step);
    }

    /** stop() up to the point where it blocks joining the worker. Called again once the worker has been
        joined, it changes nothing. */
    method BeginStop()
      requires Valid() && (st.stopper.NotStopping? || st.stopper.Joined?)
      modifies this, q
      ensures Valid() && st == Apply(Apply(old(st), ClearRunning), RequestShutdown)
      ensures old(st.stopper).Joined? && Flags(old(st)) ==> st == old(st)
    {
      running := false;
      st := Apply(st, ClearRunning);
      q.Shutdown();
      st := Apply(st, RequestShutdown);
    }

    /** wait_and_drain() once its phase-1 predicate holds; the batching window has closed. */
    method WaitAndDrain() returns (drained: seq<Request>)
      requires Valid() && st.worker.Waiting? && (st.queue != [] || st.stopRequested)
      modifies this`st, q`queue
      ensures Valid() && Reaches(old(st), st)
      ensures drained + q.queue == old(q.queue) && |drained| == Min(cfg.maxBatch, |old(q.queue)|)
      ensures st.worker == if drained == [] then EmptyDrain else Filtering(drained, 0, [])
    {
      ReachesSelf(st);
      if q.queue == [] {
        ReachesStep(st, st, WakeEmpty);
        st := Apply(st, WakeEmpty);
        return [];
      }
      ReachesStep(st, st, WakeWithWork);
      st := Apply(st, WakeWithWork);
      drained := q.TakeBatch(cfg.maxBatch);
      assert drained == old(q.queue)[..|drained|] && q.queue == old(q.queue)[|drained|..];
      ReachesStep(old(st), st, Scheduler.Step.Drain);
      st := Apply(st, Scheduler.Step.Drain);
    }

    /** One pass of the size-checking loop. */
    method FilterNext(r: Request) returns (keep: bool)
      requires Valid() && Enabled(st, FilterOne) && r == st.worker.drained[st.worker.next]
      modifies this`promises, this`st
      ensures Valid() && st == Apply(old(st), FilterOne) && keep == WellSized(cfg, r)
      ensures promises == if keep then old(promises) else old(promises)[r.ticket := Exception(WrongInputSize)]
    {
      keep := |r.input| == cfg.inputElems;
      if !keep {
        promises := promises[r.ticket := Exception(WrongInputSize)];
      }
      st := Apply(st, FilterOne);
    }

    /** Fails the mis-sized requests and keeps the others, in order. */
    method Filter(drained: seq<Request>) returns (batch: seq<Request>)
      requires Valid() && st.worker == Filtering(drained, 0, []) && Increasing(drained)
      modifies this`promises, this`st
      ensures Valid() && Reaches(old(st), st) && Rejected(cfg, drained, promises)
      ensures batch == WellSizedOf(cfg, drained) && st.worker == Filtering(drained, |drained|, batch)
    {
      batch := [];
      ReachesSelf(st);
      for i := 0 to |drained|
        invariant Valid() && Reaches(old(st), st)
        invariant batch == WellSizedOf(cfg, drained[..i]) && st.worker == Filtering(drained, i, batch)
        invariant Rejected(cfg, drained[..i], promises)
      {
        ReachesStep(old(st), st, FilterOne);
        ghost var before := promises;
        var keep := FilterNext(drained[i]);
        RejectedNext(cfg, drained, i, before, promises);
        if keep {
          batch := batch + [drained[i]];
        }
        assert drained[..i + 1][..i] == drained[..i];
      }
      assert drained[..|drained|] == drained;
    }

    /** Counts the batch, just before the engine call. */
    method Finalize(batch: seq<Request>, now: int)
      requires Valid() && st.worker.Filtering? && st.worker.next == |st.worker.drained|
      requires st.worker.batch == batch != []
      modifies this`stats, this`st
      ensures Valid() && st == Apply(old(st), FilterDone(now)) && st.worker == Computing(batch)
    {
      stats := Count(stats, batch, now);
      st := Apply(st, FilterDone(now));
    }

    /** The timed engine call; the worker is then about to answer. */
    method CallEngine(batch: seq<Request>, elapsed: nat) returns (result: EngineResult)
      requires Valid() && st.worker == Computing(batch)
      modifies this`stats, this`st
      ensures Valid() && result == engine(Concat(Inputs(batch)), |batch|)
      ensures st == Apply(old(st), EngineStep(result, elapsed))
      ensures st.worker == AfterEngine(cfg, batch, result)
    {
      var x := Pack(batch);
      result := engine(x, |batch|);
      stats := stats.(totalExec := stats.totalExec + elapsed);
      st := Apply(st, EngineStep(result, elapsed));
    }

    /** Counts the batch and runs the engine on it. */
    method Execute(batch: seq<Request>, now: int, elapsed: nat) returns (result: EngineResult)
      requires Valid() && st.worker.Filtering? && st.worker.next == |st.worker.drained|
      requires st.worker.batch == batch != []
      modifies this`stats, this`st
      ensures Valid() && Reaches(old(st), st)
      ensures result == engine(Concat(Inputs(batch)), |batch|)
      ensures st.worker == AfterEngine(cfg, batch, result)
    {
      ReachesSelf(st);
      ReachesStep(st, st, FilterDone(now));
      Finalize(batch, now);
      ghost var counted := st;
      result := CallEngine(batch, elapsed);
      ReachesStep(old(st), counted, EngineStep(result, elapsed));
    }

    method DeliverNext(batch: seq<Request>, output: Row, i: nat)
      requires Valid() && st.worker == Delivering(batch, output, i)
      requires i < |batch| && |output| == |batch| * cfg.outputElems
      modifies this`promises, this`st
      ensures Valid() && st == Apply(old(st), DeliverOne)
      ensures promises == old(promises)[batch[i].ticket := Answer(cfg, batch, Returned(output), i)]
    {
      RowFits(i, |batch|, cfg.outputElems);
      var logits := output[i * cfg.outputElems..i * cfg.outputElems + cfg.outputElems];
      promises := promises[batch[i].ticket := Value(batch[i].id, logits)];
      st := Apply(st, DeliverOne);
    }

    /** Slices output row `i` back out for request `i`. */
    method Deliver(batch: seq<Request>, output: Row)
      requires Valid() && st.worker == Delivering(batch, output, 0)
      requires Increasing(batch) && batch != [] && |output| == |batch| * cfg.outputElems
      modifies this`promises, this`st
      ensures Valid() && Reaches(old(st), st) && st.worker.Waiting?
      ensures forall i :: 0 <= i < |batch| ==>
        batch[i].ticket in promises && promises[batch[i].ticket] == Answer(cfg, batch, Returned(output), i)
    {
      ReachesSelf(st);
      for i := 0 to |batch|
        invariant Valid() && Reaches(old(st), st)
        invariant st.worker == if i == |batch| then Waiting else Delivering(batch, output, i)
        invariant DeliveredTo(cfg, batch, output, i, promises)
      {
        ReachesStep(old(st), st, DeliverOne);
        DeliveredNext(cfg, batch, output, i, promises);
        DeliverNext(batch, output, i);
      }
    }

    method FailNext(r: Request, e: Error)
      requires Valid() && Enabled(st, FailOne) && r == st.worker.batch[st.worker.next] && e == st.worker.error
      modifies this`promises, this`st
      ensures Valid() && st == Apply(old(st), FailOne)
      ensures promises == old(promises)[r.ticket := Exception(e)]
    {
      promises := promises[r.ticket := Exception(e)];
      st := Apply(st, FailOne);
    }

    /** Sets the same exception on every promise of the batch. */
    method Fail(batch: seq<Request>, e: Error)
      requires Valid() && st.worker == Failing(batch, e, 0) && Increasing(batch) && batch != []
      modifies this`promises, this`st
      ensures Valid() && Reaches(old(st), st) && st.worker.Waiting?
      ensures forall i :: 0 <= i < |batch| ==>
        batch[i].ticket in promises && promises[batch[i].ticket] == Exception(e)
    {
      ReachesSelf(st);
      for i := 0 to |batch|
        invariant Valid() && Reaches(old(st), st)
        invariant st.worker == if i == |batch| then Waiting else Failing(batch, e, i)
        invariant FailedTo(batch, i, e, promises)
      {
        ReachesStep(old(st), st, FailOne);
        FailedNext(batch, i, e, promises);
        FailNext(batch[i], e);
      }
    }

    method Finish(batch: seq<Request>, result: EngineResult)
      requires Valid() && batch != [] && Increasing(batch)
      requires st.worker == AfterEngine(cfg, batch, result)
      modifies this`promises, this`st
      ensures Valid() && Reaches(old(st), st) && st.worker.Waiting?
      ensures forall i :: 0 <= i < |batch| ==>
        batch[i].ticket in promises && promises[batch[i].ticket] == Answer(cfg, batch, result, i)
    {
      match result
      case Threw(code) => Fail(batch, EngineFailed(code));
      case Returned(output) =>
        if |output| == |batch| * cfg.outputElems {
          Deliver(batch, output);
        } else {
          Fail(batch, WrongOutputSize);
        }
    }

    /** One iteration of run_loop() on a non-empty drained batch: the mis-sized requests are refused,
        and every other one is answered by one engine call on their concatenated inputs. */
    method Process(drained: seq<Request>, now: int, elapsed: nat)
      requires Valid() && Inv(st) && st.worker == Filtering(drained, 0, [])
      modifies this`promises, this`stats, this`st
      ensures Valid() && Reaches(old(st), st) && st.worker.Waiting? && Rejected(cfg, drained, promises)
      ensures var batch := WellSizedOf(cfg, drained);
              forall i :: 0 <= i < |batch| ==>
                batch[i].ticket in promises &&
                promises[batch[i].ticket] == Answer(cfg, batch, engine(Concat(Inputs(batch)), |batch|), i)
    {
      assert Held(st.worker) == drained;
      var batch := Filter(drained);
      ghost var filtered := st;
      if batch == [] {
        ReachesStep(old(st), st, FilterDone(now));
        st := Apply(st, FilterDone(now));
        return;
      }
      FilteredBatch(old(st), filtered, batch);
      ExecuteAndFinish(batch, now, elapsed);
      ReachesTrans(old(st), filtered, st);
      RejectedStays(cfg, drained, old(st), filtered, st);
    }

    method ExecuteAndFinish(batch: seq<Request>, now: int, elapsed: nat)
      requires Valid() && st.worker.Filtering? && st.worker.next == |st.worker.drained|
      requires st.worker.batch == batch != [] && Increasing(batch)
      modifies this`promises, this`stats, this`st
      ensures Valid() && Reaches(old(st), st) && st.worker.Waiting?
      ensures forall i :: 0 <= i < |batch| ==>
        batch[i].ticket in promises &&
        promises[batch[i].ticket] == Answer(cfg, batch, engine(Concat(Inputs(batch)), |batch|), i)
    {
      var result := Execute(batch, now, elapsed);
      ghost var executed := st;
      Finish(batch, result);
      ReachesTrans(old(st), executed, st);
    }

    /** An empty drain: the loop is left because running_ has been cleared by then. */
    method Leave()
      requires Valid() && Flags(st) && st.worker.EmptyDrain?
      modifies this`st
      ensures Valid() && st == Apply(old(st), CheckRunning)
      ensures !running && q.stopRequested && q.queue == [] && st.worker.Exited?
    {
      st := Apply(st, CheckRunning);
    }

    /** One iteration of run_loop(), before shutdown or after it, once its wait is over. It leaves the
        loop only after shutdown with nothing queued; otherwise it takes the oldest requests, at least
        one, and answers every one of them. */
    method Iterate(now: int, elapsed: nat) returns (left: bool)
      requires Valid() && Inv(st) && st.worker.Waiting? && (st.queue != [] || st.stopRequested)
      modifies this`promises, this`stats, this`st, q`queue
      ensures Valid() && Reaches(old(st), st) && Kept(old(promises), promises)
      ensures left <==> old(q.queue) == []
      ensures left ==> q.stopRequested && st.worker.Exited? && q.queue == []
      ensures !left ==>
        var k := Min(cfg.maxBatch, |old(q.queue)|);
        && st.worker.Waiting? && k > 0 && q.queue == old(q.queue)[k..]
        && forall i :: 0 <= i < k ==> old(q.queue)[i].ticket in promises
    {
      var drained := WaitAndDrain();
      ghost var mid := st;
      InvReaches(old(st), mid);
      if drained == [] {
        ReachesStep(old(st), st, CheckRunning);
        Leave();
        return true;
      }
      assert drained == old(q.queue)[..|drained|] && q.queue == old(q.queue)[|drained|..];
      Process(drained, now, elapsed);
      ReachesTrans(old(st), mid, st);
      InvReaches(old(st), st);
      TakenIsAnswered(old(st), st, |drained|);
      return false;
    }

    /** run_loop() from shutdown on: no push can succeed any more, so nothing interferes. It ends,
        with the worker gone, the queue empty and every accepted request answered. */
    method RunLoopAfterShutdown()
      requires Valid() && Inv(st) && st.stopRequested && st.worker.Waiting?
      modifies this`promises, this`stats, this`st, q`queue
      ensures Valid() && Reaches(old(st), st) && st.worker.Exited?
      ensures q.queue == [] && promises.Keys == Upto(futures) && Kept(old(promises), promises)
    {
      ReachesSelf(st);
      var left := false;
      while !left
        invariant Valid() && Reaches(old(st), st)
        invariant if left then st.worker.Exited? else st.worker.Waiting?
        decreases !left, |q.queue|
      {
        InvReaches(old(st), st);
        ghost var before := st;
        var now: int := *;
        var elapsed: nat := *;
        left := Iterate(now, elapsed);
        ReachesTrans(old(st), before, st);
      }
      InvReaches(old(st), st);
      ExitedHasAnswered(st);
    }
  }

  lemma AcceptedGrows(s: State, step: Step)
    requires Enabled(s, step)
    ensures s.accepted <= Apply(s, step).accepted
  {
  }

  lemma {:induction false} AcceptedGrowsAlong(s: State, steps: seq<Step>)
    requires Runs(s, steps)
    ensures s.accepted <= After(s, steps).accepted
    decreases |steps|
  {
    if steps != [] {
      var n := |steps| - 1;
      AcceptedGrowsAlong(s, steps[..n]);
      AcceptedGrows(After(s, steps[..n]), steps[n]);
    }
  }

  /** What has left the queue has been answered once the worker waits again. */
  lemma TakenIsAnswered(s: State, s': State, k: nat)
    requires Inv(s) && Inv(s') && Reaches(s, s') && s'.worker.Waiting?
    requires k <= |s.queue| && s'.queue == s.queue[k..]
    ensures forall i :: 0 <= i < k ==> s.queue[i].ticket in s'.promises
  {
    var steps :| Runs(s, steps) && After(s, steps) == s';
    AcceptedGrowsAlong(s, steps);
    FrontLength(s);
    assert TicketsOf([]) == {};
    forall i | 0 <= i < k ensures s.queue[i].ticket in s'.promises {
      assert s.queue[i].ticket == Taken(s) + i;
      assert s.queue[i].ticket in Upto(Taken(s'));
    }
  }

  lemma ExitedHasAnswered(s: State)
    requires Inv(s) && s.worker.Exited?
    ensures s.queue == [] && s.promises.Keys == Upto(|s.accepted|)
  {
    assert TicketsOf([]) == {};
  }
}
