/** Properties of whole runs of the batcher: nothing is lost or answered twice, answers do not
    depend on batching, service is first in first out with an exact bound, and stopping ends. */
module SchedulerTheorems {
  import opened Tensor
  import opened Scheduler
  import opened SchedulerSafety

  // ---- no request is lost, none is answered twice ----

  predicate IsQueued(s: State, t: nat) { t in TicketsOf(s.queue) }
  predicate IsHeld(s: State, t: nat) { t in TicketsOf(Held(s.worker)) }
  predicate IsResolved(s: State, t: nat) { t in s.promises }

  lemma QueuedTickets(s: State)
    requires Fifo(s) && Taken(s) >= 0
    ensures forall t: nat :: IsQueued(s, t) <==> Taken(s) <= t < |s.accepted|
  {
    FrontLength(s);
    TicketsOfRange(s.queue, Taken(s));
  }

  /** In every reachable state each accepted request is queued, held by the worker or resolved, in
      exactly one of these, and no promise has ever been set twice. */
  lemma EachRequestInOnePlace(cfg: Config, steps: seq<Step>)
    requires cfg.maxBatch >= 1 && Runs(Init(cfg), steps)
    ensures var s := After(Init(cfg), steps);
      && !s.setTwice
      && (forall t: nat :: t < |s.accepted| <==> IsQueued(s, t) || IsHeld(s, t) || IsResolved(s, t))
      && (forall t: nat :: !(IsQueued(s, t) && IsHeld(s, t)) && !(IsQueued(s, t) && IsResolved(s, t))
                           && !(IsHeld(s, t) && IsResolved(s, t)))
  {
    var s := After(Init(cfg), steps);
    InvInit(cfg);
    InvRun(Init(cfg), steps);
    QueuedTickets(s);
    assert forall t: nat :: IsHeld(s, t) || IsResolved(s, t) <==> t in s.promises.Keys + TicketsOf(Held(s.worker));
  }

  /** Whatever is accepted has been answered once the worker has exited. */
  ghost predicate NothingLost(cfg: Config) {
    forall steps {:trigger Runs(Init(cfg), steps)} ::
      Runs(Init(cfg), steps) && After(Init(cfg), steps).worker.Exited? ==>
        var s := After(Init(cfg), steps);
        s.stopRequested && s.queue == [] && s.promises.Keys == Upto(|s.accepted|)
  }

  /** The batch limit must be positive, and that is enough: with a limit of zero the worker leaves
      with a request still queued. */
  lemma NothingLostIff(cfg: Config)
    ensures NothingLost(cfg) <==> cfg.maxBatch >= 1
  {
    if cfg.maxBatch >= 1 {
      forall steps | Runs(Init(cfg), steps) && After(Init(cfg), steps).worker.Exited?
        ensures var s := After(Init(cfg), steps);
                s.stopRequested && s.queue == [] && s.promises.Keys == Upto(|s.accepted|)
      {
        InvInit(cfg);
        InvRun(Init(cfg), steps);
        assert TicketsOf([]) == {};
      }
    } else {
      ZeroLimitLosesARequest(cfg);
    }
  }

  /** A run extended by one step. */
  lemma Extend(s: State, steps: seq<Step>, mid: State, step: Step) returns (longer: seq<Step>, end: State)
    requires Runs(s, steps) && After(s, steps) == mid && Enabled(mid, step)
    ensures Runs(s, longer) && After(s, longer) == end == Apply(mid, step)
  {
    longer, end := steps + [step], Apply(mid, step);
    assert longer[..|steps|] == steps;
  }

  lemma ZeroLimitLosesARequest(cfg: Config)
    requires cfg.maxBatch == 0
    ensures !NothingLost(cfg)
  {
    var init := Init(cfg);
    var steps, s := Extend(init, [], init, Start);
    steps, s := Extend(init, steps, s, Submit(7, [], 0));
    steps, s := Extend(init, steps, s, ClearRunning);
    steps, s := Extend(init, steps, s, RequestShutdown);
    steps, s := Extend(init, steps, s, WakeWithWork);
    assert s.worker.Window? && |s.queue| == 1 && s.cfg.maxBatch == 0 && !s.running;
    steps, s := Extend(init, steps, s, Drain);
    assert s.worker.EmptyDrain? && |s.queue| == 1;
    steps, s := Extend(init, steps, s, CheckRunning);
    assert s.worker.Exited? && |s.queue| == 1;
  }

  function Submissions(steps: seq<Step>): nat {
    if steps == [] then 0
    else Submissions(steps[..|steps| - 1]) + if steps[|steps| - 1].Submit? then 1 else 0
  }

  lemma SubmissionStep(s: State, step: Step)
    requires Enabled(s, step)
    ensures |Apply(s, step).accepted| + Apply(s, step).rejected ==
            |s.accepted| + s.rejected + if step.Submit? then 1 else 0
    ensures Apply(s, step).rejected > s.rejected ==> s.stopRequested
  {
  }

  /** Every submission was either accepted or refused. */
  lemma {:induction false} SubmissionsAreAccountedFor(cfg: Config, steps: seq<Step>)
    requires Runs(Init(cfg), steps)
    ensures var s := After(Init(cfg), steps); |s.accepted| + s.rejected == Submissions(steps)
    decreases |steps|
  {
    if steps != [] {
      var n := |steps| - 1;
      SubmissionsAreAccountedFor(cfg, steps[..n]);
      SubmissionStep(After(Init(cfg), steps[..n]), steps[n]);
    }
  }

  /** stop() may be called again after it has returned, and then does nothing. */
  lemma StoppingAgainIsIdle(cfg: Config, steps: seq<Step>)
    requires cfg.maxBatch >= 1 && Runs(Init(cfg), steps) && After(Init(cfg), steps).stopper.Joined?
    ensures var s := After(Init(cfg), steps);
      && Enabled(s, ClearRunning) && Apply(s, ClearRunning) == s
      && Enabled(s, RequestShutdown) && Apply(s, RequestShutdown) == s
  {
    InvInit(cfg);
    InvRun(Init(cfg), steps);
  }

  /** What start() would leave after stop() has returned: a new worker on a queue that is shut down. */
  function Restarted(s: State): State { s.(running := true, worker := Waiting) }

  ghost predicate Spins(s: State) {
    s.running && s.stopRequested && s.queue == [] && (s.worker.Waiting? || s.worker.EmptyDrain?)
  }

  lemma SpinsStep(s: State, step: Step)
    requires Spins(s) && Enabled(s, step) && !step.ClearRunning?
    ensures Spins(Apply(s, step)) && Apply(s, step).accepted == s.accepted
  {
  }

  /** A start() after stop() gives a worker that accepts nothing, never exits and never rests, in every
      continuation until stop() is called once more. */
  lemma {:induction false} RestartSpins(s: State, steps: seq<Step>)
    requires Inv(s) && s.stopper.Joined? && s.worker.Exited? && Runs(Restarted(s), steps)
    requires forall i :: 0 <= i < |steps| ==> !steps[i].ClearRunning?
    ensures Spins(After(Restarted(s), steps)) && After(Restarted(s), steps).accepted == s.accepted
    ensures exists step :: IsWorkerStep(step) && Enabled(After(Restarted(s), steps), step)
    decreases |steps|
  {
    if steps != [] {
      var n := |steps| - 1;
      RestartSpins(s, steps[..n]);
      SpinsStep(After(Restarted(s), steps[..n]), steps[n]);
    }
    var end := After(Restarted(s), steps);
    var step := if end.worker.Waiting? then WakeEmpty else CheckRunning;
    assert IsWorkerStep(step) && Enabled(end, step);
  }

  lemma StoppedStep(s: State, step: Step)
    requires s.stopRequested && Enabled(s, step)
    ensures Apply(s, step).stopRequested && Apply(s, step).accepted == s.accepted
  {
  }

  /** After shutdown has been requested nothing more is accepted, in any continuation. */
  lemma {:induction false} StoppedAcceptsNothing(s: State, steps: seq<Step>)
    requires s.stopRequested && Runs(s, steps)
    ensures After(s, steps).stopRequested && After(s, steps).accepted == s.accepted
    decreases |steps|
  {
    if steps != [] {
      var n := |steps| - 1;
      StoppedAcceptsNothing(s, steps[..n]);
      StoppedStep(After(s, steps[..n]), steps[n]);
    }
  }

  /** Nothing answered in `p` is answered differently, or no longer answered, in `p'`. */
  ghost predicate Kept(p: map<nat, Outcome>, p': map<nat, Outcome>) {
    forall t :: t in p ==> t in p' && p'[t] == p[t]
  }

  lemma KeptStep(s: State, step: Step)
    requires Inv(s) && Enabled(s, step)
    ensures Kept(s.promises, Apply(s, step).promises)
  {
    PlacementStep(s, step);
  }

  /** An answer, once given, is final. */
  lemma {:induction false} AnswersAreFinal(s: State, steps: seq<Step>)
    requires Inv(s) && Runs(s, steps)
    ensures Kept(s.promises, After(s, steps).promises)
    decreases |steps|
  {
    if steps != [] {
      var n := |steps| - 1;
      AnswersAreFinal(s, steps[..n]);
      InvRun(s, steps[..n]);
      KeptStep(After(s, steps[..n]), steps[n]);
    }
  }

  /** A mis-sized request gets the size error and nothing else; a well-sized one gets an output row
      under its own id or an engine error, never the size error. */
  lemma EveryAnswerIsJustified(cfg: Config, steps: seq<Step>)
    requires cfg.maxBatch >= 1 && Runs(Init(cfg), steps)
    ensures var s := After(Init(cfg), steps);
            forall t :: t in s.promises ==> t < |s.accepted| && Justified(s.cfg, s.accepted[t], s.promises[t])
  {
    InvInit(cfg);
    InvRun(Init(cfg), steps);
  }

  // ---- answers do not depend on batching ----

  /** A returning engine call has applied `f` to each row of its input. */
  ghost predicate RowWiseStep(f: Row -> Row, s: State, step: Step) {
    step.EngineReturns? && s.worker.Computing? ==>
      step.output == MapRows(f, Concat(Inputs(s.worker.batch)), |s.worker.batch|, s.cfg.inputElems)
  }

  ghost predicate RowWiseRun(f: Row -> Row, s: State, steps: seq<Step>)
    requires Runs(s, steps)
    decreases |steps|
  {
    steps == [] ||
    (var n := |steps| - 1;
     RowWiseRun(f, s, steps[..n]) && RowWiseStep(f, After(s, steps[..n]), steps[n]))
  }

  /** Every answer so far is the caller's own id and `f` of the caller's own input. */
  ghost predicate OwnAnswers(f: Row -> Row, s: State) {
    forall t :: t in s.promises && s.promises[t].Value? ==>
      t < |s.accepted| && s.promises[t] == Value(s.accepted[t].id, f(s.accepted[t].input))
  }

  ghost predicate OutputReady(f: Row -> Row, cfg: Config, w: Worker) {
    w.Delivering? ==> w.output == MapRows(f, Concat(Inputs(w.batch)), |w.batch|, cfg.inputElems)
  }

  /** Row `i` of the engine's output belongs to request `i` of the batch and to no other. */
  lemma RowBelongsToRequest(f: Row -> Row, cfg: Config, batch: seq<Request>, i: nat)
    requires RowFunction(f, cfg.inputElems, cfg.outputElems) && AllWellSized(cfg, batch) && i < |batch|
    ensures RowAt(MapRows(f, Concat(Inputs(batch)), |batch|, cfg.inputElems), i, cfg.outputElems)
            == f(batch[i].input)
  {
    var rows := Inputs(batch);
    ConcatLength(rows, cfg.inputElems);
    RowOfMapRows(f, Concat(rows), |batch|, cfg.inputElems, cfg.outputElems, i);
    RowOfConcat(rows, cfg.inputElems, i);
  }

  /** What one delivery hands over is the caller's own answer. */
  lemma DeliveredIsOwn(f: Row -> Row, cfg: Config, w: Worker)
    requires RowFunction(f, cfg.inputElems, cfg.outputElems)
    requires w.Delivering? && Shape(cfg, w) && OutputReady(f, cfg, w)
    ensures Held(w) != [] && Held(w)[0] == w.batch[w.next]
    ensures RowAt(w.output, w.next, cfg.outputElems) == f(w.batch[w.next].input)
  {
    RowBelongsToRequest(f, cfg, w.batch, w.next);
  }

  lemma OwnAnswersResolve(f: Row -> Row, s: State, r: Request)
    requires OwnAnswers(f, s) && r.ticket < |s.accepted| && r == s.accepted[r.ticket]
    ensures OwnAnswers(f, Resolve(s, r, Value(r.id, f(r.input))))
  {
  }

  lemma OwnAnswersDeliver(f: Row -> Row, s: State)
    requires RowFunction(f, s.cfg.inputElems, s.cfg.outputElems)
    requires Genuine(Held(s.worker), s.accepted) && Shape(s.cfg, s.worker) && Enabled(s, DeliverOne)
    requires OwnAnswers(f, s) && OutputReady(f, s.cfg, s.worker)
    ensures OwnAnswers(f, Apply(s, DeliverOne))
  {
    DeliveredIsOwn(f, s.cfg, s.worker);
    OwnAnswersResolve(f, s, s.worker.batch[s.worker.next]);
  }

  /** Only a delivery hands out a value. */
  lemma ValuesEffect(s: State, step: Step)
    requires Enabled(s, step) && !step.DeliverOne?
    ensures forall t :: t in Apply(s, step).promises && Apply(s, step).promises[t].Value? ==>
              t in s.promises && s.promises[t] == Apply(s, step).promises[t]
  {
  }

  lemma OwnAnswersStep(f: Row -> Row, s: State, step: Step)
    requires RowFunction(f, s.cfg.inputElems, s.cfg.outputElems)
    requires Genuine(Held(s.worker), s.accepted) && Shape(s.cfg, s.worker) && Enabled(s, step)
    requires OwnAnswers(f, s) && OutputReady(f, s.cfg, s.worker)
    ensures OwnAnswers(f, Apply(s, step))
  {
    if step.DeliverOne? {
      OwnAnswersDeliver(f, s);
    } else {
      QueueEffect(s, step);
      ValuesEffect(s, step);
    }
  }

  lemma OutputReadyStep(f: Row -> Row, s: State, step: Step)
    requires Enabled(s, step) && RowWiseStep(f, s, step) && OutputReady(f, s.cfg, s.worker)
    ensures OutputReady(f, s.cfg, Apply(s, step).worker)
  {
  }

  lemma InvHolds(s: State)
    requires Inv(s)
    ensures Genuine(Held(s.worker), s.accepted) && Shape(s.cfg, s.worker)
  {
  }

  /** Batching transparency: however arrivals are cut into batches, and whatever mis-sized requests
      travel with them, a future that resolves with a value carries the request's own id and the
      engine's result for that request alone. */
  lemma {:induction false} BatchingIsTransparent(f: Row -> Row, cfg: Config, steps: seq<Step>)
    requires cfg.maxBatch >= 1 && RowFunction(f, cfg.inputElems, cfg.outputElems)
    requires Runs(Init(cfg), steps) && RowWiseRun(f, Init(cfg), steps)
    ensures OwnAnswers(f, After(Init(cfg), steps))
    ensures After(Init(cfg), steps).cfg == cfg && OutputReady(f, cfg, After(Init(cfg), steps).worker)
    decreases |steps|
  {
    if steps != [] {
      var n := |steps| - 1;
      BatchingIsTransparent(f, cfg, steps[..n]);
      var s := After(Init(cfg), steps[..n]);
      InvInit(cfg);
      InvRun(Init(cfg), steps[..n]);
      InvHolds(s);
      QueueEffect(s, steps[n]);
      OwnAnswersStep(f, s, steps[n]);
      OutputReadyStep(f, s, steps[n]);
    }
  }

  /** `f` of a request's input is what the engine computes for a batch holding only that request. */
  lemma AloneIsTheSame(f: Row -> Row, cfg: Config, r: Request)
    requires WellSized(cfg, r)
    ensures MapRows(f, Concat(Inputs([r])), 1, cfg.inputElems) == f(r.input)
  {
    assert Inputs([r]) == [] + [r.input];
    ConcatSnoc([], r.input);
    assert Concat(Inputs([r])) == r.input;
    assert RowAt(r.input, 0, cfg.inputElems) == r.input;
    assert MapRows(f, r.input, 0, cfg.inputElems) == [];
  }

  // ---- exact service bound ----

  /** Where the request at queue position `p` of `s` is found in a later state `s'`. */
  ghost predicate ServedInTurn(s: State, p: nat, s': State)
    requires p < |s.queue| && s.cfg.maxBatch >= 1
  {
    var m := s.cfg.maxBatch;
    var drained := |s'.drains| - |s.drains|;
    && s'.cfg == s.cfg
    && 0 <= drained
    && (if drained <= p / m
        then 0 <= p - drained * m < |s'.queue| && s'.queue[p - drained * m] == s.queue[p]
        else p % m < |s'.drains[|s.drains| + p / m]| && s'.drains[|s.drains| + p / m][p % m] == s.queue[p])
  }

  lemma Quotient(p: nat, m: nat, d: nat)
    requires m >= 1
    ensures p - (p / m) * m == p % m
    ensures d < p / m ==> p - d * m >= m
  {
    assert p == (p / m) * m + p % m;
    if d < p / m {
      RowFits(d, p / m, m);
    }
  }

  lemma ServedDrain(s: State, p: nat, mid: State)
    requires p < |s.queue| && s.cfg.maxBatch >= 1 && ServedInTurn(s, p, mid) && Enabled(mid, Drain)
    ensures ServedInTurn(s, p, Apply(mid, Drain))
  {
    var m := s.cfg.maxBatch;
    var d := |mid.drains| - |s.drains|;
    Quotient(p, m, d);
    if d < p / m {
      assert (d + 1) * m == d * m + m;
    }
  }

  lemma ServedOtherwise(s: State, p: nat, mid: State, step: Step)
    requires p < |s.queue| && s.cfg.maxBatch >= 1 && ServedInTurn(s, p, mid)
    requires Enabled(mid, step) && !step.Drain?
    ensures ServedInTurn(s, p, Apply(mid, step))
  {
    var later := Apply(mid, step);
    assert later.drains == mid.drains && later.cfg == mid.cfg;
    assert later.queue == mid.queue || later.queue[..|mid.queue|] == mid.queue;
  }

  /** A request at queue position `p` is taken by exactly the (p / maxBatch + 1)-th following drain,
      however many requests arrive later and whatever else happens. */
  lemma {:induction false} ExactServiceBound(s: State, p: nat, steps: seq<Step>)
    requires s.cfg.maxBatch >= 1 && p < |s.queue| && Runs(s, steps)
    ensures ServedInTurn(s, p, After(s, steps))
    decreases |steps|
  {
    if steps != [] {
      var n := |steps| - 1;
      ExactServiceBound(s, p, steps[..n]);
      var mid := After(s, steps[..n]);
      if steps[n].Drain? {
        ServedDrain(s, p, mid);
      } else {
        ServedOtherwise(s, p, mid, steps[n]);
      }
    }
  }

  // ---- stopping ends ----

  predicate IsWorkerStep(step: Step) {
    step.WakeWithWork? || step.WakeEmpty? || step.Drain? || step.CheckRunning? || step.FilterOne? ||
    step.FilterDone? || step.EngineReturns? || step.EngineThrows? || step.DeliverOne? || step.FailOne?
  }

  function WorkerSteps(steps: seq<Step>): nat {
    if steps == [] then 0
    else WorkerSteps(steps[..|steps| - 1]) + if IsWorkerStep(steps[|steps| - 1]) then 1 else 0
  }

  /** How many steps the worker can still take once shutdown has been requested. */
  function Remaining(s: State): int {
    match s.worker
    case NotStarted => 0
    case Waiting => 6 * |s.queue| + 3
    case Window => 6 * |s.queue| + 2
    case EmptyDrain => 1
    case Filtering(d, n, b) => 6 * |s.queue| + 3 * (|d| - n) + 2 * |b| + 4
    case Computing(b) => 6 * |s.queue| + |b| + 4
    case Delivering(b, _, n) => 6 * |s.queue| + (|b| - n) + 3
    case Failing(b, _, n) => 6 * |s.queue| + (|b| - n) + 3
    case Exited => 0
  }

  lemma RemainingStep(s: State, step: Step)
    requires s.cfg.maxBatch >= 1 && Shape(s.cfg, s.worker) && Flags(s) && s.stopRequested && Enabled(s, step)
    ensures Remaining(Apply(s, step)) <= Remaining(s) - if IsWorkerStep(step) then 1 else 0
    ensures 0 <= Remaining(Apply(s, step)) && Apply(s, step).stopRequested
  {
    ShapeStep(s, step);
  }

  lemma StoppingStep(s: State, step: Step)
    requires Inv(s) && s.stopRequested && Enabled(s, step)
    ensures Remaining(Apply(s, step)) <= Remaining(s) - if IsWorkerStep(step) then 1 else 0
    ensures 0 <= Remaining(Apply(s, step)) && Apply(s, step).stopRequested
  {
    RemainingStep(s, step);
  }

  /** After stop() has requested shutdown the worker takes at most `Remaining(s)` more steps in any
      continuation, whether batches succeed, are rejected whole or make the engine throw. */
  lemma {:induction false} StoppingEnds(s: State, steps: seq<Step>)
    requires Inv(s) && s.stopRequested && Runs(s, steps)
    ensures After(s, steps).stopRequested && 0 <= Remaining(After(s, steps))
    ensures WorkerSteps(steps) + Remaining(After(s, steps)) <= Remaining(s)
    decreases |steps|
  {
    if steps != [] {
      var n := |steps| - 1;
      var mid := After(s, steps[..n]);
      StoppingEnds(s, steps[..n]);
      InvRun(s, steps[..n]);
      StoppingStep(mid, steps[n]);
    }
  }

  lemma WorkerMoves(s: State)
    requires Shape(s.cfg, s.worker) && !s.worker.NotStarted? && !s.worker.Exited?
    requires s.worker.Waiting? ==> s.queue != [] || s.stopRequested
    ensures exists step :: IsWorkerStep(step) && Enabled(s, step)
  {
    var step := match s.worker
      case Waiting => if s.queue != [] then WakeWithWork else WakeEmpty
      case Window => Drain
      case Filtering(d, n, _) => if n < |d| then FilterOne else FilterDone(0)
      case Computing(_) => EngineThrows(0, 0)
      case Delivering(_, _, _) => DeliverOne
      case Failing(_, _, _) => FailOne
      case _ => CheckRunning;
    assert IsWorkerStep(step) && Enabled(s, step);
  }

  lemma IdleIsParked(s: State, step: Step)
    requires s.worker.Waiting? && s.queue == [] && !s.stopRequested && IsWorkerStep(step)
    ensures !Enabled(s, step)
  {
  }

  lemma WorkerMovesIff(s: State)
    requires Shape(s.cfg, s.worker) && !s.worker.NotStarted? && !s.worker.Exited?
    ensures (exists step :: IsWorkerStep(step) && Enabled(s, step)) <==>
            !(s.worker.Waiting? && s.queue == [] && !s.stopRequested)
  {
    if s.worker.Waiting? && s.queue == [] && !s.stopRequested {
      forall step | IsWorkerStep(step) ensures !Enabled(s, step) {
        IdleIsParked(s, step);
      }
    } else {
      WorkerMoves(s);
    }
  }

  /** Once shutdown is requested a started worker can always move until it has exited; before that
      it is parked exactly when it waits on an empty queue. */
  lemma WorkerBlocksOnlyWhenIdle(cfg: Config, steps: seq<Step>)
    requires cfg.maxBatch >= 1 && Runs(Init(cfg), steps)
    requires var w := After(Init(cfg), steps).worker; !w.NotStarted? && !w.Exited?
    ensures var s := After(Init(cfg), steps);
            (exists step :: IsWorkerStep(step) && Enabled(s, step)) <==>
            !(s.worker.Waiting? && s.queue == [] && !s.stopRequested)
  {
    InvInit(cfg);
    InvRun(Init(cfg), steps);
    WorkerMovesIff(After(Init(cfg), steps));
  }

  /** An empty drain is seen only after shutdown, with nothing queued and running_ already false, so
      the loop's "empty but still running" branch is never taken. */
  lemma EmptyDrainMeansDone(cfg: Config, steps: seq<Step>)
    requires cfg.maxBatch >= 1 && Runs(Init(cfg), steps)
    requires Enabled(After(Init(cfg), steps), CheckRunning)
    ensures var s := After(Init(cfg), steps);
            s.stopRequested && s.queue == [] && !s.running && Apply(s, CheckRunning).worker.Exited?
  {
    InvInit(cfg);
    InvRun(Init(cfg), steps);
  }
}
