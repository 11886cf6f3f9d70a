/** The dynamic batcher as a transition system: producers pushing under the queue's lock, one
    worker, and a thread calling stop(), in every interleaving. The engine is arbitrary: it may
    throw or return any buffer at any call. */
module Scheduler {
  import opened Basics
  import opened Tensor

  datatype Config = Config(maxBatch: nat, inputElems: nat, outputElems: nat)

  /** `ticket` names the promise the request carries: its position in the order of accepted
      pushes. `id` is the caller's request id, which nothing forces to be unique. */
  datatype Request = Request(ticket: nat, id: nat, input: Row, arrival: int)

  datatype Error = WrongInputSize | WrongOutputSize | EngineFailed(code: int)
  datatype Outcome = Value(requestId: nat, logits: Row) | Exception(error: Error)

  datatype Stats = Stats(totalBatches: nat, totalRequests: nat, maxBatchSeen: nat,
                         totalWait: nat, maxWait: nat, totalExec: nat)

  const NoStats := Stats(0, 0, 0, 0, 0, 0)

  /** Where the worker stands in run_loop(). */
  datatype Worker =
    | NotStarted
    | Waiting                                                        // phase 1 of wait_and_drain
    | Window                                                         // phase 2: the batching window
    | EmptyDrain                                                     // an empty batch came back
    | Filtering(drained: seq<Request>, next: nat, batch: seq<Request>)
    | Computing(batch: seq<Request>)                                 // inside the engine call
    | Delivering(batch: seq<Request>, output: Row, next: nat)
    | Failing(batch: seq<Request>, error: Error, next: nat)
    | Exited

  /** Where the thread calling stop() stands; once `Joined`, stop() may be called again. */
  datatype Stopper = NotStopping | Cleared | ShutDown | Joined

  /** The fields after `stopper` are history: `accepted` and `drains` in lock order, the tickets
      counted and timed in the statistics, refused submissions, and whether some promise was ever
      set twice. */
  datatype State = State(
    cfg: Config, queue: seq<Request>, stopRequested: bool, running: bool,
    promises: map<nat, Outcome>, stats: Stats, worker: Worker, stopper: Stopper,
    accepted: seq<Request>, drains: seq<seq<Request>>, counted: set<nat>, timed: set<nat>,
    countedAtReset: nat, rejected: nat, setTwice: bool)

  datatype Step =
    | Submit(id: nat, input: Row, arrival: int)
    | Start
    | WakeWithWork | WakeEmpty | Drain | CheckRunning
    | FilterOne | FilterDone(now: int)
    | EngineReturns(output: Row, elapsed: nat) | EngineThrows(code: int, elapsed: nat)
    | DeliverOne | FailOne
    | ClearRunning | RequestShutdown | Join
    | ResetStats

  function Init(cfg: Config): State {
    State(cfg, [], false, false, map[], NoStats, NotStarted, NotStopping, [], [], {}, {}, 0, 0, false)
  }

  predicate WellSized(cfg: Config, r: Request) { |r.input| == cfg.inputElems }

  function Inputs(batch: seq<Request>): (rows: seq<Row>)
    ensures |rows| == |batch|
    ensures forall i :: 0 <= i < |batch| ==> rows[i] == batch[i].input
  {
    seq(|batch|, i requires 0 <= i < |batch| => batch[i].input)
  }

  /** Microseconds waited by one request, never negative. */
  function Waited(now: int, r: Request): nat {
    if now > r.arrival then now - r.arrival else 0
  }

  function CountWaits(st: Stats, batch: seq<Request>, now: int): Stats {
    if batch == [] then st else
      var before := CountWaits(st, batch[..|batch| - 1], now);
      var w := Waited(now, batch[|batch| - 1]);
      before.(totalWait := before.totalWait + w, maxWait := Max(before.maxWait, w))
  }

  /** The counters after a batch has been finalized at time `now`, undisturbed by a reset. */
  function CountBatch(st: Stats, batch: seq<Request>, now: int): Stats {
    CountWaits(st.(totalBatches := st.totalBatches + 1, totalRequests := st.totalRequests + |batch|,
                   maxBatchSeen := Max(st.maxBatchSeen, |batch|)), batch, now)
  }

  function TicketsOf(rs: seq<Request>): set<nat> { set r | r in rs :: r.ticket }

  /** set_value / set_exception: setting a promise a second time is recorded as a fault. */
  function Resolve(s: State, r: Request, o: Outcome): State {
    s.(promises := s.promises[r.ticket := o], setTwice := s.setTwice || r.ticket in s.promises)
  }

  predicate Enabled(s: State, step: Step) {
    match step
    case Submit(_, _, _) => true
    case Start => s.running || (s.worker.NotStarted? && s.stopper.NotStopping?)
    case WakeWithWork => s.worker.Waiting? && s.queue != []
    case WakeEmpty => s.worker.Waiting? && s.queue == [] && s.stopRequested
    case Drain => s.worker.Window?
    case CheckRunning => s.worker.EmptyDrain?
    case FilterOne => s.worker.Filtering? && s.worker.next < |s.worker.drained|
    case FilterDone(_) => s.worker.Filtering? && s.worker.next == |s.worker.drained|
    case EngineReturns(_, _) => s.worker.Computing?
    case EngineThrows(_, _) => s.worker.Computing?
    case DeliverOne => s.worker.Delivering? && s.worker.next < |s.worker.batch|
    case FailOne => s.worker.Failing? && s.worker.next < |s.worker.batch|
    case ClearRunning => s.stopper.NotStopping? || s.stopper.Joined?
    case RequestShutdown => s.stopper.Cleared? || s.stopper.Joined?
    case Join => s.stopper.ShutDown? && (s.worker.Exited? || s.worker.NotStarted?)
    case ResetStats => true
  }

  function Apply(s: State, step: Step): State
    requires Enabled(s, step)
  {
    match step
    case Submit(id, input, arrival) =>
      if s.stopRequested then s.(rejected := s.rejected + 1)
      else
        var r := Request(|s.accepted|, id, input, arrival);
        s.(queue := s.queue + [r], accepted := s.accepted + [r])
    case Start => if s.running then s else s.(running := true, worker := Waiting)
    case WakeWithWork => s.(worker := Window)
    case WakeEmpty => s.(worker := EmptyDrain)
    case Drain =>
      var k := Min(s.cfg.maxBatch, |s.queue|);
      var batch := s.queue[..k];
      s.(queue := s.queue[k..], drains := s.drains + [batch],
         worker := if batch == [] then EmptyDrain else Filtering(batch, 0, []))
    case CheckRunning => s.(worker := if s.running then Waiting else Exited)
    case FilterOne =>
      var w := s.worker;
      var r := w.drained[w.next];
      if WellSized(s.cfg, r) then s.(worker := Filtering(w.drained, w.next + 1, w.batch + [r]))
      else Resolve(s, r, Exception(WrongInputSize)).(worker := Filtering(w.drained, w.next + 1, w.batch))
    case FilterDone(now) =>
      var b := s.worker.batch;
      if b == [] then s.(worker := Waiting)
      else s.(worker := Computing(b), stats := CountBatch(s.stats, b, now),
              counted := s.counted + TicketsOf(b))
    case EngineReturns(output, elapsed) =>
      var b := s.worker.batch;
      s.(stats := s.stats.(totalExec := s.stats.totalExec + elapsed), timed := s.timed + TicketsOf(b),
         worker := if |output| == |b| * s.cfg.outputElems then Delivering(b, output, 0)
                   else Failing(b, WrongOutputSize, 0))
    case EngineThrows(code, elapsed) =>
      var b := s.worker.batch;
      s.(stats := s.stats.(totalExec := s.stats.totalExec + elapsed), timed := s.timed + TicketsOf(b),
         worker := Failing(b, EngineFailed(code), 0))
    case DeliverOne =>
      var w := s.worker;
      var r := w.batch[w.next];
      Resolve(s, r, Value(r.id, RowAt(w.output, w.next, s.cfg.outputElems))).(
        worker := if w.next + 1 == |w.batch| then Waiting else Delivering(w.batch, w.output, w.next + 1))
    case FailOne =>
      var w := s.worker;
      Resolve(s, w.batch[w.next], Exception(w.error)).(
        worker := if w.next + 1 == |w.batch| then Waiting else Failing(w.batch, w.error, w.next + 1))
    case ClearRunning => s.(running := false, stopper := if s.stopper.Joined? then Joined else Cleared)
    case RequestShutdown => s.(stopRequested := true, stopper := if s.stopper.Joined? then Joined else ShutDown)
    case Join => s.(stopper := Joined)
    case ResetStats => s.(stats := NoStats, countedAtReset := |s.counted|)
  }

  /** `steps` can be taken one after the other from `s`. */
  predicate Runs(s: State, steps: seq<Step>)
    decreases |steps|, 0
  {
    steps == [] ||
    (var n := |steps| - 1;
     Runs(s, steps[..n]) && Enabled(After(s, steps[..n]), steps[n]))
  }

  function After(s: State, steps: seq<Step>): State
    requires Runs(s, steps)
    decreases |steps|, 1
  {
    if steps == [] then s else Apply(After(s, steps[..|steps| - 1]), steps[|steps| - 1])
  }
}
