/** The engine calls of a run, and the answers they lead to. */
module SchedulerCalls {
  import opened Tensor
  import opened Scheduler
  import opened SchedulerSafety
  import opened SchedulerTheorems
  import Stats = SchedulerStats
  import opened Engines

  /** One engine call: the batch handed over and what came back. */
  datatype Call = Call(batch: seq<Request>, result: EngineResult)

  /** The call this step ends, if any. */
  function CallOf(w: Worker, step: Step): seq<Call> {
    if !w.Computing? then [] else
    match step
    case EngineReturns(output, _) => [Call(w.batch, Returned(output))]
    case EngineThrows(code, _) => [Call(w.batch, Threw(code))]
    case _ => []
  }

  function Calls(s: State, steps: seq<Step>): seq<Call>
    requires Runs(s, steps)
    decreases |steps|
  {
    if steps == [] then [] else
      var n := |steps| - 1;
      Calls(s, steps[..n]) + CallOf(After(s, steps[..n]).worker, steps[n])
  }

  /** What request `i` of the call is owed: the error thrown, the size error, or its id with its row. */
  ghost predicate Deserved(cfg: Config, c: Call, i: nat, o: Outcome)
    requires i < |c.batch|
  {
    match c.result
    case Threw(code) => o == Exception(EngineFailed(code))
    case Returned(out) =>
      if |out| == |c.batch| * cfg.outputElems then o == Value(c.batch[i].id, RowAt(out, i, cfg.outputElems))
      else o == Exception(WrongOutputSize)
  }

  /** The whole batch of the call fails with `e`. */
  ghost predicate FailsWith(cfg: Config, c: Call, e: Error) {
    match c.result
    case Threw(code) => e == EngineFailed(code)
    case Returned(out) => |out| != |c.batch| * cfg.outputElems && e == WrongOutputSize
  }

  /** The first `k` requests of the call have what they are owed. */
  ghost predicate AnsweredTo(cfg: Config, c: Call, k: nat, promises: map<nat, Outcome>) {
    k <= |c.batch| && forall i :: 0 <= i < k ==>
      c.batch[i].ticket in promises && Deserved(cfg, c, i, promises[c.batch[i].ticket])
  }

  /** How far the worker has got with call `k`. */
  function Progress(w: Worker, calls: seq<Call>, k: nat): nat
    requires k < |calls|
  {
    if k == |calls| - 1 && w.Delivering? then w.next
    else if k == |calls| - 1 && w.Failing? then w.next
    else |calls[k].batch|
  }

  /** The worker is answering the last call. */
  ghost predicate OnLast(cfg: Config, w: Worker, calls: seq<Call>) {
    && (w.Delivering? ==> calls != [] && calls[|calls| - 1] == Call(w.batch, Returned(w.output)))
    && (w.Failing? ==> calls != [] && calls[|calls| - 1].batch == w.batch)
    && (w.Failing? ==> FailsWith(cfg, calls[|calls| - 1], w.error))
  }

  ghost predicate AllAnswered(cfg: Config, w: Worker, calls: seq<Call>, promises: map<nat, Outcome>) {
    forall k :: 0 <= k < |calls| ==> AnsweredTo(cfg, calls[k], Progress(w, calls, k), promises)
  }

  lemma AnsweredKept(cfg: Config, c: Call, k: nat, p: map<nat, Outcome>, p': map<nat, Outcome>)
    requires AnsweredTo(cfg, c, k, p) && Kept(p, p')
    ensures AnsweredTo(cfg, c, k, p')
  {
  }

  predicate Answering(w: Worker) { w.Delivering? || w.Failing? }

  /** No call ends and the worker gets no further with the last one. */
  lemma CallsStand(cfg: Config, w: Worker, w': Worker, calls: seq<Call>, p: map<nat, Outcome>, p': map<nat, Outcome>)
    requires AllAnswered(cfg, w, calls, p) && OnLast(cfg, w, calls) && Kept(p, p')
    requires w' == w || (!Answering(w) && !Answering(w'))
    ensures AllAnswered(cfg, w', calls, p') && OnLast(cfg, w', calls)
  {
    forall k | 0 <= k < |calls| ensures AnsweredTo(cfg, calls[k], Progress(w', calls, k), p') {
      assert Progress(w', calls, k) == Progress(w, calls, k);
      AnsweredKept(cfg, calls[k], Progress(w, calls, k), p, p');
    }
  }

  /** A call ends; none of its requests has been answered yet. */
  lemma CallEnds(cfg: Config, w: Worker, w': Worker, calls: seq<Call>, c: Call, p: map<nat, Outcome>)
    requires AllAnswered(cfg, w, calls, p) && !Answering(w) && Answering(w') && w'.next == 0
    ensures AllAnswered(cfg, w', calls + [c], p)
  {
    var calls' := calls + [c];
    forall k | 0 <= k < |calls'| ensures AnsweredTo(cfg, calls'[k], Progress(w', calls', k), p) {
      if k < |calls| {
        assert Progress(w', calls', k) == Progress(w, calls, k);
      }
    }
  }

  function Advanced(w: Worker): Worker
    requires Answering(w)
  {
    if w.next + 1 == |w.batch| then Waiting
    else if w.Delivering? then Delivering(w.batch, w.output, w.next + 1)
    else Failing(w.batch, w.error, w.next + 1)
  }

  /** The next request of the last call is given what it is owed. */
  lemma CallAnswers(cfg: Config, w: Worker, calls: seq<Call>, p: map<nat, Outcome>, o: Outcome)
    requires AllAnswered(cfg, w, calls, p) && OnLast(cfg, w, calls) && Answering(w)
    requires w.next < |w.batch| && w.batch[w.next].ticket !in p
    requires Deserved(cfg, calls[|calls| - 1], w.next, o)
    ensures AllAnswered(cfg, Advanced(w), calls, p[w.batch[w.next].ticket := o]) && OnLast(cfg, Advanced(w), calls)
  {
    var p' := p[w.batch[w.next].ticket := o];
    forall k | 0 <= k < |calls| ensures AnsweredTo(cfg, calls[k], Progress(Advanced(w), calls, k), p') {
      AnsweredKept(cfg, calls[k], Progress(w, calls, k), p, p');
    }
  }

  // ---- the steps of the batcher ----

  lemma EngineStep(s: State, step: Step, calls: seq<Call>)
    requires AllAnswered(s.cfg, s.worker, calls, s.promises) && Shape(s.cfg, s.worker)
    requires Enabled(s, step) && (step.EngineReturns? || step.EngineThrows?)
    ensures var s' := Apply(s, step);
      && AllAnswered(s.cfg, s'.worker, calls + CallOf(s.worker, step), s'.promises)
      && OnLast(s.cfg, s'.worker, calls + CallOf(s.worker, step))
  {
    var s' := Apply(s, step);
    assert s'.promises == s.promises;
    CallEnds(s.cfg, s.worker, s'.worker, calls, CallOf(s.worker, step)[0], s.promises);
  }

  lemma DeliverAdvances(s: State)
    requires Enabled(s, DeliverOne)
    ensures var w, s' := s.worker, Apply(s, DeliverOne);
      && s'.worker == Advanced(w)
      && s'.promises == s.promises[w.batch[w.next].ticket :=
           Value(w.batch[w.next].id, RowAt(w.output, w.next, s.cfg.outputElems))]
  {
  }

  lemma FailAdvances(s: State)
    requires Enabled(s, FailOne)
    ensures var w, s' := s.worker, Apply(s, FailOne);
      s'.worker == Advanced(w) && s'.promises == s.promises[w.batch[w.next].ticket := Exception(w.error)]
  {
  }

  lemma NextIsFresh(accepted: seq<Request>, taken: nat, w: Worker, promises: map<nat, Outcome>)
    requires Placed(accepted, taken, Held(w), promises) && Answering(w) && w.next < |w.batch|
    ensures w.batch[w.next].ticket !in promises
  {
    assert Held(w)[0] == w.batch[w.next];
    assert Held(w)[0] in Held(w);
  }

  lemma DeliverCall(s: State, calls: seq<Call>)
    requires AllAnswered(s.cfg, s.worker, calls, s.promises) && OnLast(s.cfg, s.worker, calls)
    requires Shape(s.cfg, s.worker) && Placement(s) && Enabled(s, DeliverOne)
    ensures var s' := Apply(s, DeliverOne);
      AllAnswered(s.cfg, s'.worker, calls, s'.promises) && OnLast(s.cfg, s'.worker, calls)
  {
    var w := s.worker;
    DeliverAdvances(s);
    NextIsFresh(s.accepted, Taken(s), w, s.promises);
    CallAnswers(s.cfg, w, calls, s.promises, Value(w.batch[w.next].id, RowAt(w.output, w.next, s.cfg.outputElems)));
  }

  lemma FailCall(s: State, calls: seq<Call>)
    requires AllAnswered(s.cfg, s.worker, calls, s.promises) && OnLast(s.cfg, s.worker, calls)
    requires Placement(s) && Enabled(s, FailOne)
    ensures var s' := Apply(s, FailOne);
      AllAnswered(s.cfg, s'.worker, calls, s'.promises) && OnLast(s.cfg, s'.worker, calls)
  {
    var w := s.worker;
    FailAdvances(s);
    NextIsFresh(s.accepted, Taken(s), w, s.promises);
    CallAnswers(s.cfg, w, calls, s.promises, Exception(w.error));
  }

  predicate IsCallStep(step: Step) {
    step.EngineReturns? || step.EngineThrows? || step.DeliverOne? || step.FailOne?
  }

  lemma OtherWorker(s: State, step: Step)
    requires Enabled(s, step) && !IsCallStep(step)
    ensures var w, w' := s.worker, Apply(s, step).worker; w' == w || (!Answering(w) && !Answering(w'))
    ensures CallOf(s.worker, step) == []
  {
  }

  lemma OtherCalls(s: State, step: Step, calls: seq<Call>)
    requires AllAnswered(s.cfg, s.worker, calls, s.promises) && OnLast(s.cfg, s.worker, calls)
    requires Enabled(s, step) && !IsCallStep(step) && Kept(s.promises, Apply(s, step).promises)
    ensures var s' := Apply(s, step);
      AllAnswered(s.cfg, s'.worker, calls, s'.promises) && OnLast(s.cfg, s'.worker, calls)
  {
    OtherWorker(s, step);
    CallsStand(s.cfg, s.worker, Apply(s, step).worker, calls, s.promises, Apply(s, step).promises);
  }

  lemma CallsStep(s: State, step: Step, calls: seq<Call>)
    requires AllAnswered(s.cfg, s.worker, calls, s.promises) && OnLast(s.cfg, s.worker, calls)
    requires Inv(s) && Enabled(s, step)
    ensures var s', calls' := Apply(s, step), calls + CallOf(s.worker, step);
      AllAnswered(s.cfg, s'.worker, calls', s'.promises) && OnLast(s.cfg, s'.worker, calls')
  {
    if step.EngineReturns? || step.EngineThrows? {
      EngineStep(s, step, calls);
    } else {
      assert calls + CallOf(s.worker, step) == calls;
      if step.DeliverOne? {
        DeliverCall(s, calls);
      } else if step.FailOne? {
        FailCall(s, calls);
      } else {
        KeptStep(s, step);
        OtherCalls(s, step, calls);
      }
    }
  }

  // ---- which requests reach the engine ----

  ghost predicate InSomeCall(calls: seq<Call>, t: nat) {
    exists k :: 0 <= k < |calls| && t in TicketsOf(calls[k].batch)
  }

  lemma InSomeCallGrows(calls: seq<Call>, more: seq<Call>, t: nat)
    requires InSomeCall(calls, t) || InSomeCall(more, t)
    ensures InSomeCall(calls + more, t)
  {
    if InSomeCall(calls, t) {
      var k :| 0 <= k < |calls| && t in TicketsOf(calls[k].batch);
      assert (calls + more)[k] == calls[k];
    } else {
      var k :| 0 <= k < |more| && t in TicketsOf(more[k].batch);
      assert (calls + more)[|calls| + k] == more[k];
    }
  }

  lemma TimedBy(s: State, step: Step, t: nat)
    requires Enabled(s, step) && t in Apply(s, step).timed
    ensures t in s.timed || InSomeCall(CallOf(s.worker, step), t)
  {
    if t !in s.timed {
      assert t in TicketsOf(CallOf(s.worker, step)[0].batch);
    }
  }

  ghost predicate TimedInCalls(timed: set<nat>, calls: seq<Call>) {
    forall t :: t in timed ==> InSomeCall(calls, t)
  }

  lemma TimedStep(s: State, step: Step, calls: seq<Call>)
    requires Enabled(s, step) && TimedInCalls(s.timed, calls)
    ensures TimedInCalls(Apply(s, step).timed, calls + CallOf(s.worker, step))
  {
    forall t | t in Apply(s, step).timed ensures InSomeCall(calls + CallOf(s.worker, step), t) {
      TimedBy(s, step, t);
      InSomeCallGrows(calls, CallOf(s.worker, step), t);
    }
  }

  lemma {:induction false} CallsRun(cfg: Config, steps: seq<Step>)
    requires cfg.maxBatch >= 1 && Runs(Init(cfg), steps)
    ensures var s, calls := After(Init(cfg), steps), Calls(Init(cfg), steps);
      && s.cfg == cfg && AllAnswered(cfg, s.worker, calls, s.promises) && OnLast(cfg, s.worker, calls)
      && TimedInCalls(s.timed, calls)
    decreases |steps|
  {
    if steps != [] {
      var n := |steps| - 1;
      CallsRun(cfg, steps[..n]);
      InvInit(cfg);
      InvRun(Init(cfg), steps[..n]);
      var s, calls := After(Init(cfg), steps[..n]), Calls(Init(cfg), steps[..n]);
      QueueEffect(s, steps[n]);
      CallsStep(s, steps[n], calls);
      TimedStep(s, steps[n], calls);
    }
  }

  lemma OneRequest(cfg: Config, w: Worker, calls: seq<Call>, p: map<nat, Outcome>, k: nat, i: nat)
    requires AllAnswered(cfg, w, calls, p) && OnLast(cfg, w, calls) && k < |calls| && i < |calls[k].batch|
    ensures calls[k].batch[i] in Held(w) ||
            (calls[k].batch[i].ticket in p && Deserved(cfg, calls[k], i, p[calls[k].batch[i].ticket]))
  {
    assert AnsweredTo(cfg, calls[k], Progress(w, calls, k), p);
    if i >= Progress(w, calls, k) {
      assert calls[k].batch == w.batch && w.next <= i;
      assert Held(w)[i - w.next] == w.batch[i];
    }
  }

  /** In every run each request of each engine call that has ended has what that call owes it: its own
      row, the error thrown, or the size error; only the rest of the call the worker is still answering
      is outstanding. And a well-sized request is answered only through such a call. */
  lemma EveryCallIsAnswered(cfg: Config, steps: seq<Step>)
    requires cfg.maxBatch >= 1 && Runs(Init(cfg), steps)
    ensures var s, calls := After(Init(cfg), steps), Calls(Init(cfg), steps);
      && (forall k, i :: 0 <= k < |calls| && 0 <= i < |calls[k].batch| ==>
            calls[k].batch[i] in Held(s.worker) ||
            (calls[k].batch[i].ticket in s.promises &&
             Deserved(cfg, calls[k], i, s.promises[calls[k].batch[i].ticket])))
      && (forall t :: t in s.promises ==> t < |s.accepted| && (WellSized(cfg, s.accepted[t]) ==> InSomeCall(calls, t)))
  {
    var s, calls := After(Init(cfg), steps), Calls(Init(cfg), steps);
    CallsRun(cfg, steps);
    Stats.CountersTellTheTruth(cfg, steps);
    EveryAnswerIsJustified(cfg, steps);
    forall k, i | 0 <= k < |calls| && 0 <= i < |calls[k].batch|
      ensures calls[k].batch[i] in Held(s.worker) ||
              (calls[k].batch[i].ticket in s.promises &&
               Deserved(cfg, calls[k], i, s.promises[calls[k].batch[i].ticket]))
    {
      OneRequest(cfg, s.worker, calls, s.promises, k, i);
    }
  }
}
