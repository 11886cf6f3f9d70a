/** When the server is ready: only after its start-up probe was served, and reachably so. */
module LifecycleReadiness {
  import opened Basics
  import opened Lifecycle
  import opened LifecycleSafety
  import S = Scheduler
  import Safety = SchedulerSafety
  import Theorems = SchedulerTheorems
  import T = Tensor

  /** What one step leaves of the answers given and of the history of pushes. */
  lemma AnswersStay(s: State, step: Step)
    requires Safety.Inv(s.sched) && Enabled(s, step)
    ensures var s' := Apply(s, step);
      Theorems.Kept(s.sched.promises, s'.sched.promises) && s.owners <= s'.owners && s'.sched.cfg == s.sched.cfg
  {
    SchedulerMoves(s, step);
    if SchedulerPart(step).Some? {
      Theorems.KeptStep(s.sched, SchedulerPart(step).value);
      Safety.QueueEffect(s.sched, SchedulerPart(step).value);
    }
  }

  lemma ProbeStaysServed(s: State, s': State)
    requires ProbeServed(s) && s.owners <= s'.owners && s'.sched.cfg == s.sched.cfg
    requires Theorems.Kept(s.sched.promises, s'.sched.promises)
    ensures ProbeServed(s')
  {
    var t :| 0 <= t < |s.owners| && s.owners[t] == Probe && t in s.sched.promises &&
      s.sched.promises[t].Value? && |s.sched.promises[t].logits| == s.sched.cfg.outputElems;
    assert s'.owners[t] == Probe;
  }

  lemma ProbeStaysFinished(s: State, step: Step)
    requires Enabled(s, step) && JobOf(s.jobs, Probe) == Some(Finished)
    ensures JobOf(Apply(s, step).jobs, Probe) == Some(Finished)
  {
  }

  lemma BecomesServing(s: State, step: Step)
    requires Enabled(s, step) && Apply(s, step).life.Serving?
    ensures s.life.Serving? || step == BecomeReady
  {
  }

  lemma ServingFrom(s: State, step: Step)
    requires Enabled(s, step) && Apply(s, step).life.Serving?
    ensures s.life.Serving? || (JobOf(s.jobs, Probe) == Some(Finished) && ProbeServed(s))
  {
    BecomesServing(s, step);
  }

  /** In every run the server is ready only after its start-up probe has returned, served with an
      output of the configured size. */
  lemma {:induction false} ReadyMeansProbed(capacity: nat, threads: nat, cfg: S.Config, steps: seq<Step>)
    requires cfg.maxBatch >= 1 && Runs(Init(capacity, threads, cfg), steps)
    ensures var s := After(Init(capacity, threads, cfg), steps);
            s.life.Serving? ==> JobOf(s.jobs, Probe) == Some(Finished) && ProbeServed(s)
    decreases |steps|
  {
    if steps != [] && After(Init(capacity, threads, cfg), steps).life.Serving? {
      var n := |steps| - 1;
      var s := After(Init(capacity, threads, cfg), steps[..n]);
      ReadyMeansProbed(capacity, threads, cfg, steps[..n]);
      InvInit(capacity, threads, cfg);
      InvRun(Init(capacity, threads, cfg), steps[..n]);
      ServingFrom(s, steps[n]);
      ProbeStaysFinished(s, steps[n]);
      AnswersStay(s, steps[n]);
      ProbeStaysServed(s, Apply(s, steps[n]));
    }
  }

  ghost predicate OnlyQueued(jobs: map<Owner, Job>) { forall o :: o in jobs ==> jobs[o].Queued? }

  lemma OnlyQueuedStep(s: State, step: Step)
    requires OnlyQueued(s.jobs) && s.threads == 0 && Enabled(s, step)
    ensures OnlyQueued(Apply(s, step).jobs) && Apply(s, step).threads == 0
  {
  }

  lemma {:induction false} NothingStarts(capacity: nat, cfg: S.Config, steps: seq<Step>)
    requires Runs(Init(capacity, 0, cfg), steps)
    ensures var s := After(Init(capacity, 0, cfg), steps); OnlyQueued(s.jobs) && s.threads == 0
    decreases |steps|
  {
    if steps != [] {
      var n := |steps| - 1;
      NothingStarts(capacity, cfg, steps[..n]);
      OnlyQueuedStep(After(Init(capacity, 0, cfg), steps[..n]), steps[n]);
    }
  }

  /** A run extended by one step. */
  lemma Extend(s: State, steps: seq<Step>, mid: State, step: Step) returns (longer: seq<Step>, end: State)
    requires Runs(s, steps) && After(s, steps) == mid && Enabled(mid, step)
    ensures Runs(s, longer) && After(s, longer) == end == Apply(mid, step)
  {
    longer, end := steps + [step], Apply(mid, step);
    assert longer[..|steps|] == steps;
  }

  function Started(cfg: S.Config): S.State { S.Init(cfg).(running := true, worker := S.Waiting) }

  /** The probe has been handed to the executor of a server whose scheduler has just been started. */
  lemma ProbeIsQueued(capacity: nat, threads: nat, cfg: S.Config) returns (steps: seq<Step>, s: State)
    ensures Runs(Init(capacity, threads, cfg), steps) && After(Init(capacity, threads, cfg), steps) == s
    ensures s == Init(capacity, threads, cfg).(jobs := map[Probe := Queued], sched := Started(cfg))
  {
    var init := Init(capacity, threads, cfg);
    steps, s := Extend(init, [], init, CreateRuntime);
    steps, s := Extend(init, steps, s, SubmitProbe);
  }

  /** A thread takes the probe up. */
  lemma ProbeStarts(init: State, steps0: seq<Step>, s0: State) returns (steps: seq<Step>, s: State)
    requires Runs(init, steps0) && After(init, steps0) == s0
    requires s0.jobs == map[Probe := Queued] && s0.threads >= 1
    ensures Runs(init, steps) && After(init, steps) == s == s0.(jobs := map[Probe := Pending])
  {
    assert Busy(s0.jobs) == {};
    steps, s := Extend(init, steps0, s0, JobStarts(Probe));
  }

  lemma ProbePushes(init: State, steps0: seq<Step>, s0: State, x: T.Row) returns (steps: seq<Step>, s: State)
    requires Runs(init, steps0) && After(init, steps0) == s0 && s0.owners == []
    requires s0.jobs == map[Probe := Pending] && !s0.sched.stopRequested && s0.sched.accepted == []
    ensures Runs(init, steps) && After(init, steps) == s
    ensures s == s0.(owners := [Probe], jobs := map[Probe := Waiting(0)],
                     sched := S.Apply(s0.sched, S.Submit(0, x, 0)))
  {
    steps, s := Extend(init, steps0, s0, JobPushes(Probe, S.Submit(0, x, 0)));
  }

  /** A run of the scheduler extended by a step of its own. */
  lemma ExtendInternal(s: S.State, steps: seq<S.Step>, mid: S.State, step: S.Step)
    returns (longer: seq<S.Step>, end: S.State)
    requires S.Runs(s, steps) && S.After(s, steps) == mid && S.Enabled(mid, step)
    requires Internal(step) && forall i :: 0 <= i < |steps| ==> Internal(steps[i])
    ensures S.Runs(s, longer) && S.After(s, longer) == end == S.Apply(mid, step)
    ensures forall i :: 0 <= i < |longer| ==> Internal(longer[i])
  {
    longer, end := steps + [step], S.Apply(mid, step);
    assert longer[..|steps|] == steps;
  }

  /** The worker takes the one queued request and hands it to the engine. */
  lemma OneIsTaken(s0: S.State, r: S.Request) returns (steps: seq<S.Step>, s: S.State)
    requires s0.worker.Waiting? && s0.queue == [r] && s0.cfg.maxBatch >= 1 && S.WellSized(s0.cfg, r)
    ensures S.Runs(s0, steps) && S.After(s0, steps) == s
    ensures forall i :: 0 <= i < |steps| ==> Internal(steps[i])
    ensures s.worker == S.Computing([r]) && s.cfg == s0.cfg
  {
    steps, s := ExtendInternal(s0, [], s0, S.WakeWithWork);
    steps, s := ExtendInternal(s0, steps, s, S.Drain);
    assert s.worker == S.Filtering([r], 0, []);
    steps, s := ExtendInternal(s0, steps, s, S.FilterOne);
    assert s.worker == S.Filtering([r], 1, [r]);
    steps, s := ExtendInternal(s0, steps, s, S.FilterDone(0));
  }

  /** The call returns `out` and the request is answered with it. */
  lemma OneIsServed(s0: S.State, r: S.Request, out: T.Row) returns (steps: seq<S.Step>, s: S.State)
    requires s0.worker.Waiting? && s0.queue == [r] && s0.cfg.maxBatch >= 1 && S.WellSized(s0.cfg, r)
    requires |out| == s0.cfg.outputElems
    ensures S.Runs(s0, steps) && S.After(s0, steps) == s
    ensures forall i :: 0 <= i < |steps| ==> Internal(steps[i])
    ensures s.cfg == s0.cfg && r.ticket in s.promises && s.promises[r.ticket] == S.Value(r.id, out)
  {
    steps, s := OneIsTaken(s0, r);
    steps, s := ExtendInternal(s0, steps, s, S.EngineReturns(out, 0));
    assert s.worker == S.Delivering([r], out, 0);
    steps, s := ExtendInternal(s0, steps, s, S.DeliverOne);
  }

  /** Steps of the scheduler's own are steps of the server. */
  lemma {:induction false} SchedulerRuns(init: State, steps0: seq<Step>, s0: State, inner: seq<S.Step>)
    returns (steps: seq<Step>)
    requires Runs(init, steps0) && After(init, steps0) == s0 && S.Runs(s0.sched, inner)
    requires forall i :: 0 <= i < |inner| ==> Internal(inner[i])
    ensures Runs(init, steps) && After(init, steps) == s0.(sched := S.After(s0.sched, inner))
    decreases |inner|
  {
    if inner == [] {
      steps := steps0;
    } else {
      var n := |inner| - 1;
      steps := SchedulerRuns(init, steps0, s0, inner[..n]);
      var end: State;
      steps, end := Extend(init, steps, After(init, steps), SchedulerStep(inner[n]));
    }
  }

  /** The probe returns and the server is ready. */
  lemma ProbeReturns(init: State, steps0: seq<Step>, s0: State) returns (steps: seq<Step>)
    requires Runs(init, steps0) && After(init, steps0) == s0 && s0.life.Starting?
    requires s0.jobs == map[Probe := Waiting(0)] && s0.owners == [Probe] && 0 in s0.sched.promises
    requires s0.sched.promises[0].Value? && |s0.sched.promises[0].logits| == s0.sched.cfg.outputElems
    ensures Runs(init, steps) && After(init, steps).life.Serving?
  {
    var s: State;
    steps, s := Extend(init, steps0, s0, JobReturns(Probe));
    assert s.owners[0] == Probe;
    steps, s := Extend(init, steps, s, BecomeReady);
  }

  lemma ProbeIsAnswered(init: State, steps0: seq<Step>, s0: State, cfg: S.Config)
    returns (steps: seq<Step>, s: State)
    requires cfg.maxBatch >= 1 && Runs(init, steps0) && After(init, steps0) == s0
    requires s0.sched == S.Apply(Started(cfg), S.Submit(0, T.Zeros(cfg.inputElems), 0))
    ensures Runs(init, steps) && After(init, steps) == s == s0.(sched := s.sched)
    ensures s.sched.cfg == cfg && 0 in s.sched.promises
    ensures s.sched.promises[0] == S.Value(0, T.Zeros(cfg.outputElems))
  {
    var r := S.Request(0, 0, T.Zeros(cfg.inputElems), 0);
    assert s0.sched.queue == [r];
    var inner, end := OneIsServed(s0.sched, r, T.Zeros(cfg.outputElems));
    steps := SchedulerRuns(init, steps0, s0, inner);
    s := After(init, steps);
  }

  lemma ReadyIsReachable(capacity: nat, threads: nat, cfg: S.Config) returns (steps: seq<Step>)
    requires cfg.maxBatch >= 1 && threads >= 1
    ensures Runs(Init(capacity, threads, cfg), steps) && After(Init(capacity, threads, cfg), steps).life.Serving?
  {
    var init := Init(capacity, threads, cfg);
    var s: State;
    steps, s := ProbeIsQueued(capacity, threads, cfg);
    steps, s := ProbeStarts(init, steps, s);
    steps, s := ProbePushes(init, steps, s, T.Zeros(cfg.inputElems));
    steps, s := ProbeIsAnswered(init, steps, s, cfg);
    steps := ProbeReturns(init, steps, s);
  }

  lemma NeverReadyWithoutThreads(capacity: nat, cfg: S.Config, steps: seq<Step>)
    requires cfg.maxBatch >= 1 && Runs(Init(capacity, 0, cfg), steps)
    ensures !After(Init(capacity, 0, cfg), steps).life.Serving?
  {
    ReadyMeansProbed(capacity, 0, cfg, steps);
    NothingStarts(capacity, cfg, steps);
  }

  ghost predicate CanBecomeReady(init: State) {
    exists steps {:trigger Runs(init, steps)} :: Runs(init, steps) && After(init, steps).life.Serving?
  }

  /** The server can become ready if and only if its executor has a thread. */
  lemma ReadyIsReachableIff(capacity: nat, threads: nat, cfg: S.Config)
    requires cfg.maxBatch >= 1
    ensures CanBecomeReady(Init(capacity, threads, cfg)) <==> threads >= 1
  {
    var init := Init(capacity, threads, cfg);
    if threads >= 1 {
      var steps := ReadyIsReachable(capacity, threads, cfg);
      assert Runs(init, steps);
    } else if CanBecomeReady(init) {
      var steps :| Runs(init, steps) && After(init, steps).life.Serving?;
      NeverReadyWithoutThreads(capacity, cfg, steps);
    }
  }
}
