/** Shutdown can begin at any time, is never stuck and ends. */
module LifecycleShutdown {
  import opened Basics
  import opened Lifecycle
  import opened LifecycleSafety
  import opened LifecycleProgress
  import A = Admission
  import S = Scheduler
  import Safety = SchedulerSafety
  import Theorems = SchedulerTheorems

  /** The steps of stop_runtime(). */
  predicate IsStop(step: Step) {
    step.CloseAdmission? || step.ObserveDrained? || step.JoinProbe? || step.StopNothing? || step.StopClear? ||
    step.StopShutdown? || step.StopJoin?
  }

  function StopSteps(steps: seq<Step>): nat {
    if steps == [] then 0
    else StopSteps(steps[..|steps| - 1]) + if IsStop(steps[|steps| - 1]) then 1 else 0
  }

  /** How many steps of stop_runtime() are still to come. */
  function StopsLeft(life: Life, stopper: S.Stopper): nat {
    match life
    case Starting => 7
    case Serving => 7
    case Closing => 6
    case Drained => 5
    case Quiet => 4
    case Stopping => if stopper.Cleared? then 2 else 1
    case Stopped => 0
  }

  /** stop() has been begun exactly when the sequence has come that far. */
  ghost predicate Begun(life: Life, stopper: S.Stopper) {
    && (life.Stopping? ==> stopper.Cleared? || stopper.ShutDown?)
    && (!stopper.NotStopping? ==> life.Stopping? || life.Stopped?)
  }

  lemma LifeStays(s: State, step: Step)
    requires Enabled(s, step) && !IsStop(step)
    ensures Apply(s, step).life == s.life || (s.life.Starting? && Apply(s, step).life.Serving?)
  {
  }

  lemma StopperMoves(s: S.State, step: S.Step)
    requires S.Enabled(s, step) && !step.ClearRunning? && !step.RequestShutdown? && !step.Join?
    ensures S.Apply(s, step).stopper == s.stopper
  {
  }

  lemma PartIsNoStop(s: State, step: Step)
    requires Enabled(s, step) && !IsStop(step) && SchedulerPart(step).Some?
    ensures var p := SchedulerPart(step).value; !p.ClearRunning? && !p.RequestShutdown? && !p.Join?
  {
  }

  lemma StopperStays(s: State, step: Step)
    requires Enabled(s, step) && !IsStop(step)
    ensures Apply(s, step).sched.stopper == s.sched.stopper
  {
    SchedulerMoves(s, step);
    if SchedulerPart(step).Some? {
      PartIsNoStop(s, step);
      StopperMoves(s.sched, SchedulerPart(step).value);
    }
  }

  lemma StopStep(s: State, step: Step)
    requires Begun(s.life, s.sched.stopper) && Enabled(s, step) && IsStop(step)
    ensures var s' := Apply(s, step);
      && Begun(s'.life, s'.sched.stopper)
      && StopsLeft(s'.life, s'.sched.stopper) < StopsLeft(s.life, s.sched.stopper)
  {
  }

  lemma BegunStep(s: State, step: Step)
    requires Begun(s.life, s.sched.stopper) && Enabled(s, step)
    ensures var s' := Apply(s, step);
      && Begun(s'.life, s'.sched.stopper)
      && StopsLeft(s'.life, s'.sched.stopper) + (if IsStop(step) then 1 else 0) <= StopsLeft(s.life, s.sched.stopper)
  {
    if IsStop(step) {
      StopStep(s, step);
    } else {
      LifeStays(s, step);
      StopperStays(s, step);
    }
  }

  lemma {:induction false} BegunRun(s: State, steps: seq<Step>)
    requires Begun(s.life, s.sched.stopper) && Runs(s, steps)
    ensures var s' := After(s, steps);
      && Begun(s'.life, s'.sched.stopper)
      && StopsLeft(s'.life, s'.sched.stopper) + StopSteps(steps) <= StopsLeft(s.life, s.sched.stopper)
    decreases |steps|
  {
    if steps != [] {
      var n := |steps| - 1;
      BegunRun(s, steps[..n]);
      BegunStep(After(s, steps[..n]), steps[n]);
    }
  }

  /** Some step of a request, a job, the worker or stop_runtime() can be taken. */
  ghost predicate CanGoOn(s: State) { exists step :: (IsProgress(step) || IsStop(step)) && Enabled(s, step) }

  lemma ProbeCanGoOn(s: State)
    requires Safety.Inv(s.sched) && Grounded(s) && s.threads >= 1 && s.life.Drained?
    ensures CanGoOn(s)
  {
    if Probe !in s.jobs || s.jobs[Probe].Finished? {
      assert IsStop(JoinProbe) && Enabled(s, JoinProbe);
    } else if s.jobs[Probe].Queued? {
      QueuedMoves(s, Probe);
    } else {
      BusyMoves(s, Probe);
    }
  }

  lemma WorkerCanGoOn(s: State)
    requires exists step :: Theorems.IsWorkerStep(step) && S.Enabled(s.sched, step)
    ensures CanGoOn(s)
  {
    var step :| Theorems.IsWorkerStep(step) && S.Enabled(s.sched, step);
    assert IsProgress(SchedulerStep(step)) && Enabled(s, SchedulerStep(step));
  }

  lemma StopCanGoOn(s: State)
    requires Safety.Shape(s.sched.cfg, s.sched.worker) && Safety.Flags(s.sched)
    requires Begun(s.life, s.sched.stopper) && s.life.Stopping?
    ensures CanGoOn(s)
  {
    if s.sched.stopper.Cleared? {
      assert IsStop(StopShutdown) && Enabled(s, StopShutdown);
    } else if s.sched.worker.Exited? || s.sched.worker.NotStarted? {
      assert IsStop(StopJoin) && Enabled(s, StopJoin);
    } else {
      Theorems.WorkerMoves(s.sched);
      WorkerCanGoOn(s);
    }
  }

  lemma QuietCanGoOn(s: State)
    requires Begun(s.life, s.sched.stopper) && s.life.Quiet?
    ensures CanGoOn(s)
  {
    var step := if s.sched.worker.NotStarted? then StopNothing else StopClear;
    assert IsStop(step) && Enabled(s, step);
  }

  lemma ClosingCanGoOn(s: State)
    requires A.Inv(s.adm) && AllTied(s) && Safety.Inv(s.sched) && Grounded(s) && s.threads >= 1 && s.life.Closing?
    ensures CanGoOn(s)
  {
    if s.adm.inflight == 0 {
      assert IsStop(ObserveDrained) && Enabled(s, ObserveDrained);
    } else {
      assert s.adm.inflight > 0;
      NeverStuck(s);
    }
  }

  lemma ShutdownCanGoOn(s: State)
    requires Inv(s) && Grounded(s) && s.threads >= 1 && Begun(s.life, s.sched.stopper) && !s.life.Stopped?
    ensures CanGoOn(s)
  {
    match s.life
    case Starting => assert IsStop(CloseAdmission) && Enabled(s, CloseAdmission);
    case Serving => assert IsStop(CloseAdmission) && Enabled(s, CloseAdmission);
    case Closing => ClosingCanGoOn(s);
    case Drained => ProbeCanGoOn(s);
    case Quiet => QuietCanGoOn(s);
    case Stopping => StopCanGoOn(s);
  }

  lemma StillGoesOn(s: State, more: seq<Step>)
    requires Inv(s) && Grounded(s) && s.threads >= 1 && Begun(s.life, s.sched.stopper)
    requires Runs(s, more) && !After(s, more).life.Stopped?
    ensures CanGoOn(After(s, more))
  {
    InvRun(s, more);
    GroundedRun(s, more);
    BegunRun(s, more);
    ShutdownCanGoOn(After(s, more));
  }

  lemma ReachedGrounded(capacity: nat, threads: nat, cfg: S.Config, steps: seq<Step>)
    requires cfg.maxBatch >= 1 && Runs(Init(capacity, threads, cfg), steps)
    ensures var s := After(Init(capacity, threads, cfg), steps);
            Inv(s) && Grounded(s) && s.threads == threads && Begun(s.life, s.sched.stopper)
  {
    BegunRun(Init(capacity, threads, cfg), steps);
    InvInit(capacity, threads, cfg);
    InvRun(Init(capacity, threads, cfg), steps);
    GroundedRun(Init(capacity, threads, cfg), steps);
  }

  /** Shutdown can begin in every state the server reaches, and from then on, in every continuation, the
      requests, their jobs and the worker take at most `Work` more steps, stop_runtime() at most six, and
      until the server has stopped one of these can be taken: it stops, provided possible steps are taken. */
  lemma ShutdownEnds(capacity: nat, threads: nat, cfg: S.Config, steps: seq<Step>, more: seq<Step>)
    requires cfg.maxBatch >= 1 && threads >= 1 && Runs(Init(capacity, threads, cfg), steps)
    requires Runs(After(Init(capacity, threads, cfg), steps), more)
    ensures var s := After(Init(capacity, threads, cfg), steps);
      && (!IsClosing(s.life) ==> Enabled(s, CloseAdmission) && IsClosing(Apply(s, CloseAdmission).life))
      && (IsClosing(s.life) ==> ProgressSteps(more) <= Work(s) && StopSteps(more) <= 6)
      && (!After(s, more).life.Stopped? ==> CanGoOn(After(s, more)))
  {
    var s := After(Init(capacity, threads, cfg), steps);
    ReachedGrounded(capacity, threads, cfg, steps);
    BegunRun(s, more);
    if IsClosing(s.life) {
      DrainingEnds(capacity, threads, cfg, steps, more);
    }
    if !After(s, more).life.Stopped? {
      StillGoesOn(s, more);
    }
  }
}
