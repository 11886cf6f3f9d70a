/** The whole server: requests in the middleware, admission permits, executor jobs, the scheduler
    and the application's start-up and shutdown sequence, in every interleaving. */
module Lifecycle {
  import opened Basics
  import A = Admission
  import M = Middleware
  import S = Scheduler
  import Safety = SchedulerSafety

  /** Native work runs for the start-up probe or for an admitted request. */
  datatype Owner = Probe | Request(l: nat)

  /** A call of predict() handed to the executor: queued there, on a thread and not yet pushed, blocked
      on its future, or returned. */
  datatype Job = Queued | Pending | Waiting(ticket: nat) | Finished

  /** The lifespan: starting, serving, then stop_runtime() step by step. */
  datatype Life = Starting | Serving | Closing | Drained | Quiet | Stopping | Stopped

  /** `owners` names the job behind each accepted push; `late` counts pushes the stopped queue
      refused. Both are history. */
  datatype State = State(
    adm: A.State, sched: S.State, calls: map<nat, M.Call>, jobs: map<Owner, Job>, life: Life, threads: nat,
    owners: seq<Owner>, late: nat)

  datatype Step =
    | Admit(l: nat)
    | CallStep(l: nat, m: M.Step)
    | SubmitJob(l: nat) | AttachJob(l: nat) | FinishCall(l: nat)
    | WorkCallback(l: nat) | GiveBack(l: nat) | CloseOnFailure
    | JobStarts(o: Owner) | JobRaises(o: Owner) | JobPushes(o: Owner, push: S.Step) | JobReturns(o: Owner)
    | SchedulerStep(step: S.Step)
    | CreateRuntime | SubmitProbe | BecomeReady
    | CloseAdmission | ObserveDrained | JoinProbe
    | StopNothing | StopClear | StopShutdown | StopJoin

  function Init(capacity: nat, threads: nat, cfg: S.Config): State {
    State(A.Init(capacity), S.Init(cfg), map[], map[], Starting, threads, [], 0)
  }

  function JobOf(jobs: map<Owner, Job>, o: Owner): Option<Job> {
    if o in jobs then Some(jobs[o]) else None
  }

  /** The jobs that occupy a thread of the executor. */
  function Busy(jobs: map<Owner, Job>): set<Owner> {
    set o | o in jobs && (jobs[o].Pending? || jobs[o].Waiting?)
  }

  /** Steps of the scheduler that nobody outside its worker decides. */
  predicate Internal(step: S.Step) {
    !step.Submit? && !step.Start? && !step.ClearRunning? && !step.RequestShutdown? && !step.Join?
  }

  /** The start-up probe was answered with an output of the configured size. */
  predicate ProbeServed(s: State) {
    exists t :: 0 <= t < |s.owners| && s.owners[t] == Probe && t in s.sched.promises &&
      s.sched.promises[t].Value? && |s.sched.promises[t].logits| == s.sched.cfg.outputElems
  }

  predicate Enabled(s: State, step: Step) {
    match step
    case Admit(l) => A.Enabled(s.adm, A.Acquire(l))
    case CallStep(l, m) =>
      l in s.calls && M.Enabled(s.calls[l], m) && !m.SubmitWork? && !m.AttachWork? && !m.FinishHttp?
    case SubmitJob(l) =>
      l in s.calls && M.Enabled(s.calls[l], M.SubmitWork) && !s.sched.worker.NotStarted?
    case AttachJob(l) => l in s.calls && M.Enabled(s.calls[l], M.AttachWork) && A.Enabled(s.adm, A.Attach(l))
    case FinishCall(l) => l in s.calls && M.Enabled(s.calls[l], M.FinishHttp) && A.Enabled(s.adm, A.Finish(l))
    case WorkCallback(l) => JobOf(s.jobs, Request(l)) == Some(Finished) && A.Enabled(s.adm, A.CompleteWork(l))
    case GiveBack(l) => A.Enabled(s.adm, A.Decrement(l))
    case CloseOnFailure => true
    case JobStarts(o) => JobOf(s.jobs, o) == Some(Queued) && |Busy(s.jobs)| < s.threads
    case JobRaises(o) => JobOf(s.jobs, o) == Some(Pending)
    case JobPushes(o, push) => JobOf(s.jobs, o) == Some(Pending) && push.Submit?
    case JobReturns(o) => o in s.jobs && s.jobs[o].Waiting? && s.jobs[o].ticket in s.sched.promises
    case SchedulerStep(step) => Internal(step) && S.Enabled(s.sched, step)
    case CreateRuntime => s.life.Starting? && S.Enabled(s.sched, S.Start)
    case SubmitProbe => s.life.Starting? && Probe !in s.jobs && !s.sched.worker.NotStarted?
    case BecomeReady => s.life.Starting? && JobOf(s.jobs, Probe) == Some(Finished) && ProbeServed(s)
    case CloseAdmission => s.life.Starting? || s.life.Serving?
    case ObserveDrained => s.life.Closing? && s.adm.inflight == 0
    case JoinProbe => s.life.Drained? && (Probe in s.jobs ==> s.jobs[Probe].Finished?)
    case StopNothing => s.life.Quiet? && s.sched.worker.NotStarted?
    case StopClear => s.life.Quiet? && !s.sched.worker.NotStarted? && S.Enabled(s.sched, S.ClearRunning)
    case StopShutdown => s.life.Stopping? && S.Enabled(s.sched, S.RequestShutdown)
    case StopJoin => s.life.Stopping? && S.Enabled(s.sched, S.Join)
  }

  function Apply(s: State, step: Step): State
    requires Enabled(s, step)
  {
    match step
    case Admit(l) =>
      var adm := A.Apply(s.adm, A.Acquire(l));
      s.(adm := adm, calls := if l in adm.leases then s.calls[l := M.FreshCall] else s.calls)
    case CallStep(l, m) => s.(calls := s.calls[l := M.Apply(s.calls[l], m)])
    case SubmitJob(l) =>
      s.(calls := s.calls[l := M.Apply(s.calls[l], M.SubmitWork)], jobs := s.jobs[Request(l) := Queued])
    case AttachJob(l) =>
      s.(calls := s.calls[l := M.Apply(s.calls[l], M.AttachWork)], adm := A.Apply(s.adm, A.Attach(l)))
    case FinishCall(l) =>
      s.(calls := s.calls[l := M.Apply(s.calls[l], M.FinishHttp)], adm := A.Apply(s.adm, A.Finish(l)))
    case WorkCallback(l) => s.(adm := A.Apply(s.adm, A.CompleteWork(l)))
    case GiveBack(l) => s.(adm := A.Apply(s.adm, A.Decrement(l)))
    case CloseOnFailure => s.(adm := A.Apply(s.adm, A.Close))
    case JobStarts(o) => s.(jobs := s.jobs[o := Pending])
    case JobRaises(o) => s.(jobs := s.jobs[o := Finished])
    case JobPushes(o, push) =>
      if s.sched.stopRequested
      then s.(sched := S.Apply(s.sched, push), jobs := s.jobs[o := Finished], late := s.late + 1)
      else s.(sched := S.Apply(s.sched, push), jobs := s.jobs[o := Waiting(|s.sched.accepted|)],
              owners := s.owners + [o])
    case JobReturns(o) => s.(jobs := s.jobs[o := Finished])
    case SchedulerStep(step) => s.(sched := S.Apply(s.sched, step))
    case CreateRuntime => s.(sched := S.Apply(s.sched, S.Start))
    case SubmitProbe => s.(jobs := s.jobs[Probe := Queued])
    case BecomeReady => s.(life := Serving)
    case CloseAdmission => s.(life := Closing, adm := A.Apply(s.adm, A.Close))
    case ObserveDrained => s.(life := Drained)
    case JoinProbe => s.(life := Quiet)
    case StopNothing => s.(life := Stopped)
    case StopClear => s.(life := Stopping, sched := S.Apply(s.sched, S.ClearRunning))
    case StopShutdown => s.(sched := S.Apply(s.sched, S.RequestShutdown))
    case StopJoin => s.(life := Stopped, sched := S.Apply(s.sched, S.Join))
  }

  predicate Runs(s: State, steps: seq<Step>)
    decreases |steps|, 0
  {
    steps == [] ||
    (var n := |steps| - 1;
     Runs(s, steps[..n]) && Enabled(After(s, steps[..n]), steps[n]))
  }

  function After(s: State, steps: seq<Step>): State
    requires Runs(s, steps)
    decreases |steps|, 1
  {
    if steps == [] then s else Apply(After(s, steps[..|steps| - 1]), steps[|steps| - 1])
  }

  // ---- what every interleaving keeps ----

  /** A request's call, its lease and its job tell one story. */
  ghost predicate Tied(c: M.Call, x: A.Lease, j: Option<Job>) {
    && M.CallInv(c)
    && (x.httpFinished <==> c.pc.Done?)
    && (x.work ==> x.attachedFirst)
    && (x.workFinished ==> j == Some(Finished))
    && match c.app
       case NotCreated => j.None? && !x.work
       case Running(BeforeSubmit) => j.None? && !x.work
       case Running(Submitted) => j.Some? && !x.work
       case Running(Attached) => j.Some? && x.work
       case Ended => j.Some? <==> x.work
  }

  ghost predicate AllTied(s: State) {
    && s.calls.Keys == s.adm.leases.Keys
    && (forall l :: l in s.calls ==> Tied(s.calls[l], s.adm.leases[l], JobOf(s.jobs, Request(l))))
    && (forall l :: Request(l) in s.jobs ==> l in s.calls)
  }

  /** Every accepted push is answered or has its job waiting for it. */
  ghost predicate Owned(s: State) {
    && |s.owners| == |s.sched.accepted|
    && (forall t :: 0 <= t < |s.owners| ==>
          t in s.sched.promises || JobOf(s.jobs, s.owners[t]) == Some(Waiting(t)))
  }

  predicate IsClosing(life: Life) { !life.Starting? && !life.Serving? }
  predicate IsDrained(life: Life) { life.Drained? || IsQuiet(life) }
  predicate IsQuiet(life: Life) { life.Quiet? || life.Stopping? || life.Stopped? }

  ghost predicate Ordered(s: State) {
    && (IsClosing(s.life) ==> s.adm.closed)
    && (IsDrained(s.life) ==> s.adm.inflight == 0)
    && (IsQuiet(s.life) ==> JobOf(s.jobs, Probe) == None || JobOf(s.jobs, Probe) == Some(Finished))
    && (!s.sched.stopper.NotStopping? ==> s.life.Stopping? || s.life.Stopped?)
    && s.late == 0
  }

  ghost predicate Inv(s: State) {
    A.Inv(s.adm) && Safety.Inv(s.sched) && AllTied(s) && Owned(s) && Ordered(s)
  }
}
