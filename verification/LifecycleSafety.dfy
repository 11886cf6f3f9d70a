/** What every run of the whole server keeps. */
module LifecycleSafety {
  import opened Basics
  import opened Lifecycle
  import A = Admission
  import M = Middleware
  import S = Scheduler
  import Safety = SchedulerSafety
  import Theorems = SchedulerTheorems

  // ---- permits and scheduler ----

  /** The admission step a server step takes, if any. */
  function AdmissionPart(step: Step): Option<A.Step> {
    match step
    case Admit(l) => Some(A.Acquire(l))
    case AttachJob(l) => Some(A.Attach(l))
    case FinishCall(l) => Some(A.Finish(l))
    case WorkCallback(l) => Some(A.CompleteWork(l))
    case GiveBack(l) => Some(A.Decrement(l))
    case CloseOnFailure => Some(A.Close)
    case CloseAdmission => Some(A.Close)
    case _ => None
  }

  lemma AdmissionProjects(s: State, step: Step)
    requires Enabled(s, step)
    ensures var p := AdmissionPart(step);
            if p.None? then Apply(s, step).adm == s.adm
            else A.Enabled(s.adm, p.value) && Apply(s, step).adm == A.Apply(s.adm, p.value)
  {
  }

  lemma AdmissionStep(s: State, step: Step)
    requires A.Inv(s.adm) && Enabled(s, step)
    ensures A.Inv(Apply(s, step).adm)
    ensures s.adm.closed ==> Apply(s, step).adm.closed && Apply(s, step).adm.inflight <= s.adm.inflight
    ensures Apply(s, step).adm.capacity == s.adm.capacity
  {
    AdmissionProjects(s, step);
    if AdmissionPart(step).Some? {
      AdmissionMoves(s.adm, AdmissionPart(step).value);
    }
  }

  lemma AdmissionMoves(a: A.State, step: A.Step)
    requires A.Inv(a) && A.Enabled(a, step)
    ensures A.Inv(A.Apply(a, step)) && A.Apply(a, step).capacity == a.capacity
    ensures a.closed ==> A.Apply(a, step).closed && A.Apply(a, step).inflight <= a.inflight
  {
    A.InvStep(a, step);
  }

  /** The scheduler step a server step takes, if any. */
  function SchedulerPart(step: Step): Option<S.Step> {
    match step
    case JobPushes(_, push) => Some(push)
    case SchedulerStep(step) => Some(step)
    case CreateRuntime => Some(S.Start)
    case StopClear => Some(S.ClearRunning)
    case StopShutdown => Some(S.RequestShutdown)
    case StopJoin => Some(S.Join)
    case _ => None
  }

  lemma SchedulerMoves(s: State, step: Step)
    requires Enabled(s, step)
    ensures var p := SchedulerPart(step);
            if p.None? then Apply(s, step).sched == s.sched
            else S.Enabled(s.sched, p.value) && Apply(s, step).sched == S.Apply(s.sched, p.value)
  {
  }

  lemma SchedulerInvStep(s: State, step: Step)
    requires Safety.Inv(s.sched) && Enabled(s, step)
    ensures Safety.Inv(Apply(s, step).sched)
  {
    SchedulerMoves(s, step);
    if SchedulerPart(step).Some? {
      Safety.InvStep(s.sched, SchedulerPart(step).value);
    }
  }

  // ---- calls, leases and jobs ----

  lemma TiedFresh()
    ensures Tied(M.FreshCall, A.FreshLease, None)
  {
  }

  lemma TiedCallStep(c: M.Call, m: M.Step, x: A.Lease, j: Option<Job>)
    requires Tied(c, x, j) && M.Enabled(c, m) && !m.SubmitWork? && !m.AttachWork? && !m.FinishHttp?
    ensures Tied(M.Apply(c, m), x, j)
  {
    M.CallStep(c, m);
  }

  lemma TiedWhenSubmitting(c: M.Call, x: A.Lease, j: Option<Job>)
    requires Tied(c, x, j) && c.app == M.Running(M.BeforeSubmit)
    ensures Tied(M.Apply(c, M.SubmitWork), x, Some(Queued))
  {
    M.CallStep(c, M.SubmitWork);
  }

  lemma TiedWhenAttaching(c: M.Call, x: A.Lease, j: Option<Job>)
    requires Tied(c, x, j) && A.LeaseInv(x) && c.app == M.Running(M.Submitted)
    ensures Tied(M.Apply(c, M.AttachWork), A.AttachWork(x), j)
  {
    M.CallStep(c, M.AttachWork);
  }

  lemma TiedWhenFinishing(c: M.Call, x: A.Lease, j: Option<Job>)
    requires Tied(c, x, j) && A.LeaseInv(x) && M.Enabled(c, M.FinishHttp)
    ensures Tied(M.Apply(c, M.FinishHttp), A.FinishHttp(x).0, j)
  {
    M.CallStep(c, M.FinishHttp);
  }

  lemma TiedWhenWorkEnds(c: M.Call, x: A.Lease, j: Option<Job>)
    requires Tied(c, x, j) && A.LeaseInv(x) && x.work && j == Some(Finished)
    ensures Tied(c, A.WorkDone(x).0, j)
  {
  }

  lemma TiedWhenJobMoves(c: M.Call, x: A.Lease, j: Option<Job>, v: Job)
    requires Tied(c, x, j) && j.Some? && !j.value.Finished?
    ensures Tied(c, x, Some(v))
  {
  }

  /** Only request `l` is touched, and it stays tied. */
  lemma TiedUpdate(s: State, s': State, l: nat, c: M.Call, x: A.Lease)
    requires AllTied(s)
    requires s'.calls == s.calls[l := c] && s'.adm.leases == s.adm.leases[l := x]
    requires forall o: Owner :: o != Request(l) && o.Request? ==> JobOf(s'.jobs, o) == JobOf(s.jobs, o)
    requires Tied(c, x, JobOf(s'.jobs, Request(l)))
    ensures AllTied(s')
  {
    forall m | m in s'.calls ensures Tied(s'.calls[m], s'.adm.leases[m], JobOf(s'.jobs, Request(m))) {
      if m != l {
        assert JobOf(s'.jobs, Request(m)) == JobOf(s.jobs, Request(m));
      }
    }
    forall m | Request(m) in s'.jobs ensures m in s'.calls {
      if m != l {
        assert JobOf(s'.jobs, Request(m)) == JobOf(s.jobs, Request(m));
      }
    }
  }

  /** No request is touched. */
  lemma TiedKept(s: State, s': State)
    requires AllTied(s) && s'.calls == s.calls && s'.adm.leases == s.adm.leases
    requires forall o: Owner :: o.Request? ==> JobOf(s'.jobs, o) == JobOf(s.jobs, o)
    ensures AllTied(s')
  {
    forall m | m in s'.calls ensures Tied(s'.calls[m], s'.adm.leases[m], JobOf(s'.jobs, Request(m))) {
      assert JobOf(s'.jobs, Request(m)) == JobOf(s.jobs, Request(m));
    }
    forall m | Request(m) in s'.jobs ensures m in s'.calls {
      assert JobOf(s'.jobs, Request(m)) == JobOf(s.jobs, Request(m));
    }
  }

  /** A job that was not finished moves on. */
  lemma TiedJobMoves(s: State, s': State, o: Owner, j: Job)
    requires AllTied(s) && s'.calls == s.calls && s'.adm == s.adm
    requires o in s.jobs && !s.jobs[o].Finished? && s'.jobs == s.jobs[o := j]
    ensures AllTied(s')
  {
    match o
    case Probe => TiedKept(s, s');
    case Request(l) =>
      TiedWhenJobMoves(s.calls[l], s.adm.leases[l], Some(s.jobs[o]), j);
      assert s.calls[l := s.calls[l]] == s.calls && s.adm.leases[l := s.adm.leases[l]] == s.adm.leases;
      TiedUpdate(s, s', l, s.calls[l], s.adm.leases[l]);
  }

  lemma TiedAdmit(s: State, l: nat)
    requires AllTied(s) && Enabled(s, Admit(l))
    ensures AllTied(Apply(s, Admit(l)))
  {
    var s' := Apply(s, Admit(l));
    if l in s'.adm.leases {
      assert Request(l) !in s.jobs;
      TiedFresh();
      TiedUpdate(s, s', l, M.FreshCall, A.FreshLease);
    }
  }

  lemma TiedRequest(s: State, s': State, l: nat)
    requires AllTied(s) && l in s.calls && l in s'.calls && l in s'.adm.leases
    requires s'.calls == s.calls[l := s'.calls[l]] && s'.adm.leases == s.adm.leases[l := s'.adm.leases[l]]
    requires s'.jobs == s.jobs || s'.jobs == s.jobs[Request(l) := Queued]
    requires Tied(s'.calls[l], s'.adm.leases[l], JobOf(s'.jobs, Request(l)))
    ensures AllTied(s')
  {
    TiedUpdate(s, s', l, s'.calls[l], s'.adm.leases[l]);
  }

  lemma TiedCall(s: State, l: nat, m: M.Step)
    requires AllTied(s) && Enabled(s, CallStep(l, m))
    ensures AllTied(Apply(s, CallStep(l, m)))
  {
    TiedCallStep(s.calls[l], m, s.adm.leases[l], JobOf(s.jobs, Request(l)));
    TiedRequest(s, Apply(s, CallStep(l, m)), l);
  }

  lemma TiedSubmit(s: State, l: nat)
    requires AllTied(s) && Enabled(s, SubmitJob(l))
    ensures AllTied(Apply(s, SubmitJob(l)))
  {
    TiedWhenSubmitting(s.calls[l], s.adm.leases[l], JobOf(s.jobs, Request(l)));
    TiedRequest(s, Apply(s, SubmitJob(l)), l);
  }

  lemma AttachEffect(s: State, l: nat)
    requires Enabled(s, AttachJob(l))
    ensures l in s.calls && s.calls[l].app == M.Running(M.Submitted) && l in s.adm.leases
    ensures var s' := Apply(s, AttachJob(l));
      && s'.calls == s.calls[l := M.Apply(s.calls[l], M.AttachWork)]
      && s'.adm.leases == s.adm.leases[l := A.AttachWork(s.adm.leases[l])] && s'.jobs == s.jobs
  {
  }

  lemma TiedAttach(s: State, l: nat)
    requires AllTied(s) && A.Inv(s.adm) && Enabled(s, AttachJob(l))
    ensures AllTied(Apply(s, AttachJob(l)))
  {
    AttachEffect(s, l);
    TiedWhenAttaching(s.calls[l], s.adm.leases[l], JobOf(s.jobs, Request(l)));
    TiedRequest(s, Apply(s, AttachJob(l)), l);
  }

  lemma FinishEffect(s: State, l: nat)
    requires Enabled(s, FinishCall(l))
    ensures l in s.calls && M.Enabled(s.calls[l], M.FinishHttp) && l in s.adm.leases
    ensures var s' := Apply(s, FinishCall(l));
      && s'.calls == s.calls[l := M.Apply(s.calls[l], M.FinishHttp)]
      && s'.adm.leases == s.adm.leases[l := A.FinishHttp(s.adm.leases[l]).0] && s'.jobs == s.jobs
  {
  }

  lemma TiedFinish(s: State, l: nat)
    requires AllTied(s) && A.Inv(s.adm) && Enabled(s, FinishCall(l))
    ensures AllTied(Apply(s, FinishCall(l)))
  {
    FinishEffect(s, l);
    TiedWhenFinishing(s.calls[l], s.adm.leases[l], JobOf(s.jobs, Request(l)));
    TiedRequest(s, Apply(s, FinishCall(l)), l);
  }

  lemma TiedCallback(s: State, l: nat)
    requires AllTied(s) && A.Inv(s.adm) && Enabled(s, WorkCallback(l))
    ensures AllTied(Apply(s, WorkCallback(l)))
  {
    assert l in s.calls;
    TiedWhenWorkEnds(s.calls[l], s.adm.leases[l], JobOf(s.jobs, Request(l)));
    TiedRequest(s, Apply(s, WorkCallback(l)), l);
  }

  lemma TiedJob(s: State, step: Step)
    requires AllTied(s) && Enabled(s, step)
    requires step.JobStarts? || step.JobRaises? || step.JobPushes? || step.JobReturns?
    ensures AllTied(Apply(s, step))
  {
    var s' := Apply(s, step);
    TiedJobMoves(s, s', step.o, s'.jobs[step.o]);
  }

  lemma TiedOther(s: State, step: Step)
    requires AllTied(s) && Enabled(s, step)
    requires !step.Admit? && !step.CallStep? && !step.SubmitJob? && !step.AttachJob? && !step.FinishCall? &&
             !step.WorkCallback? && !step.JobStarts? && !step.JobRaises? && !step.JobPushes? && !step.JobReturns?
    ensures AllTied(Apply(s, step))
  {
    TiedKept(s, Apply(s, step));
  }

  lemma TiedStep(s: State, step: Step)
    requires AllTied(s) && A.Inv(s.adm) && Enabled(s, step)
    ensures AllTied(Apply(s, step))
  {
    if step.JobStarts? || step.JobRaises? || step.JobPushes? || step.JobReturns? {
      TiedJob(s, step);
    } else if step.Admit? || step.CallStep? || step.SubmitJob? {
      TiedBeforeAttach(s, step);
    } else if step.AttachJob? || step.FinishCall? || step.WorkCallback? {
      TiedFromAttach(s, step);
    } else {
      TiedOther(s, step);
    }
  }

  lemma TiedBeforeAttach(s: State, step: Step)
    requires AllTied(s) && Enabled(s, step) && (step.Admit? || step.CallStep? || step.SubmitJob?)
    ensures AllTied(Apply(s, step))
  {
    match step
    case Admit(l) => TiedAdmit(s, l);
    case CallStep(l, m) => TiedCall(s, l, m);
    case SubmitJob(l) => TiedSubmit(s, l);
  }

  lemma TiedFromAttach(s: State, step: Step)
    requires AllTied(s) && A.Inv(s.adm) && Enabled(s, step)
    requires step.AttachJob? || step.FinishCall? || step.WorkCallback?
    ensures AllTied(Apply(s, step))
  {
    if step.AttachJob? {
      TiedAttach(s, step.l);
    } else if step.FinishCall? {
      TiedFinish(s, step.l);
    } else {
      TiedCallback(s, step.l);
    }
  }

  // ---- accepted pushes and the jobs waiting for them ----

  lemma OwnedJobs(s: State, step: Step)
    requires Owned(s) && AllTied(s) && Enabled(s, step)
    requires step.SubmitJob? || step.SubmitProbe? || step.JobStarts? || step.JobRaises? || step.JobReturns?
    ensures Owned(Apply(s, step))
  {
    var s' := Apply(s, step);
    forall t | 0 <= t < |s'.owners| ensures t in s'.sched.promises || JobOf(s'.jobs, s'.owners[t]) == Some(Waiting(t)) {
      assert t in s.sched.promises || JobOf(s.jobs, s.owners[t]) == Some(Waiting(t));
    }
  }

  lemma OwnedPush(s: State, o: Owner, push: S.Step)
    requires Owned(s) && Enabled(s, JobPushes(o, push))
    ensures Owned(Apply(s, JobPushes(o, push)))
  {
    var s' := Apply(s, JobPushes(o, push));
    forall t | 0 <= t < |s'.owners| ensures t in s'.sched.promises || JobOf(s'.jobs, s'.owners[t]) == Some(Waiting(t)) {
      if t < |s.owners| {
        assert t in s.sched.promises || JobOf(s.jobs, s.owners[t]) == Some(Waiting(t));
      }
    }
  }

  lemma AcceptedKept(s: S.State, step: S.Step)
    requires S.Enabled(s, step) && !step.Submit?
    ensures S.Apply(s, step).accepted == s.accepted
  {
  }

  lemma OwnedScheduler(s: State, step: Step)
    requires Owned(s) && Safety.Inv(s.sched) && Enabled(s, step)
    requires SchedulerPart(step).Some? && !step.JobPushes?
    ensures Owned(Apply(s, step))
  {
    var p := SchedulerPart(step).value;
    SchedulerMoves(s, step);
    Theorems.KeptStep(s.sched, p);
    AcceptedKept(s.sched, p);
    var s' := Apply(s, step);
    forall t | 0 <= t < |s'.owners| ensures t in s'.sched.promises || JobOf(s'.jobs, s'.owners[t]) == Some(Waiting(t)) {
      assert t in s.sched.promises || JobOf(s.jobs, s.owners[t]) == Some(Waiting(t));
    }
  }

  lemma OwnedOthers(s: State, step: Step)
    requires Owned(s) && Enabled(s, step) && SchedulerPart(step).None?
    requires !step.SubmitJob? && !step.SubmitProbe? && !step.JobStarts? && !step.JobRaises? && !step.JobReturns?
    ensures Owned(Apply(s, step))
  {
    var s' := Apply(s, step);
    assert s'.owners == s.owners && s'.jobs == s.jobs && s'.sched == s.sched;
  }

  lemma OwnedStep(s: State, step: Step)
    requires Owned(s) && AllTied(s) && Safety.Inv(s.sched) && Enabled(s, step)
    ensures Owned(Apply(s, step))
  {
    if step.JobPushes? {
      OwnedPush(s, step.o, step.push);
    } else if step.SubmitJob? || step.SubmitProbe? || step.JobStarts? || step.JobRaises? || step.JobReturns? {
      OwnedJobs(s, step);
    } else if SchedulerPart(step).Some? {
      OwnedScheduler(s, step);
    } else {
      OwnedOthers(s, step);
    }
  }

  // ---- the shutdown order ----

  /** With no permit in use no application task runs and no request's native work is unfinished. */
  lemma DrainedMeansIdle(s: State, l: nat)
    requires A.Inv(s.adm) && AllTied(s) && s.adm.inflight == 0 && l in s.calls
    ensures !s.calls[l].app.Running?
    ensures Request(l) in s.jobs ==> s.jobs[Request(l)].Finished?
  {
    assert s.adm.leases.Keys - s.adm.decremented == {};
    assert l in s.adm.decremented;
    assert A.Owes(s.adm, l);
    assert Tied(s.calls[l], s.adm.leases[l], JobOf(s.jobs, Request(l)));
  }

  lemma QuietMeansNoWork(s: State, o: Owner)
    requires Inv(s) && IsQuiet(s.life) && o in s.jobs
    ensures s.jobs[o].Finished?
  {
    if o.Request? {
      DrainedMeansIdle(s, o.l);
    }
  }

  lemma StopperKept(s: S.State, step: S.Step)
    requires S.Enabled(s, step) && !step.ClearRunning? && !step.RequestShutdown? && !step.Join?
    ensures S.Apply(s, step).stopper == s.stopper
  {
  }

  lemma PendingMeansOpen(s: State, o: Owner)
    requires Inv(s) && JobOf(s.jobs, o) == Some(Pending)
    ensures !s.sched.stopRequested
  {
    if IsQuiet(s.life) {
      QuietMeansNoWork(s, o);
    }
  }

  lemma NoLatePush(s: State, step: Step)
    requires s.late == 0 && Enabled(s, step) && (step.JobPushes? ==> !s.sched.stopRequested)
    ensures Apply(s, step).late == 0
  {
  }

  lemma StopperOrdered(s: State, step: Step)
    requires Ordered(s) && Enabled(s, step)
    ensures var s' := Apply(s, step); !s'.sched.stopper.NotStopping? ==> s'.life.Stopping? || s'.life.Stopped?
  {
    SchedulerMoves(s, step);
    var p := SchedulerPart(step);
    if p.Some? && (step.JobPushes? || step.SchedulerStep? || step.CreateRuntime?) {
      StopperKept(s.sched, p.value);
    }
  }

  lemma OrderedStep(s: State, step: Step)
    requires Inv(s) && Enabled(s, step)
    ensures Ordered(Apply(s, step))
  {
    AdmissionStep(s, step);
    if step.JobPushes? {
      PendingMeansOpen(s, step.o);
    }
    NoLatePush(s, step);
    StopperOrdered(s, step);
    ClosingOrdered(s, step);
  }

  lemma LifeMoves(s: State, step: Step)
    requires Ordered(s) && Enabled(s, step)
    ensures var s' := Apply(s, step);
      && (IsClosing(s'.life) ==> IsClosing(s.life) || s'.adm.closed)
      && (IsDrained(s'.life) ==> s.adm.inflight == 0 && IsClosing(s.life))
  {
  }

  lemma ProbeStaysJoined(s: State, step: Step)
    requires Ordered(s) && Enabled(s, step) && IsQuiet(Apply(s, step).life)
    ensures JobOf(Apply(s, step).jobs, Probe) == None || JobOf(Apply(s, step).jobs, Probe) == Some(Finished)
  {
  }

  lemma ClosingOrdered(s: State, step: Step)
    requires Ordered(s) && Enabled(s, step)
    requires s.adm.closed ==> Apply(s, step).adm.closed && Apply(s, step).adm.inflight <= s.adm.inflight
    requires Apply(s, step).adm.inflight >= 0
    ensures var s' := Apply(s, step);
      && (IsClosing(s'.life) ==> s'.adm.closed)
      && (IsDrained(s'.life) ==> s'.adm.inflight == 0)
      && (IsQuiet(s'.life) ==> JobOf(s'.jobs, Probe) == None || JobOf(s'.jobs, Probe) == Some(Finished))
  {
    LifeMoves(s, step);
    if IsQuiet(Apply(s, step).life) {
      ProbeStaysJoined(s, step);
    }
  }

  lemma InvStep(s: State, step: Step)
    requires Inv(s) && Enabled(s, step)
    ensures Inv(Apply(s, step))
  {
    AdmissionStep(s, step);
    SchedulerInvStep(s, step);
    TiedStep(s, step);
    OwnedStep(s, step);
    OrderedStep(s, step);
  }

  lemma InvInit(capacity: nat, threads: nat, cfg: S.Config)
    requires cfg.maxBatch >= 1
    ensures Inv(Init(capacity, threads, cfg))
  {
    Safety.InvInit(cfg);
  }

  lemma {:induction false} InvRun(s: State, steps: seq<Step>)
    requires Inv(s) && Runs(s, steps)
    ensures Inv(After(s, steps)) && After(s, steps).adm.capacity == s.adm.capacity
    decreases |steps|
  {
    if steps != [] {
      var n := |steps| - 1;
      InvRun(s, steps[..n]);
      InvStep(After(s, steps[..n]), steps[n]);
      AdmissionStep(After(s, steps[..n]), steps[n]);
    }
  }
}
