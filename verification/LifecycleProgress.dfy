/** Draining does not wait for ever: once admission is closed only so many steps are left to the
    requests, their jobs and the worker, and while a permit is in use one of them can be taken. */
module LifecycleProgress {
  import opened Basics
  import opened Lifecycle
  import opened LifecycleSafety
  import A = Admission
  import M = Middleware
  import S = Scheduler
  import Safety = SchedulerSafety
  import Theorems = SchedulerTheorems

  /** Steps that carry out work already admitted: no arrivals, no administration. */
  predicate IsProgress(step: Step) {
    match step
    case CallStep(_, _) => true
    case SubmitJob(_) => true
    case AttachJob(_) => true
    case FinishCall(_) => true
    case WorkCallback(_) => true
    case GiveBack(_) => true
    case JobStarts(_) => true
    case JobRaises(_) => true
    case JobPushes(_, _) => true
    case JobReturns(_) => true
    case SchedulerStep(step) => Theorems.IsWorkerStep(step)
    case _ => false
  }

  // ---- sums over a map ----

  ghost function Sum(m: map<nat, nat>): nat {
    if m == map[] then 0 else
      var k :| k in m;
      m[k] + Sum(m - {k})
  }

  lemma {:induction false} SumAt(m: map<nat, nat>, k: nat)
    requires k in m
    ensures Sum(m) == m[k] + Sum(m - {k})
    decreases |m|
  {
    var c :| c in m && Sum(m) == m[c] + Sum(m - {c});
    if c != k {
      SumAt(m - {c}, k);
      SumAt(m - {k}, c);
      assert m - {c} - {k} == m - {k} - {c};
    }
  }

  lemma SumUpdate(m: map<nat, nat>, k: nat, v: nat)
    requires k in m
    ensures Sum(m[k := v]) == Sum(m) - m[k] + v
  {
    SumAt(m, k);
    SumAt(m[k := v], k);
    assert m[k := v] - {k} == m - {k};
  }

  // ---- what is left to do ----

  function PcRank(pc: M.Pc): nat {
    match pc
    case Reading => 23
    case Racing => 5
    case AwaitingApp(_) => 4
    case Reply504 => 3
    case Finally => 2
    case Done => 0
  }

  function AppRank(app: M.Task, appStarts: nat): nat {
    match app
    case Running(stage) =>
      (match stage case BeforeSubmit => 14 case Submitted => 4 case Attached => 1) + if appStarts == 0 then 1 else 0
    case _ => 0
  }

  function JobRank(j: Option<Job>): nat {
    match j
    case Some(Queued) => 9
    case Some(Pending) => 8
    case Some(Waiting(_)) => 1
    case _ => 0
  }

  function LeaseRank(x: A.Lease): nat { if x.work && !x.workFinished then 2 else 0 }

  function Rank(c: M.Call, x: A.Lease, j: Option<Job>): nat {
    PcRank(c.pc) + AppRank(c.app, c.appStarts) + JobRank(j) + LeaseRank(x)
  }

  function Ranks(calls: map<nat, M.Call>, leases: map<nat, A.Lease>, jobs: map<Owner, Job>): map<nat, nat> {
    map l | l in calls && l in leases :: Rank(calls[l], leases[l], JobOf(jobs, Request(l)))
  }

  /** An upper bound on the steps still to come from what has been admitted. */
  ghost function Work(s: State): int {
    Sum(Ranks(s.calls, s.adm.leases, s.jobs)) + JobRank(JobOf(s.jobs, Probe)) +
    |s.adm.pending| + Theorems.Remaining(s.sched)
  }

  lemma CallRank(c: M.Call, m: M.Step)
    requires M.Enabled(c, m) && !m.SubmitWork? && !m.AttachWork? && !m.FinishHttp? && M.CallInv(c)
    ensures var d := M.Apply(c, m);
            PcRank(d.pc) + AppRank(d.app, d.appStarts) < PcRank(c.pc) + AppRank(c.app, c.appStarts)
  {
  }

  lemma RanksUpdate(calls: map<nat, M.Call>, leases: map<nat, A.Lease>, jobs: map<Owner, Job>,
                    l: nat, c: M.Call, x: A.Lease, jobs': map<Owner, Job>)
    requires calls.Keys == leases.Keys && l in calls
    requires forall k: nat :: k != l ==> JobOf(jobs', Request(k)) == JobOf(jobs, Request(k))
    ensures Ranks(calls[l := c], leases[l := x], jobs') ==
            Ranks(calls, leases, jobs)[l := Rank(c, x, JobOf(jobs', Request(l)))]
  {
  }

  /** The rank of request `l`. */
  function RankOf(s: State, l: nat): nat
    requires l in s.calls && l in s.adm.leases
  {
    Rank(s.calls[l], s.adm.leases[l], JobOf(s.jobs, Request(l)))
  }

  /** Only request `l` is touched. */
  ghost predicate Touches(s: State, s': State, l: nat) {
    && l in s.calls && s.calls.Keys == s.adm.leases.Keys && l in s'.calls && l in s'.adm.leases
    && s'.calls == s.calls[l := s'.calls[l]] && s'.adm.leases == s.adm.leases[l := s'.adm.leases[l]]
    && (forall o: Owner :: o != Request(l) ==> JobOf(s'.jobs, o) == JobOf(s.jobs, o))
  }

  lemma SumMoves(s: State, s': State, l: nat)
    requires Touches(s, s', l)
    ensures Sum(Ranks(s'.calls, s'.adm.leases, s'.jobs)) ==
            Sum(Ranks(s.calls, s.adm.leases, s.jobs)) - RankOf(s, l) + RankOf(s', l)
  {
    RanksUpdate(s.calls, s.adm.leases, s.jobs, l, s'.calls[l], s'.adm.leases[l], s'.jobs);
    SumUpdate(Ranks(s.calls, s.adm.leases, s.jobs), l, RankOf(s', l));
  }

  /** A step of request `l` that costs less than it brings. */
  lemma WorkMoves(s: State, s': State, l: nat)
    requires Touches(s, s', l) && s'.sched == s.sched
    requires RankOf(s', l) + |s'.adm.pending| < RankOf(s, l) + |s.adm.pending|
    ensures Work(s') < Work(s)
  {
    SumMoves(s, s', l);
    assert JobOf(s'.jobs, Probe) == JobOf(s.jobs, Probe);
  }

  // ---- every progress step uses some of it up ----

  lemma WorkCallStep(s: State, l: nat, m: M.Step)
    requires AllTied(s) && Enabled(s, CallStep(l, m))
    ensures Work(Apply(s, CallStep(l, m))) < Work(s)
  {
    var s' := Apply(s, CallStep(l, m));
    assert Tied(s.calls[l], s.adm.leases[l], JobOf(s.jobs, Request(l)));
    CallRank(s.calls[l], m);
    WorkMoves(s, s', l);
  }

  lemma SubmitRank(c: M.Call, x: A.Lease, j: Option<Job>)
    requires Tied(c, x, j) && M.Enabled(c, M.SubmitWork)
    ensures Rank(M.Apply(c, M.SubmitWork), x, Some(Queued)) < Rank(c, x, j)
  {
  }

  lemma AttachRank(c: M.Call, x: A.Lease, j: Option<Job>)
    requires Tied(c, x, j) && A.LeaseInv(x) && M.Enabled(c, M.AttachWork)
    ensures Rank(M.Apply(c, M.AttachWork), A.AttachWork(x), j) < Rank(c, x, j)
  {
  }

  lemma FinishRank(c: M.Call, x: A.Lease, j: Option<Job>)
    requires M.Enabled(c, M.FinishHttp)
    ensures Rank(M.Apply(c, M.FinishHttp), A.FinishHttp(x).0, j) + 2 == Rank(c, x, j)
  {
  }

  lemma SubmitEffect(s: State, l: nat)
    requires Enabled(s, SubmitJob(l))
    ensures l in s.calls && M.Enabled(s.calls[l], M.SubmitWork)
    ensures Apply(s, SubmitJob(l)) ==
            s.(calls := s.calls[l := M.Apply(s.calls[l], M.SubmitWork)], jobs := s.jobs[Request(l) := Queued])
  {
  }

  lemma WorkSubmit(s: State, l: nat)
    requires AllTied(s) && Enabled(s, SubmitJob(l))
    ensures Work(Apply(s, SubmitJob(l))) < Work(s)
  {
    SubmitEffect(s, l);
    SubmitRank(s.calls[l], s.adm.leases[l], JobOf(s.jobs, Request(l)));
    WorkMoves(s, Apply(s, SubmitJob(l)), l);
  }

  lemma AttachCost(s: State, l: nat)
    requires Enabled(s, AttachJob(l))
    ensures M.Enabled(s.calls[l], M.AttachWork)
    ensures Apply(s, AttachJob(l)).adm.pending == s.adm.pending && Apply(s, AttachJob(l)).sched == s.sched
  {
  }

  lemma WorkAttach(s: State, l: nat)
    requires AllTied(s) && A.Inv(s.adm) && Enabled(s, AttachJob(l))
    ensures Work(Apply(s, AttachJob(l))) < Work(s)
  {
    AttachEffect(s, l);
    AttachCost(s, l);
    AttachRank(s.calls[l], s.adm.leases[l], JobOf(s.jobs, Request(l)));
    WorkMoves(s, Apply(s, AttachJob(l)), l);
  }

  lemma PendCost(a: A.State, l: nat, r: (A.Lease, bool))
    ensures |A.Pend(a, l, r).pending| <= |a.pending| + 1
  {
  }

  lemma FinishCost(s: State, l: nat)
    requires Enabled(s, FinishCall(l))
    ensures |Apply(s, FinishCall(l)).adm.pending| <= |s.adm.pending| + 1 && Apply(s, FinishCall(l)).sched == s.sched
  {
    PendCost(s.adm, l, A.FinishHttp(s.adm.leases[l]));
  }

  lemma WorkFinish(s: State, l: nat)
    requires AllTied(s) && Enabled(s, FinishCall(l))
    ensures Work(Apply(s, FinishCall(l))) < Work(s)
  {
    FinishEffect(s, l);
    FinishCost(s, l);
    FinishRank(s.calls[l], s.adm.leases[l], JobOf(s.jobs, Request(l)));
    WorkMoves(s, Apply(s, FinishCall(l)), l);
  }

  lemma WorkCallbackStep(s: State, l: nat)
    requires AllTied(s) && Enabled(s, WorkCallback(l))
    ensures Work(Apply(s, WorkCallback(l))) < Work(s)
  {
    PendCost(s.adm, l, A.WorkDone(s.adm.leases[l]));
    WorkMoves(s, Apply(s, WorkCallback(l)), l);
  }

  /** A job moves on, and the scheduler may take a push. */
  lemma WorkJobMoves(s: State, s': State, o: Owner)
    requires AllTied(s) && o in s.jobs && o in s'.jobs
    requires s'.calls == s.calls && s'.adm == s.adm && s'.jobs == s.jobs[o := s'.jobs[o]]
    ensures Work(s') - Work(s) == JobRank(Some(s'.jobs[o])) - JobRank(Some(s.jobs[o]))
                                  + Theorems.Remaining(s'.sched) - Theorems.Remaining(s.sched)
  {
    if o.Request? {
      SumMoves(s, s', o.l);
    } else {
      assert Ranks(s'.calls, s'.adm.leases, s'.jobs) == Ranks(s.calls, s.adm.leases, s.jobs);
    }
  }

  lemma RemainingPush(s: S.State, push: S.Step)
    requires push.Submit?
    ensures Theorems.Remaining(S.Apply(s, push)) <= Theorems.Remaining(s) + 6
    ensures s.stopRequested ==> Theorems.Remaining(S.Apply(s, push)) == Theorems.Remaining(s)
  {
  }

  lemma WorkJob(s: State, step: Step)
    requires AllTied(s) && Enabled(s, step)
    requires step.JobStarts? || step.JobRaises? || step.JobPushes? || step.JobReturns?
    ensures Work(Apply(s, step)) < Work(s)
  {
    WorkJobMoves(s, Apply(s, step), step.o);
    if step.JobPushes? {
      RemainingPush(s.sched, step.push);
    }
  }

  lemma RemainingWorker(s: S.State, step: S.Step)
    requires s.cfg.maxBatch >= 1 && Safety.Shape(s.cfg, s.worker) && Safety.Flags(s)
    requires S.Enabled(s, step) && Theorems.IsWorkerStep(step)
    ensures Theorems.Remaining(S.Apply(s, step)) < Theorems.Remaining(s)
  {
  }

  lemma SameRanks(s: State, s': State)
    requires s'.calls == s.calls && s'.adm.leases == s.adm.leases && s'.jobs == s.jobs
    ensures Work(s') - Work(s) == |s'.adm.pending| - |s.adm.pending|
                                  + Theorems.Remaining(s'.sched) - Theorems.Remaining(s.sched)
  {
  }

  lemma WorkGiveBack(s: State, l: nat)
    requires Enabled(s, GiveBack(l))
    ensures Work(Apply(s, GiveBack(l))) < Work(s)
  {
    SameRanks(s, Apply(s, GiveBack(l)));
  }

  lemma WorkScheduler(s: State, step: S.Step)
    requires Safety.Inv(s.sched) && Enabled(s, SchedulerStep(step)) && Theorems.IsWorkerStep(step)
    ensures Work(Apply(s, SchedulerStep(step))) < Work(s)
  {
    SameRanks(s, Apply(s, SchedulerStep(step)));
    RemainingWorker(s.sched, step);
  }

  lemma RequestUsesWork(s: State, step: Step)
    requires AllTied(s) && A.Inv(s.adm) && Enabled(s, step)
    requires step.CallStep? || step.SubmitJob? || step.AttachJob? || step.FinishCall? || step.WorkCallback?
    ensures Work(Apply(s, step)) < Work(s)
  {
    if step.CallStep? {
      WorkCallStep(s, step.l, step.m);
    } else if step.SubmitJob? {
      WorkSubmit(s, step.l);
    } else if step.AttachJob? {
      WorkAttach(s, step.l);
    } else if step.FinishCall? {
      WorkFinish(s, step.l);
    } else {
      WorkCallbackStep(s, step.l);
    }
  }

  lemma ProgressUsesWork(s: State, step: Step)
    requires AllTied(s) && A.Inv(s.adm) && Safety.Inv(s.sched) && Enabled(s, step) && IsProgress(step)
    ensures Work(Apply(s, step)) < Work(s)
  {
    if step.GiveBack? {
      WorkGiveBack(s, step.l);
    } else if step.SchedulerStep? {
      WorkScheduler(s, step.step);
    } else if step.JobStarts? || step.JobRaises? || step.JobPushes? || step.JobReturns? {
      WorkJob(s, step);
    } else {
      RequestUsesWork(s, step);
    }
  }

  lemma OtherSchedulerSteps(s: S.State, step: S.Step)
    requires S.Enabled(s, step) && (step.ClearRunning? || step.RequestShutdown? || step.Join? || step.ResetStats?)
    ensures Theorems.Remaining(S.Apply(s, step)) == Theorems.Remaining(s)
  {
  }

  lemma OthersEffect(s: State, step: Step)
    requires s.adm.closed && IsClosing(s.life) && Enabled(s, step) && !IsProgress(step)
    ensures var s' := Apply(s, step);
      s'.calls == s.calls && s'.adm.leases == s.adm.leases && s'.adm.pending == s.adm.pending && s'.jobs == s.jobs
  {
  }

  lemma OthersSchedule(s: State, step: Step)
    requires IsClosing(s.life) && Enabled(s, step) && !IsProgress(step)
    ensures Theorems.Remaining(Apply(s, step).sched) == Theorems.Remaining(s.sched)
  {
    var p := SchedulerPart(step);
    SchedulerMoves(s, step);
    if p.Some? {
      OtherSchedulerSteps(s.sched, p.value);
    }
  }

  /** Once admission is closed nothing else adds work. */
  lemma OthersAddNoWork(s: State, step: Step)
    requires s.adm.closed && IsClosing(s.life) && Enabled(s, step) && !IsProgress(step)
    ensures Work(Apply(s, step)) == Work(s)
  {
    OthersEffect(s, step);
    OthersSchedule(s, step);
    SameRanks(s, Apply(s, step));
  }

  function ProgressSteps(steps: seq<Step>): nat {
    if steps == [] then 0
    else ProgressSteps(steps[..|steps| - 1]) + if IsProgress(steps[|steps| - 1]) then 1 else 0
  }

  lemma StaysClosing(s: State, step: Step)
    requires IsClosing(s.life) && Enabled(s, step)
    ensures IsClosing(Apply(s, step).life)
  {
  }

  lemma {:induction false} WorkRunsOut(s: State, steps: seq<Step>)
    requires Inv(s) && IsClosing(s.life) && Runs(s, steps)
    ensures IsClosing(After(s, steps).life)
    ensures ProgressSteps(steps) + Work(After(s, steps)) <= Work(s)
    decreases |steps|
  {
    if steps != [] {
      var n := |steps| - 1;
      var mid := After(s, steps[..n]);
      WorkRunsOut(s, steps[..n]);
      InvRun(s, steps[..n]);
      StaysClosing(mid, steps[n]);
      if IsProgress(steps[n]) {
        ProgressUsesWork(mid, steps[n]);
      } else {
        OthersAddNoWork(mid, steps[n]);
      }
    }
  }

  lemma WorkIsNotNegative(s: State)
    requires Inv(s)
    ensures Work(s) >= 0
  {
  }

  // ---- while a permit is in use something can move ----

  /** Jobs exist only once the worker was started, and wait only for requests that were accepted. */
  ghost predicate Grounded(s: State) {
    && (s.jobs != map[] ==> !s.sched.worker.NotStarted?)
    && (forall o :: o in s.jobs && s.jobs[o].Waiting? ==> s.jobs[o].ticket < |s.sched.accepted|)
  }

  lemma StartedStays(s: S.State, step: S.Step)
    requires S.Enabled(s, step)
    ensures !s.worker.NotStarted? ==> !S.Apply(s, step).worker.NotStarted?
    ensures |s.accepted| <= |S.Apply(s, step).accepted|
  {
  }

  /** The step changes a job. */
  predicate ChangesJobs(step: Step) {
    step.SubmitJob? || step.SubmitProbe? || step.JobStarts? || step.JobRaises? || step.JobPushes? || step.JobReturns?
  }

  lemma JobsKept(s: State, step: Step)
    requires Enabled(s, step)
    ensures Apply(s, step).threads == s.threads
    ensures !ChangesJobs(step) ==> Apply(s, step).jobs == s.jobs
  {
  }

  lemma GroundedJobs(s: State, step: Step)
    requires Grounded(s) && Enabled(s, step) && ChangesJobs(step)
    ensures Grounded(Apply(s, step))
  {
    assert step.JobStarts? || step.JobRaises? || step.JobPushes? || step.JobReturns? ==> step.o in s.jobs;
    assert s.jobs == map[] ==> forall o :: o !in s.jobs;
  }

  lemma GroundedOthers(s: State, step: Step)
    requires Grounded(s) && Enabled(s, step) && !ChangesJobs(step)
    ensures Grounded(Apply(s, step))
  {
    JobsKept(s, step);
    SchedulerMoves(s, step);
    var p := SchedulerPart(step);
    if p.Some? {
      StartedStays(s.sched, p.value);
    }
  }

  lemma GroundedStep(s: State, step: Step)
    requires Grounded(s) && Enabled(s, step)
    ensures Grounded(Apply(s, step)) && Apply(s, step).threads == s.threads
  {
    JobsKept(s, step);
    if ChangesJobs(step) {
      GroundedJobs(s, step);
    } else {
      GroundedOthers(s, step);
    }
  }

  lemma {:induction false} GroundedRun(s: State, steps: seq<Step>)
    requires Grounded(s) && Runs(s, steps)
    ensures Grounded(After(s, steps)) && After(s, steps).threads == s.threads
    decreases |steps|
  {
    if steps != [] {
      var n := |steps| - 1;
      GroundedRun(s, steps[..n]);
      GroundedStep(After(s, steps[..n]), steps[n]);
    }
  }

  lemma UnansweredIsSomewhere(s: S.State, t: nat)
    requires Safety.Placement(s) && t < |s.accepted| && t !in s.promises
    ensures s.queue != [] || Safety.Held(s.worker) != []
  {
    if s.queue == [] {
      Safety.UnansweredIsHeld(s.accepted, Safety.Taken(s), Safety.Held(s.worker), s.promises, t);
    }
  }

  /** The worker can always move while an accepted request is unanswered. */
  lemma WorkerServes(s: S.State, t: nat)
    requires Safety.Placement(s) && Safety.Shape(s.cfg, s.worker) && Safety.Flags(s)
    requires !s.worker.NotStarted? && t < |s.accepted| && t !in s.promises
    ensures exists step :: Theorems.IsWorkerStep(step) && S.Enabled(s, step)
  {
    UnansweredIsSomewhere(s, t);
    Theorems.WorkerMoves(s);
  }

  /** What an unfinished call can do next. */
  function NextOf(l: nat, c: M.Call): Step {
    var app := if c.app == M.Running(M.Submitted) then AttachJob(l) else CallStep(l, M.AppEnds);
    match c.pc
    case Reading => CallStep(l, M.LeaveReading)
    case Racing => if c.app.Ended? then CallStep(l, M.AppWon) else CallStep(l, M.Expire(true))
    case AwaitingApp(_) => if c.app.Ended? then CallStep(l, M.AppAcknowledged) else app
    case Reply504 => CallStep(l, M.Send504)
    case _ => if c.app.Running? then app else FinishCall(l)
  }

  lemma CallMoves(s: State, l: nat)
    requires l in s.calls && l in s.adm.leases && M.CallInv(s.calls[l]) && !s.calls[l].pc.Done?
    ensures IsProgress(NextOf(l, s.calls[l])) && Enabled(s, NextOf(l, s.calls[l]))
  {
  }

  /** A job on a thread can move, or the worker can on its behalf. */
  lemma BusyMoves(s: State, o: Owner)
    requires Safety.Inv(s.sched) && Grounded(s) && o in Busy(s.jobs)
    ensures exists step :: IsProgress(step) && Enabled(s, step)
  {
    if s.jobs[o].Pending? {
      assert IsProgress(JobRaises(o)) && Enabled(s, JobRaises(o));
    } else if s.jobs[o].ticket in s.sched.promises {
      assert IsProgress(JobReturns(o)) && Enabled(s, JobReturns(o));
    } else {
      WorkerServes(s.sched, s.jobs[o].ticket);
      var step :| Theorems.IsWorkerStep(step) && S.Enabled(s.sched, step);
      assert IsProgress(SchedulerStep(step)) && Enabled(s, SchedulerStep(step));
    }
  }

  /** A queued job gets a thread, or the job that has the thread can move. */
  lemma QueuedMoves(s: State, o: Owner)
    requires Safety.Inv(s.sched) && Grounded(s) && s.threads >= 1 && JobOf(s.jobs, o) == Some(Queued)
    ensures exists step :: IsProgress(step) && Enabled(s, step)
  {
    if |Busy(s.jobs)| < s.threads {
      assert IsProgress(JobStarts(o)) && Enabled(s, JobStarts(o));
    } else {
      assert Busy(s.jobs) != {};
      var b :| b in Busy(s.jobs);
      BusyMoves(s, b);
    }
  }

  lemma JobMoves(s: State, l: nat)
    requires Safety.Inv(s.sched) && Grounded(s) && s.threads >= 1 && l in s.adm.leases
    requires s.adm.leases[l].work && !s.adm.leases[l].workFinished && Request(l) in s.jobs
    ensures exists step :: IsProgress(step) && Enabled(s, step)
  {
    var o := Request(l);
    if s.jobs[o].Finished? {
      assert IsProgress(WorkCallback(l)) && Enabled(s, WorkCallback(l));
    } else if s.jobs[o].Queued? {
      QueuedMoves(s, o);
    } else {
      BusyMoves(s, o);
    }
  }

  lemma HolderMoves(s: State, l: nat)
    requires A.Inv(s.adm) && AllTied(s) && Safety.Inv(s.sched) && Grounded(s) && s.threads >= 1
    requires l in s.adm.leases && l !in s.adm.decremented
    ensures exists step :: IsProgress(step) && Enabled(s, step)
  {
    var c, x := s.calls[l], s.adm.leases[l];
    assert Tied(c, x, JobOf(s.jobs, Request(l)));
    if l in s.adm.pending {
      assert IsProgress(GiveBack(l)) && Enabled(s, GiveBack(l));
    } else {
      assert A.Owes(s.adm, l);
      if c.pc.Done? {
        JobMoves(s, l);
      } else {
        CallMoves(s, l);
      }
    }
  }

  lemma NeverStuck(s: State)
    requires A.Inv(s.adm) && AllTied(s) && Safety.Inv(s.sched) && Grounded(s) && s.threads >= 1
    requires s.adm.inflight > 0
    ensures exists step :: IsProgress(step) && Enabled(s, step)
  {
    var holders := s.adm.leases.Keys - s.adm.decremented;
    assert holders != {};
    var l :| l in holders;
    HolderMoves(s, l);
  }

  /** From the moment admission is closed, in every continuation: the requests, their jobs and the
      worker take at most `Work` more steps between them, and as long as a permit is in use one of
      these steps can be taken. So draining ends, provided that possible steps are taken. */
  lemma DrainingEnds(capacity: nat, threads: nat, cfg: S.Config, steps: seq<Step>, more: seq<Step>)
    requires cfg.maxBatch >= 1 && threads >= 1 && Runs(Init(capacity, threads, cfg), steps)
    requires IsClosing(After(Init(capacity, threads, cfg), steps).life)
    requires Runs(After(Init(capacity, threads, cfg), steps), more)
    ensures var closed := After(Init(capacity, threads, cfg), steps);
            var s := After(closed, more);
      && ProgressSteps(more) <= Work(closed)
      && (s.adm.inflight > 0 ==> exists step :: IsProgress(step) && Enabled(s, step))
  {
    var init := Init(capacity, threads, cfg);
    var closed := After(init, steps);
    var s := After(closed, more);
    InvInit(capacity, threads, cfg);
    InvRun(init, steps);
    InvRun(closed, more);
    WorkRunsOut(closed, more);
    WorkIsNotNegative(s);
    GroundedRun(init, steps);
    GroundedRun(closed, more);
    if s.adm.inflight > 0 {
      NeverStuck(s);
    }
  }
}
