/** What the server as a whole guarantees in every run. */
module LifecycleTheorems {
  import opened Basics
  import opened Lifecycle
  import opened LifecycleSafety
  import A = Admission
  import M = Middleware
  import S = Scheduler
  import Safety = SchedulerSafety

  /** Shutdown order: no native submission ever reaches a stopped queue, and when the scheduler is
      being stopped or has been joined every job has returned and every push ever accepted has
      been answered. */
  lemma ShutdownLosesNothing(capacity: nat, threads: nat, cfg: S.Config, steps: seq<Step>)
    requires cfg.maxBatch >= 1 && Runs(Init(capacity, threads, cfg), steps)
    ensures var s := After(Init(capacity, threads, cfg), steps);
      && s.late == 0
      && (forall o, push :: Enabled(s, JobPushes(o, push)) ==> !s.sched.stopRequested)
      && (s.life.Stopping? || s.life.Stopped? ==>
            && (forall o :: o in s.jobs ==> s.jobs[o].Finished?)
            && s.sched.promises.Keys == Safety.Upto(|s.sched.accepted|))
  {
    var s := After(Init(capacity, threads, cfg), steps);
    InvInit(capacity, threads, cfg);
    InvRun(Init(capacity, threads, cfg), steps);
    if s.sched.stopRequested {
      NonePendingOnceStopped(s);
    }
    PushesFindTheQueueOpen(s);
    if s.life.Stopping? || s.life.Stopped? {
      StoppingFindsNoWork(s);
    }
  }

  lemma NonePendingOnceStopped(s: State)
    requires Inv(s) && s.sched.stopRequested
    ensures forall o :: JobOf(s.jobs, o) != Some(Pending)
  {
    forall o | JobOf(s.jobs, o) == Some(Pending) ensures false {
      PendingMeansOpen(s, o);
    }
  }

  lemma PusherIsPending(s: State, o: Owner, push: S.Step)
    requires Enabled(s, JobPushes(o, push))
    ensures JobOf(s.jobs, o) == Some(Pending)
  {
  }

  lemma PushesFindTheQueueOpen(s: State)
    requires s.sched.stopRequested ==> forall o :: JobOf(s.jobs, o) != Some(Pending)
    ensures forall o, push :: Enabled(s, JobPushes(o, push)) ==> !s.sched.stopRequested
  {
    forall o, push | Enabled(s, JobPushes(o, push)) ensures !s.sched.stopRequested {
      PusherIsPending(s, o, push);
    }
  }

  lemma StoppingFindsNoWork(s: State)
    requires Inv(s) && (s.life.Stopping? || s.life.Stopped?)
    ensures forall o :: o in s.jobs ==> s.jobs[o].Finished?
    ensures s.sched.promises.Keys == Safety.Upto(|s.sched.accepted|)
  {
    forall o | o in s.jobs ensures s.jobs[o].Finished? {
      QuietMeansNoWork(s, o);
    }
    EverythingAnswered(s);
  }

  lemma EverythingAnswered(s: State)
    requires Owned(s) && Safety.Placement(s.sched) && forall o :: o in s.jobs ==> s.jobs[o].Finished?
    ensures s.sched.promises.Keys == Safety.Upto(|s.sched.accepted|)
  {
    forall t: nat | t < |s.sched.accepted| ensures t in s.sched.promises {
      assert t in s.sched.promises || JobOf(s.jobs, s.owners[t]) == Some(Waiting(t));
    }
    assert forall t :: t in s.sched.promises ==> t in Safety.Upto(Safety.Taken(s.sched));
  }

  lemma BusyAfter(jobs: map<Owner, Job>, o: Owner, j: Job)
    ensures Busy(jobs[o := j]) == if j.Pending? || j.Waiting? then Busy(jobs) + {o} else Busy(jobs) - {o}
  {
  }

  lemma ThreadsStep(s: State, step: Step)
    requires |Busy(s.jobs)| <= s.threads && Enabled(s, step)
    ensures |Busy(Apply(s, step).jobs)| <= s.threads && Apply(s, step).threads == s.threads
  {
    var s' := Apply(s, step);
    match step
    case SubmitJob(l) => BusyAfter(s.jobs, Request(l), Queued);
    case SubmitProbe => BusyAfter(s.jobs, Probe, Queued);
    case JobStarts(o) => BusyAfter(s.jobs, o, s'.jobs[o]);
    case JobRaises(o) => BusyAfter(s.jobs, o, s'.jobs[o]);
    case JobPushes(o, _) =>
      BusyAfter(s.jobs, o, s'.jobs[o]);
      assert o in Busy(s.jobs);
      assert Busy(s.jobs) + {o} == Busy(s.jobs);
    case JobReturns(o) => BusyAfter(s.jobs, o, s'.jobs[o]);
    case _ =>
  }

  /** In every run at most as many calls of predict() are under way as the executor has threads. */
  lemma {:induction false} ThreadsAreBounded(capacity: nat, threads: nat, cfg: S.Config, steps: seq<Step>)
    requires Runs(Init(capacity, threads, cfg), steps)
    ensures var s := After(Init(capacity, threads, cfg), steps); |Busy(s.jobs)| <= s.threads == threads
    decreases |steps|
  {
    if steps == [] {
      assert Busy(map[]) == {};
    } else {
      var n := |steps| - 1;
      ThreadsAreBounded(capacity, threads, cfg, steps[..n]);
      ThreadsStep(After(Init(capacity, threads, cfg), steps[..n]), steps[n]);
    }
  }

  // ---- one request among many ----

  /** What a step of the server does to the call of request `l`. */
  function CallPart(step: Step, l: nat): seq<M.Step> {
    if step.CallStep? && step.l == l then [step.m]
    else if step == SubmitJob(l) then [M.SubmitWork]
    else if step == AttachJob(l) then [M.AttachWork]
    else if step == FinishCall(l) then [M.FinishHttp]
    else []
  }

  function CallHistory(steps: seq<Step>, l: nat): seq<M.Step> {
    if steps == [] then [] else
      CallHistory(steps[..|steps| - 1], l) + CallPart(steps[|steps| - 1], l)
  }

  lemma CallMoves(s: State, step: Step, l: nat, m: M.Step)
    requires Enabled(s, step) && CallPart(step, l) == [m]
    ensures l in s.calls && M.Enabled(s.calls[l], m)
    ensures Apply(s, step).calls == s.calls[l := M.Apply(s.calls[l], m)]
  {
  }

  predicate TouchesCalls(step: Step) {
    step.Admit? || step.CallStep? || step.SubmitJob? || step.AttachJob? || step.FinishCall?
  }

  lemma CallsUntouched(s: State, step: Step)
    requires Enabled(s, step) && !TouchesCalls(step)
    ensures Apply(s, step).calls == s.calls
  {
  }

  lemma CallStands(s: State, step: Step, l: nat)
    requires Enabled(s, step) && l in s.calls && l in s.adm.leases && CallPart(step, l) == []
    ensures l in Apply(s, step).calls && Apply(s, step).calls[l] == s.calls[l]
  {
    if !TouchesCalls(step) {
      CallsUntouched(s, step);
    }
  }

  lemma CallBegins(s: State, step: Step, l: nat)
    requires Enabled(s, step) && l !in s.calls
    ensures l in Apply(s, step).calls ==> Apply(s, step).calls[l] == M.FreshCall
  {
    if !TouchesCalls(step) {
      CallsUntouched(s, step);
    }
  }

  lemma CallRunSnoc(c: M.Call, history: seq<M.Step>, m: M.Step)
    requires M.Runs(c, history) && M.Enabled(M.After(c, history), m)
    ensures M.Runs(c, history + [m]) && M.After(c, history + [m]) == M.Apply(M.After(c, history), m)
  {
    assert (history + [m])[..|history|] == history;
  }

  /** The call of request `l` is where its own steps lead. */
  ghost predicate FollowsHistory(calls: map<nat, M.Call>, history: seq<M.Step>, l: nat) {
    && M.Runs(M.FreshCall, history)
    && (if l in calls then calls[l] == M.After(M.FreshCall, history) else history == [])
  }

  lemma FollowsStep(s: State, step: Step, history: seq<M.Step>, l: nat)
    requires FollowsHistory(s.calls, history, l) && s.calls.Keys == s.adm.leases.Keys && Enabled(s, step)
    ensures FollowsHistory(Apply(s, step).calls, history + CallPart(step, l), l)
  {
    var p := CallPart(step, l);
    if p == [] {
      assert history + p == history;
      if l in s.calls {
        CallStands(s, step, l);
      } else {
        CallBegins(s, step, l);
      }
    } else {
      CallMoves(s, step, l, p[0]);
      CallRunSnoc(M.FreshCall, history, p[0]);
    }
  }

  /** Whatever the other requests do, a request's call is a run of the middleware on its own. */
  lemma {:induction false} CallIsARun(capacity: nat, threads: nat, cfg: S.Config, steps: seq<Step>, l: nat)
    requires cfg.maxBatch >= 1 && Runs(Init(capacity, threads, cfg), steps)
    ensures FollowsHistory(After(Init(capacity, threads, cfg), steps).calls, CallHistory(steps, l), l)
    decreases |steps|
  {
    if steps != [] {
      var n := |steps| - 1;
      CallIsARun(capacity, threads, cfg, steps[..n], l);
      InvInit(capacity, threads, cfg);
      InvRun(Init(capacity, threads, cfg), steps[..n]);
      FollowsStep(After(Init(capacity, threads, cfg), steps[..n]), steps[n], CallHistory(steps[..n], l), l);
    }
  }

  /** In every run of the server each reply on a request's wire has its cause in what happened to that
      request, and silence has a reason. */
  lemma EveryReplyHasItsCause(capacity: nat, threads: nat, cfg: S.Config, steps: seq<Step>, l: nat)
    requires cfg.maxBatch >= 1 && Runs(Init(capacity, threads, cfg), steps)
    requires l in After(Init(capacity, threads, cfg), steps).calls
    ensures var c, history := After(Init(capacity, threads, cfg), steps).calls[l], CallHistory(steps, l);
            M.WireIs(c, history) && M.SilentForAReason(c, history)
  {
    CallIsARun(capacity, threads, cfg, steps, l);
    M.RepliesHaveCauses(CallHistory(steps, l));
  }

  // ---- bounds ----

  /** Requests whose native work has been handed over and has not returned, whether or not the
      client is still there. */
  function Unfinished(s: State): set<nat> {
    set l | l in s.calls && Request(l) in s.jobs && !s.jobs[Request(l)].Finished?
  }

  lemma SubsetSize<T>(a: set<T>, b: set<T>)
    requires a <= b
    ensures |a| <= |b|
  {
    assert b == a + (b - a);
  }

  lemma UnfinishedHoldsPermit(s: State, l: nat)
    requires A.Inv(s.adm) && AllTied(s) && l in Unfinished(s)
    ensures l in s.adm.leases.Keys - s.adm.decremented
  {
    assert Tied(s.calls[l], s.adm.leases[l], JobOf(s.jobs, Request(l)));
    assert A.Owes(s.adm, l);
  }

  /** At every moment the native submissions in progress for requests number at most the permits in
      use, hence at most the admission capacity, however many clients timed out or disconnected. */
  lemma NativeWorkIsBounded(capacity: nat, threads: nat, cfg: S.Config, steps: seq<Step>)
    requires cfg.maxBatch >= 1 && Runs(Init(capacity, threads, cfg), steps)
    ensures var s := After(Init(capacity, threads, cfg), steps); |Unfinished(s)| <= s.adm.inflight <= capacity
  {
    var s := After(Init(capacity, threads, cfg), steps);
    InvInit(capacity, threads, cfg);
    InvRun(Init(capacity, threads, cfg), steps);
    forall l | l in Unfinished(s) ensures l in s.adm.leases.Keys - s.adm.decremented {
      UnfinishedHoldsPermit(s, l);
    }
    SubsetSize(Unfinished(s), s.adm.leases.Keys - s.adm.decremented);
  }

  /** Whatever the deadline, the client and the server do, a request puts at most one response start
      on the wire, which says what happened to it; a refused upload has submitted no native work; and
      HTTP handling is finished only once the application task is over. */
  lemma OneResponsePerRequest(capacity: nat, threads: nat, cfg: S.Config, steps: seq<Step>, l: nat)
    requires cfg.maxBatch >= 1 && Runs(Init(capacity, threads, cfg), steps)
    requires l in After(Init(capacity, threads, cfg), steps).calls
    ensures var s := After(Init(capacity, threads, cfg), steps);
            && |s.calls[l].wire| <= 1 && M.Truthful(s.calls[l])
            && (M.TooLarge413 in s.calls[l].wire || M.Late408 in s.calls[l].wire ==> Request(l) !in s.jobs)
            && l in s.adm.leases && (s.adm.leases[l].httpFinished ==> !s.calls[l].app.Running?)
  {
    InvInit(capacity, threads, cfg);
    InvRun(Init(capacity, threads, cfg), steps);
    var s := After(Init(capacity, threads, cfg), steps);
    assert Tied(s.calls[l], s.adm.leases[l], JobOf(s.jobs, Request(l)));
  }

  /** No permit is left over that nobody will give back: once every call is done, every
      completion callback has run and every decrement has been made, the server is drained. */
  lemma QuiescentServerIsDrained(s: State)
    requires Inv(s) && s.adm.pending == multiset{}
    requires forall l :: l in s.calls ==> s.calls[l].pc.Done? && (s.adm.leases[l].work ==> s.adm.leases[l].workFinished)
    ensures s.adm.inflight == 0
  {
    A.NoPermitLeaks(s.adm);
    var busy := set l | l in s.adm.leases && A.StillBusy(s.adm.leases[l]);
    forall l | l in s.adm.leases ensures l !in busy {
      assert Tied(s.calls[l], s.adm.leases[l], JobOf(s.jobs, Request(l)));
    }
    assert busy == {};
  }
}
