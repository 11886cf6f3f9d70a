/** Admission permits. A permit is owned jointly by an HTTP task and a native future that cannot be
    cancelled; the locked half of each lease operation and the controller's decrement are separate
    steps, so anything can happen in between. */
module Admission {

  /** `attachedFirst` is history: the native work was attached before HTTP handling finished. */
  datatype Lease = Lease(httpFinished: bool, work: bool, workFinished: bool, released: bool, attachedFirst: bool)

  const FreshLease := Lease(false, false, false, false, false)

  /** The locked half of attach_work(); a second attachment is refused and changes nothing. */
  function AttachWork(x: Lease): Lease {
    if x.work then x else x.(work := true, attachedFirst := !x.httpFinished)
  }

  /** The locked half of the completion callback, and whether the caller must give the permit back. */
  function WorkDone(x: Lease): (Lease, bool) {
    var y := x.(workFinished := true);
    if y.httpFinished && !y.released then (y.(released := true), true) else (y, false)
  }

  /** The locked half of finish_http(). */
  function FinishHttp(x: Lease): (Lease, bool) {
    var y := x.(httpFinished := true);
    if (!y.work || y.workFinished) && !y.released then (y.(released := true), true) else (y, false)
  }

  /** `pending` holds a lease once for every thread that has set its released flag and not yet
      decremented the controller. `decremented`, `decrements` and `underflow` are history. */
  datatype State = State(
    capacity: nat, inflight: int, closed: bool, leases: map<nat, Lease>, pending: multiset<nat>,
    decremented: set<nat>, decrements: nat, underflow: bool)

  datatype Step =
    | Acquire(l: nat) | Attach(l: nat) | CompleteWork(l: nat) | Finish(l: nat) | Decrement(l: nat) | Close

  function Init(capacity: nat): State {
    State(capacity, 0, false, map[], multiset{}, {}, 0, false)
  }

  function Pend(s: State, l: nat, r: (Lease, bool)): State {
    s.(leases := s.leases[l := r.0], pending := if r.1 then s.pending + multiset{l} else s.pending)
  }

  /** A completion callback runs once, after its future was attached; finish_http() may be called at
      any time and any number of times. */
  predicate Enabled(s: State, step: Step) {
    match step
    case Acquire(l) => l !in s.leases
    case Attach(l) => l in s.leases
    case CompleteWork(l) => l in s.leases && s.leases[l].work && !s.leases[l].workFinished
    case Finish(l) => l in s.leases
    case Decrement(l) => l in s.pending
    case Close => true
  }

  function Apply(s: State, step: Step): State
    requires Enabled(s, step)
  {
    match step
    case Acquire(l) =>
      if s.closed || s.inflight >= s.capacity then s
      else s.(inflight := s.inflight + 1, leases := s.leases[l := FreshLease])
    case Attach(l) => s.(leases := s.leases[l := AttachWork(s.leases[l])])
    case CompleteWork(l) => Pend(s, l, WorkDone(s.leases[l]))
    case Finish(l) => Pend(s, l, FinishHttp(s.leases[l]))
    case Decrement(l) =>
      s.(inflight := s.inflight - 1, pending := s.pending - multiset{l}, decremented := s.decremented + {l},
         decrements := s.decrements + 1, underflow := s.underflow || s.inflight - 1 < 0)
    case Close => s.(closed := true)
  }

  predicate Runs(s: State, steps: seq<Step>)
    decreases |steps|, 0
  {
    steps == [] ||
    (var n := |steps| - 1;
     Runs(s, steps[..n]) && Enabled(After(s, steps[..n]), steps[n]))
  }

  function After(s: State, steps: seq<Step>): State
    requires Runs(s, steps)
    decreases |steps|, 1
  {
    if steps == [] then s else Apply(After(s, steps[..|steps| - 1]), steps[|steps| - 1])
  }

  // ---- what every interleaving keeps ----

  /** The permit is given back exactly when HTTP handling is over and, if native work was attached
      before that, the native work is over too. */
  ghost predicate LeaseInv(x: Lease) {
    && (x.released <==> x.httpFinished && (x.attachedFirst ==> x.workFinished))
    && (x.workFinished ==> x.work)
    && (x.attachedFirst ==> x.work)
    && (x.work && !x.attachedFirst ==> x.httpFinished)
  }

  /** A lease that has set its flag either still owes the controller one decrement or has made it. */
  ghost predicate Owes(s: State, l: nat) {
    s.pending[l] + (if l in s.decremented then 1 else 0) ==
      if l in s.leases && s.leases[l].released then 1 else 0
  }

  ghost predicate Inv(s: State) {
    && (forall l :: l in s.leases ==> LeaseInv(s.leases[l]))
    && (forall l :: Owes(s, l))
    && s.decremented <= s.leases.Keys
    && s.inflight == |s.leases.Keys - s.decremented|
    && s.inflight <= s.capacity
    && s.decrements == |s.decremented|
    && !s.underflow
  }

  lemma LeaseOps(x: Lease)
    requires LeaseInv(x)
    ensures LeaseInv(AttachWork(x)) && AttachWork(x).released == x.released
    ensures LeaseInv(FinishHttp(x).0) && FinishHttp(x).1 == (FinishHttp(x).0.released && !x.released)
    ensures x.work ==> LeaseInv(WorkDone(x).0) && WorkDone(x).1 == (WorkDone(x).0.released && !x.released)
    ensures x.released ==> FinishHttp(x).0.released && WorkDone(x).0.released
  {
  }

  lemma PendStep(s: State, l: nat, r: (Lease, bool))
    requires Inv(s) && l in s.leases && LeaseInv(r.0)
    requires r.1 == (r.0.released && !s.leases[l].released) && (s.leases[l].released ==> r.0.released)
    ensures Inv(Pend(s, l, r))
  {
    var s' := Pend(s, l, r);
    assert s'.leases.Keys == s.leases.Keys;
    forall m ensures Owes(s', m) {
      assert Owes(s, m);
    }
  }

  lemma AcquireOwes(s: State, l: nat, m: nat)
    requires Inv(s) && l !in s.leases
    ensures Owes(Apply(s, Acquire(l)), m)
  {
    assert Owes(s, m);
  }

  lemma AcquireStep(s: State, l: nat)
    requires Inv(s) && l !in s.leases
    ensures Inv(Apply(s, Acquire(l)))
  {
    var s' := Apply(s, Acquire(l));
    forall m ensures Owes(s', m) {
      AcquireOwes(s, l, m);
    }
    if s' != s {
      assert s'.leases.Keys == s.leases.Keys + {l};
      assert s'.leases.Keys - s.decremented == (s.leases.Keys - s.decremented) + {l};
    }
  }

  lemma DecrementStep(s: State, l: nat)
    requires Inv(s) && l in s.pending
    ensures Inv(Apply(s, Decrement(l)))
  {
    var s' := Apply(s, Decrement(l));
    assert Owes(s, l);
    assert s'.leases.Keys - s'.decremented == (s.leases.Keys - s.decremented) - {l};
    forall m ensures Owes(s', m) {
      assert Owes(s, m);
    }
  }

  lemma InvStep(s: State, step: Step)
    requires Inv(s) && Enabled(s, step)
    ensures Inv(Apply(s, step))
  {
    match step
    case Acquire(l) => AcquireStep(s, l);
    case Attach(l) =>
      LeaseOps(s.leases[l]);
      PendStep(s, l, (AttachWork(s.leases[l]), false));
    case CompleteWork(l) =>
      LeaseOps(s.leases[l]);
      PendStep(s, l, WorkDone(s.leases[l]));
    case Finish(l) =>
      LeaseOps(s.leases[l]);
      PendStep(s, l, FinishHttp(s.leases[l]));
    case Decrement(l) => DecrementStep(s, l);
    case Close =>
      forall m ensures Owes(Apply(s, step), m) {
        assert Owes(s, m);
      }
  }

  lemma {:induction false} InvRun(s: State, steps: seq<Step>)
    requires Inv(s) && Runs(s, steps)
    ensures Inv(After(s, steps))
    decreases |steps|
  {
    if steps != [] {
      var n := |steps| - 1;
      InvRun(s, steps[..n]);
      InvStep(After(s, steps[..n]), steps[n]);
    }
  }

  /** In every interleaving: the permit count stays within bounds and equals leases granted minus
      decrements made, no lease is decremented twice, so the controller's defensive error is never
      raised, and a lease whose work was attached in time is decremented only once both its HTTP
      handling and its native work are over. */
  lemma PermitsAreConserved(capacity: nat, steps: seq<Step>)
    requires Runs(Init(capacity), steps)
    ensures var s := After(Init(capacity), steps);
      && 0 <= s.inflight <= s.capacity
      && s.inflight == |s.leases| - s.decrements
      && s.decrements == |s.decremented| && !s.underflow
      && (forall l :: l in s.decremented ==>
            l in s.leases && s.leases[l].httpFinished && (s.leases[l].attachedFirst ==> s.leases[l].workFinished))
  {
    var s := After(Init(capacity), steps);
    assert Inv(Init(capacity));
    InvRun(Init(capacity), steps);
    assert |s.leases.Keys| == |s.leases.Keys - s.decremented| + |s.decremented| by {
      assert s.leases.Keys == (s.leases.Keys - s.decremented) + s.decremented;
    }
    forall l | l in s.decremented ensures s.leases[l].released {
      assert Owes(s, l);
    }
  }

  /** HTTP handling, or native work attached in time, is still going on. */
  predicate StillBusy(x: Lease) { !(x.httpFinished && (x.attachedFirst ==> x.workFinished)) }

  /** No permit leaks: when nobody is in the middle of giving one back, the permits in use are
      exactly the leases whose HTTP handling or in-time native work is still going on. */
  lemma NoPermitLeaks(s: State)
    requires Inv(s) && s.pending == multiset{}
    ensures s.inflight == |set l | l in s.leases && StillBusy(s.leases[l])|
  {
    var busy := set l | l in s.leases && StillBusy(s.leases[l]);
    forall l | l in s.leases ensures l in busy <==> l !in s.decremented {
      assert Owes(s, l);
    }
    assert busy == s.leases.Keys - s.decremented;
  }

  lemma Extend(s: State, steps: seq<Step>, mid: State, step: Step) returns (longer: seq<Step>, end: State)
    requires Runs(s, steps) && After(s, steps) == mid && Enabled(mid, step)
    ensures Runs(s, longer) && After(s, longer) == end == Apply(mid, step)
  {
    longer, end := steps + [step], Apply(mid, step);
    assert longer[..|steps|] == steps;
  }

  /** The lease alone does not bound native work: attached after finish_http(), a submission runs
      with no permit in use. The middleware must await its application task first. */
  lemma LateAttachEscapes(capacity: nat)
    requires capacity >= 1
    ensures exists steps {:trigger Runs(Init(capacity), steps)} ::
      && Runs(Init(capacity), steps)
      && var s := After(Init(capacity), steps);
         s.inflight == 0 && 0 in s.leases && s.leases[0].work && !s.leases[0].workFinished
  {
    var init := Init(capacity);
    var steps, s := Extend(init, [], init, Acquire(0));
    steps, s := Extend(init, steps, s, Finish(0));
    steps, s := Extend(init, steps, s, Decrement(0));
    steps, s := Extend(init, steps, s, Attach(0));
  }

  /** Work was attached to lease `l` before its HTTP handling was declared finished. */
  ghost predicate AttachedInTime(steps: seq<Step>, l: nat) {
    exists i :: 0 <= i < |steps| && steps[i] == Attach(l) && Finish(l) !in steps[..i]
  }

  lemma AttachedInTimeSnoc(steps: seq<Step>, step: Step, l: nat)
    ensures AttachedInTime(steps + [step], l) <==>
            AttachedInTime(steps, l) || (step == Attach(l) && Finish(l) !in steps)
  {
    var longer := steps + [step];
    assert longer[..|steps|] == steps;
    if AttachedInTime(steps, l) {
      var i :| 0 <= i < |steps| && steps[i] == Attach(l) && Finish(l) !in steps[..i];
      assert longer[i] == Attach(l) && longer[..i] == steps[..i];
    }
    if step == Attach(l) && Finish(l) !in steps {
      assert longer[|steps|] == Attach(l);
    }
    if AttachedInTime(longer, l) {
      var i :| 0 <= i < |longer| && longer[i] == Attach(l) && Finish(l) !in longer[..i];
      assert i < |steps| ==> steps[i] == Attach(l) && steps[..i] == longer[..i];
    }
  }

  /** The flags of a lease against what was called on it. */
  ghost predicate Remembers(s: State, steps: seq<Step>, l: nat) {
    if l in s.leases
    then var x := s.leases[l];
      && (x.httpFinished <==> Finish(l) in steps)
      && (x.work <==> Attach(l) in steps)
      && (x.attachedFirst <==> AttachedInTime(steps, l))
    else Finish(l) !in steps && Attach(l) !in steps
  }

  lemma RemembersStep(s: State, steps: seq<Step>, step: Step, l: nat)
    requires (l in s.leases ==> LeaseInv(s.leases[l])) && Remembers(s, steps, l) && Enabled(s, step)
    ensures Remembers(Apply(s, step), steps + [step], l)
  {
    AttachedInTimeSnoc(steps, step, l);
  }

  lemma {:induction false} LeaseRemembers(capacity: nat, steps: seq<Step>, l: nat)
    requires Runs(Init(capacity), steps)
    ensures Remembers(After(Init(capacity), steps), steps, l)
    decreases |steps|
  {
    if steps != [] {
      var n := |steps| - 1;
      LeaseRemembers(capacity, steps[..n], l);
      assert Inv(Init(capacity));
      InvRun(Init(capacity), steps[..n]);
      RemembersStep(After(Init(capacity), steps[..n]), steps[..n], steps[n], l);
      assert steps == steps[..n] + [steps[n]];
    }
  }

  /** Exactly when unfinished native work is covered by a permit, in every interleaving: its lease has
      given nothing back, and is not about to, if and only if the work was attached before
      finish_http() was first called. */
  lemma UnfinishedWorkHoldsPermitIff(capacity: nat, steps: seq<Step>, l: nat)
    requires Runs(Init(capacity), steps)
    ensures var s := After(Init(capacity), steps);
      l in s.leases && s.leases[l].work && !s.leases[l].workFinished ==>
        (l !in s.decremented && s.pending[l] == 0 <==> AttachedInTime(steps, l))
  {
    var s := After(Init(capacity), steps);
    assert Inv(Init(capacity));
    InvRun(Init(capacity), steps);
    LeaseRemembers(capacity, steps, l);
    assert Owes(s, l);
  }

  lemma ClosedOnlyByClose(s: State, step: Step)
    requires Enabled(s, step)
    ensures Apply(s, step).closed <==> s.closed || step == Close
    ensures Apply(s, step).capacity == s.capacity
  {
  }

  lemma {:induction false} ClosedIffAsked(capacity: nat, steps: seq<Step>)
    requires Runs(Init(capacity), steps)
    ensures After(Init(capacity), steps).closed <==> Close in steps
    ensures After(Init(capacity), steps).capacity == capacity
    decreases |steps|
  {
    if steps != [] {
      var n := |steps| - 1;
      ClosedIffAsked(capacity, steps[..n]);
      ClosedOnlyByClose(After(Init(capacity), steps[..n]), steps[n]);
      assert steps == steps[..n] + [steps[n]];
    }
  }

  /** In every interleaving a permit is granted if and only if admission was not closed and fewer leases
      than the capacity are out; granting adds that fresh lease and nothing else, refusing changes
      nothing. */
  lemma AcquireGrantsIff(capacity: nat, steps: seq<Step>, l: nat)
    requires Runs(Init(capacity), steps) && l !in After(Init(capacity), steps).leases
    ensures var s := After(Init(capacity), steps);
      var s' := Apply(s, Acquire(l));
      && (l in s'.leases <==> Close !in steps && |s.leases| - s.decrements < capacity)
      && (l in s'.leases ==> s' == s.(inflight := s.inflight + 1, leases := s.leases[l := FreshLease]))
      && (l !in s'.leases ==> s' == s)
  {
    PermitsAreConserved(capacity, steps);
    ClosedIffAsked(capacity, steps);
  }

  lemma ClosedStep(s: State, step: Step)
    requires Inv(s) && s.closed && Enabled(s, step)
    ensures Apply(s, step).closed && Apply(s, step).inflight <= s.inflight
    ensures Apply(s, step).leases.Keys == s.leases.Keys
  {
  }

  /** Once admission is closed the count never rises again, so a drained server stays drained. */
  lemma {:induction false} DrainedIsPermanent(s: State, steps: seq<Step>)
    requires Inv(s) && s.closed && Runs(s, steps)
    ensures After(s, steps).closed && 0 <= After(s, steps).inflight <= s.inflight
    ensures After(s, steps).leases.Keys == s.leases.Keys
    decreases |steps|
  {
    if steps != [] {
      var n := |steps| - 1;
      DrainedIsPermanent(s, steps[..n]);
      InvRun(s, steps[..n]);
      ClosedStep(After(s, steps[..n]), steps[n]);
      InvStep(After(s, steps[..n]), steps[n]);
    }
  }

  // ---- the objects ----

  class AdmissionController {
    const capacity: nat
    var inflight: int
    var closed: bool

    constructor (capacity: nat)
      ensures this.capacity == capacity && inflight == 0 && !closed
    {
      this.capacity, inflight, closed := capacity, 0, false;
    }

    method TryAcquire() returns (lease: AdmissionLease?)
      modifies this`inflight
      ensures lease == null <==> closed || old(inflight) >= capacity
      ensures inflight == old(inflight) + if lease == null then 0 else 1
      ensures lease != null ==> fresh(lease) && lease.controller == this && lease.View() == FreshLease
    {
      if closed || inflight >= capacity {
        return null;
      }
      inflight := inflight + 1;
      lease := new AdmissionLease(this);
    }

    method Shut()
      modifies this`closed
      ensures closed
    {
      closed := true;
    }

    /** `raised` is the defensive RuntimeError. */
    method Release() returns (raised: bool)
      modifies this`inflight
      ensures inflight == old(inflight) - 1 && raised == (inflight < 0)
    {
      inflight := inflight - 1;
      return inflight < 0;
    }
  }

  class AdmissionLease {
    const controller: AdmissionController
    var httpFinished: bool
    var work: bool
    var workFinished: bool
    var released: bool
    ghost var attachedFirst: bool

    ghost function View(): Lease
      reads this
    {
      Lease(httpFinished, work, workFinished, released, attachedFirst)
    }

    constructor (controller: AdmissionController)
      ensures this.controller == controller && View() == FreshLease
    {
      this.controller := controller;
      httpFinished, work, workFinished, released, attachedFirst := false, false, false, false, false;
    }

    /** Refused when a native submission is attached already. */
    method Attach() returns (ok: bool)
      modifies this
      ensures View() == AttachWork(old(View())) && ok == !old(work)
    {
      if work {
        return false;
      }
      work := true;
      attachedFirst := !httpFinished;
      return true;
    }

    /** The permit goes back in this call exactly when HTTP handling had finished and it had not gone
        back before; the lease keeps its invariant. */
    method OnWorkDone() returns (raised: bool)
      requires LeaseInv(View()) && work
      modifies this, controller
      ensures View() == WorkDone(old(View())).0 && LeaseInv(View())
      ensures controller.inflight == old(controller.inflight) - if WorkDone(old(View())).1 then 1 else 0
      ensures controller.closed == old(controller.closed)
      ensures raised == (WorkDone(old(View())).1 && old(controller.inflight) < 1)
    {
      LeaseOps(View());
      var release := false;
      workFinished := true;
      if httpFinished && !released {
        released := true;
        release := true;
      }
      raised := false;
      if release {
        raised := controller.Release();
      }
    }

    method OnFinishHttp() returns (raised: bool)
      requires LeaseInv(View())
      modifies this, controller
      ensures View() == FinishHttp(old(View())).0 && LeaseInv(View())
      ensures controller.inflight == old(controller.inflight) - if FinishHttp(old(View())).1 then 1 else 0
      ensures controller.closed == old(controller.closed)
      ensures raised == (FinishHttp(old(View())).1 && old(controller.inflight) < 1)
    {
      LeaseOps(View());
      var release := false;
      httpFinished := true;
      if (!work || workFinished) && !released {
        released := true;
        release := true;
      }
      raised := false;
      if release {
        raised := controller.Release();
      }
    }
  }
}
