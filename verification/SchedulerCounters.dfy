/** The counters update by update. Counting a batch is a sequence of separate relaxed operations, and
    so is a reset, so the two may interleave. The batcher of module Scheduler takes each as one step;
    here is what that leaves out, and exactly when it does not matter. */
module SchedulerCounters {
  import opened Basics
  import opened Scheduler
  import opened SchedulerStats

  // ---- single operations ----

  /** The `k`-th update of counting a batch: batches, requests, largest batch, then for each request
      the total wait and the largest wait. */
  function Update(st: Stats, batch: seq<Request>, now: int, k: nat): Stats {
    if k == 0 then st.(totalBatches := st.totalBatches + 1)
    else if k == 1 then st.(totalRequests := st.totalRequests + |batch|)
    else if k == 2 then st.(maxBatchSeen := Max(st.maxBatchSeen, |batch|))
    else if (k - 3) / 2 >= |batch| then st
    else
      var w := Waited(now, batch[(k - 3) / 2]);
      if k % 2 == 1 then st.(totalWait := st.totalWait + w) else st.(maxWait := Max(st.maxWait, w))
  }

  /** How many updates a batch takes. */
  function Updates(batch: seq<Request>): nat { 3 + 2 * |batch| }

  function Updated(st: Stats, batch: seq<Request>, now: int, k: nat): Stats {
    if k == 0 then st else Update(Updated(st, batch, now, k - 1), batch, now, k - 1)
  }

  /** The `c`-th store of a reset. */
  function Store(st: Stats, c: nat): Stats {
    match c
    case 0 => st.(totalBatches := 0)
    case 1 => st.(totalRequests := 0)
    case 2 => st.(maxBatchSeen := 0)
    case 3 => st.(totalWait := 0)
    case 4 => st.(maxWait := 0)
    case _ => st.(totalExec := 0)
  }

  const STORES := 6

  lemma {:induction false} UpdatedWaits(st: Stats, batch: seq<Request>, now: int, j: nat)
    requires j <= |batch|
    ensures Updated(st, batch, now, 3 + 2 * j) == CountWaits(Updated(st, batch, now, 3), batch[..j], now)
    decreases j
  {
    if j != 0 {
      var i := j - 1;
      UpdatedWaits(st, batch, now, i);
      assert batch[..j][..i] == batch[..i] && batch[..j][i] == batch[i];
      var before := Updated(st, batch, now, 1 + 2 * j);
      var mid := Updated(st, batch, now, 2 + 2 * j);
      assert mid == Update(before, batch, now, 1 + 2 * j);
      assert Updated(st, batch, now, 3 + 2 * j) == Update(mid, batch, now, 2 + 2 * j);
      WaitUpdates(before, batch, now, j);
      WaitUpdates(mid, batch, now, j);
    }
  }

  /** Undisturbed, the updates of a batch are what the batcher does in one step. */
  lemma UpdatesAreOneCount(st: Stats, batch: seq<Request>, now: int)
    ensures Updated(st, batch, now, Updates(batch)) == CountBatch(st, batch, now)
  {
    UpdatedWaits(st, batch, now, |batch|);
    assert batch[..|batch|] == batch;
    assert Updated(st, batch, now, 0) == st;
    var st1 := Updated(st, batch, now, 1);
    var st2 := Updated(st, batch, now, 2);
    assert st1 == Update(st, batch, now, 0) && st2 == Update(st1, batch, now, 1);
    assert Updated(st, batch, now, 3) == Update(st2, batch, now, 2);
  }

  // ---- every interleaving, no reset inside a count ----

  /** One operation on one counter. Requests are named by the order in which they were counted. */
  datatype Event =
    | BatchAdded | RequestsAdded(n: nat) | BatchRaised(n: nat) | WaitAdded(r: nat) | WaitRaised(r: nat)
    | Stored(c: nat)

  /** Where the worker stands; `before` and `first`, the name of the batch's first request, are history. */
  datatype Phase =
    | Outside
    | Counting(batch: seq<Request>, now: int, next: nat, before: Stats, first: nat)
    | InEngine

  /** `stored` is how many stores the reset in progress has made, zero when there is none. `log` and
      `waits`, the waits of all requests counted, are history. */
  datatype Ledger = Ledger(maxBatch: nat, stats: Stats, phase: Phase, stored: nat, log: seq<Event>, waits: seq<nat>)

  /** The `k`-th update of a batch of `n` whose first request has the name `first`. */
  function UpdateEvent(n: nat, first: nat, k: nat): Event {
    if k == 0 then BatchAdded
    else if k == 1 then RequestsAdded(n)
    else if k == 2 then BatchRaised(n)
    else if k % 2 == 1 then WaitAdded(first + (k - 3) / 2)
    else WaitRaised(first + (k - 3) / 2)
  }

  function WaitsOf(batch: seq<Request>, now: int): seq<nat> {
    seq(|batch|, i requires 0 <= i < |batch| => Waited(now, batch[i]))
  }

  datatype Step =
    | BeginCount(batch: seq<Request>, now: int) | UpdateNext | EndCount | AddTime(elapsed: nat) | StoreNext

  function Init(maxBatch: nat): Ledger { Ledger(maxBatch, NoStats, Outside, 0, [], []) }

  predicate Enabled(s: Ledger, step: Step) {
    match step
    case BeginCount(batch, _) => s.phase.Outside? && 0 < |batch| <= s.maxBatch
    case UpdateNext => s.phase.Counting? && s.phase.next < Updates(s.phase.batch)
    case EndCount => s.phase.Counting? && s.phase.next == Updates(s.phase.batch)
    case AddTime(_) => s.phase.InEngine?
    case StoreNext => true
  }

  function Apply(s: Ledger, step: Step): Ledger
    requires Enabled(s, step)
  {
    match step
    case BeginCount(batch, now) =>
      s.(phase := Counting(batch, now, 0, s.stats, |s.waits|), waits := s.waits + WaitsOf(batch, now))
    case UpdateNext =>
      var p := s.phase;
      s.(stats := Update(s.stats, p.batch, p.now, p.next), phase := p.(next := p.next + 1),
         log := s.log + [UpdateEvent(|p.batch|, p.first, p.next)])
    case EndCount => s.(phase := InEngine)
    case AddTime(elapsed) => s.(stats := s.stats.(totalExec := s.stats.totalExec + elapsed), phase := Outside)
    case StoreNext =>
      s.(stats := Store(s.stats, s.stored), stored := (s.stored + 1) % STORES, log := s.log + [Stored(s.stored)])
  }

  predicate Runs(s: Ledger, steps: seq<Step>)
    decreases |steps|, 0
  {
    steps == [] ||
    (var n := |steps| - 1;
     Runs(s, steps[..n]) && Enabled(After(s, steps[..n]), steps[n]))
  }

  function After(s: Ledger, steps: seq<Step>): Ledger
    requires Runs(s, steps)
    decreases |steps|, 1
  {
    if steps == [] then s else Apply(After(s, steps[..|steps| - 1]), steps[|steps| - 1])
  }

  /** The step does not mix a reset with a count. */
  predicate Apart(s: Ledger, step: Step) {
    && (step.BeginCount? ==> s.stored == 0)
    && (step.StoreNext? ==> !s.phase.Counting?)
  }

  ghost predicate ApartRun(s: Ledger, steps: seq<Step>)
    requires Runs(s, steps)
    decreases |steps|
  {
    steps == [] ||
    (var n := |steps| - 1; ApartRun(s, steps[..n]) && Apart(After(s, steps[..n]), steps[n]))
  }

  /** The first stores of a reset have left their counters at zero. */
  predicate Zeroed(st: Stats, stored: nat) {
    && (stored > 0 ==> st.totalBatches == 0)
    && (stored > 1 ==> st.totalRequests == 0)
    && (stored > 2 ==> st.maxBatchSeen == 0)
    && (stored > 3 ==> st.totalWait == 0)
    && (stored > 4 ==> st.maxWait == 0)
  }

  ghost predicate Settled(s: Ledger) {
    && s.stored < STORES
    && match s.phase
       case Counting(batch, now, next, before, _) =>
         && s.stored == 0 && 0 < |batch| <= s.maxBatch && next <= Updates(batch)
         && Consistent(before, s.maxBatch) && s.stats == Updated(before, batch, now, next)
       case _ => if s.stored == 0 then Consistent(s.stats, s.maxBatch) else Zeroed(s.stats, s.stored)
  }

  lemma SettledStep(s: Ledger, step: Step)
    requires Settled(s) && Enabled(s, step) && Apart(s, step)
    ensures Settled(Apply(s, step))
  {
    if step.EndCount? {
      UpdatesAreOneCount(s.phase.before, s.phase.batch, s.phase.now);
      BatchCounted(s.phase.before, s.maxBatch, s.phase.batch, s.phase.now);
    }
  }

  /** If no reset overlaps a count, the counters bound each other whenever neither is in progress, and
      inside a count they are the earlier counters with the updates made so far. */
  lemma {:induction false} ApartIsConsistent(maxBatch: nat, steps: seq<Step>)
    requires Runs(Init(maxBatch), steps) && ApartRun(Init(maxBatch), steps)
    ensures Settled(After(Init(maxBatch), steps)) && After(Init(maxBatch), steps).maxBatch == maxBatch
    ensures var s := After(Init(maxBatch), steps);
            !s.phase.Counting? && s.stored == 0 ==> Consistent(s.stats, maxBatch)
    decreases |steps|
  {
    if steps != [] {
      var n := |steps| - 1;
      ApartIsConsistent(maxBatch, steps[..n]);
      SettledStep(After(Init(maxBatch), steps[..n]), steps[n]);
    }
  }

  // ---- a reset that overlaps a count ----

  /** Where the stores of a reset made so far fell: each after how many of the count's updates. */
  type Schedule = p: seq<nat> | |p| <= STORES

  /** The `c`-th store fell after the `k`-th update. */
  predicate FellAt(p: Schedule, c: nat, k: nat) { c < |p| && p[c] == k }

  /** The stores that fell after the `k`-th update; they concern different counters. */
  function StoresAt(st: Stats, p: Schedule, k: nat): Stats {
    Stats(if FellAt(p, 0, k) then 0 else st.totalBatches, if FellAt(p, 1, k) then 0 else st.totalRequests,
          if FellAt(p, 2, k) then 0 else st.maxBatchSeen, if FellAt(p, 3, k) then 0 else st.totalWait,
          if FellAt(p, 4, k) then 0 else st.maxWait, if FellAt(p, 5, k) then 0 else st.totalExec)
  }

  /** The counters after `k` updates of the count and the stores that fell so far. */
  function Mixed(st: Stats, batch: seq<Request>, now: int, p: Schedule, k: nat): Stats {
    StoresAt(if k == 0 then st else Update(Mixed(st, batch, now, p, k - 1), batch, now, k - 1), p, k)
  }

  lemma {:induction false} LaterStore(st: Stats, batch: seq<Request>, now: int, p: Schedule, at: nat, k: nat)
    requires |p| < STORES && k < at
    ensures Mixed(st, batch, now, p + [at], k) == Mixed(st, batch, now, p, k)
    decreases k
  {
    if k != 0 {
      LaterStore(st, batch, now, p, at, k - 1);
    }
  }

  lemma StoreIsMixedIn(st: Stats, batch: seq<Request>, now: int, p: Schedule, k: nat)
    requires |p| < STORES
    ensures Mixed(st, batch, now, p + [k], k) == Store(Mixed(st, batch, now, p, k), |p|)
  {
    if k != 0 {
      LaterStore(st, batch, now, p, k, k - 1);
    }
  }

  function StoreSteps(steps: seq<Step>): nat {
    if steps == [] then 0
    else StoreSteps(steps[..|steps| - 1]) + if steps[|steps| - 1].StoreNext? then 1 else 0
  }

  ghost predicate OnlyCountAndReset(steps: seq<Step>) {
    forall i :: 0 <= i < |steps| ==> steps[i].UpdateNext? || steps[i].StoreNext?
  }

  /** Where a count and at most one reset stand, the reset's stores having fallen as `p` says. */
  ghost predicate Follows(s: Ledger, begun: Ledger, p: Schedule) {
    && begun.phase.Counting? && s.phase.Counting? && s.phase == begun.phase.(next := s.phase.next)
    && s.stored == |p| % STORES && (forall c :: 0 <= c < |p| ==> p[c] <= s.phase.next)
    && s.stats == Mixed(begun.stats, s.phase.batch, s.phase.now, p, s.phase.next)
  }

  lemma UpdateFollows(s: Ledger, begun: Ledger, p: Schedule)
    requires Follows(s, begun, p) && Enabled(s, UpdateNext)
    ensures Follows(Apply(s, UpdateNext), begun, p)
  {
  }

  lemma StoreFollows(s: Ledger, begun: Ledger, p: Schedule)
    requires Follows(s, begun, p) && |p| < STORES
    ensures Follows(Apply(s, StoreNext), begun, p + [s.phase.next])
  {
    StoreIsMixedIn(begun.stats, s.phase.batch, s.phase.now, p, s.phase.next);
  }

  /** A count that has just begun, a reset being possibly under way. */
  ghost predicate JustBegun(s: Ledger) {
    s.phase.Counting? && s.phase.next == 0 && s.stored < STORES && Zeroed(s.stats, s.stored)
  }

  lemma FollowsFromTheStart(begun: Ledger)
    requires JustBegun(begun)
    ensures Follows(begun, begun, seq(begun.stored, _ => 0))
  {
  }

  /** Every interleaving of a count with the stores of one reset, begun before the count or inside it,
      follows some schedule. */
  lemma {:induction false} EveryInterleavingIsScheduled(begun: Ledger, steps: seq<Step>) returns (p: Schedule)
    requires JustBegun(begun)
    requires Runs(begun, steps) && OnlyCountAndReset(steps) && begun.stored + StoreSteps(steps) <= STORES
    ensures |p| == begun.stored + StoreSteps(steps) && Follows(After(begun, steps), begun, p)
    decreases |steps|
  {
    if steps == [] {
      p := seq(begun.stored, _ => 0);
      FollowsFromTheStart(begun);
    } else {
      var n := |steps| - 1;
      p := EveryInterleavingIsScheduled(begun, steps[..n]);
      if steps[n].UpdateNext? {
        UpdateFollows(After(begun, steps[..n]), begun, p);
      } else {
        StoreFollows(After(begun, steps[..n]), begun, p);
        p := p + [After(begun, steps[..n]).phase.next];
      }
    }
  }

  /** Exactly the schedules that do no harm: each update survives on its counter together with the
      updates it is weighed against. An update survives when its counter's store fell before it. */
  predicate Harmless(n: nat, p: Schedule)
    requires |p| == STORES
  {
    && (p[0] == 0 <==> p[1] <= 1)
    && (p[0] == 0 ==> p[2] <= 2)
    && (forall j :: 0 <= j < n ==> (p[3] <= 3 + 2 * j <==> p[4] <= 4 + 2 * j))
    && (forall j :: 0 <= j < n ==> p[3] <= 3 + 2 * j ==> p[1] <= 1)
  }

  lemma {:induction false} MixedHeads(st: Stats, batch: seq<Request>, now: int, p: Schedule, k: nat)
    requires |p| == STORES
    ensures var m := Mixed(st, batch, now, p, k);
      && (p[0] <= k ==> m.totalBatches == if p[0] == 0 && k >= 1 then 1 else 0)
      && (p[1] <= k ==> m.totalRequests == if p[1] <= 1 && k >= 2 then |batch| else 0)
      && (p[2] <= k ==> m.maxBatchSeen == if p[2] <= 2 && k >= 3 then |batch| else 0)
    decreases k
  {
    if k != 0 {
      MixedHeads(st, batch, now, p, k - 1);
    }
  }

  /** The waits that survive a store which fell after `p` updates, among the first `j` requests. */
  function SumKept(batch: seq<Request>, now: int, p: nat, j: nat): nat
    requires j <= |batch|
  {
    if j == 0 then 0
    else SumKept(batch, now, p, j - 1) + if p <= 1 + 2 * j then Waited(now, batch[j - 1]) else 0
  }

  function MaxKept(batch: seq<Request>, now: int, p: nat, j: nat): nat
    requires j <= |batch|
  {
    if j == 0 then 0
    else Max(MaxKept(batch, now, p, j - 1), if p <= 2 + 2 * j then Waited(now, batch[j - 1]) else 0)
  }

  lemma {:induction false} NoneKeptYet(batch: seq<Request>, now: int, p: nat, j: nat)
    requires j <= |batch|
    ensures p > 1 + 2 * j ==> SumKept(batch, now, p, j) == 0
    ensures p > 2 + 2 * j ==> MaxKept(batch, now, p, j) == 0
    decreases j
  {
    if j != 0 {
      NoneKeptYet(batch, now, p, j - 1);
    }
  }

  lemma WaitUpdates(st: Stats, batch: seq<Request>, now: int, j: nat)
    requires 0 < j <= |batch|
    ensures Update(st, batch, now, 1 + 2 * j) == st.(totalWait := st.totalWait + Waited(now, batch[j - 1]))
    ensures Update(st, batch, now, 2 + 2 * j) == st.(maxWait := Max(st.maxWait, Waited(now, batch[j - 1])))
  {
    assert (1 + 2 * j - 3) / 2 == j - 1 && (2 + 2 * j - 3) / 2 == j - 1;
    assert (1 + 2 * j) % 2 == 1 && (2 + 2 * j) % 2 == 0;
  }

  lemma {:induction false} MixedWaits(st: Stats, batch: seq<Request>, now: int, p: Schedule, j: nat)
    requires |p| == STORES
    requires j <= |batch|
    ensures var m := Mixed(st, batch, now, p, 3 + 2 * j);
      && (p[3] <= 3 + 2 * j ==> m.totalWait == SumKept(batch, now, p[3], j))
      && (p[4] <= 3 + 2 * j ==> m.maxWait == MaxKept(batch, now, p[4], j))
    decreases j
  {
    if j == 0 {
      MixedBeforeWaits(st, batch, now, p, 3);
    } else {
      MixedWaits(st, batch, now, p, j - 1);
      NoneKeptYet(batch, now, p[3], j - 1);
      NoneKeptYet(batch, now, p[4], j - 1);
      var before := Mixed(st, batch, now, p, 1 + 2 * j);
      var mid := Mixed(st, batch, now, p, 2 + 2 * j);
      WaitUpdates(before, batch, now, j);
      WaitUpdates(mid, batch, now, j);
      assert mid == StoresAt(Update(before, batch, now, 1 + 2 * j), p, 2 + 2 * j);
      assert Mixed(st, batch, now, p, 3 + 2 * j) == StoresAt(Update(mid, batch, now, 2 + 2 * j), p, 3 + 2 * j);
    }
  }

  lemma {:induction false} MixedBeforeWaits(st: Stats, batch: seq<Request>, now: int, p: Schedule, k: nat)
    requires |p| == STORES
    requires k <= 3
    ensures p[3] <= k ==> Mixed(st, batch, now, p, k).totalWait == 0
    ensures p[4] <= k ==> Mixed(st, batch, now, p, k).maxWait == 0
    decreases k
  {
    if k != 0 {
      MixedBeforeWaits(st, batch, now, p, k - 1);
    }
  }

  lemma {:induction false} KeptBounds(batch: seq<Request>, now: int, p: Schedule, j: nat)
    requires |p| == STORES
    requires j <= |batch| && Harmless(|batch|, p)
    ensures MaxKept(batch, now, p[4], j) <= SumKept(batch, now, p[3], j) <= j * MaxKept(batch, now, p[4], j)
    decreases j
  {
    if j != 0 {
      KeptBounds(batch, now, p, j - 1);
      var sum, most := SumKept(batch, now, p[3], j - 1), MaxKept(batch, now, p[4], j - 1);
      var i := j - 1;
      assert p[3] <= 3 + 2 * i <==> p[4] <= 4 + 2 * i;
      OneMoreWait(j - 1, sum, most, if p[3] <= 1 + 2 * j then Waited(now, batch[j - 1]) else 0);
    }
  }

  /** After the whole count and all six stores. */
  lemma MixedAtTheEnd(st: Stats, batch: seq<Request>, now: int, p: Schedule)
    requires |p| == STORES
    requires forall c :: 0 <= c < STORES ==> p[c] <= Updates(batch)
    ensures var m := Mixed(st, batch, now, p, Updates(batch));
      && m.totalBatches == (if p[0] == 0 then 1 else 0)
      && m.totalRequests == (if p[1] <= 1 then |batch| else 0)
      && m.maxBatchSeen == (if p[2] <= 2 then |batch| else 0)
      && m.totalWait == SumKept(batch, now, p[3], |batch|)
      && m.maxWait == MaxKept(batch, now, p[4], |batch|)
  {
    MixedHeads(st, batch, now, p, Updates(batch));
    MixedWaits(st, batch, now, p, |batch|);
    NoneKeptYet(batch, now, p[3], |batch|);
    NoneKeptYet(batch, now, p[4], |batch|);
  }

  lemma HarmlessIsConsistent(st: Stats, batch: seq<Request>, now: int, p: Schedule, maxBatch: nat)
    requires |p| == STORES
    requires 0 < |batch| <= maxBatch && Harmless(|batch|, p)
    requires forall c :: 0 <= c < STORES ==> p[c] <= Updates(batch)
    ensures Consistent(Mixed(st, batch, now, p, Updates(batch)), maxBatch)
  {
    MixedAtTheEnd(st, batch, now, p);
    KeptBounds(batch, now, p, |batch|);
    var last := |batch| - 1;
    if p[1] > 1 {
      assert !(p[3] <= 3 + 2 * last);
      assert !(p[4] <= 4 + 2 * last);
      NoneKept(batch, now, p);
    }
  }

  lemma NoneKept(batch: seq<Request>, now: int, p: Schedule)
    requires |p| == STORES
    requires p[3] > 1 + 2 * |batch| && p[4] > 2 + 2 * |batch|
    ensures SumKept(batch, now, p[3], |batch|) == 0 && MaxKept(batch, now, p[4], |batch|) == 0
  {
    NoneKeptYet(batch, now, p[3], |batch|);
    NoneKeptYet(batch, now, p[4], |batch|);
  }

  // The other direction: a batch of which only request `j` has waited, one microsecond.

  function OneWaiter(n: nat, j: nat): (batch: seq<Request>)
    ensures |batch| == n
    ensures forall i :: 0 <= i < n ==> Waited(0, batch[i]) == if i == j then 1 else 0
  {
    seq(n, i => Request(0, 0, [], if i == j then -1 else 0))
  }

  lemma {:induction false} OneWaiterKept(n: nat, j: nat, p: nat, i: nat)
    requires i <= n
    ensures SumKept(OneWaiter(n, j), 0, p, i) == if j < i && p <= 3 + 2 * j then 1 else 0
    ensures MaxKept(OneWaiter(n, j), 0, p, i) == if j < i && p <= 4 + 2 * j then 1 else 0
    decreases i
  {
    if i != 0 {
      OneWaiterKept(n, j, p, i - 1);
    }
  }

  /** Whatever the requests of the batch have waited, the counters are consistent afterwards. */
  ghost predicate AlwaysConsistent(st: Stats, n: nat, p: Schedule, maxBatch: nat) {
    forall batch: seq<Request>, now: int ::
      |batch| == n ==> Consistent(Mixed(st, batch, now, p, Updates(batch)), maxBatch)
  }

  lemma ConsistentIsHarmless(st: Stats, n: nat, p: Schedule, maxBatch: nat, j: nat)
    requires |p| == STORES
    requires 0 < n && j < n && (forall c :: 0 <= c < STORES ==> p[c] <= 3 + 2 * n)
    requires AlwaysConsistent(st, n, p, maxBatch)
    ensures (p[0] == 0 <==> p[1] <= 1) && (p[0] == 0 ==> p[2] <= 2)
    ensures (p[3] <= 3 + 2 * j <==> p[4] <= 4 + 2 * j) && (p[3] <= 3 + 2 * j ==> p[1] <= 1)
  {
    var batch := OneWaiter(n, j);
    assert Consistent(Mixed(st, batch, 0, p, Updates(batch)), maxBatch);
    MixedAtTheEnd(st, batch, 0, p);
    OneWaiterKept(n, j, p[3], n);
    OneWaiterKept(n, j, p[4], n);
  }

  /** A reset overlapping the count of a batch of `n` leaves the counters consistent, whatever the
      waits, if and only if the schedule of its stores is harmless. */
  lemma OverlapIsHarmlessIff(st: Stats, n: nat, p: Schedule, maxBatch: nat)
    requires |p| == STORES
    requires 0 < n <= maxBatch && forall c :: 0 <= c < STORES ==> p[c] <= 3 + 2 * n
    ensures AlwaysConsistent(st, n, p, maxBatch) <==> Harmless(n, p)
  {
    if Harmless(n, p) {
      forall batch: seq<Request>, now: int | |batch| == n
        ensures Consistent(Mixed(st, batch, now, p, Updates(batch)), maxBatch)
      {
        HarmlessIsConsistent(st, batch, now, p, maxBatch);
      }
    }
    if AlwaysConsistent(st, n, p, maxBatch) {
      forall j | 0 <= j < n
        ensures (p[3] <= 3 + 2 * j <==> p[4] <= 4 + 2 * j) && (p[3] <= 3 + 2 * j ==> p[1] <= 1)
      {
        ConsistentIsHarmless(st, n, p, maxBatch, j);
      }
      ConsistentIsHarmless(st, n, p, maxBatch, 0);
    }
  }

  /** The same after the count, while the rest of the reset is made and the engine's time is added. */
  ghost predicate FollowedBy(s: Ledger, begun: Ledger, p: Schedule) {
    && begun.phase.Counting? && !s.phase.Counting? && s.stored == |p| % STORES
    && (forall c :: 0 <= c < |p| ==> p[c] <= Updates(begun.phase.batch))
    && var m := Mixed(begun.stats, begun.phase.batch, begun.phase.now, p, Updates(begun.phase.batch));
       s.stats.(totalExec := 0) == m.(totalExec := 0)
  }

  ghost predicate OnlyResetAndTime(steps: seq<Step>) {
    forall i :: 0 <= i < |steps| ==> steps[i].StoreNext? || steps[i].AddTime?
  }

  lemma StoreFollowedBy(s: Ledger, begun: Ledger, p: Schedule)
    requires FollowedBy(s, begun, p) && |p| < STORES
    ensures FollowedBy(Apply(s, StoreNext), begun, p + [Updates(begun.phase.batch)])
  {
    StoreIsMixedIn(begun.stats, begun.phase.batch, begun.phase.now, p, Updates(begun.phase.batch));
  }

  lemma {:induction false} TheRestIsScheduled(begun: Ledger, ended: Ledger, p0: Schedule, tail: seq<Step>)
    returns (p: Schedule)
    requires FollowedBy(ended, begun, p0) && Runs(ended, tail) && OnlyResetAndTime(tail)
    requires |p0| + StoreSteps(tail) <= STORES
    ensures |p| == |p0| + StoreSteps(tail) && FollowedBy(After(ended, tail), begun, p)
    decreases |tail|
  {
    if tail == [] {
      p := p0;
    } else {
      var n := |tail| - 1;
      p := TheRestIsScheduled(begun, ended, p0, tail[..n]);
      if tail[n].StoreNext? {
        StoreFollowedBy(After(ended, tail[..n]), begun, p);
        p := p + [Updates(begun.phase.batch)];
      }
    }
  }

  lemma EndFollows(s: Ledger, begun: Ledger, p: Schedule)
    requires Follows(s, begun, p) && Enabled(s, EndCount)
    ensures FollowedBy(Apply(s, EndCount), begun, p)
  {
  }

  /** At the end the harmless schedules are exactly those that agree. */
  lemma FollowedToTheEnd(end: Ledger, begun: Ledger, p: Schedule)
    requires |p| == STORES && FollowedBy(end, begun, p) && 0 < |begun.phase.batch| <= begun.maxBatch
    ensures Harmless(|begun.phase.batch|, p) ==> Consistent(end.stats, begun.maxBatch)
    ensures AlwaysConsistent(begun.stats, |begun.phase.batch|, p, begun.maxBatch) <==> Harmless(|begun.phase.batch|, p)
  {
    OverlapIsHarmlessIff(begun.stats, |begun.phase.batch|, p, begun.maxBatch);
    if Harmless(|begun.phase.batch|, p) {
      HarmlessIsConsistent(begun.stats, begun.phase.batch, begun.phase.now, p, begun.maxBatch);
    }
  }

  /** A count and one reset that may begin before it, inside it or after it, and end inside it or after
      it: whatever the interleaving, the counters are consistent in the end when the schedule the run
      followed is harmless, and for any other schedule some waits break them. */
  lemma OverlappingRun(begun: Ledger, steps: seq<Step>, counted: Ledger, tail: seq<Step>, end: Ledger)
    returns (p: Schedule)
    requires JustBegun(begun) && 0 < |begun.phase.batch| <= begun.maxBatch
    requires Runs(begun, steps) && OnlyCountAndReset(steps) && After(begun, steps) == counted
    requires Enabled(counted, EndCount) && Runs(Apply(counted, EndCount), tail) && OnlyResetAndTime(tail)
    requires After(Apply(counted, EndCount), tail) == end
    requires begun.stored + StoreSteps(steps) + StoreSteps(tail) == STORES
    ensures |p| == STORES && FollowedBy(end, begun, p) && end.stored == 0
    ensures Harmless(|begun.phase.batch|, p) ==> Consistent(end.stats, begun.maxBatch)
    ensures AlwaysConsistent(begun.stats, |begun.phase.batch|, p, begun.maxBatch) <==> Harmless(|begun.phase.batch|, p)
  {
    p := EveryInterleavingIsScheduled(begun, steps);
    EndFollows(counted, begun, p);
    p := TheRestIsScheduled(begun, Apply(counted, EndCount), p, tail);
    FollowedToTheEnd(end, begun, p);
  }

  lemma Extend(s: Ledger, steps: seq<Step>, mid: Ledger, step: Step) returns (longer: seq<Step>, end: Ledger)
    requires Runs(s, steps) && After(s, steps) == mid && Enabled(mid, step)
    ensures Runs(s, longer) && After(s, longer) == end == Apply(mid, step)
  {
    longer, end := steps + [step], Apply(mid, step);
    assert longer[..|steps|] == steps;
  }

  lemma OneUpdate(s: Ledger)
    requires Enabled(s, UpdateNext)
    ensures var s' := Apply(s, UpdateNext);
      && s'.phase == s.phase.(next := s.phase.next + 1) && s'.stored == s.stored
      && s'.stats.totalBatches == s.stats.totalBatches + if s.phase.next == 0 then 1 else 0
  {
  }

  /** The rest of a count, undisturbed. */
  lemma {:induction false} FinishCount(init: Ledger, steps: seq<Step>, s: Ledger)
    returns (longer: seq<Step>, end: Ledger)
    requires Runs(init, steps) && After(init, steps) == s
    requires s.phase.Counting? && s.phase.next <= Updates(s.phase.batch)
    ensures Runs(init, longer) && After(init, longer) == end
    ensures Enabled(end, EndCount) && end.stored == s.stored
    ensures end.stats.totalBatches == s.stats.totalBatches + if s.phase.next == 0 then 1 else 0
    decreases Updates(s.phase.batch) - s.phase.next
  {
    longer, end := steps, s;
    if s.phase.next < Updates(s.phase.batch) {
      longer, end := Extend(init, steps, s, UpdateNext);
      OneUpdate(s);
      longer, end := FinishCount(init, longer, end);
    }
  }

  /** The rest of a reset that has cleared the batches already, outside a count. */
  lemma {:induction false} FinishReset(init: Ledger, steps: seq<Step>, s: Ledger)
    returns (longer: seq<Step>, end: Ledger)
    requires Runs(init, steps) && After(init, steps) == s && !s.phase.Counting? && 0 < s.stored < STORES
    requires s.stored > 1 ==> s.stats.totalRequests == 0
    ensures Runs(init, longer) && After(init, longer) == end && end.phase == s.phase && end.stored == 0
    ensures end.stats.totalBatches == s.stats.totalBatches && end.stats.totalRequests == 0
    decreases STORES - s.stored
  {
    longer, end := Extend(init, steps, s, StoreNext);
    if end.stored != 0 {
      longer, end := FinishReset(init, longer, end);
    }
  }

  /** A run that goes wrong: a reset has cleared the batches when a batch is counted, and clears the rest
      afterwards. At rest one batch and no request is on the books. */
  lemma OverlapCanBreak(maxBatch: nat, batch: seq<Request>, now: int) returns (steps: seq<Step>, s: Ledger)
    requires 0 < |batch| <= maxBatch
    ensures Runs(Init(maxBatch), steps) && s == After(Init(maxBatch), steps)
    ensures !s.phase.Counting? && s.stored == 0 && s.stats.totalBatches == 1 && s.stats.totalRequests == 0
    ensures !Consistent(s.stats, maxBatch)
  {
    var init := Init(maxBatch);
    steps, s := Extend(init, [], init, StoreNext);
    steps, s := Extend(init, steps, s, BeginCount(batch, now));
    steps, s := FinishCount(init, steps, s);
    steps, s := Extend(init, steps, s, EndCount);
    steps, s := FinishReset(init, steps, s);
  }

  // ---- any number of counts and resets ----

  /** What each counter holds after these operations, given the waits: the operations since its own last
      store. */
  function BatchesIn(log: seq<Event>): nat {
    if log == [] then 0 else
      var before := BatchesIn(log[..|log| - 1]);
      match log[|log| - 1] case Stored(0) => 0 case BatchAdded => before + 1 case _ => before
  }

  function RequestsIn(log: seq<Event>): nat {
    if log == [] then 0 else
      var before := RequestsIn(log[..|log| - 1]);
      match log[|log| - 1] case Stored(1) => 0 case RequestsAdded(n) => before + n case _ => before
  }

  function LargestIn(log: seq<Event>): nat {
    if log == [] then 0 else
      var before := LargestIn(log[..|log| - 1]);
      match log[|log| - 1] case Stored(2) => 0 case BatchRaised(n) => Max(before, n) case _ => before
  }

  /** The requests whose wait is in the total, and those whose wait is in the maximum. */
  function AddedIn(log: seq<Event>): seq<nat> {
    if log == [] then [] else
      var before := AddedIn(log[..|log| - 1]);
      match log[|log| - 1] case Stored(3) => [] case WaitAdded(r) => before + [r] case _ => before
  }

  function RaisedIn(log: seq<Event>): seq<nat> {
    if log == [] then [] else
      var before := RaisedIn(log[..|log| - 1]);
      match log[|log| - 1] case Stored(4) => [] case WaitRaised(r) => before + [r] case _ => before
  }

  function Total(w: nat -> nat, rs: seq<nat>): nat {
    if rs == [] then 0 else Total(w, rs[..|rs| - 1]) + w(rs[|rs| - 1])
  }

  function Most(w: nat -> nat, rs: seq<nat>): nat {
    if rs == [] then 0 else Max(Most(w, rs[..|rs| - 1]), w(rs[|rs| - 1]))
  }

  function Books(log: seq<Event>, w: nat -> nat): Stats {
    Stats(BatchesIn(log), RequestsIn(log), LargestIn(log), Total(w, AddedIn(log)), Most(w, RaisedIn(log)), 0)
  }

  /** The operations done are harmless: the surviving heads bound each other, the requests in the total
      are those in the maximum, and they are no more than the requests counted. */
  ghost predicate HarmlessLog(log: seq<Event>, maxBatch: nat) {
    && BatchesIn(log) <= RequestsIn(log) <= BatchesIn(log) * LargestIn(log) && LargestIn(log) <= maxBatch
    && (forall r :: r in AddedIn(log) <==> r in RaisedIn(log))
    && |AddedIn(log)| <= RequestsIn(log)
  }

  lemma {:induction false} MostBounds(w: nat -> nat, rs: seq<nat>)
    ensures forall r :: r in rs ==> w(r) <= Most(w, rs)
    ensures rs != [] ==> exists r :: r in rs && Most(w, rs) == w(r)
    decreases |rs|
  {
    if rs != [] {
      var n := |rs| - 1;
      MostBounds(w, rs[..n]);
      assert rs == rs[..n] + [rs[n]];
      assert rs[n] in rs;
    }
  }

  lemma {:induction false} TotalBounds(w: nat -> nat, rs: seq<nat>, most: nat)
    requires forall r :: r in rs ==> w(r) <= most
    ensures Total(w, rs) <= |rs| * most
    ensures forall r :: r in rs ==> w(r) <= Total(w, rs)
    decreases |rs|
  {
    if rs != [] {
      var n := |rs| - 1;
      assert rs == rs[..n] + [rs[n]];
      TotalBounds(w, rs[..n], most);
      assert |rs| * most == n * most + most;
    }
  }

  lemma WaitsAgree(w: nat -> nat, added: seq<nat>, raised: seq<nat>, requests: nat)
    requires (forall r :: r in added <==> r in raised) && |added| <= requests
    ensures Most(w, raised) <= Total(w, added) <= requests * Most(w, raised)
  {
    var most := Most(w, raised);
    MostBounds(w, raised);
    assert forall r :: r in added ==> w(r) <= most;
    TotalBounds(w, added, most);
    MulMono(most, |added|, requests);
    assert most * |added| == |added| * most && most * requests == requests * most;
    if raised != [] {
      var r :| r in raised && Most(w, raised) == w(r);
      assert r in added;
    }
  }

  lemma {:induction false} OnlyOne(rs: seq<nat>, r: nat)
    ensures var w := (k: nat) => if k == r then 1 else 0;
            (Total(w, rs) > 0 <==> r in rs) && Most(w, rs) == if r in rs then 1 else 0
    decreases |rs|
  {
    if rs != [] {
      var n := |rs| - 1;
      OnlyOne(rs[..n], r);
      assert rs == rs[..n] + [rs[n]];
    }
  }

  lemma {:induction false} AllOnes(rs: seq<nat>)
    ensures var w := (k: nat) => 1; Total(w, rs) == |rs| && Most(w, rs) == if rs == [] then 0 else 1
    decreases |rs|
  {
    if rs != [] {
      AllOnes(rs[..|rs| - 1]);
    }
  }

  ghost predicate WaitsAlwaysAgree(added: seq<nat>, raised: seq<nat>, requests: nat) {
    forall w: nat -> nat :: Most(w, raised) <= Total(w, added) <= requests * Most(w, raised)
  }

  lemma SameRequests(added: seq<nat>, raised: seq<nat>, requests: nat, r: nat)
    requires WaitsAlwaysAgree(added, raised, requests)
    ensures r in added <==> r in raised
  {
    var one: nat -> nat := (k: nat) => if k == r then 1 else 0;
    OnlyOne(added, r);
    OnlyOne(raised, r);
    assert Most(one, raised) <= Total(one, added) <= requests * Most(one, raised);
  }

  lemma EnoughRequests(added: seq<nat>, raised: seq<nat>, requests: nat)
    requires WaitsAlwaysAgree(added, raised, requests)
    ensures |added| <= requests
  {
    var ones: nat -> nat := (k: nat) => 1;
    AllOnes(added);
    AllOnes(raised);
    assert Most(ones, raised) <= Total(ones, added) <= requests * Most(ones, raised);
  }

  lemma WaitsAgreeIff(added: seq<nat>, raised: seq<nat>, requests: nat)
    ensures WaitsAlwaysAgree(added, raised, requests) <==>
            (forall r :: r in added <==> r in raised) && |added| <= requests
  {
    if (forall r :: r in added <==> r in raised) && |added| <= requests {
      forall w: nat -> nat ensures Most(w, raised) <= Total(w, added) <= requests * Most(w, raised) {
        WaitsAgree(w, added, raised, requests);
      }
    }
    if WaitsAlwaysAgree(added, raised, requests) {
      forall r ensures r in added <==> r in raised {
        SameRequests(added, raised, requests, r);
      }
      EnoughRequests(added, raised, requests);
    }
  }

  /** Consistent whatever the requests have waited. */
  ghost predicate BooksAlwaysAgree(log: seq<Event>, maxBatch: nat) {
    forall w: nat -> nat :: Consistent(Books(log, w), maxBatch)
  }

  /** After any number of counts and resets, interleaved in any way: the counters are consistent whatever
      the waits if and only if the operations done are harmless. */
  lemma BooksAgreeIff(log: seq<Event>, maxBatch: nat)
    ensures BooksAlwaysAgree(log, maxBatch) <==> HarmlessLog(log, maxBatch)
  {
    var added, raised, requests := AddedIn(log), RaisedIn(log), RequestsIn(log);
    WaitsAgreeIff(added, raised, requests);
    if BooksAlwaysAgree(log, maxBatch) {
      assert Consistent(Books(log, (k: nat) => 0), maxBatch);
      forall w: nat -> nat ensures Most(w, raised) <= Total(w, added) <= requests * Most(w, raised) {
        assert Consistent(Books(log, w), maxBatch);
      }
    }
  }

  // ---- the log of a run is its books ----

  function WaitOf(waits: seq<nat>): nat -> nat { (r: nat) => if r < |waits| then waits[r] else 0 }

  ghost predicate NamesBelow(rs: seq<nat>, n: nat) { forall i :: 0 <= i < |rs| ==> rs[i] < n }

  lemma {:induction false} MoreWaits(rs: seq<nat>, waits: seq<nat>, more: seq<nat>)
    requires NamesBelow(rs, |waits|)
    ensures Total(WaitOf(waits + more), rs) == Total(WaitOf(waits), rs)
    ensures Most(WaitOf(waits + more), rs) == Most(WaitOf(waits), rs)
    decreases |rs|
  {
    if rs != [] {
      MoreWaits(rs[..|rs| - 1], waits, more);
    }
  }

  ghost predicate Logged(s: Ledger) {
    && s.stored < STORES
    && s.stats.(totalExec := 0) == Books(s.log, WaitOf(s.waits))
    && NamesBelow(AddedIn(s.log), |s.waits|) && NamesBelow(RaisedIn(s.log), |s.waits|)
    && (s.phase.Counting? ==>
          && s.phase.first + |s.phase.batch| == |s.waits|
          && forall j :: 0 <= j < |s.phase.batch| ==>
               s.waits[s.phase.first + j] == Waited(s.phase.now, s.phase.batch[j]))
  }

  lemma LoggedBegin(s: Ledger, batch: seq<Request>, now: int)
    requires Logged(s) && Enabled(s, BeginCount(batch, now))
    ensures Logged(Apply(s, BeginCount(batch, now)))
  {
    MoreWaits(AddedIn(s.log), s.waits, WaitsOf(batch, now));
    MoreWaits(RaisedIn(s.log), s.waits, WaitsOf(batch, now));
  }

  lemma TotalSnoc(w: nat -> nat, rs: seq<nat>, r: nat)
    ensures Total(w, rs + [r]) == Total(w, rs) + w(r) && Most(w, rs + [r]) == Max(Most(w, rs), w(r))
  {
    assert (rs + [r])[..|rs|] == rs;
  }

  /** One more operation on the books. */
  function Entered(st: Stats, e: Event, w: nat -> nat): Stats {
    match e
    case BatchAdded => st.(totalBatches := st.totalBatches + 1)
    case RequestsAdded(n) => st.(totalRequests := st.totalRequests + n)
    case BatchRaised(n) => st.(maxBatchSeen := Max(st.maxBatchSeen, n))
    case WaitAdded(r) => st.(totalWait := st.totalWait + w(r))
    case WaitRaised(r) => st.(maxWait := Max(st.maxWait, w(r)))
    case Stored(c) => Store(st, c)
  }

  lemma BooksSnoc(log: seq<Event>, e: Event, w: nat -> nat)
    ensures Books(log + [e], w) == Entered(Books(log, w), e, w)
  {
    assert (log + [e])[..|log|] == log;
    match e
    case WaitAdded(r) => TotalSnoc(w, AddedIn(log), r);
    case WaitRaised(r) => TotalSnoc(w, RaisedIn(log), r);
    case _ =>
  }

  predicate Names(e: Event, n: nat) { (e.WaitAdded? || e.WaitRaised?) ==> e.r < n }

  lemma NamesSnoc(log: seq<Event>, e: Event, n: nat)
    requires NamesBelow(AddedIn(log), n) && NamesBelow(RaisedIn(log), n) && Names(e, n)
    ensures NamesBelow(AddedIn(log + [e]), n) && NamesBelow(RaisedIn(log + [e]), n)
  {
    assert (log + [e])[..|log|] == log;
  }

  lemma LoggedStore(s: Ledger)
    requires Logged(s)
    ensures Logged(Apply(s, StoreNext))
  {
    BooksSnoc(s.log, Stored(s.stored), WaitOf(s.waits));
    NamesSnoc(s.log, Stored(s.stored), |s.waits|);
  }

  lemma UpdateIsEvent(st: Stats, batch: seq<Request>, now: int, first: nat, k: nat, w: nat -> nat)
    requires k < Updates(batch)
    requires forall j :: 0 <= j < |batch| ==> w(first + j) == Waited(now, batch[j])
    ensures Update(st, batch, now, k) == Entered(st, UpdateEvent(|batch|, first, k), w)
    ensures Names(UpdateEvent(|batch|, first, k), first + |batch|)
  {
    if k >= 3 {
      var j := (k - 3) / 2;
      assert j < |batch|;
      assert w(first + j) == Waited(now, batch[j]);
    }
  }

  lemma EnteredKeepsTime(st: Stats, e: Event, w: nat -> nat)
    ensures Entered(st, e, w).(totalExec := 0) == Entered(st.(totalExec := 0), e, w)
  {
  }

  lemma LoggedUpdate(s: Ledger)
    requires Logged(s) && Enabled(s, UpdateNext)
    ensures Logged(Apply(s, UpdateNext))
  {
    var p, w := s.phase, WaitOf(s.waits);
    var e := UpdateEvent(|p.batch|, p.first, p.next);
    assert forall j :: 0 <= j < |p.batch| ==> w(p.first + j) == Waited(p.now, p.batch[j]);
    UpdateIsEvent(s.stats, p.batch, p.now, p.first, p.next, w);
    EnteredKeepsTime(s.stats, e, w);
    BooksSnoc(s.log, e, w);
    NamesSnoc(s.log, e, |s.waits|);
  }

  lemma LoggedStep(s: Ledger, step: Step)
    requires Logged(s) && Enabled(s, step)
    ensures Logged(Apply(s, step)) && Apply(s, step).maxBatch == s.maxBatch
  {
    if step.BeginCount? {
      LoggedBegin(s, step.batch, step.now);
    } else if step.StoreNext? {
      LoggedStore(s);
    } else if step.UpdateNext? {
      LoggedUpdate(s);
    }
  }

  /** Every run, at every moment, with any number of counts and resets in any interleaving: the counters
      are the books of the operations done, and they are consistent whatever the waits if and only if
      these operations are harmless. */
  lemma {:induction false} EveryRunIsLogged(maxBatch: nat, steps: seq<Step>)
    requires Runs(Init(maxBatch), steps)
    ensures var s := After(Init(maxBatch), steps);
      && Logged(s) && s.maxBatch == maxBatch
      && (HarmlessLog(s.log, maxBatch) ==> Consistent(s.stats, maxBatch))
      && (BooksAlwaysAgree(s.log, maxBatch) <==> HarmlessLog(s.log, maxBatch))
    decreases |steps|
  {
    if steps != [] {
      var n := |steps| - 1;
      EveryRunIsLogged(maxBatch, steps[..n]);
      LoggedStep(After(Init(maxBatch), steps[..n]), steps[n]);
    }
    var s := After(Init(maxBatch), steps);
    BooksAgreeIff(s.log, maxBatch);
    if HarmlessLog(s.log, maxBatch) {
      assert Consistent(Books(s.log, WaitOf(s.waits)), maxBatch);
    }
  }

  // ---- a harmful order of operations does harm in some run ----

  /** Requests that have waited `w(first)`, `w(first + 1)`, ... at time zero. */
  function Waiters(w: nat -> nat, first: nat, n: nat): (batch: seq<Request>)
    ensures |batch| == n
    ensures forall i :: 0 <= i < n ==> Waited(0, batch[i]) == w(first + i)
  {
    seq(n, i requires i >= 0 => Request(0, 0, [], -(w(first + i) as int)))
  }

  /** The step, with the waits of a batch chosen by `w`. */
  function Rewaited(s: Ledger, step: Step, w: nat -> nat): Step {
    if step.BeginCount? then BeginCount(Waiters(w, |s.waits|, |step.batch|), 0) else step
  }

  /** Alike but for the waits, those of `s'` being given by `w`. */
  ghost predicate Alike(s: Ledger, s': Ledger, w: nat -> nat) {
    && s'.maxBatch == s.maxBatch && s'.stored == s.stored && s'.log == s.log && |s'.waits| == |s.waits|
    && (forall r :: 0 <= r < |s'.waits| ==> s'.waits[r] == w(r))
    && match s.phase
       case Counting(batch, _, next, _, first) =>
         s'.phase.Counting? && |s'.phase.batch| == |batch| && s'.phase.next == next && s'.phase.first == first
       case Outside => s'.phase.Outside?
       case InEngine => s'.phase.InEngine?
  }

  lemma AlikeStep(s: Ledger, s': Ledger, step: Step, w: nat -> nat)
    requires Alike(s, s', w) && Enabled(s, step)
    ensures Enabled(s', Rewaited(s', step, w)) && Alike(Apply(s, step), Apply(s', Rewaited(s', step, w)), w)
  {
  }

  /** Every run has a twin with the same operations in the same order and any waits whatever. */
  lemma {:induction false} TwinRun(maxBatch: nat, steps: seq<Step>, w: nat -> nat) returns (twin: seq<Step>)
    requires Runs(Init(maxBatch), steps)
    ensures Runs(Init(maxBatch), twin) && Alike(After(Init(maxBatch), steps), After(Init(maxBatch), twin), w)
    decreases |steps|
  {
    twin := [];
    if steps != [] {
      var n := |steps| - 1;
      twin := TwinRun(maxBatch, steps[..n], w);
      var s, s' := After(Init(maxBatch), steps[..n]), After(Init(maxBatch), twin);
      AlikeStep(s, s', steps[n], w);
      var end;
      twin, end := Extend(Init(maxBatch), twin, s', Rewaited(s', steps[n], w));
    }
  }

  lemma {:induction false} SameWaits(rs: seq<nat>, waits: seq<nat>, w: nat -> nat)
    requires NamesBelow(rs, |waits|) && forall r :: 0 <= r < |waits| ==> waits[r] == w(r)
    ensures Total(WaitOf(waits), rs) == Total(w, rs) && Most(WaitOf(waits), rs) == Most(w, rs)
    decreases |rs|
  {
    if rs != [] {
      SameWaits(rs[..|rs| - 1], waits, w);
    }
  }

  lemma TwinBooks(s: Ledger, w: nat -> nat)
    requires Logged(s) && forall r :: 0 <= r < |s.waits| ==> s.waits[r] == w(r)
    ensures s.stats.(totalExec := 0) == Books(s.log, w)
  {
    SameWaits(AddedIn(s.log), s.waits, w);
    SameWaits(RaisedIn(s.log), s.waits, w);
  }

  /** Every order of operations that is not harmless ends in counters that contradict each other, in some
      run with exactly these operations. */
  lemma HarmfulOrderBreaks(maxBatch: nat, steps: seq<Step>) returns (twin: seq<Step>)
    requires Runs(Init(maxBatch), steps) && !HarmlessLog(After(Init(maxBatch), steps).log, maxBatch)
    ensures Runs(Init(maxBatch), twin)
    ensures After(Init(maxBatch), twin).log == After(Init(maxBatch), steps).log
    ensures !Consistent(After(Init(maxBatch), twin).stats, maxBatch)
  {
    var log := After(Init(maxBatch), steps).log;
    BooksAgreeIff(log, maxBatch);
    var w: nat -> nat :| !Consistent(Books(log, w), maxBatch);
    twin := TwinRun(maxBatch, steps, w);
    EveryRunIsLogged(maxBatch, twin);
    TwinBooks(After(Init(maxBatch), twin), w);
  }
}
