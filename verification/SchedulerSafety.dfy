/** What every reachable state of the batcher satisfies. */
module SchedulerSafety {
  import opened Basics
  import opened Tensor
  import opened Scheduler

  /** Requests the worker holds: drained and not yet resolved, in queue order. */
  function Held(w: Worker): seq<Request> {
    match w
    case Filtering(d, n, b) => if n <= |d| then b + d[n..] else b
    case Computing(b) => b
    case Delivering(b, _, n) => if n <= |b| then b[n..] else []
    case Failing(b, _, n) => if n <= |b| then b[n..] else []
    case _ => []
  }

  function Upto(n: nat): (ts: set<nat>)
    ensures forall t: nat :: t in ts <==> t < n
  {
    if n == 0 then {} else Upto(n - 1) + {n - 1}
  }

  function Taken(s: State): int { |s.accepted| - |s.queue| }

  ghost predicate Increasing(rs: seq<Request>) {
    forall i, j :: 0 <= i < j < |rs| ==> rs[i].ticket < rs[j].ticket
  }

  /** Each request is the accepted one its ticket names. */
  ghost predicate Genuine(rs: seq<Request>, accepted: seq<Request>) {
    forall i :: 0 <= i < |rs| ==> rs[i].ticket < |accepted| && rs[i] == accepted[rs[i].ticket]
  }

  /** First in, first out: the drained batches in order, then the queue, are the accepted pushes. */
  ghost predicate InOrder(maxBatch: nat, accepted: seq<Request>, drains: seq<seq<Request>>, queue: seq<Request>) {
    && Concat(drains) + queue == accepted
    && (forall i :: 0 <= i < |drains| ==> 0 < |drains[i]| <= maxBatch)
    && (forall i :: 0 <= i < |accepted| ==> accepted[i].ticket == i)
  }

  ghost predicate Fifo(s: State) { InOrder(s.cfg.maxBatch, s.accepted, s.drains, s.queue) }

  /** Of the first `taken` accepted requests each is either held or resolved, and not both. */
  ghost predicate Placed(accepted: seq<Request>, taken: nat, held: seq<Request>, promises: map<nat, Outcome>) {
    && Increasing(held)
    && Genuine(held, accepted)
    && promises.Keys !! TicketsOf(held)
    && promises.Keys + TicketsOf(held) == Upto(taken)
  }

  ghost predicate Placement(s: State) {
    Taken(s) >= 0 && !s.setTwice && Placed(s.accepted, Taken(s), Held(s.worker), s.promises)
  }

  ghost predicate AllWellSized(cfg: Config, rs: seq<Request>) {
    forall i :: 0 <= i < |rs| ==> WellSized(cfg, rs[i])
  }

  ghost predicate Shape(cfg: Config, w: Worker) {
    match w
    case Filtering(d, n, b) => n <= |d| && |d| <= cfg.maxBatch && |b| <= n && AllWellSized(cfg, b)
    case Computing(b) => 0 < |b| <= cfg.maxBatch && AllWellSized(cfg, b)
    case Delivering(b, out, n) =>
      n < |b| <= cfg.maxBatch && AllWellSized(cfg, b) && |out| == |b| * cfg.outputElems
    case Failing(b, e, n) => n < |b| <= cfg.maxBatch && AllWellSized(cfg, b) && e != WrongInputSize
    case _ => true
  }

  /** The flags agree with where the worker and the stopping thread stand; in particular an empty
      drain means shutdown was requested, nothing is queued and running_ is already false. */
  ghost predicate Flags(s: State) {
    && (s.stopRequested <==> s.stopper.ShutDown? || s.stopper.Joined?)
    && (s.running <==> !s.worker.NotStarted? && s.stopper.NotStopping?)
    && (s.worker.Window? ==> s.queue != [])
    && (s.worker.EmptyDrain? || s.worker.Exited? ==> s.stopRequested && s.queue == [])
    && (s.stopper.Joined? ==> s.worker.Exited? || s.worker.NotStarted?)
  }

  /** What a caller may find in its future. */
  ghost predicate Justified(cfg: Config, r: Request, o: Outcome) {
    if WellSized(cfg, r) then
      match o
      case Value(id, logits) => id == r.id && |logits| == cfg.outputElems
      case Exception(e) => e != WrongInputSize
    else o == Exception(WrongInputSize)
  }

  ghost predicate Outcomes(s: State) {
    forall t :: t in s.promises ==> t < |s.accepted| && Justified(s.cfg, s.accepted[t], s.promises[t])
  }

  ghost predicate Inv(s: State) {
    && s.cfg.maxBatch >= 1
    && Fifo(s)
    && Placement(s)
    && Shape(s.cfg, s.worker)
    && Flags(s)
    && Outcomes(s)
  }

  // ---- one step at a time ----

  lemma ConcatSnoc<T>(rows: seq<seq<T>>, row: seq<T>)
    ensures Concat(rows + [row]) == Concat(rows) + row
  {
    assert (rows + [row])[..|rows|] == rows;
  }

  /** What a step does to the queue and its history. */
  lemma QueueEffect(s: State, step: Step)
    requires Enabled(s, step)
    ensures var s' := Apply(s, step);
      && s'.cfg == s.cfg
      && match step
         case Drain =>
           var k := Min(s.cfg.maxBatch, |s.queue|);
           s'.accepted == s.accepted && s'.drains == s.drains + [s.queue[..k]] && s'.queue == s.queue[k..]
         case Submit(id, input, arrival) =>
           var more := if s.stopRequested then [] else [Request(|s.accepted|, id, input, arrival)];
           s'.accepted == s.accepted + more && s'.drains == s.drains && s'.queue == s.queue + more
         case _ => s'.accepted == s.accepted && s'.drains == s.drains && s'.queue == s.queue
  {
  }

  lemma InOrderDrain(maxBatch: nat, accepted: seq<Request>, drains: seq<seq<Request>>, queue: seq<Request>, k: nat)
    requires InOrder(maxBatch, accepted, drains, queue) && 0 < k <= maxBatch && k <= |queue|
    ensures InOrder(maxBatch, accepted, drains + [queue[..k]], queue[k..])
  {
    ConcatSnoc(drains, queue[..k]);
    assert queue == queue[..k] + queue[k..];
    assert Concat(drains) + queue[..k] + queue[k..] == Concat(drains) + queue;
  }

  lemma InOrderPush(maxBatch: nat, accepted: seq<Request>, drains: seq<seq<Request>>, queue: seq<Request>, r: Request)
    requires InOrder(maxBatch, accepted, drains, queue) && r.ticket == |accepted|
    ensures InOrder(maxBatch, accepted + [r], drains, queue + [r])
  {
    assert Concat(drains) + (queue + [r]) == (Concat(drains) + queue) + [r];
  }

  lemma FifoStep(s: State, step: Step)
    requires s.cfg.maxBatch >= 1 && Fifo(s) && Flags(s) && Enabled(s, step)
    ensures Fifo(Apply(s, step))
  {
    QueueEffect(s, step);
    if step.Drain? {
      InOrderDrain(s.cfg.maxBatch, s.accepted, s.drains, s.queue, Min(s.cfg.maxBatch, |s.queue|));
    } else if step.Submit? && !s.stopRequested {
      InOrderPush(s.cfg.maxBatch, s.accepted, s.drains, s.queue,
                  Request(|s.accepted|, step.id, step.input, step.arrival));
    }
  }

  lemma ShapeFilters(s: State, step: Step)
    requires Shape(s.cfg, s.worker) && Enabled(s, step) && (step.Drain? || step.FilterOne? || step.FilterDone?)
    ensures Shape(s.cfg, Apply(s, step).worker)
  {
  }

  lemma ShapeAnswers(s: State, step: Step)
    requires Shape(s.cfg, s.worker) && Enabled(s, step) && !(step.Drain? || step.FilterOne? || step.FilterDone?)
    ensures Shape(s.cfg, Apply(s, step).worker)
  {
  }

  lemma ShapeStep(s: State, step: Step)
    requires Shape(s.cfg, s.worker) && Enabled(s, step)
    ensures Shape(Apply(s, step).cfg, Apply(s, step).worker)
  {
    QueueEffect(s, step);
    if step.Drain? || step.FilterOne? || step.FilterDone? {
      ShapeFilters(s, step);
    } else {
      ShapeAnswers(s, step);
    }
  }

  lemma FlagsStep(s: State, step: Step)
    requires s.cfg.maxBatch >= 1 && Flags(s) && Enabled(s, step)
    ensures Flags(Apply(s, step))
  {
  }

  lemma MembersWithout(held: seq<Request>, i: nat, held': seq<Request>)
    requires i < |held| && held' == held[..i] + held[i + 1..]
    requires forall j :: 0 <= j < |held| && j != i ==> held[j] != held[i]
    ensures forall r :: r in held' <==> r in held && r != held[i]
  {
    forall r | r in held && r != held[i] ensures r in held' {
      var j :| 0 <= j < |held| && held[j] == r;
      assert r == held'[if j < i then j else j - 1];
    }
  }

  lemma TicketsWithout(held: seq<Request>, i: nat, held': seq<Request>)
    requires Increasing(held) && i < |held| && held' == held[..i] + held[i + 1..]
    ensures TicketsOf(held') == TicketsOf(held) - {held[i].ticket}
    ensures held[i].ticket in TicketsOf(held)
  {
    MembersWithout(held, i, held');
    assert held[i] in held;
    forall r | r in held && r != held[i] ensures r.ticket != held[i].ticket {
      var j :| 0 <= j < |held| && held[j] == r;
    }
  }

  lemma SeqWithout(accepted: seq<Request>, held: seq<Request>, i: nat, held': seq<Request>)
    requires Increasing(held) && Genuine(held, accepted)
    requires i < |held| && held' == held[..i] + held[i + 1..]
    ensures Increasing(held') && Genuine(held', accepted)
  {
    assert forall j :: 0 <= j < |held'| ==> held'[j] == if j < i then held[j] else held[j + 1];
  }

  /** Taking the request at position `i` out of the held ones and resolving it. */
  lemma PlacedResolve(accepted: seq<Request>, taken: nat, held: seq<Request>, promises: map<nat, Outcome>,
                      i: nat, held': seq<Request>, o: Outcome)
    requires Placed(accepted, taken, held, promises) && i < |held|
    requires held' == held[..i] + held[i + 1..]
    ensures held[i].ticket !in promises
    ensures Placed(accepted, taken, held', promises[held[i].ticket := o])
  {
    var t := held[i].ticket;
    var keys, tickets := promises.Keys, TicketsOf(held);
    TicketsWithout(held, i, held');
    SeqWithout(accepted, held, i, held');
    assert promises[t := o].Keys == keys + {t};
    assert (keys + {t}) + (tickets - {t}) == keys + tickets;
  }

  lemma HeldWhileFiltering(w: Worker)
    requires w.Filtering? && w.next < |w.drained|
    ensures |w.batch| < |Held(w)| && Held(w)[|w.batch|] == w.drained[w.next]
    ensures Held(Filtering(w.drained, w.next + 1, w.batch + [w.drained[w.next]])) == Held(w)
    ensures Held(Filtering(w.drained, w.next + 1, w.batch)) == Held(w)[..|w.batch|] + Held(w)[|w.batch| + 1..]
  {
    assert w.drained[w.next..] == [w.drained[w.next]] + w.drained[w.next + 1..];
  }

  /** What one pass of the size check does. */
  lemma FilterEffect(s: State)
    requires Enabled(s, FilterOne)
    ensures var w, s' := s.worker, Apply(s, FilterOne);
      var r := w.drained[w.next];
      && Taken(s') == Taken(s) && s'.accepted == s.accepted && s'.cfg == s.cfg
      && s'.stats == s.stats && s'.counted == s.counted && s'.countedAtReset == s.countedAtReset
      && if WellSized(s.cfg, r)
         then s'.worker == Filtering(w.drained, w.next + 1, w.batch + [r]) &&
              s'.promises == s.promises && s'.setTwice == s.setTwice
         else s'.worker == Filtering(w.drained, w.next + 1, w.batch) &&
              s'.promises == s.promises[r.ticket := Exception(WrongInputSize)] &&
              s'.setTwice == (s.setTwice || r.ticket in s.promises)
  {
  }

  lemma HeldOnKeep(w: Worker)
    requires w.Filtering? && w.next < |w.drained|
    ensures Held(Filtering(w.drained, w.next + 1, w.batch + [w.drained[w.next]])) == Held(w)
  {
    HeldWhileFiltering(w);
  }

  /** Placement read off the four components it speaks of. */
  lemma PlacementFrom(s: State, accepted: seq<Request>, taken: nat, held: seq<Request>, promises: map<nat, Outcome>)
    requires Placed(accepted, taken, held, promises) && !s.setTwice
    requires s.accepted == accepted && Taken(s) == taken && Held(s.worker) == held && s.promises == promises
    ensures Placement(s)
  {
  }

  lemma FilterKeeps(s: State)
    requires Placement(s) && Enabled(s, FilterOne) && WellSized(s.cfg, s.worker.drained[s.worker.next])
    ensures Placement(Apply(s, FilterOne))
  {
    FilterEffect(s);
    HeldOnKeep(s.worker);
    PlacementFrom(Apply(s, FilterOne), s.accepted, Taken(s), Held(s.worker), s.promises);
  }

  /** A held request that is not kept is resolved instead. */
  lemma PlacedReject(accepted: seq<Request>, taken: nat, w: Worker, promises: map<nat, Outcome>, o: Outcome,
                     held': seq<Request>, promises': map<nat, Outcome>)
    requires w.Filtering? && w.next < |w.drained| && Placed(accepted, taken, Held(w), promises)
    requires held' == Held(Filtering(w.drained, w.next + 1, w.batch))
    requires promises' == promises[w.drained[w.next].ticket := o]
    ensures w.drained[w.next].ticket !in promises && Placed(accepted, taken, held', promises')
  {
    HeldWhileFiltering(w);
    PlacedResolve(accepted, taken, Held(w), promises, |w.batch|, held', o);
  }

  /** `s'` differs from `s` in that the next request to check has been turned away. */
  predicate TurnedAway(s: State, s': State)
    requires s.worker.Filtering? && s.worker.next < |s.worker.drained|
  {
    var w := s.worker;
    var t := w.drained[w.next].ticket;
    && s'.accepted == s.accepted && |s'.queue| == |s.queue|
    && s'.worker == Filtering(w.drained, w.next + 1, w.batch)
    && s'.promises == s.promises[t := Exception(WrongInputSize)]
    && s'.setTwice == (s.setTwice || t in s.promises)
  }

  lemma RejectEffect(s: State)
    requires Enabled(s, FilterOne) && !WellSized(s.cfg, s.worker.drained[s.worker.next])
    ensures TurnedAway(s, Apply(s, FilterOne))
  {
  }

  lemma RejectPlaced(s: State, s': State, taken: nat)
    requires taken == Taken(s) && Placed(s.accepted, taken, Held(s.worker), s.promises)
    requires s.worker.Filtering? && s.worker.next < |s.worker.drained| && TurnedAway(s, s')
    ensures s'.setTwice == s.setTwice && Placed(s'.accepted, taken, Held(s'.worker), s'.promises)
  {
    PlacedReject(s.accepted, taken, s.worker, s.promises, Exception(WrongInputSize), Held(s'.worker), s'.promises);
  }

  lemma PlacementRejects(s: State, s': State)
    requires Placement(s) && s.worker.Filtering? && s.worker.next < |s.worker.drained| && TurnedAway(s, s')
    ensures Placement(s')
  {
    RejectPlaced(s, s', Taken(s));
  }

  lemma FilterRejects(s: State)
    requires Placement(s) && Enabled(s, FilterOne) && !WellSized(s.cfg, s.worker.drained[s.worker.next])
    ensures Placement(Apply(s, FilterOne))
  {
    RejectEffect(s);
    PlacementRejects(s, Apply(s, FilterOne));
  }

  lemma PlacementFilterOne(s: State)
    requires Placement(s) && Enabled(s, FilterOne)
    ensures Placement(Apply(s, FilterOne))
  {
    if WellSized(s.cfg, s.worker.drained[s.worker.next]) {
      FilterKeeps(s);
    } else {
      FilterRejects(s);
    }
  }

  lemma PlacedResolveFirst(accepted: seq<Request>, taken: nat, held: seq<Request>, promises: map<nat, Outcome>,
                           o: Outcome)
    requires Placed(accepted, taken, held, promises) && held != []
    ensures held[0].ticket !in promises
    ensures Placed(accepted, taken, held[1..], promises[held[0].ticket := o])
  {
    assert held[1..] == held[..0] + held[1..];
    PlacedResolve(accepted, taken, held, promises, 0, held[1..], o);
  }

  lemma PlacementResolveFirst(s: State, o: Outcome, w': Worker)
    requires Placement(s) && Held(s.worker) != [] && Held(w') == Held(s.worker)[1..]
    ensures Placement(Resolve(s, Held(s.worker)[0], o).(worker := w'))
  {
    PlacedResolveFirst(s.accepted, Taken(s), Held(s.worker), s.promises, o);
  }

  /** Resolving the first held request and moving on to the next. */
  lemma ResolveFirst(s: State, o: Outcome, w': Worker)
    requires Placement(s) && Outcomes(s) && Held(s.worker) != [] && Held(w') == Held(s.worker)[1..]
    requires Justified(s.cfg, Held(s.worker)[0], o)
    ensures Placement(Resolve(s, Held(s.worker)[0], o).(worker := w'))
    ensures Outcomes(Resolve(s, Held(s.worker)[0], o).(worker := w'))
  {
    PlacementResolveFirst(s, o, w');
    OutcomesResolve(s, Held(s.worker)[0], o);
  }

  lemma NextToDeliver(cfg: Config, w: Worker)
    requires w.Delivering? && Shape(cfg, w)
    ensures Held(w) != [] && Held(w)[0] == w.batch[w.next]
    ensures Justified(cfg, w.batch[w.next], Value(w.batch[w.next].id, RowAt(w.output, w.next, cfg.outputElems)))
    ensures Held(if w.next + 1 == |w.batch| then Waiting else Delivering(w.batch, w.output, w.next + 1)) == Held(w)[1..]
  {
    RowFits(w.next, |w.batch|, cfg.outputElems);
  }

  lemma DeliverStep(s: State)
    requires Placement(s) && Outcomes(s) && Shape(s.cfg, s.worker) && Enabled(s, DeliverOne)
    ensures Placement(Apply(s, DeliverOne)) && Outcomes(Apply(s, DeliverOne))
  {
    var w := s.worker;
    NextToDeliver(s.cfg, w);
    ResolveFirst(s, Value(w.batch[w.next].id, RowAt(w.output, w.next, s.cfg.outputElems)),
                 Apply(s, DeliverOne).worker);
  }

  lemma FailStep(s: State)
    requires Placement(s) && Outcomes(s) && Shape(s.cfg, s.worker) && Enabled(s, FailOne)
    ensures Placement(Apply(s, FailOne)) && Outcomes(Apply(s, FailOne))
  {
    var w := s.worker;
    assert Held(w)[0] == w.batch[w.next];
    ResolveFirst(s, Exception(w.error), Apply(s, FailOne).worker);
  }

  lemma TicketsOfRange(d: seq<Request>, taken: nat)
    requires forall i :: 0 <= i < |d| ==> d[i].ticket == taken + i
    ensures TicketsOf(d) == Upto(taken + |d|) - Upto(taken)
  {
    forall t | taken <= t < taken + |d| ensures t in TicketsOf(d) {
      assert d[t - taken] in d;
    }
  }

  /** `d` is a stretch of the accepted requests that starts at ticket `taken`. */
  ghost predicate Consecutive(d: seq<Request>, accepted: seq<Request>, taken: nat) {
    forall i :: 0 <= i < |d| ==> d[i].ticket == taken + i < |accepted| && d[i] == accepted[taken + i]
  }

  lemma PlacedDrain(accepted: seq<Request>, taken: nat, promises: map<nat, Outcome>, d: seq<Request>)
    requires Placed(accepted, taken, [], promises)
    requires Consecutive(d, accepted, taken)
    ensures Placed(accepted, taken + |d|, d, promises)
  {
    TicketsOfRange(d, taken);
    assert TicketsOf([]) == {};
    assert promises.Keys == Upto(taken);
    assert Upto(taken) <= Upto(taken + |d|);
  }

  lemma DrainedRange(s: State, d: seq<Request>)
    requires Fifo(s) && d <= s.queue
    ensures Taken(s) >= 0 && Consecutive(d, s.accepted, Taken(s))
  {
    FrontLength(s);
  }

  /** The next requests to be drained, seen as already held. */
  lemma DrainPlaced(s: State, d: seq<Request>)
    requires Fifo(s) && Placement(s) && s.worker.Window? && d <= s.queue
    ensures Placed(s.accepted, Taken(s) + |d|, d, s.promises)
  {
    DrainedRange(s, d);
    PlacedDrain(s.accepted, Taken(s), s.promises, d);
  }

  lemma DrainTakes(s: State, d: seq<Request>)
    requires Enabled(s, Drain) && d == s.queue[..Min(s.cfg.maxBatch, |s.queue|)]
    ensures var s' := Apply(s, Drain);
      && Held(s'.worker) == d && Taken(s') == Taken(s) + |d|
      && s'.accepted == s.accepted && s'.promises == s.promises && s'.setTwice == s.setTwice
  {
  }

  lemma PlacementDrain(s: State)
    requires Fifo(s) && Placement(s) && Enabled(s, Drain)
    ensures Placement(Apply(s, Drain))
  {
    var d := s.queue[..Min(s.cfg.maxBatch, |s.queue|)];
    DrainTakes(s, d);
    DrainPlaced(s, d);
  }

  lemma SuffixAt<T>(front: seq<T>, back: seq<T>, whole: seq<T>)
    requires front + back == whole
    ensures |front| == |whole| - |back|
    ensures forall i :: 0 <= i < |back| ==> back[i] == whole[|whole| - |back| + i]
  {
  }

  lemma InOrderConcat(maxBatch: nat, accepted: seq<Request>, drains: seq<seq<Request>>, queue: seq<Request>)
    requires InOrder(maxBatch, accepted, drains, queue)
    ensures Concat(drains) + queue == accepted
  {
  }

  lemma QueueIsSuffix(accepted: seq<Request>, drains: seq<seq<Request>>, queue: seq<Request>)
    requires Concat(drains) + queue == accepted
    ensures |Concat(drains)| == |accepted| - |queue|
    ensures forall i :: 0 <= i < |queue| ==> queue[i] == accepted[|accepted| - |queue| + i]
  {
    SuffixAt(Concat(drains), queue, accepted);
  }

  /** Queue position `i` is accepted position `taken + i`. */
  lemma FrontLength(s: State)
    requires Fifo(s)
    ensures |Concat(s.drains)| == Taken(s)
    ensures forall i :: 0 <= i < |s.queue| ==> s.queue[i] == s.accepted[Taken(s) + i]
  {
    InOrderConcat(s.cfg.maxBatch, s.accepted, s.drains, s.queue);
    QueueIsSuffix(s.accepted, s.drains, s.queue);
  }

  lemma PlacementStep(s: State, step: Step)
    requires Fifo(s) && Placement(s) && Outcomes(s) && Shape(s.cfg, s.worker) && Enabled(s, step)
    ensures Placement(Apply(s, step))
  {
    if step.FilterOne? {
      PlacementFilterOne(s);
    } else if step.DeliverOne? {
      DeliverStep(s);
    } else if step.FailOne? {
      FailStep(s);
    } else if step.Drain? {
      PlacementDrain(s);
    } else {
      PlacementKept(s, step);
    }
  }

  predicate Resolves(step: Step) { step.FilterOne? || step.DeliverOne? || step.FailOne? }

  /** The other steps resolve nothing. */
  lemma KeptEffect(s: State, step: Step)
    requires Enabled(s, step) && !Resolves(step)
    ensures var s' := Apply(s, step);
      s'.promises == s.promises && s'.setTwice == s.setTwice && s'.cfg == s.cfg && s.accepted <= s'.accepted
  {
    QueueEffect(s, step);
  }

  /** But for a drain, they leave the worker what it holds. */
  lemma HeldKept(s: State, step: Step)
    requires Enabled(s, step) && !Resolves(step) && !step.Drain?
    ensures Held(Apply(s, step).worker) == Held(s.worker)
  {
    if step.FilterDone? {
      assert Held(s.worker) == s.worker.batch;
    }
  }

  lemma TakenKept(s: State, step: Step)
    requires Enabled(s, step) && !step.Drain?
    ensures Taken(Apply(s, step)) == Taken(s)
  {
    QueueEffect(s, step);
  }

  lemma PlacedGrows(accepted: seq<Request>, accepted': seq<Request>, taken: nat, held: seq<Request>,
                    promises: map<nat, Outcome>)
    requires Placed(accepted, taken, held, promises) && accepted <= accepted'
    ensures Placed(accepted', taken, held, promises)
  {
  }

  lemma PlacementKept(s: State, step: Step)
    requires Placement(s) && Enabled(s, step) && !Resolves(step) && !step.Drain?
    ensures Placement(Apply(s, step))
  {
    KeptEffect(s, step);
    HeldKept(s, step);
    TakenKept(s, step);
    PlacedGrows(s.accepted, Apply(s, step).accepted, Taken(s), Held(s.worker), s.promises);
  }

  lemma OutcomesResolve(s: State, r: Request, o: Outcome)
    requires Outcomes(s) && r.ticket < |s.accepted| && r == s.accepted[r.ticket] && Justified(s.cfg, r, o)
    ensures Outcomes(Resolve(s, r, o))
  {
  }

  lemma OutcomesFilterOne(s: State)
    requires Outcomes(s) && Placement(s) && Enabled(s, FilterOne)
    ensures Outcomes(Apply(s, FilterOne))
  {
    FilterEffect(s);
    HeldWhileFiltering(s.worker);
    var r := s.worker.drained[s.worker.next];
    if !WellSized(s.cfg, r) {
      OutcomesResolve(s, r, Exception(WrongInputSize));
    }
  }

  lemma OutcomesKept(s: State, step: Step)
    requires Outcomes(s) && Enabled(s, step) && !Resolves(step)
    ensures Outcomes(Apply(s, step))
  {
    KeptEffect(s, step);
  }

  lemma OutcomesStep(s: State, step: Step)
    requires Placement(s) && Outcomes(s) && Shape(s.cfg, s.worker) && Enabled(s, step)
    ensures Outcomes(Apply(s, step))
  {
    match step
    case FilterOne => OutcomesFilterOne(s);
    case DeliverOne => DeliverStep(s);
    case FailOne => FailStep(s);
    case _ => OutcomesKept(s, step);
  }

  /** A request taken off the queue and not answered is held by the worker. */
  lemma UnansweredIsHeld(accepted: seq<Request>, taken: nat, held: seq<Request>, promises: map<nat, Outcome>, t: nat)
    requires Placed(accepted, taken, held, promises) && t < taken && t !in promises
    ensures held != []
  {
    assert t in promises.Keys + TicketsOf(held);
  }

  lemma InvStep(s: State, step: Step)
    requires Inv(s) && Enabled(s, step)
    ensures Inv(Apply(s, step))
  {
    FifoStep(s, step);
    PlacementStep(s, step);
    ShapeStep(s, step);
    FlagsStep(s, step);
    OutcomesStep(s, step);
  }

  lemma InvInit(cfg: Config)
    requires cfg.maxBatch >= 1
    ensures Inv(Init(cfg))
  {
    assert TicketsOf([]) == {} == Upto(0);
  }

  lemma {:induction false} InvRun(s: State, steps: seq<Step>)
    requires Inv(s) && Runs(s, steps)
    ensures Inv(After(s, steps))
    decreases |steps|
  {
    if steps != [] {
      var n := |steps| - 1;
      InvRun(s, steps[..n]);
      InvStep(After(s, steps[..n]), steps[n]);
    }
  }
}
