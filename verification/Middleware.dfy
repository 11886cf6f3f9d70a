/** One prediction request inside the admission middleware: the upload, the downstream application
    task, the deadline and disconnect race, and the final clean-up. */
module Middleware {

  // ---- reading the body ----

  type Bytes = seq<int>

  datatype Message = Disconnect | Other | Chunk(body: Bytes, more: bool)

  /** What one turn of the upload loop meets: the deadline, or a message. */
  datatype Event = DeadlinePassed | Received(message: Message)

  datatype Upload = TimedOut | Disconnected | TooLarge | Complete(body: Bytes)

  /** The chunks of the first messages, joined. */
  function Joined(events: seq<Event>): Bytes {
    if events == [] then [] else
      var n := |events| - 1;
      Joined(events[..n]) +
      match events[n] case Received(Chunk(body, _)) => body case _ => []
  }

  lemma JoinedNext(events: seq<Event>, i: nat)
    requires i < |events|
    ensures Joined(events[..i + 1]) ==
            Joined(events[..i]) + match events[i] case Received(Chunk(body, _)) => body case _ => []
  {
    assert events[..i + 1][..i] == events[..i];
  }

  /** The upload goes on after this event, the body so far being within the limit. */
  predicate Continues(e: Event) {
    e.Received? && (e.message.Other? || (e.message.Chunk? && e.message.more))
  }

  /** How the upload ends: at the first event that is not a harmless continuation within the limit.
      Running out of events stands for the deadline, which always comes. */
  ghost predicate EndsAt(events: seq<Event>, limit: nat, k: nat, u: Upload) {
    && Harmless(events, limit, k)
    && if k == |events| then u == TimedOut
       else match events[k]
         case DeadlinePassed => u == TimedOut
         case Received(Disconnect) => u == Disconnected
         case Received(Other) => false
         case Received(Chunk(_, more)) =>
           var body := Joined(events[..k + 1]);
           if |body| > limit then u == TooLarge else !more && u == Complete(body)
  }

  /** All the events before `i` were harmless and kept the body within the limit. */
  ghost predicate Harmless(events: seq<Event>, limit: nat, i: nat) {
    i <= |events| && forall j :: 0 <= j < i ==> Continues(events[j]) && |Joined(events[..j + 1])| <= limit
  }

  /** _read_body(): the buffer never exceeds the limit, and a complete upload is exactly the chunks
      received, in order. `buffered` is the size of the buffer, which only grows, when it returns. */
  method ReadBody(events: seq<Event>, limit: nat) returns (u: Upload, buffered: nat)
    ensures exists k :: EndsAt(events, limit, k, u)
    ensures buffered <= limit && (u.Complete? ==> |u.body| == buffered)
  {
    var body: Bytes := [];
    for i := 0 to |events|
      invariant body == Joined(events[..i]) && |body| <= limit && Harmless(events, limit, i)
    {
      JoinedNext(events, i);
      if events[i].DeadlinePassed? {
        assert EndsAt(events, limit, i, TimedOut);
        return TimedOut, |body|;
      }
      match events[i].message
      case Disconnect =>
        assert EndsAt(events, limit, i, Disconnected);
        return Disconnected, |body|;
      case Other =>
        assert Continues(events[i]);
      case Chunk(chunk, more) =>
        assert Joined(events[..i + 1]) == body + chunk;
        if |body| + |chunk| > limit {
          assert EndsAt(events, limit, i, TooLarge);
          return TooLarge, |body|;
        }
        body := body + chunk;
        if !more {
          assert EndsAt(events, limit, i, Complete(body));
          return Complete(body), |body|;
        }
        assert Continues(events[i]);
    }
    assert EndsAt(events, limit, |events|, TimedOut);
    return TimedOut, |body|;
  }

  /** The outcome is determined by the events, so ReadBody's contract leaves it no freedom. */
  lemma UploadIsDetermined(events: seq<Event>, limit: nat, k: nat, u: Upload, m: nat, v: Upload)
    requires EndsAt(events, limit, k, u) && EndsAt(events, limit, m, v)
    ensures k == m && u == v
  {
  }

  /** The receive channel given to the application: the buffered body once, then nothing but the
      disconnect. */
  class ReplayReceive {
    const body: Bytes
    var replayed: bool

    constructor (body: Bytes)
      ensures this.body == body && !replayed
    {
      this.body, replayed := body, false;
    }

    method Receive() returns (m: Message)
      modifies this
      ensures replayed && m == if old(replayed) then Disconnect else Chunk(body, false)
    {
      if !replayed {
        replayed := true;
        return Chunk(body, false);
      }
      return Disconnect;
    }
  }

  // ---- the call as a whole ----

  /** The application task: submitting native work and attaching it to the lease happen without an
      await in between, so the task cannot end at stage Submitted. */
  datatype Stage = BeforeSubmit | Submitted | Attached
  datatype Task = NotCreated | Running(stage: Stage) | Ended

  datatype Pc = Reading | Racing | AwaitingApp(timedOut: bool) | Reply504 | Finally | Done

  /** A response start on the wire: the application's own, or one of the middleware's. */
  datatype Reply = FromApp | TooLarge413 | Late408 | Expired504

  /** `appStarts` counts response starts sent by the application; `wire` is those put on the wire. */
  datatype Call = Call(pc: Pc, app: Task, responseStarted: bool, appStarts: nat, wire: seq<Reply>)

  const FreshCall := Call(Reading, NotCreated, false, 0, [])

  datatype Step =
    | LengthTooLarge                   // the declared length is over the limit
    | EndReading(u: Upload)            // _read_body() has returned or raised
    | LeaveReading                     // the server cancels the middleware, or a reply cannot be sent
    | AppSendsStart(delivered: bool)
    | SubmitWork | AttachWork
    | AppEnds
    | AppWon
    | Expire(timedOut: bool)           // deadline, or disconnect
    | AppAcknowledged
    | Send504
    | Cancelled
    | FinishHttp

  /** A cancelled application may run on until its next await: it may still send and still submit.
      It sends at most one response start. */
  predicate Enabled(c: Call, step: Step) {
    match step
    case LengthTooLarge => c.pc.Reading?
    case EndReading(_) => c.pc.Reading?
    case LeaveReading => c.pc.Reading?
    case AppSendsStart(_) => c.app.Running? && c.appStarts == 0
    case SubmitWork => c.app == Running(BeforeSubmit)
    case AttachWork => c.app == Running(Submitted)
    case AppEnds => c.app.Running? && !c.app.stage.Submitted?
    case AppWon => c.pc.Racing? && c.app.Ended?
    case Expire(_) => c.pc.Racing? && c.app.Running?
    case AppAcknowledged => c.pc.AwaitingApp? && c.app.Ended?
    case Send504 => c.pc.Reply504?
    case Cancelled => c.pc.Racing? || c.pc.Reply504?
    case FinishHttp => c.pc.Finally? && !c.app.Running?
  }

  /** Only a complete upload reaches the application. */
  function AfterReading(c: Call, u: Upload): Call {
    match u
    case TooLarge => c.(pc := Finally, wire := c.wire + [TooLarge413])
    case TimedOut => c.(pc := Finally, wire := c.wire + [Late408])
    case Disconnected => c.(pc := Finally)
    case Complete(_) => c.(pc := Racing, app := Running(BeforeSubmit))
  }

  function Apply(c: Call, step: Step): Call
    requires Enabled(c, step)
  {
    match step
    case LengthTooLarge => AfterReading(c, TooLarge)
    case EndReading(u) => AfterReading(c, u)
    case LeaveReading => c.(pc := Finally)
    case AppSendsStart(delivered) =>
      c.(responseStarted := true, appStarts := 1, wire := if delivered then c.wire + [FromApp] else c.wire)
    case SubmitWork => c.(app := Running(Submitted))
    case AttachWork => c.(app := Running(Attached))
    case AppEnds => c.(app := Ended)
    case AppWon => c.(pc := Finally)
    case Expire(timedOut) => c.(pc := AwaitingApp(timedOut))
    case AppAcknowledged => c.(pc := if c.pc.timedOut then Reply504 else Finally)
    case Send504 => c.(pc := Finally, wire := if c.responseStarted then c.wire else c.wire + [Expired504])
    case Cancelled => c.(pc := Finally)
    case FinishHttp => c.(pc := Done)
  }

  /** A reply on the wire says what happened to the request: 413 and 408 that the application never saw
      it, 504 that the application was stopped before it began to answer. */
  ghost predicate Truthful(c: Call) {
    forall r :: r in c.wire ==>
      match r
      case FromApp => c.responseStarted
      case TooLarge413 => c.app.NotCreated?
      case Late408 => c.app.NotCreated?
      case Expired504 => !c.responseStarted && c.app.Ended?
  }

  ghost predicate CallInv(c: Call) {
    && (c.pc.Reading? ==> c.app.NotCreated? && c.wire == [])
    && (c.app.NotCreated? ==> c.appStarts == 0 && (c.pc.Reading? || c.pc.Finally? || c.pc.Done?))
    && (c.responseStarted <==> c.appStarts == 1)
    && c.appStarts <= 1
    && (c.app.Running? || c.pc.Racing? || c.pc.AwaitingApp? || c.pc.Reply504? ==> |c.wire| <= c.appStarts)
    && (c.pc.Reply504? ==> c.app.Ended?)
    && (c.pc.Done? ==> !c.app.Running?)
    && |c.wire| <= 1 && Truthful(c)
  }

  /** Every step of a request keeps: at most one response start on the wire, truthful, and HTTP
      handling is declared finished only when the application task is over or never existed. */
  lemma CallStep(c: Call, step: Step)
    requires CallInv(c) && Enabled(c, step)
    ensures CallInv(Apply(c, step))
  {
  }

  // ---- what a call did, against what is on the wire ----

  predicate Runs(c: Call, steps: seq<Step>)
    decreases |steps|, 0
  {
    steps == [] ||
    (var n := |steps| - 1;
     Runs(c, steps[..n]) && Enabled(After(c, steps[..n]), steps[n]))
  }

  function After(c: Call, steps: seq<Step>): Call
    requires Runs(c, steps)
    decreases |steps|, 1
  {
    if steps == [] then c else Apply(After(c, steps[..|steps| - 1]), steps[|steps| - 1])
  }

  ghost predicate TookStart(steps: seq<Step>) { AppSendsStart(true) in steps || AppSendsStart(false) in steps }

  ghost predicate TookComplete(steps: seq<Step>) { exists body :: EndReading(Complete(body)) in steps }

  /** Some step has ended the reading of the body. */
  ghost predicate TookEnd(steps: seq<Step>) {
    LengthTooLarge in steps || EndReading(TooLarge) in steps || EndReading(TimedOut) in steps ||
    EndReading(Disconnected) in steps || LeaveReading in steps || TookComplete(steps)
  }

  ghost predicate TookRefusal(steps: seq<Step>) {
    LengthTooLarge in steps || EndReading(TooLarge) in steps || EndReading(TimedOut) in steps
  }

  /** Reading ends in one way only, and only a complete upload is raced, expires or is cancelled later. */
  ghost predicate OneEnd(steps: seq<Step>) {
    && (TookComplete(steps) ==> !TookRefusal(steps) && EndReading(Disconnected) !in steps)
    && (EndReading(Disconnected) in steps ==> !TookRefusal(steps))
    && (Expire(true) in steps || Expire(false) in steps || Cancelled in steps ==> TookComplete(steps))
    && (AppAcknowledged in steps || Send504 in steps ==> TookComplete(steps))
  }

  /** Where the call stands, read off the steps it took. */
  ghost predicate Placed(c: Call, steps: seq<Step>) {
    && (c.pc.Reading? <==> !TookEnd(steps)) && OneEnd(steps)
    && (c.app.NotCreated? <==> !TookComplete(steps))
    && (c.responseStarted <==> TookStart(steps))
    && (c.pc.Racing? || c.pc.AwaitingApp? || c.pc.Reply504? ==> TookComplete(steps) && Cancelled !in steps)
    && (c.pc.Racing? ==> Expire(true) !in steps && Expire(false) !in steps)
    && (c.pc.AwaitingApp? ==> Expire(c.pc.timedOut) in steps && Expire(!c.pc.timedOut) !in steps)
    && (c.pc.Racing? || c.pc.AwaitingApp? ==> AppAcknowledged !in steps && Send504 !in steps)
  }

  /** The deadline passed, the application has been waited for, and the 504 is due: it has not been sent
      and the server has not cancelled. */
  ghost predicate Due504(steps: seq<Step>) {
    Expire(true) in steps && AppAcknowledged in steps && Send504 !in steps && Cancelled !in steps
  }

  /** The replies on the wire are exactly those the steps call for. */
  ghost predicate WireIs(c: Call, steps: seq<Step>) {
    && (FromApp in c.wire <==> AppSendsStart(true) in steps)
    && (TooLarge413 in c.wire <==> LengthTooLarge in steps || EndReading(TooLarge) in steps)
    && (Late408 in c.wire <==> EndReading(TimedOut) in steps)
    && (Expired504 in c.wire <==> Expire(true) in steps && Send504 in steps && !TookStart(steps))
    && (c.pc.Reply504? <==> Due504(steps))
    && (Send504 in steps ==> Expire(true) in steps)
    && !(Expire(true) in steps && Expire(false) in steps)
  }

  /** A call that is over and has put nothing on the wire has a reason: the client went away, the server
      cancelled it or could not send, or the application ended without an answer of its own. */
  ghost predicate SilentForAReason(c: Call, steps: seq<Step>) {
    (c.pc.Finally? || c.pc.Done?) && c.wire == [] ==>
      LeaveReading in steps || EndReading(Disconnected) in steps || Expire(false) in steps ||
      Cancelled in steps || AppSendsStart(false) in steps || AppWon in steps
  }

  lemma TookSnoc(steps: seq<Step>, step: Step)
    ensures TookStart(steps + [step]) <==> TookStart(steps) || step.AppSendsStart?
    ensures TookComplete(steps + [step]) <==> TookComplete(steps) || (step.EndReading? && step.u.Complete?)
    ensures TookEnd(steps + [step]) <==>
            TookEnd(steps) || step.LengthTooLarge? || step.EndReading? || step.LeaveReading?
  {
    if step.EndReading? && step.u.Complete? {
      assert EndReading(Complete(step.u.body)) in steps + [step];
    }
    if TookComplete(steps) {
      var body :| EndReading(Complete(body)) in steps;
      assert EndReading(Complete(body)) in steps + [step];
    }
  }

  lemma PlacedStep(c: Call, steps: seq<Step>, step: Step)
    requires CallInv(c) && Placed(c, steps) && Enabled(c, step)
    ensures Placed(Apply(c, step), steps + [step])
  {
    TookSnoc(steps, step);
  }

  lemma WireStep(c: Call, steps: seq<Step>, step: Step)
    requires CallInv(c) && Placed(c, steps) && WireIs(c, steps) && Enabled(c, step)
    ensures WireIs(Apply(c, step), steps + [step])
  {
    TookSnoc(steps, step);
  }

  lemma SilentStep(c: Call, steps: seq<Step>, step: Step)
    requires CallInv(c) && Placed(c, steps) && WireIs(c, steps) && SilentForAReason(c, steps) && Enabled(c, step)
    ensures SilentForAReason(Apply(c, step), steps + [step])
  {
    TookSnoc(steps, step);
  }

  /** Over every run of a call: 413 is on the wire if and only if the declared or the received body was
      over the limit, 408 if and only if the upload missed its deadline, 504 if and only if the deadline
      passed, the application had started no response and the reply was sent, and the application's own
      start if and only if it got through; a call that ends silently has a reason to. */
  lemma {:induction false} RepliesHaveCauses(steps: seq<Step>)
    requires Runs(FreshCall, steps)
    ensures var c := After(FreshCall, steps);
            CallInv(c) && Placed(c, steps) && WireIs(c, steps) && SilentForAReason(c, steps)
    decreases |steps|
  {
    if steps != [] {
      var n := |steps| - 1;
      var c := After(FreshCall, steps[..n]);
      RepliesHaveCauses(steps[..n]);
      assert steps == steps[..n] + [steps[n]];
      CallStep(c, steps[n]);
      PlacedStep(c, steps[..n], steps[n]);
      WireStep(c, steps[..n], steps[n]);
      SilentStep(c, steps[..n], steps[n]);
    }
  }

  /** A client that went away gets none of the middleware's replies. */
  lemma DisconnectIsSilent(steps: seq<Step>)
    requires Runs(FreshCall, steps) && (EndReading(Disconnected) in steps || Expire(false) in steps)
    ensures var wire := After(FreshCall, steps).wire;
            TooLarge413 !in wire && Late408 !in wire && Expired504 !in wire
  {
    RepliesHaveCauses(steps);
  }
}
