/** The scheduler driving the repository's own engines. */
module Serving {
  import opened Tensor
  import opened Scheduler
  import opened SchedulerSafety
  import opened SchedulerTheorems
  import opened SchedulerCode
  import opened Engines

  lemma StepKeepsConfig(s: State, step: Step)
    requires Enabled(s, step)
    ensures Apply(s, step).cfg == s.cfg
  {
  }

  lemma {:induction false} RunKeepsConfig(s: State, steps: seq<Step>)
    requires Runs(s, steps)
    ensures After(s, steps).cfg == s.cfg
    decreases |steps|
  {
    if steps != [] {
      var n := |steps| - 1;
      RunKeepsConfig(s, steps[..n]);
      StepKeepsConfig(After(s, steps[..n]), steps[n]);
    }
  }

  // ---- runs driven by an engine ----

  /** A call that returns has returned what `engine` computes for the packed batch; a call may also
      throw, at any time and for any reason. */
  ghost predicate DrivenStep(engine: (Row, nat) -> EngineResult, s: State, step: Step) {
    step.EngineReturns? && s.worker.Computing? ==>
      engine(Concat(Inputs(s.worker.batch)), |s.worker.batch|) == Returned(step.output)
  }

  ghost predicate DrivenRun(engine: (Row, nat) -> EngineResult, s: State, steps: seq<Step>)
    requires Runs(s, steps)
    decreases |steps|
  {
    steps == [] ||
    (var n := |steps| - 1;
     DrivenRun(engine, s, steps[..n]) && DrivenStep(engine, After(s, steps[..n]), steps[n]))
  }

  lemma DrivenStepIsRowWise(engine: (Row, nat) -> EngineResult, f: Row -> Row, s: State, step: Step)
    requires RowWiseEngine(engine, f, s.cfg.inputElems) && Shape(s.cfg, s.worker) && DrivenStep(engine, s, step)
    ensures RowWiseStep(f, s, step)
  {
    if step.EngineReturns? && s.worker.Computing? {
      ConcatLength(Inputs(s.worker.batch), s.cfg.inputElems);
    }
  }

  lemma {:induction false} DrivenRunIsRowWise(engine: (Row, nat) -> EngineResult, f: Row -> Row, cfg: Config,
                                              steps: seq<Step>)
    requires cfg.maxBatch >= 1 && RowWiseEngine(engine, f, cfg.inputElems)
    requires Runs(Init(cfg), steps) && DrivenRun(engine, Init(cfg), steps)
    ensures RowWiseRun(f, Init(cfg), steps)
    decreases |steps|
  {
    if steps != [] {
      var n := |steps| - 1;
      DrivenRunIsRowWise(engine, f, cfg, steps[..n]);
      InvInit(cfg);
      InvRun(Init(cfg), steps[..n]);
      RunKeepsConfig(Init(cfg), steps[..n]);
      DrivenStepIsRowWise(engine, f, After(Init(cfg), steps[..n]), steps[n]);
    }
  }

  /** Over every run of a server on the stub, a value delivered is the caller's own id with the
      caller's own input, cut or zero-extended. */
  lemma StubAnswersAreOwn(cfg: Config, steps: seq<Step>)
    requires cfg.maxBatch >= 1 && Runs(Init(cfg), steps)
    requires DrivenRun(StubEngine(cfg.inputElems, cfg.outputElems), Init(cfg), steps)
    ensures OwnAnswers(StubRow(cfg.outputElems), After(Init(cfg), steps))
  {
    StubIsRowWise(cfg.inputElems, cfg.outputElems);
    DrivenRunIsRowWise(StubEngine(cfg.inputElems, cfg.outputElems), StubRow(cfg.outputElems), cfg, steps);
    BatchingIsTransparent(StubRow(cfg.outputElems), cfg, steps);
  }

  /** Over every run of a server on the ONNX engine, whatever its buckets, a value delivered is the
      caller's own id with the model's result for the caller's own input. */
  lemma OnnxAnswersAreOwn(session: Session, buckets: seq<nat>, cfg: Config, steps: seq<Step>)
    requires cfg.maxBatch >= 1 && Runs(Init(cfg), steps)
    requires Ascending(buckets) && RowFunction(session.row, cfg.inputElems, cfg.outputElems)
    requires DrivenRun(OnnxFunction(session, buckets, cfg.inputElems, cfg.outputElems, cfg.inputElems, cfg.outputElems),
                       Init(cfg), steps)
    ensures OwnAnswers(session.row, After(Init(cfg), steps))
  {
    var engine := OnnxFunction(session, buckets, cfg.inputElems, cfg.outputElems, cfg.inputElems, cfg.outputElems);
    OnnxIsRowWise(session, buckets, cfg.inputElems, cfg.outputElems, cfg.inputElems, cfg.outputElems);
    DrivenRunIsRowWise(engine, session.row, cfg, steps);
    BatchingIsTransparent(session.row, cfg, steps);
  }

  /** One iteration of the worker with a row-wise engine: an answer that is a value is the request's
      own id with the row function of the request's own input, whatever its batch-mates were. */
  lemma ServedAnswerIsOwn(cfg: Config, engine: (Row, nat) -> EngineResult, f: Row -> Row, batch: seq<Request>, i: nat)
    requires RowFunction(f, cfg.inputElems, cfg.outputElems) && RowWiseEngine(engine, f, cfg.inputElems)
    requires AllWellSized(cfg, batch) && i < |batch|
    ensures var o := Answer(cfg, batch, engine(Concat(Inputs(batch)), |batch|), i);
            o.Value? ==> o == Value(batch[i].id, f(batch[i].input))
  {
    ConcatLength(Inputs(batch), cfg.inputElems);
    RowBelongsToRequest(f, cfg, batch, i);
  }

  /** The size check leaves only well-sized requests, all of them, in order. */
  lemma {:induction false} FilterKeepsWellSized(cfg: Config, rs: seq<Request>)
    ensures AllWellSized(cfg, WellSizedOf(cfg, rs))
    ensures forall i :: 0 <= i < |rs| && WellSized(cfg, rs[i]) ==> rs[i] in WellSizedOf(cfg, rs)
    decreases |rs|
  {
    if rs != [] {
      FilterKeepsWellSized(cfg, rs[..|rs| - 1]);
    }
  }

  // ---- runs on an engine that is a function ----

  /** The call ends as `engine` does on the packed batch. */
  ghost predicate FaithfulStep(engine: (Row, nat) -> EngineResult, s: State, step: Step) {
    s.worker.Computing? ==>
      var r := engine(Concat(Inputs(s.worker.batch)), |s.worker.batch|);
      && (step.EngineReturns? ==> r == Returned(step.output))
      && (step.EngineThrows? ==> r == Threw(step.code))
  }

  ghost predicate FaithfulRun(engine: (Row, nat) -> EngineResult, s: State, steps: seq<Step>)
    requires Runs(s, steps)
    decreases |steps|
  {
    steps == [] ||
    (var n := |steps| - 1;
     FaithfulRun(engine, s, steps[..n]) && FaithfulStep(engine, After(s, steps[..n]), steps[n]))
  }

  /** The engine returns an output of the right size for every batch the worker can hand over. */
  ghost predicate Serves(engine: (Row, nat) -> EngineResult, cfg: Config) {
    forall x: Row, n: nat {:trigger engine(x, n)} :: 0 < n <= cfg.maxBatch && |x| == n * cfg.inputElems ==>
      engine(x, n).Returned? && |engine(x, n).output| == n * cfg.outputElems
  }

  lemma {:induction false} FaithfulIsDriven(engine: (Row, nat) -> EngineResult, s: State, steps: seq<Step>)
    requires Runs(s, steps) && FaithfulRun(engine, s, steps)
    ensures DrivenRun(engine, s, steps)
    decreases |steps|
  {
    if steps != [] {
      FaithfulIsDriven(engine, s, steps[..|steps| - 1]);
    }
  }

  /** The only errors handed out are size errors. */
  ghost predicate OnlySizeErrors(w: Worker, promises: map<nat, Outcome>) {
    && !w.Failing?
    && forall t :: t in promises && promises[t].Exception? ==> promises[t].error == WrongInputSize
  }

  lemma ServedCall(engine: (Row, nat) -> EngineResult, cfg: Config, batch: seq<Request>)
    requires Serves(engine, cfg) && 0 < |batch| <= cfg.maxBatch && AllWellSized(cfg, batch)
    ensures var r := engine(Concat(Inputs(batch)), |batch|);
            r.Returned? && |r.output| == |batch| * cfg.outputElems
  {
    ConcatLength(Inputs(batch), cfg.inputElems);
  }

  lemma OnlySizeErrorsStep(engine: (Row, nat) -> EngineResult, s: State, step: Step)
    requires OnlySizeErrors(s.worker, s.promises) && Shape(s.cfg, s.worker) && Enabled(s, step)
    requires Serves(engine, s.cfg) && FaithfulStep(engine, s, step)
    ensures OnlySizeErrors(Apply(s, step).worker, Apply(s, step).promises)
  {
    if s.worker.Computing? {
      ServedCall(engine, s.cfg, s.worker.batch);
    }
  }

  lemma {:induction false} OnlySizeErrorsRun(engine: (Row, nat) -> EngineResult, cfg: Config, steps: seq<Step>)
    requires cfg.maxBatch >= 1 && Serves(engine, cfg)
    requires Runs(Init(cfg), steps) && FaithfulRun(engine, Init(cfg), steps)
    ensures var s := After(Init(cfg), steps); OnlySizeErrors(s.worker, s.promises)
    decreases |steps|
  {
    if steps != [] {
      var n := |steps| - 1;
      OnlySizeErrorsRun(engine, cfg, steps[..n]);
      InvInit(cfg);
      InvRun(Init(cfg), steps[..n]);
      RunKeepsConfig(Init(cfg), steps[..n]);
      OnlySizeErrorsStep(engine, After(Init(cfg), steps[..n]), steps[n]);
    }
  }

  /** What the server makes of a request: a function of that request alone. */
  ghost predicate ServedAs(f: Row -> Row, cfg: Config, r: Request, o: Outcome) {
    if |r.input| == cfg.inputElems then o == Value(r.id, f(r.input)) else o == Exception(WrongInputSize)
  }

  /** Every request answered so far has been served, and all of them have once the worker has exited. */
  ghost predicate AllServed(f: Row -> Row, s: State) {
    && (forall t :: t in s.promises ==> t < |s.accepted| && ServedAs(f, s.cfg, s.accepted[t], s.promises[t]))
    && (s.worker.Exited? ==> forall t :: 0 <= t < |s.accepted| ==> t in s.promises)
  }

  lemma ServedFromAnswers(f: Row -> Row, s: State)
    requires OwnAnswers(f, s) && OnlySizeErrors(s.worker, s.promises) && Outcomes(s)
    ensures forall t :: t in s.promises ==> t < |s.accepted| && ServedAs(f, s.cfg, s.accepted[t], s.promises[t])
  {
  }

  /** The other half of transparency: on an engine that works row by row and serves its batches, every
      run answers every well-sized request with its own id and `f` of its own input, and every other
      one with the size error; nothing else is ever answered. */
  lemma EveryRequestIsServed(engine: (Row, nat) -> EngineResult, f: Row -> Row, cfg: Config, steps: seq<Step>)
    requires cfg.maxBatch >= 1 && RowFunction(f, cfg.inputElems, cfg.outputElems)
    requires RowWiseEngine(engine, f, cfg.inputElems) && Serves(engine, cfg)
    requires Runs(Init(cfg), steps) && FaithfulRun(engine, Init(cfg), steps)
    ensures After(Init(cfg), steps).cfg == cfg && AllServed(f, After(Init(cfg), steps))
  {
    FaithfulIsDriven(engine, Init(cfg), steps);
    DrivenRunIsRowWise(engine, f, cfg, steps);
    BatchingIsTransparent(f, cfg, steps);
    OnlySizeErrorsRun(engine, cfg, steps);
    EveryAnswerIsJustified(cfg, steps);
    ServedFromAnswers(f, After(Init(cfg), steps));
    NothingLostIff(cfg);
  }

  /** A server on the stub is the stub's row function, request by request, in every run. */
  lemma StubServesEveryRequest(cfg: Config, steps: seq<Step>)
    requires cfg.maxBatch >= 1 && Runs(Init(cfg), steps)
    requires FaithfulRun(StubEngine(cfg.inputElems, cfg.outputElems), Init(cfg), steps)
    ensures After(Init(cfg), steps).cfg == cfg && AllServed(StubRow(cfg.outputElems), After(Init(cfg), steps))
  {
    var engine := StubEngine(cfg.inputElems, cfg.outputElems);
    StubIsRowWise(cfg.inputElems, cfg.outputElems);
    forall x: Row, n: nat | |x| == n * cfg.inputElems
      ensures engine(x, n).Returned? && |engine(x, n).output| == n * cfg.outputElems
    {
      StubReturnsIff(x, n, cfg.inputElems, cfg.outputElems);
    }
    EveryRequestIsServed(engine, StubRow(cfg.outputElems), cfg, steps);
  }

  /** The session does not fail on the shapes that batches within the limit are padded to. */
  ghost predicate Healthy(session: Session, buckets: seq<nat>, cfg: Config) {
    forall n: nat :: 0 < n <= cfg.maxBatch ==> !session.fails(Bucket(buckets, n))
  }

  /** A server on the ONNX engine, whatever its buckets, is the model's row function, request by
      request, in every run in which the session is healthy. */
  lemma OnnxServesEveryRequest(session: Session, buckets: seq<nat>, cfg: Config, steps: seq<Step>)
    requires cfg.maxBatch >= 1 && Runs(Init(cfg), steps)
    requires Ascending(buckets) && RowFunction(session.row, cfg.inputElems, cfg.outputElems)
    requires Healthy(session, buckets, cfg)
    requires FaithfulRun(OnnxFunction(session, buckets, cfg.inputElems, cfg.outputElems, cfg.inputElems,
                                      cfg.outputElems), Init(cfg), steps)
    ensures After(Init(cfg), steps).cfg == cfg && AllServed(session.row, After(Init(cfg), steps))
  {
    var engine := OnnxFunction(session, buckets, cfg.inputElems, cfg.outputElems, cfg.inputElems, cfg.outputElems);
    OnnxIsRowWise(session, buckets, cfg.inputElems, cfg.outputElems, cfg.inputElems, cfg.outputElems);
    forall x: Row, n: nat | 0 < n <= cfg.maxBatch && |x| == n * cfg.inputElems
      ensures engine(x, n).Returned? && |engine(x, n).output| == n * cfg.outputElems
    {
      OnnxReturnsIff(session, buckets, cfg.inputElems, cfg.outputElems, cfg.inputElems, cfg.outputElems, x, n);
    }
    EveryRequestIsServed(engine, session.row, cfg, steps);
  }

  // ---- one shape ----

  /** The size of the batch handed to the engine, if this step ends a call. */
  function CallSize(w: Worker, step: Step): seq<nat> {
    if (step.EngineReturns? || step.EngineThrows?) && w.Computing? then [|w.batch|] else []
  }

  /** The sizes of the batches the run has handed to the engine, in order. */
  function EngineBatches(s: State, steps: seq<Step>): seq<nat>
    requires Runs(s, steps)
    decreases |steps|
  {
    if steps == [] then [] else
      var n := |steps| - 1;
      EngineBatches(s, steps[..n]) + CallSize(After(s, steps[..n]).worker, steps[n])
  }

  /** Each of these batches is padded to the shape `m` by the single bucket `m`. */
  ghost predicate PaddedTo(m: nat, sizes: seq<nat>) {
    forall i :: 0 <= i < |sizes| ==> 0 < sizes[i] <= m && Bucket([m], sizes[i]) == m
  }

  lemma CallSizeFits(cfg: Config, w: Worker, step: Step)
    requires Shape(cfg, w)
    ensures PaddedTo(cfg.maxBatch, CallSize(w, step))
  {
  }

  /** Every batch any run hands to the engine is non-empty and within the limit, so with the single
      bucket equal to the limit, as the bindings configure it, each is padded to that one shape: what
      OnnxEngine.RunInference needs to keep the session at one shape. */
  lemma {:induction false} SessionSeesOneShape(cfg: Config, steps: seq<Step>)
    requires cfg.maxBatch >= 1 && Runs(Init(cfg), steps)
    ensures PaddedTo(cfg.maxBatch, EngineBatches(Init(cfg), steps))
    decreases |steps|
  {
    if steps != [] {
      var n := |steps| - 1;
      SessionSeesOneShape(cfg, steps[..n]);
      InvInit(cfg);
      InvRun(Init(cfg), steps[..n]);
      RunKeepsConfig(Init(cfg), steps[..n]);
      CallSizeFits(cfg, After(Init(cfg), steps[..n]).worker, steps[n]);
    }
  }

  /** The engine's warm-up followed by the calls of a whole run, copies failing or not as they may: with
      the single bucket equal to the batch limit the session has only ever seen that shape. */
  method ServeRun(engine: OnnxEngine, cfg: Config, ghost steps: seq<Step>, sizes: seq<nat>, inputs: seq<Row>)
    requires engine.Valid() && engine.buckets == [cfg.maxBatch] && engine.shapes == []
    requires cfg.maxBatch >= 1 && Runs(Init(cfg), steps)
    requires sizes == EngineBatches(Init(cfg), steps) && |inputs| == |sizes|
    modifies engine`shapes, engine.hostInput, engine.hostOutput, engine.deviceInput, engine.deviceOutput
    ensures engine.OneShape(cfg.maxBatch)
  {
    SessionSeesOneShape(cfg, steps);
    var uploads: bool := *;
    engine.WarmBuckets([uploads]);
    for i := 0 to |sizes|
      invariant engine.Valid() && engine.OneShape(cfg.maxBatch)
    {
      uploads := *;
      var downloads: bool := *;
      var result := engine.RunInference(inputs[i], sizes[i], cfg.inputElems, cfg.outputElems, uploads, downloads);
    }
  }

  // ---- the server the bindings build ----

  const DEFAULT_INPUT_ELEMS := 3 * 224 * 224
  const DEFAULT_OUTPUT_ELEMS := 1000

  /** What make_engine() builds for a scheduler configured as `cfg`: one bucket, default geometry. */
  function BoundEngine(s: Session, cfg: Config): (Row, nat) -> EngineResult {
    OnnxFunction(s, [cfg.maxBatch], DEFAULT_INPUT_ELEMS, DEFAULT_OUTPUT_ELEMS, cfg.inputElems, cfg.outputElems)
  }

  predicate DefaultGeometry(cfg: Config) {
    cfg.inputElems == DEFAULT_INPUT_ELEMS && cfg.outputElems == DEFAULT_OUTPUT_ELEMS
  }

  /** The binding layer builds the ONNX engine with its default geometry whatever the scheduler is
      configured with, so a healthy session serves a batch exactly when the configured geometry is
      the default one. */
  lemma BoundServerServesIff(s: Session, cfg: Config, batch: seq<Request>)
    requires !s.fails(Bucket([cfg.maxBatch], |batch|)) && batch != [] && AllWellSized(cfg, batch)
    ensures BoundEngine(s, cfg)(Concat(Inputs(batch)), |batch|).Returned? <==> DefaultGeometry(cfg)
  {
    ConcatLength(Inputs(batch), cfg.inputElems);
  }

  lemma OtherGeometryThrows(s: Session, cfg: Config, batch: seq<Request>)
    requires batch != [] && AllWellSized(cfg, batch) && !DefaultGeometry(cfg)
    ensures BoundEngine(s, cfg)(Concat(Inputs(batch)), |batch|) == Threw(BAD_GEOMETRY)
  {
    ConcatLength(Inputs(batch), cfg.inputElems);
  }

  ghost predicate NoValues(s: State) {
    !s.worker.Delivering? && forall t :: t in s.promises ==> s.promises[t].Exception?
  }

  lemma NoValuesStep(s: State, cfg: Config, session: Session, step: Step)
    requires NoValues(s) && s.cfg == cfg && Shape(cfg, s.worker) && Enabled(s, step)
    requires !DefaultGeometry(cfg) && DrivenStep(BoundEngine(session, cfg), s, step)
    ensures NoValues(Apply(s, step))
  {
    if s.worker.Computing? {
      OtherGeometryThrows(session, cfg, s.worker.batch);
    }
  }

  /** With any other geometry the server starts but answers nothing: in every run every answer is an
      error. */
  lemma {:induction false} OtherGeometryAnswersNothing(session: Session, cfg: Config, steps: seq<Step>)
    requires cfg.maxBatch >= 1 && Runs(Init(cfg), steps) && !DefaultGeometry(cfg)
    requires DrivenRun(BoundEngine(session, cfg), Init(cfg), steps)
    ensures NoValues(After(Init(cfg), steps))
    decreases |steps|
  {
    if steps != [] {
      var n := |steps| - 1;
      OtherGeometryAnswersNothing(session, cfg, steps[..n]);
      InvInit(cfg);
      InvRun(Init(cfg), steps[..n]);
      RunKeepsConfig(Init(cfg), steps[..n]);
      NoValuesStep(After(Init(cfg), steps[..n]), cfg, session, steps[n]);
    }
  }
}
