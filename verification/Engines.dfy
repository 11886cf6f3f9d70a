/** Inference backends: the stub, and the ONNX engine with its two execution paths. */
module Engines {
  import opened Basics
  import opened Tensor

  datatype EngineResult = Returned(output: Row) | Threw(code: int)

  const BAD_INPUT_SIZE := 1
  const BAD_GEOMETRY := 2
  const SESSION_FAILED := 3
  const CUDA_FAILED := 4

  /** Whenever the engine returns, it has applied `f` to each row. */
  ghost predicate RowWiseEngine(engine: (Row, nat) -> EngineResult, f: Row -> Row, wi: nat) {
    forall x: Row, n: nat {:trigger engine(x, n)} ::
      |x| == n * wi && engine(x, n).Returned? ==> engine(x, n).output == MapRows(f, x, n, wi)
  }

  // ---- the stub ----

  /** A row truncated or zero-padded to `wo` elements. */
  function StubRow(wo: nat): Row -> Row {
    (r: Row) => if |r| < wo then r + Zeros(wo - |r|) else r[..wo]
  }

  /** Row `i`, column `j` of the stub's output: the input's element there, if the row has one. */
  function StubCell(x: Row, wi: nat, i: nat, j: nat): Elem {
    if j < wi && i * wi + j < |x| then x[i * wi + j] else Zero
  }

  function StubOutput(x: Row, n: nat, wi: nat, wo: nat): Row {
    seq(n * wo, k requires k >= 0 => if wo == 0 then Zero else StubCell(x, wi, k / wo, k % wo))
  }

  /** The stub, element by element. */
  function StubEngine(wi: nat, wo: nat): (Row, nat) -> EngineResult {
    (x: Row, n: nat) => if |x| == n * wi then Returned(StubOutput(x, n, wi, wo)) else Threw(BAD_INPUT_SIZE)
  }

  lemma CellOf(i: nat, j: nat, w: nat)
    requires j < w
    ensures (i * w + j) / w == i && (i * w + j) % w == j
  {
    var q, r := (i * w + j) / w, (i * w + j) % w;
    assert q * w + r == i * w + j;
    if q < i {
      RowFits(q, i, w);
    } else if i < q {
      RowFits(i, q, w);
    }
  }

  lemma StubRowCell(x: Row, i: nat, wi: nat, wo: nat, j: nat)
    requires i * wi + wi <= |x| && j < wo
    ensures StubCell(x, wi, i, j) == StubRow(wo)(RowAt(x, i, wi))[j]
  {
  }

  /** One more row of output. */
  lemma StubNextRow(x: Row, i: nat, wi: nat, wo: nat)
    requires i * wi + wi <= |x| && (i + 1) * wo == i * wo + wo
    ensures StubOutput(x, i + 1, wi, wo) == StubOutput(x, i, wi, wo) + StubRow(wo)(RowAt(x, i, wi))
  {
    var last := StubRow(wo)(RowAt(x, i, wi));
    assert |StubOutput(x, i, wi, wo)| == i * wo;
    forall j | 0 <= j < wo ensures StubOutput(x, i + 1, wi, wo)[i * wo + j] == last[j] {
      CellOf(i, j, wo);
      StubRowCell(x, i, wi, wo, j);
    }
  }

  lemma {:induction false} StubOutputByRows(x: Row, n: nat, wi: nat, wo: nat)
    requires n * wi <= |x|
    ensures StubOutput(x, n, wi, wo) == MapRows(StubRow(wo), x, n, wi)
    decreases n
  {
    if n != 0 {
      var i := n - 1;
      assert n * wi == i * wi + wi && n * wo == i * wo + wo;
      StubOutputByRows(x, i, wi, wo);
      StubNextRow(x, i, wi, wo);
    }
  }

  /** The stub returns if and only if the input has the right size, and then a full output. */
  lemma StubReturnsIff(x: Row, n: nat, wi: nat, wo: nat)
    ensures var r := StubEngine(wi, wo)(x, n);
      && (r.Returned? <==> |x| == n * wi)
      && (r.Returned? ==> |r.output| == n * wo)
      && (r.Threw? ==> r.code == BAD_INPUT_SIZE)
  {
  }

  /** The element-wise stub works row by row: each row is cut or zero-extended on its own. */
  lemma StubIsRowWise(wi: nat, wo: nat)
    ensures RowWiseEngine(StubEngine(wi, wo), StubRow(wo), wi) && RowFunction(StubRow(wo), wi, wo)
  {
    forall x: Row, n: nat | |x| == n * wi
      ensures StubEngine(wi, wo)(x, n) == Returned(MapRows(StubRow(wo), x, n, wi))
    {
      StubOutputByRows(x, n, wi, wo);
    }
  }

  /** Copies each input row to its output row, in place in a zero-filled buffer. */
  method StubRunInference(x: Row, n: nat, wi: nat, wo: nat) returns (result: EngineResult)
    ensures result == StubEngine(wi, wo)(x, n)
    ensures if |x| == n * wi then result == Returned(MapRows(StubRow(wo), x, n, wi)) && |result.output| == n * wo
            else result == Threw(BAD_INPUT_SIZE)
  {
    if |x| != n * wi {
      return Threw(BAD_INPUT_SIZE);
    }
    var out := new Elem[n * wo](_ => Zero);
    for i := 0 to n
      invariant i * wo <= out.Length == n * wo
      invariant out[..i * wo] == MapRows(StubRow(wo), x, i, wi)
      invariant forall j :: i * wo <= j < out.Length ==> out[j] == Zero
    {
      CopyIteration(out, x, i, n, wi, wo);
    }
    assert out[..n * wo] == out[..];
    StubOutputByRows(x, n, wi, wo);
    return Returned(out[..]);
  }

  method CopyIteration(out: array<Elem>, x: Row, i: nat, n: nat, wi: nat, wo: nat)
    requires i < n && |x| == n * wi && i * wo <= out.Length == n * wo
    requires forall j :: i * wo <= j < out.Length ==> out[j] == Zero
    modifies out
    ensures (i + 1) * wo <= out.Length && out[..(i + 1) * wo] == old(out[..i * wo]) + StubRow(wo)(RowAt(x, i, wi))
    ensures forall j :: (i + 1) * wo <= j < out.Length ==> out[j] == Zero
  {
    RowFits(i, n, wi);
    RowFits(i, n, wo);
    var from, at := i * wi, i * wo;
    assert (i + 1) * wo == at + wo;
    CopyRow(out, at, x[from..from + wi], wo);
  }

  /** A zeroed stretch whose first elements have been overwritten by a row. */
  lemma StubRowIs(stretch: Row, row: Row, wo: nat)
    requires |stretch| == wo
    requires forall j :: 0 <= j < wo ==> stretch[j] == if j < |row| then row[j] else Zero
    ensures stretch == StubRow(wo)(row)
  {
  }

  /** std::copy of the overlapping part of a row into a zeroed stretch of the output. */
  method CopyRow(out: array<Elem>, at: nat, row: Row, wo: nat)
    requires at + wo <= out.Length && forall j :: at <= j < out.Length ==> out[j] == Zero
    modifies out
    ensures out[..at + wo] == old(out[..at]) + StubRow(wo)(row)
    ensures forall j :: at + wo <= j < out.Length ==> out[j] == Zero
  {
    forall j | 0 <= j < Min(|row|, wo) {
      out[at + j] := row[j];
    }
    StubRowIs(out[at..at + wo], row, wo);
    assert out[..at + wo] == out[..at] + out[at..at + wo];
    assert out[..at] == old(out[..at]);
  }

  // ---- the ONNX engine ----

  /** A session whose model treats rows independently; whether it fails may depend on the shape. */
  datatype Session = Session(row: Row -> Row, fails: nat -> bool)

  function SessionRun(s: Session, x: Row, batch: nat, wi: nat): EngineResult {
    if s.fails(batch) then Threw(SESSION_FAILED) else Returned(MapRows(s.row, x, batch, wi))
  }

  ghost predicate Ascending(buckets: seq<nat>) {
    forall i, j :: 0 <= i < j < |buckets| ==> buckets[i] <= buckets[j]
  }

  /** What the buckets are for: the least one that fits, or the batch size itself when none does. */
  ghost predicate IsBucket(buckets: seq<nat>, n: nat, b: nat) {
    if exists i :: 0 <= i < |buckets| && n <= buckets[i]
    then b in buckets && n <= b && forall i :: 0 <= i < |buckets| && n <= buckets[i] ==> b <= buckets[i]
    else b == n
  }

  function Bucket(buckets: seq<nat>, n: nat): nat {
    if buckets == [] then n else if n <= buckets[0] then buckets[0] else Bucket(buckets[1..], n)
  }

  lemma {:induction false} BucketIsLeastThatFits(buckets: seq<nat>, n: nat)
    requires Ascending(buckets)
    ensures IsBucket(buckets, n, Bucket(buckets, n)) && n <= Bucket(buckets, n)
    decreases |buckets|
  {
    if buckets != [] && buckets[0] < n {
      var rest := buckets[1..];
      BucketIsLeastThatFits(rest, n);
      assert forall i :: 0 < i < |buckets| ==> buckets[i] == rest[i - 1];
      if exists i :: 0 <= i < |buckets| && n <= buckets[i] {
        var i :| 0 <= i < |buckets| && n <= buckets[i];
        assert n <= rest[i - 1];
      }
    }
  }

  lemma BucketServesItself(buckets: seq<nat>, k: nat)
    requires Ascending(buckets) && k < |buckets|
    ensures Bucket(buckets, buckets[k]) == buckets[k]
  {
    BucketIsLeastThatFits(buckets, buckets[k]);
  }

  /** The shapes a warm-up shows the session: every bucket but those of size zero, and on the
      device-resident path only where the copy in succeeds. */
  function Warmed(buckets: seq<nat>, uploads: seq<bool>, bound: bool): seq<nat>
    requires |uploads| == |buckets|
  {
    if buckets == [] then []
    else
      var n := |buckets| - 1;
      Warmed(buckets[..n], uploads[..n], bound) +
      if buckets[n] != 0 && (bound ==> uploads[n]) then [buckets[n]] else []
  }

  /** A warm-up in which no copy fails shows the session every bucket, in order. */
  lemma {:induction false} WarmedAll(buckets: seq<nat>, uploads: seq<bool>, bound: bool)
    requires |uploads| == |buckets| && (bound ==> forall i :: 0 <= i < |uploads| ==> uploads[i])
    requires forall i :: 0 <= i < |buckets| ==> buckets[i] != 0
    ensures Warmed(buckets, uploads, bound) == buckets
    decreases |buckets|
  {
    if buckets != [] {
      var n := |buckets| - 1;
      WarmedAll(buckets[..n], uploads[..n], bound);
      assert buckets == buckets[..n] + [buckets[n]];
    }
  }

  method BucketFor(buckets: seq<nat>, n: nat) returns (b: nat)
    ensures b == Bucket(buckets, n)
  {
    for i := 0 to |buckets|
      invariant Bucket(buckets, n) == Bucket(buckets[i..], n)
    {
      if n <= buckets[i] {
        return buckets[i];
      }
    }
    return n;
  }

  /** The result without the rows that belong to no request. */
  function Truncated(r: EngineResult, kept: nat): EngineResult {
    match r
    case Threw(c) => Threw(c)
    case Returned(out) => Returned(if kept <= |out| then out[..kept] else out)
  }

  /** The reference: what a call with padded batch `p` yields, computed on freshly zeroed padding. */
  function HostResult(s: Session, x: Row, n: nat, p: nat, wi: nat, wo: nat): EngineResult {
    var padded := if |x| <= p * wi then x + Zeros(p * wi - |x|) else x;
    Truncated(SessionRun(s, padded, p, wi), n * wo)
  }

  /** With a row-wise session the padding cannot be observed: only the real rows matter. */
  lemma PaddingInvisible(s: Session, x: Row, buffer: Row, n: nat, p: nat, wi: nat, wo: nat)
    requires RowFunction(s.row, wi, wo) && |x| == n * wi && n <= p
    requires |buffer| == p * wi && n * wi <= p * wi && buffer[..n * wi] == x
    ensures n * wo <= p * wo == |MapRows(s.row, buffer, p, wi)|
    ensures MapRows(s.row, buffer, p, wi)[..n * wo] == MapRows(s.row, x, n, wi)
  {
    MapRowsPrefix(s.row, buffer, n, p, wi, wo);
    assert x[..n * wi] == x;
    MapRowsLocal(s.row, buffer, x, n, wi);
  }

  lemma ExtentFits(n: nat, p: nat, w: nat)
    requires n <= p
    ensures n * w <= p * w
  {
    if n < p {
      RowFits(n, p, w);
    }
  }

  /** So the reference is the row function on each real row, unless the session fails on the shape. */
  lemma HostResultIsRowWise(s: Session, x: Row, n: nat, p: nat, wi: nat, wo: nat)
    requires RowFunction(s.row, wi, wo) && |x| == n * wi && n <= p
    ensures HostResult(s, x, n, p, wi, wo) ==
            if s.fails(p) then Threw(SESSION_FAILED) else Returned(MapRows(s.row, x, n, wi))
  {
    ExtentFits(n, p, wi);
    var padded := x + Zeros(p * wi - |x|);
    assert padded[..n * wi] == x;
    PaddingInvisible(s, x, padded, n, p, wi, wo);
  }

  /** `staged` is the real rows `x` followed by padding, whatever that is. */
  ghost predicate Extends(staged: Row, x: Row, n: nat, p: nat, w: nat) {
    |x| == n * w && n <= p && n * w <= p * w == |staged| && staged[..n * w] == x
  }

  /** A session run on a padded extent, truncated, is the reference. */
  lemma StagedRun(s: Session, x: Row, staged: Row, n: nat, p: nat, wi: nat, wo: nat)
    requires RowFunction(s.row, wi, wo) && Extends(staged, x, n, p, wi)
    ensures Truncated(SessionRun(s, staged, p, wi), n * wo) == HostResult(s, x, n, p, wi, wo)
  {
    HostResultIsRowWise(s, x, n, p, wi, wo);
    PaddingInvisible(s, x, staged, n, p, wi, wo);
  }

  /** The ONNX engine of geometry `wi`, `wo` called with `inputElems`, `outputElems`: the checks in
      order, then the reference at the bucket's shape. */
  function OnnxFunction(s: Session, buckets: seq<nat>, wi: nat, wo: nat, inputElems: nat, outputElems: nat)
    : (Row, nat) -> EngineResult
  {
    (x: Row, n: nat) =>
      if |x| != n * inputElems then Threw(BAD_INPUT_SIZE)
      else if n == 0 then Returned([])
      else if inputElems != wi || outputElems != wo then Threw(BAD_GEOMETRY)
      else HostResult(s, x, n, Bucket(buckets, n), wi, wo)
  }

  /** The ONNX engine returns if and only if the input has the right size and the batch is empty or the
      geometry is the configured one and the session does not fail on the bucket; then with a full
      output. Otherwise the first of these that does not hold names the error. */
  lemma OnnxReturnsIff(s: Session, buckets: seq<nat>, wi: nat, wo: nat, inputElems: nat, outputElems: nat,
                       x: Row, n: nat)
    requires Ascending(buckets) && RowFunction(s.row, wi, wo)
    ensures var r := OnnxFunction(s, buckets, wi, wo, inputElems, outputElems)(x, n);
      && (r.Returned? <==>
            |x| == n * inputElems &&
            (n == 0 || (inputElems == wi && outputElems == wo && !s.fails(Bucket(buckets, n)))))
      && (r.Returned? ==> |r.output| == n * outputElems)
      && (r == Threw(BAD_INPUT_SIZE) <==> |x| != n * inputElems)
      && (r == Threw(BAD_GEOMETRY) <==>
            |x| == n * inputElems && n != 0 && !(inputElems == wi && outputElems == wo))
      && (r == Threw(SESSION_FAILED) <==>
            |x| == n * inputElems && n != 0 && inputElems == wi && outputElems == wo && s.fails(Bucket(buckets, n)))
  {
    if |x| == n * inputElems && n != 0 && inputElems == wi && outputElems == wo {
      BucketIsLeastThatFits(buckets, n);
      HostResultIsRowWise(s, x, n, Bucket(buckets, n), wi, wo);
      MapRowsLength(s.row, x, n, wi, wo);
    }
  }

  /** Padding to a bucket, running the session and truncating is the session's own row function. */
  lemma OnnxIsRowWise(s: Session, buckets: seq<nat>, wi: nat, wo: nat, inputElems: nat, outputElems: nat)
    requires Ascending(buckets) && RowFunction(s.row, wi, wo)
    ensures RowWiseEngine(OnnxFunction(s, buckets, wi, wo, inputElems, outputElems), s.row, inputElems)
  {
    var engine := OnnxFunction(s, buckets, wi, wo, inputElems, outputElems);
    forall x: Row, n: nat | |x| == n * inputElems && engine(x, n).Returned?
      ensures engine(x, n).output == MapRows(s.row, x, n, inputElems)
    {
      if n != 0 {
        BucketIsLeastThatFits(buckets, n);
        HostResultIsRowWise(s, x, n, Bucket(buckets, n), wi, wo);
      }
    }
  }

  // ---- what the pinned input buffer holds ----

  /** The buffer after a call has staged its real rows at the front. */
  function Staged(buffer: Row, x: Row): Row {
    if |x| <= |buffer| then x + buffer[|x|..] else buffer
  }

  /** The buffer after a history of calls, starting zeroed. */
  function PinnedAfter(capacity: nat, calls: seq<Row>): Row {
    if calls == [] then Zeros(capacity)
    else Staged(PinnedAfter(capacity, calls[..|calls| - 1]), calls[|calls| - 1])
  }

  /** The element the most recent call reaching position `j` put there; zero if none did. */
  function LastWritten(calls: seq<Row>, j: nat): Elem {
    if calls == [] then Zero
    else if j < |calls[|calls| - 1]| then calls[|calls| - 1][j]
    else LastWritten(calls[..|calls| - 1], j)
  }

  ghost predicate AllFit(calls: seq<Row>, capacity: nat) {
    forall i :: 0 <= i < |calls| ==> |calls[i]| <= capacity
  }

  lemma {:induction false} PinnedHoldsLastWritten(capacity: nat, calls: seq<Row>)
    requires AllFit(calls, capacity)
    ensures |PinnedAfter(capacity, calls)| == capacity
    ensures forall j :: 0 <= j < capacity ==> PinnedAfter(capacity, calls)[j] == LastWritten(calls, j)
    decreases |calls|
  {
    if calls != [] {
      PinnedHoldsLastWritten(capacity, calls[..|calls| - 1]);
    }
  }

  ghost predicate TailIsZero(buffer: Row, from: nat, to: nat) {
    to <= |buffer| && forall j :: from <= j < to ==> buffer[j] == Zero
  }

  /** The padded tail that a call hands to the session is zero exactly when, at every tail position,
      the last earlier call long enough to reach it wrote a zero there. */
  lemma PaddedTailIsZeroIff(capacity: nat, calls: seq<Row>, x: Row, extent: nat)
    requires AllFit(calls, capacity) && |x| <= extent <= capacity
    ensures TailIsZero(Staged(PinnedAfter(capacity, calls), x), |x|, extent) <==>
            forall j :: |x| <= j < extent ==> LastWritten(calls, j) == Zero
  {
    PinnedHoldsLastWritten(capacity, calls);
    var pinned := PinnedAfter(capacity, calls);
    var buffer := Staged(pinned, x);
    forall j | |x| <= j < extent ensures buffer[j] == LastWritten(calls, j) {
      assert buffer[j] == pinned[j];
    }
    assert |buffer| == capacity;
    if TailIsZero(buffer, |x|, extent) {
      forall j | |x| <= j < extent ensures LastWritten(calls, j) == Zero {
        assert buffer[j] == Zero;
      }
    } else {
      var j :| |x| <= j < extent && buffer[j] != Zero;
      assert LastWritten(calls, j) != Zero;
    }
  }

  /** So the tail does not stay zero: a batch of one after a batch of two sees the second row. */
  lemma PaddedTailCanBeStale(a: Elem)
    requires a != Zero
    ensures !TailIsZero(Staged(PinnedAfter(2, [[a, a]]), [a]), 1, 2)
  {
    assert LastWritten([[a, a]], 1) == a;
    PaddedTailIsZeroIff(2, [[a, a]], [a], 2);
  }

  class OnnxEngine {
    const buckets: seq<nat>
    const wi: nat
    const wo: nat
    const session: Session
    const ioBindingActive: bool
    const hostInput: array<Elem>
    const hostOutput: array<Elem>
    const deviceInput: array<Elem>
    const deviceOutput: array<Elem>
    var shapes: seq<nat>                // padded batch of every session run so far

    function MaxBatch(): nat { if buckets == [] then 1 else buckets[|buckets| - 1] }

    ghost predicate Valid() {
      && Ascending(buckets)
      && RowFunction(session.row, wi, wo)
      && hostInput.Length == deviceInput.Length == MaxBatch() * wi
      && hostOutput.Length == deviceOutput.Length == MaxBatch() * wo
      && hostInput != deviceInput && hostOutput != deviceOutput && hostInput != hostOutput
      && hostInput != deviceOutput && deviceInput != hostOutput && deviceInput != deviceOutput
    }

    ghost function Buffers(): set<object> { {hostInput, hostOutput, deviceInput, deviceOutput} }

    constructor (buckets: seq<nat>, wi: nat, wo: nat, session: Session, bindingAllocated: bool)
      requires Ascending(buckets) && RowFunction(session.row, wi, wo)
      ensures Valid() && fresh(Buffers())
      ensures this.buckets == buckets && this.wi == wi && this.wo == wo && this.session == session
      ensures ioBindingActive == bindingAllocated && shapes == []
      ensures hostInput[..] == Zeros(MaxBatch() * wi)
    {
      var maxBatch := if buckets == [] then 1 else buckets[|buckets| - 1];
      this.buckets, this.wi, this.wo, this.session := buckets, wi, wo, session;
      this.ioBindingActive := bindingAllocated;
      hostInput := new Elem[maxBatch * wi](_ => Zero);
      deviceInput := new Elem[maxBatch * wi](_ => Zero);
      hostOutput := new Elem[maxBatch * wo](_ => Zero);
      deviceOutput := new Elem[maxBatch * wo](_ => Zero);
      shapes := [];
    }

    /** memcpy of `src` onto the front of `dst`; the rest of `dst` keeps what it held. */
    static method CopyFront(src: Row, dst: array<Elem>)
      requires |src| <= dst.Length
      modifies dst
      ensures dst[..] == src + old(dst[..])[|src|..]
    {
      forall j | 0 <= j < |src| {
        dst[j] := src[j];
      }
    }

    /** Device-resident path. Only the real rows are staged, so the padded tail of the pinned
        buffer holds whatever earlier, larger batches left there; the result is the reference's.
        `uploads` and `downloads` say whether CUDA serves the copies in and out. */
    method RunBound(x: Row, n: nat, p: nat, uploads: bool, downloads: bool) returns (result: EngineResult)
      requires Valid() && |x| == n * wi && n <= p <= MaxBatch()
      modifies hostInput, hostOutput, deviceInput, deviceOutput, this`shapes
      ensures result == if !uploads || (!session.fails(p) && !downloads) then Threw(CUDA_FAILED)
                        else HostResult(session, x, n, p, wi, wo)
      ensures shapes == if uploads then old(shapes) + [p] else old(shapes)
      ensures hostInput[..] == Staged(old(hostInput[..]), x)
    {
      ExtentFits(n, p, wi);
      ExtentFits(p, MaxBatch(), wi);
      ExtentFits(p, MaxBatch(), wo);
      CopyFront(x, hostInput);
      if !uploads {
        return Threw(CUDA_FAILED);
      }
      CopyFront(hostInput[..p * wi], deviceInput);
      assert deviceInput[..p * wi] == hostInput[..p * wi];
      assert hostInput[..p * wi][..n * wi] == x;
      StagedRun(session, x, deviceInput[..p * wi], n, p, wi, wo);
      result := RunStaged(deviceInput[..p * wi], n, p, downloads);
    }

    /** The session's output lands on the device, is copied to the pinned output buffer and cut to
        the rows that belong to requests. */
    method ReadBack(out: Row, kept: nat) returns (r: Row)
      requires kept <= |out| <= deviceOutput.Length && |out| <= hostOutput.Length && deviceOutput != hostOutput
      modifies hostOutput, deviceOutput
      ensures r == out[..kept]
    {
      CopyFront(out, deviceOutput);
      CopyFront(deviceOutput[..|out|], hostOutput);
      r := hostOutput[..kept];
    }

    /** The bound run proper, on the padded extent now on the device. */
    method RunStaged(staged: Row, n: nat, p: nat, downloads: bool) returns (result: EngineResult)
      requires Valid() && |staged| == p * wi && n <= p <= MaxBatch()
      modifies hostOutput, deviceOutput, this`shapes
      ensures result == if !session.fails(p) && !downloads then Threw(CUDA_FAILED)
                        else Truncated(SessionRun(session, staged, p, wi), n * wo)
      ensures shapes == old(shapes) + [p]
    {
      shapes := shapes + [p];
      var output := SessionRun(session, staged, p, wi);
      if output.Threw? {
        return output;
      }
      MapRowsLength(session.row, staged, p, wi, wo);
      ExtentFits(n, p, wo);
      ExtentFits(p, MaxBatch(), wo);
      var kept := ReadBack(output.output, n * wo);
      result := if downloads then Returned(kept) else Threw(CUDA_FAILED);
    }

    /** The session run on a host buffer, cut to the rows that belong to requests. */
    method RunOnHost(input: Row, n: nat, p: nat) returns (result: EngineResult)
      requires Valid() && |input| == p * wi && n <= p
      modifies this`shapes
      ensures result == Truncated(SessionRun(session, input, p, wi), n * wo)
      ensures shapes == old(shapes) + [p]
    {
      shapes := shapes + [p];
      var output := SessionRun(session, input, p, wi);
      if output.Threw? {
        return output;
      }
      MapRowsLength(session.row, input, p, wi, wo);
      ExtentFits(n, p, wo);
      result := Returned(output.output[..n * wo]);
    }

    /** Host path: pads into a fresh buffer only when the batch is not already a bucket. */
    method RunHost(x: Row, n: nat, p: nat) returns (result: EngineResult)
      requires Valid() && |x| == n * wi && n <= p
      modifies this`shapes
      ensures result == HostResult(session, x, n, p, wi, wo)
      ensures shapes == old(shapes) + [p]
    {
      ExtentFits(n, p, wi);
      ExtentFits(n, p, wo);
      var paddedElems := p * wi;
      var input := x;
      if p != n {
        input := x + Zeros(paddedElems)[|x|..];
      }
      assert input == x + Zeros(paddedElems - |x|);
      StagedRun(session, x, input, n, p, wi, wo);
      result := RunOnHost(input, n, p);
    }

    /** The arguments pass every check. */
    predicate Passes(x: Row, n: nat, inputElems: nat, outputElems: nat) {
      |x| == n * inputElems && n != 0 && inputElems == wi && outputElems == wo
    }

    /** The padded batch fits the preallocated buffers, so the device-resident path is taken. */
    predicate Bound(n: nat) { ioBindingActive && buckets != [] && Bucket(buckets, n) <= MaxBatch() }

    /** The device-resident path is taken if and only if its buffers were allocated and some bucket is
        large enough for the batch. */
    lemma BoundIff(n: nat)
      requires Valid()
      ensures Bound(n) <==> ioBindingActive && exists k :: 0 <= k < |buckets| && n <= buckets[k]
    {
      BucketIsLeastThatFits(buckets, n);
    }

    /** A CUDA copy of this call fails where it matters. */
    predicate Faults(n: nat, uploads: bool, downloads: bool) {
      Bound(n) && (!uploads || (!session.fails(Bucket(buckets, n)) && !downloads))
    }

    /** Every shape the session has seen is `m`. */
    ghost predicate OneShape(m: nat)
      reads this
    {
      forall i :: 0 <= i < |shapes| ==> shapes[i] == m
    }

    /** run_inference(): unless a CUDA copy fails, the answer is a function of the arguments alone,
        whichever path runs and whatever calls came before. With one bucket and no larger batch the
        session goes on seeing one shape. */
    method RunInference(x: Row, n: nat, inputElems: nat, outputElems: nat, uploads: bool, downloads: bool)
      returns (result: EngineResult)
      requires Valid()
      modifies hostInput, hostOutput, deviceInput, deviceOutput, this`shapes
      ensures result ==
        if Passes(x, n, inputElems, outputElems) && Faults(n, uploads, downloads) then Threw(CUDA_FAILED)
        else OnnxFunction(session, buckets, wi, wo, inputElems, outputElems)(x, n)
      ensures result.Returned? <==>
        |x| == n * inputElems &&
        (n == 0 || (inputElems == wi && outputElems == wo && !session.fails(Bucket(buckets, n)) &&
                    !Faults(n, uploads, downloads)))
      ensures shapes == if Passes(x, n, inputElems, outputElems) && (Bound(n) ==> uploads)
                        then old(shapes) + [Bucket(buckets, n)] else old(shapes)
      ensures hostInput[..] == if Passes(x, n, inputElems, outputElems) && Bound(n)
                               then Staged(old(hostInput[..]), x) else old(hostInput[..])
      ensures forall m: nat :: buckets == [m] && n <= m && old(OneShape(m)) ==> OneShape(m)
    {
      if |x| != n * inputElems {
        return Threw(BAD_INPUT_SIZE);
      }
      if n == 0 {
        return Returned([]);
      }
      if inputElems != wi || outputElems != wo {
        return Threw(BAD_GEOMETRY);
      }
      var padded := BucketFor(buckets, n);
      BucketIsLeastThatFits(buckets, n);
      if ioBindingActive && buckets != [] && padded <= buckets[|buckets| - 1] {
        result := RunBound(x, n, padded, uploads, downloads);
      } else {
        result := RunHost(x, n, padded);
      }
    }

    /** Runs one throwaway batch of zeros per bucket, so that the session has then seen each non-zero
        bucket as a shape, once and in order; failures are swallowed. `uploads` says for each bucket
        whether CUDA serves the copy in, without which the session is not run. */
    method WarmBuckets(uploads: seq<bool>)
      requires Valid() && |uploads| == |buckets|
      modifies hostInput, hostOutput, deviceInput, deviceOutput, this`shapes
      ensures shapes == old(shapes) + Warmed(buckets, uploads, ioBindingActive)
      ensures forall m: nat :: buckets == [m] && old(OneShape(m)) ==> OneShape(m)
    {
      for k := 0 to |buckets|
        invariant shapes == old(shapes) + Warmed(buckets[..k], uploads[..k], ioBindingActive)
        invariant forall m: nat :: buckets == [m] && old(OneShape(m)) ==> OneShape(m)
      {
        assert buckets[..k + 1][..k] == buckets[..k] && uploads[..k + 1][..k] == uploads[..k];
        if buckets[k] != 0 {
          BucketServesItself(buckets, k);
          var ignored := RunInference(Zeros(buckets[k] * wi), buckets[k], wi, wo, uploads[k], true);
        }
      }
      assert buckets[..|buckets|] == buckets && uploads[..|buckets|] == uploads;
    }
  }
}
