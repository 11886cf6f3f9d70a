/** Move-only handles over the pool, and whole runs of acquiring, moving, dropping and trimming. */
module PoolHandles {
  import opened Basics
  import opened PoolBuckets
  import opened MemoryPool

  /** `attached` says whether the handle points at the pool. */
  datatype Handle = Handle(attached: bool, ptr: Option<nat>, capacity: nat, requested: nat, pinned: bool)

  const EmptyHandle := Handle(false, None, 0, 0, false)

  /** release(): the block goes back, the handle is cleared (its kind flag is left as it was). */
  function Cleared(h: Handle): Handle { h.(attached := false, ptr := None, capacity := 0, requested := 0) }

  function ReleaseHandle(p: Pool, h: Handle): Pool {
    if h.attached && h.ptr.Some? then Release(p, h.ptr.value, h.capacity, h.pinned) else p
  }

  datatype World = World(pool: Pool, handles: map<nat, Handle>, gone: bool, terminated: bool)

  datatype Step =
    | Default(h: nat)
    | AcquireInto(h: nat, bytes: nat, pinned: bool, allocates: bool)
    | MoveConstruct(to: nat, from: nat)
    | MoveAssign(to: nat, from: nat)
    | Drop(h: nat)
    | TrimPool
    | DestroyPool

  const Init := World(EmptyPool, map[], false, false)

  predicate Enabled(w: World, step: Step) {
    && !w.gone && !w.terminated
    && match step
       case Default(h) => h !in w.handles
       case AcquireInto(h, bytes, _, _) => h !in w.handles && bytes <= HALF_WORD
       case MoveConstruct(to, from) => to !in w.handles && from in w.handles
       case MoveAssign(to, from) => to in w.handles && from in w.handles
       case Drop(h) => h in w.handles
       case TrimPool => true
       case DestroyPool => true
  }

  function Apply(w: World, step: Step): World
    requires Enabled(w, step)
  {
    match step
    case Default(h) => w.(handles := w.handles[h := EmptyHandle])
    case AcquireInto(h, bytes, pinned, allocates) =>
      var (pool, ptr) := Acquire(w.pool, BucketOf(bytes), pinned, allocates);
      if ptr.None? then w.(pool := pool)
      else w.(pool := pool, handles := w.handles[h := Handle(true, ptr, BucketOf(bytes), bytes, pinned)])
    case MoveConstruct(to, from) => w.(handles := w.handles[to := w.handles[from]][from := EmptyHandle])
    case MoveAssign(to, from) =>
      if to == from then w
      else w.(pool := ReleaseHandle(w.pool, w.handles[to]),
              handles := w.handles[to := w.handles[from]][from := EmptyHandle])
    case Drop(h) => w.(pool := ReleaseHandle(w.pool, w.handles[h]), handles := w.handles - {h})
    case TrimPool => w.(pool := Trim(w.pool))
    case DestroyPool =>
      if w.pool.stats.liveHandles != 0 then w.(terminated := true)
      else w.(pool := Trim(w.pool), gone := true)
  }

  predicate Runs(w: World, steps: seq<Step>)
    decreases |steps|, 0
  {
    steps == [] ||
    (var n := |steps| - 1;
     Runs(w, steps[..n]) && Enabled(After(w, steps[..n]), steps[n]))
  }

  function After(w: World, steps: seq<Step>): World
    requires Runs(w, steps)
    decreases |steps|, 1
  {
    if steps == [] then w else Apply(After(w, steps[..|steps| - 1]), steps[|steps| - 1])
  }

  // ---- one place per block ----

  /** A handle with a block is attached, and the block is live with the handle's capacity and kind. */
  ghost predicate HandleOk(blocks: seq<Block>, h: Handle) {
    && (h.attached <==> h.ptr.Some?)
    && (h.ptr.Some? ==>
          && h.ptr.value < |blocks| && blocks[h.ptr.value] == Block(h.capacity, h.pinned, Live)
          && h.requested <= h.capacity)
  }

  predicate Holds(handles: map<nat, Handle>, h: nat, i: nat) { h in handles && handles[h].ptr == Some(i) }

  ghost predicate HandlesOk(blocks: seq<Block>, handles: map<nat, Handle>) {
    && (forall h :: h in handles ==> HandleOk(blocks, handles[h]))
    && (forall g, h, i :: Holds(handles, g, i) && Holds(handles, h, i) ==> g == h)
    && (forall i :: 0 <= i < |blocks| && blocks[i].place.Live? ==> exists h :: Holds(handles, h, i))
  }

  ghost predicate Inv(w: World) {
    && PoolInv(w.pool)
    && HandlesOk(w.pool.blocks, w.handles)
    && (w.gone ==> forall i :: 0 <= i < |w.pool.blocks| ==> w.pool.blocks[i].place.Freed?)
  }

  /** A handle's contents move to another name and the old name is emptied. */
  lemma MoveKeeps(blocks: seq<Block>, handles: map<nat, Handle>, to: nat, from: nat)
    requires HandlesOk(blocks, handles) && from in handles && to != from
    requires to !in handles || handles[to].ptr.None?
    ensures HandlesOk(blocks, handles[to := handles[from]][from := EmptyHandle])
  {
    var hs := handles[to := handles[from]][from := EmptyHandle];
    forall h, i
      ensures Holds(hs, h, i) <==>
              (h == to && Holds(handles, from, i)) || (h != to && h != from && Holds(handles, h, i))
    {
    }
    forall i | 0 <= i < |blocks| && blocks[i].place.Live? ensures exists h :: Holds(hs, h, i) {
      var h :| Holds(handles, h, i);
      assert Holds(hs, if h == from then to else h, i);
    }
  }

  /** Releasing the block a handle holds, the handle being cleared or removed. */
  lemma DropBlock(p: Pool, handles: map<nat, Handle>, h: nat, handles': map<nat, Handle>)
    requires PoolInv(p) && HandlesOk(p.blocks, handles) && h in handles
    requires handles' == handles - {h} || handles' == handles[h := Cleared(handles[h])]
    ensures PoolInv(ReleaseHandle(p, handles[h])) && HandlesOk(ReleaseHandle(p, handles[h]).blocks, handles')
  {
    var x := handles[h];
    var q := ReleaseHandle(p, x);
    forall g, i ensures Holds(handles', g, i) <==> g != h && Holds(handles, g, i) {
    }
    if x.ptr.Some? {
      var ptr := x.ptr.value;
      assert Holds(handles, h, ptr);
      ReleaseKeeps(p, ptr, x.capacity, x.pinned);
      assert q.blocks == p.blocks[ptr := Block(x.capacity, x.pinned, Cached)];
      DropOthers(p.blocks, q.blocks, handles, handles', h, ptr);
    } else {
      forall i | 0 <= i < |p.blocks| && p.blocks[i].place.Live? ensures exists g :: Holds(handles', g, i) {
        var g :| Holds(handles, g, i);
        assert Holds(handles', g, i);
      }
    }
  }

  lemma DropOthers(blocks: seq<Block>, blocks': seq<Block>, handles: map<nat, Handle>, handles': map<nat, Handle>,
                   h: nat, ptr: nat)
    requires HandlesOk(blocks, handles) && Holds(handles, h, ptr) && ptr < |blocks|
    requires blocks' == blocks[ptr := blocks[ptr].(place := Cached)]
    requires handles' == handles - {h} || handles' == handles[h := Cleared(handles[h])]
    requires forall g, i :: Holds(handles', g, i) <==> g != h && Holds(handles, g, i)
    ensures HandlesOk(blocks', handles')
  {
    forall g | g in handles' ensures HandleOk(blocks', handles'[g]) {
      if g != h && handles[g].ptr.Some? {
        assert Holds(handles, g, handles[g].ptr.value);
      }
    }
    forall i | 0 <= i < |blocks'| && blocks'[i].place.Live? ensures exists g :: Holds(handles', g, i) {
      assert i != ptr;
      var g :| Holds(handles, g, i);
      assert Holds(handles', g, i);
    }
  }

  lemma AcquireBlock(p: Pool, c: nat, pinned: bool, allocates: bool)
    requires PoolInv(p)
    ensures var (q, ptr) := Acquire(p, c, pinned, allocates);
            if ptr.None? then q.blocks == p.blocks
            else && ptr.value < |q.blocks| && q.blocks[ptr.value] == Block(c, pinned, Live)
                 && (ptr.value < |p.blocks| ==> p.blocks[ptr.value].place.Cached?)
                 && (|q.blocks| == |p.blocks| || (ptr.value == |p.blocks| && |q.blocks| == |p.blocks| + 1))
                 && (forall i :: 0 <= i < |p.blocks| && i != ptr.value ==> q.blocks[i] == p.blocks[i])
  {
    var list := ListAt(Lists(p, pinned), c);
    if list != [] {
      SoundPop(Lists(p, pinned), pinned, p.blocks, c, list[|list| - 1], Block(c, pinned, Live));
    }
  }

  lemma AcquireStep(w: World, h: nat, bytes: nat, pinned: bool, allocates: bool)
    requires Inv(w) && Enabled(w, AcquireInto(h, bytes, pinned, allocates))
    ensures Inv(Apply(w, AcquireInto(h, bytes, pinned, allocates)))
  {
    var c := BucketOf(bytes);
    var w' := Apply(w, AcquireInto(h, bytes, pinned, allocates));
    AcquireKeeps(w.pool, c, pinned, allocates);
    AcquireBlock(w.pool, c, pinned, allocates);
    BucketIsLeast(bytes);
    var ptr := Acquire(w.pool, c, pinned, allocates).1;
    if ptr.Some? {
      NewHandle(w.pool.blocks, w'.pool.blocks, w.handles, h, w'.handles[h]);
    }
  }

  lemma NewHandle(blocks: seq<Block>, blocks': seq<Block>, handles: map<nat, Handle>, h: nat, x: Handle)
    requires HandlesOk(blocks, handles) && h !in handles && x.ptr.Some? && HandleOk(blocks', x)
    requires x.ptr.value < |blocks| ==> !blocks[x.ptr.value].place.Live?
    requires |blocks'| == |blocks| || (x.ptr.value == |blocks| && |blocks'| == |blocks| + 1)
    requires forall i :: 0 <= i < |blocks| && i != x.ptr.value ==> blocks'[i] == blocks[i]
    ensures HandlesOk(blocks', handles[h := x])
  {
    var hs := handles[h := x];
    forall g: nat, i: nat
      ensures Holds(hs, g, i) <==> (g == h && x.ptr == Some(i)) || (g != h && Holds(handles, g, i))
    {
    }
    forall g | g in handles && handles[g].ptr.Some? ensures handles[g].ptr != x.ptr {
      assert HandleOk(blocks, handles[g]);
    }
    forall i | 0 <= i < |blocks'| && blocks'[i].place.Live? ensures exists g :: Holds(hs, g, i) {
      if i == x.ptr.value {
        assert Holds(hs, h, i);
      } else {
        var g :| Holds(handles, g, i);
        assert Holds(hs, g, i);
      }
    }
  }

  lemma AssignStep(w: World, to: nat, from: nat)
    requires Inv(w) && Enabled(w, MoveAssign(to, from))
    ensures Inv(Apply(w, MoveAssign(to, from)))
  {
    if to != from {
      var mid := w.handles[to := Cleared(w.handles[to])];
      DropBlock(w.pool, w.handles, to, mid);
      MoveKeeps(ReleaseHandle(w.pool, w.handles[to]).blocks, mid, to, from);
      assert mid[to := mid[from]][from := EmptyHandle] == w.handles[to := w.handles[from]][from := EmptyHandle];
    }
  }

  lemma TrimStep(w: World)
    requires Inv(w)
    ensures PoolInv(Trim(w.pool)) && HandlesOk(Trim(w.pool).blocks, w.handles)
  {
    TrimKeeps(w.pool);
    forall i | 0 <= i < |w.pool.blocks| && Trim(w.pool).blocks[i].place.Live?
      ensures exists h :: Holds(w.handles, h, i)
    {
      assert w.pool.blocks[i].place.Live?;
    }
  }

  lemma {:induction false} NoneLive(blocks: seq<Block>)
    requires Total(blocks, OneIf(Live)) == 0
    ensures forall i :: 0 <= i < |blocks| ==> !blocks[i].place.Live?
    decreases |blocks|
  {
    if blocks != [] {
      var n := |blocks| - 1;
      TotalNonNegative(blocks[..n], OneIf(Live));
      NoneLive(blocks[..n]);
      assert forall i :: 0 <= i < n ==> blocks[i] == blocks[..n][i];
    }
  }

  lemma DestroyStep(w: World)
    requires Inv(w) && Enabled(w, DestroyPool)
    ensures Inv(Apply(w, DestroyPool))
  {
    if w.pool.stats.liveHandles == 0 {
      TrimStep(w);
      NoneLive(w.pool.blocks);
      forall i | 0 <= i < |w.pool.blocks| ensures Trim(w.pool).blocks[i].place.Freed? {
        assert w.pool.blocks[i].place.Cached? || w.pool.blocks[i].place.Freed?;
      }
    }
  }

  lemma InvStep(w: World, step: Step)
    requires Inv(w) && Enabled(w, step)
    ensures Inv(Apply(w, step))
  {
    match step
    case Default(h) => DefaultStep(w, h);
    case AcquireInto(h, bytes, pinned, allocates) => AcquireStep(w, h, bytes, pinned, allocates);
    case MoveConstruct(to, from) => MoveKeeps(w.pool.blocks, w.handles, to, from);
    case MoveAssign(to, from) => AssignStep(w, to, from);
    case Drop(h) => DropBlock(w.pool, w.handles, h, w.handles - {h});
    case TrimPool => TrimStep(w);
    case DestroyPool => DestroyStep(w);
  }

  lemma DefaultStep(w: World, h: nat)
    requires Inv(w) && Enabled(w, Default(h))
    ensures Inv(Apply(w, Default(h)))
  {
    var hs := w.handles[h := EmptyHandle];
    forall g, i ensures Holds(hs, g, i) <==> g != h && Holds(w.handles, g, i) {
    }
    forall i | 0 <= i < |w.pool.blocks| && w.pool.blocks[i].place.Live? ensures exists g :: Holds(hs, g, i) {
      var g :| Holds(w.handles, g, i);
      assert Holds(hs, g, i);
    }
  }

  lemma InvInit()
    ensures Inv(Init)
  {
    var none: map<nat, Handle> := map[];
    assert forall h: nat, i: nat :: !Holds(none, h, i);
    assert HandlesOk([], none);
    EmptyPoolInv();
  }

  lemma {:induction false} InvRun(steps: seq<Step>)
    requires Runs(Init, steps)
    ensures Inv(After(Init, steps))
    decreases |steps|
  {
    if steps == [] {
      InvInit();
    } else {
      var n := |steps| - 1;
      InvRun(steps[..n]);
      InvStep(After(Init, steps[..n]), steps[n]);
    }
  }

  /** Every block ever allocated is in exactly one place: held by exactly one handle, in the free
      list of its own kind and capacity and in no other position of any list, or freed; the byte and
      handle counters are exact; and a pool that was destroyed past its guard has freed every block. */
  lemma EveryBlockInOnePlace(steps: seq<Step>, i: nat)
    requires Runs(Init, steps) && i < |After(Init, steps).pool.blocks|
    ensures var w := After(Init, steps);
      && StatsExact(w.pool)
      && (forall g, h :: Holds(w.handles, g, i) && Holds(w.handles, h, i) ==> g == h)
      && (w.gone ==> w.pool.blocks[i].place.Freed?)
      && match w.pool.blocks[i].place
         case Live => (exists h :: Holds(w.handles, h, i)) && !IsListed(w.pool, i)
         case Cached => !(exists h :: Holds(w.handles, h, i)) && ListedOnce(w.pool, i)
         case Freed => !(exists h :: Holds(w.handles, h, i)) && !IsListed(w.pool, i)
  {
    InvRun(steps);
    var w := After(Init, steps);
    if w.pool.blocks[i].place.Cached? {
      CachedListedOnce(w.pool, i);
    }
    forall h | Holds(w.handles, h, i) ensures w.pool.blocks[i].place.Live? {
      assert HandleOk(w.pool.blocks, w.handles[h]);
    }
  }

  predicate ListedAt(p: Pool, pinned: bool, c: nat, k: nat, i: nat) {
    c in Lists(p, pinned) && k < |Lists(p, pinned)[c]| && Lists(p, pinned)[c][k] == i
  }

  ghost predicate IsListed(p: Pool, i: nat) { exists pinned, c, k :: ListedAt(p, pinned, c, k, i) }

  /** In the free list of its kind and capacity, and at one position only. */
  ghost predicate ListedOnce(p: Pool, i: nat) {
    && i < |p.blocks|
    && (exists k :: ListedAt(p, p.blocks[i].pinned, p.blocks[i].capacity, k, i))
    && (forall pinned, c, k, pinned', c', k' ::
          ListedAt(p, pinned, c, k, i) && ListedAt(p, pinned', c', k', i) ==> pinned == pinned' && c == c' && k == k')
  }

  lemma CachedListedOnce(p: Pool, i: nat)
    requires PoolInv(p) && i < |p.blocks| && p.blocks[i].place.Cached?
    ensures ListedOnce(p, i)
  {
    var b := p.blocks[i];
    var list := ListAt(Lists(p, b.pinned), b.capacity);
    assert i in list;
    var k :| 0 <= k < |list| && list[k] == i;
    assert ListedAt(p, b.pinned, b.capacity, k, i);
    forall pinned, c, k | ListedAt(p, pinned, c, k, i) ensures pinned == b.pinned && c == b.capacity {
    }
  }

  ghost predicate Reachable(w: World) {
    exists steps {:trigger Runs(Init, steps)} :: Runs(Init, steps) && After(Init, steps) == w
  }

  lemma ReachableInv(w: World)
    requires Reachable(w)
    ensures Inv(w)
  {
    var steps :| Runs(Init, steps) && After(Init, steps) == w;
    InvRun(steps);
  }

  /** The guard works both ways: destruction goes ahead exactly when no handle holds a block. */
  lemma GuardIsExact(w: World)
    requires Reachable(w) && Enabled(w, DestroyPool)
    ensures Apply(w, DestroyPool).gone <==> forall h :: h in w.handles ==> w.handles[h].ptr.None?
  {
    ReachableInv(w);
    NoneLiveIff(w);
  }

  lemma NoneLiveIff(w: World)
    requires StatsExact(w.pool) && HandlesOk(w.pool.blocks, w.handles)
    ensures w.pool.stats.liveHandles == 0 <==> forall h :: h in w.handles ==> w.handles[h].ptr.None?
  {
    if w.pool.stats.liveHandles == 0 {
      NoneLive(w.pool.blocks);
      forall h | h in w.handles ensures w.handles[h].ptr.None? {
        assert HandleOk(w.pool.blocks, w.handles[h]);
      }
    } else {
      SomeLive(w.pool.blocks);
      var i :| 0 <= i < |w.pool.blocks| && w.pool.blocks[i].place.Live?;
      var h :| Holds(w.handles, h, i);
      assert h in w.handles && w.handles[h].ptr.Some?;
    }
  }

  lemma {:induction false} SomeLive(blocks: seq<Block>)
    requires Total(blocks, OneIf(Live)) != 0
    ensures exists i :: 0 <= i < |blocks| && blocks[i].place.Live?
    decreases |blocks|
  {
    var n := |blocks| - 1;
    if blocks[n].place.Live? {
    } else {
      SomeLive(blocks[..n]);
      var i :| 0 <= i < n && blocks[..n][i].place.Live?;
      assert blocks[i].place.Live?;
    }
  }

  lemma ReachableExact(w: World)
    requires Reachable(w)
    ensures StatsExact(w.pool)
  {
    ReachableInv(w);
  }

  /** No counter is ever below zero. */
  lemma CountersNeverUnderflow(w: World)
    requires Reachable(w)
    ensures w.pool.stats.bytesInUse >= 0 && w.pool.stats.bytesCached >= 0 && w.pool.stats.liveHandles >= 0
  {
    ReachableExact(w);
    ExactIsNonNegative(w.pool);
  }

  function Owning(handles: map<nat, Handle>): set<nat> { set h | h in handles && handles[h].ptr.Some? }

  lemma OwningMove(handles: map<nat, Handle>, to: nat, from: nat)
    requires from in handles && to != from && (to !in handles || handles[to].ptr.None?)
    ensures |Owning(handles[to := handles[from]][from := EmptyHandle])| == |Owning(handles)|
  {
    var own, moved := Owning(handles), handles[to := handles[from]][from := EmptyHandle];
    assert to !in own;
    if from in own {
      assert Owning(moved) == (own - {from}) + {to};
    } else {
      assert Owning(moved) == own;
    }
  }

  lemma ReleaseDelta(p: Pool, h: Handle)
    requires h.attached <==> h.ptr.Some?
    ensures ReleaseHandle(p, h).stats.liveHandles == p.stats.liveHandles - if h.ptr.Some? then 1 else 0
  {
  }

  lemma OwningAssign(handles: map<nat, Handle>, to: nat, from: nat)
    requires to in handles && from in handles && to != from
    ensures |Owning(handles[to := handles[from]][from := EmptyHandle])| ==
            |Owning(handles)| - if handles[to].ptr.Some? then 1 else 0
  {
    var mid := handles[to := Cleared(handles[to])];
    assert Owning(mid) == Owning(handles) - {to};
    OwningMove(mid, to, from);
    assert mid[to := mid[from]][from := EmptyHandle] == handles[to := handles[from]][from := EmptyHandle];
  }

  lemma OwningDrop(handles: map<nat, Handle>, h: nat)
    requires h in handles
    ensures |Owning(handles - {h})| == |Owning(handles)| - if handles[h].ptr.Some? then 1 else 0
  {
    assert Owning(handles - {h}) == Owning(handles) - {h};
  }

  lemma OwningAdd(handles: map<nat, Handle>, h: nat, x: Handle)
    requires h !in handles
    ensures |Owning(handles[h := x])| == |Owning(handles)| + if x.ptr.Some? then 1 else 0
  {
    assert Owning(handles[h := x]) == if x.ptr.Some? then Owning(handles) + {h} else Owning(handles);
  }

  lemma OwningStep(w: World, step: Step)
    requires forall h :: h in w.handles ==> (w.handles[h].attached <==> w.handles[h].ptr.Some?)
    requires Enabled(w, step)
    ensures |Owning(Apply(w, step).handles)| - |Owning(w.handles)| ==
            Apply(w, step).pool.stats.liveHandles - w.pool.stats.liveHandles
  {
    match step
    case Default(h) => OwningAdd(w.handles, h, EmptyHandle);
    case AcquireInto(h, bytes, pinned, allocates) =>
      if h in Apply(w, step).handles {
        OwningAdd(w.handles, h, Apply(w, step).handles[h]);
      }
    case MoveConstruct(to, from) => OwningMove(w.handles, to, from);
    case MoveAssign(to, from) =>
      if to != from {
        ReleaseDelta(w.pool, w.handles[to]);
        OwningAssign(w.handles, to, from);
      }
    case Drop(h) =>
      ReleaseDelta(w.pool, w.handles[h]);
      OwningDrop(w.handles, h);
    case TrimPool =>
    case DestroyPool =>
  }

  lemma AttachedRun(steps: seq<Step>)
    requires Runs(Init, steps)
    ensures forall h :: h in After(Init, steps).handles ==>
              (After(Init, steps).handles[h].attached <==> After(Init, steps).handles[h].ptr.Some?)
  {
    InvRun(steps);
  }

  /** In every run, an acquisition that CUDA can serve gives its handle a live block of the kind asked for
      and of the size of its bucket, and one that it cannot gives a handle exactly when the bucket has a
      cached block. */
  lemma AcquireIntoHolds(w: World, h: nat, bytes: nat, pinned: bool, allocates: bool)
    requires Reachable(w) && Enabled(w, AcquireInto(h, bytes, pinned, allocates))
    ensures var w', m, c := Apply(w, AcquireInto(h, bytes, pinned, allocates)), Lists(w.pool, pinned), BucketOf(bytes);
      && (h in w'.handles <==> allocates || (c in m && m[c] != []))
      && (h in w'.handles ==>
            && w'.handles[h].ptr.Some? && w'.handles[h].ptr.value < |w'.pool.blocks|
            && w'.pool.blocks[w'.handles[h].ptr.value] == Block(c, pinned, Live)
            && w'.handles[h] == Handle(true, w'.handles[h].ptr, c, bytes, pinned))
  {
    ReachableInv(w);
    AcquireFailsIff(w.pool, BucketOf(bytes), pinned, allocates);
  }

  /** A handle's block, if it has one, is back on its list; every other block is where it was. */
  ghost predicate BlockReturned(blocks: seq<Block>, blocks': seq<Block>, x: Handle) {
    && |blocks'| == |blocks|
    && forall i :: 0 <= i < |blocks| ==>
         blocks'[i] == if x.ptr == Some(i) then Block(x.capacity, x.pinned, Cached) else blocks[i]
  }

  lemma ReleaseReturns(p: Pool, h: Handle)
    requires HandleOk(p.blocks, h)
    ensures BlockReturned(p.blocks, ReleaseHandle(p, h).blocks, h)
  {
  }

  /** Moving a handle gives the new name what the old one held and leaves the old one empty; nothing else
      is renamed, no block moves but the one the target held before, and that one goes back. */
  lemma MoveHandsOver(w: World, step: Step, to: nat, from: nat)
    requires Reachable(w) && Enabled(w, step) && to != from
    requires step == MoveConstruct(to, from) || step == MoveAssign(to, from)
    ensures var w' := Apply(w, step);
      && w'.handles.Keys == w.handles.Keys + {to}
      && w'.handles[to] == w.handles[from] && w'.handles[from] == EmptyHandle
      && (forall h :: h in w.handles && h != to && h != from ==> w'.handles[h] == w.handles[h])
      && BlockReturned(w.pool.blocks, w'.pool.blocks, if to in w.handles then w.handles[to] else EmptyHandle)
  {
    ReachableInv(w);
    if to in w.handles {
      ReleaseReturns(w.pool, w.handles[to]);
    }
  }

  /** Dropping a handle gives back its block and touches no other handle, and the next acquisition from
      that block's bucket is served with that very block. */
  lemma DropReturns(w: World, h: nat, g: nat, bytes: nat, allocates: bool)
    requires Reachable(w) && Enabled(w, Drop(h)) && w.handles[h].ptr.Some?
    requires g !in w.handles && bytes <= HALF_WORD && BucketOf(bytes) == w.handles[h].capacity
    ensures var w', x := Apply(w, Drop(h)), w.handles[h];
      && w'.handles == w.handles - {h} && BlockReturned(w.pool.blocks, w'.pool.blocks, x)
      && Enabled(w', AcquireInto(g, bytes, x.pinned, allocates))
      && Holds(Apply(w', AcquireInto(g, bytes, x.pinned, allocates)).handles, g, x.ptr.value)
  {
    ReachableInv(w);
    var x := w.handles[h];
    ReleaseReturns(w.pool, x);
    ReacquireReturnsSameBlock(w.pool, x.ptr.value, x.capacity, x.pinned, allocates);
  }

  /** Trimming frees every cached block and no other, leaves the handles alone, and the next acquisition
      then needs CUDA. */
  lemma TrimFrees(w: World, h: nat, bytes: nat, pinned: bool)
    requires Reachable(w) && Enabled(w, TrimPool) && h !in w.handles && bytes <= HALF_WORD
    ensures var w' := Apply(w, TrimPool);
      && w'.handles == w.handles && |w'.pool.blocks| == |w.pool.blocks| && w'.pool.stats.bytesCached == 0
      && (forall i :: 0 <= i < |w.pool.blocks| ==>
            var b := w.pool.blocks[i]; w'.pool.blocks[i] == if b.place.Cached? then b.(place := Freed) else b)
      && Enabled(w', AcquireInto(h, bytes, pinned, false))
      && h !in Apply(w', AcquireInto(h, bytes, pinned, false)).handles
  {
    ReachableInv(w);
    TrimKeeps(w.pool);
    AcquireFailsIff(Trim(w.pool), BucketOf(bytes), pinned, false);
  }

  /** `live_handles` is the number of handles that hold a block. */
  lemma {:induction false} LiveHandlesIsExact(steps: seq<Step>)
    requires Runs(Init, steps)
    ensures After(Init, steps).pool.stats.liveHandles == |Owning(After(Init, steps).handles)|
    decreases |steps|
  {
    if steps == [] {
      assert Owning(map[]) == {};
    } else {
      var n := |steps| - 1;
      LiveHandlesIsExact(steps[..n]);
      AttachedRun(steps[..n]);
      OwningStep(After(Init, steps[..n]), steps[n]);
    }
  }

  // ---- allocations equal the peak of concurrency ----

  function MadeIn(pinned: bool, c: nat): Block -> int {
    (b: Block) => if b.pinned == pinned && b.capacity == c then 1 else 0
  }

  function LiveIn(pinned: bool, c: nat): Block -> int {
    (b: Block) => if b.pinned == pinned && b.capacity == c && b.place.Live? then 1 else 0
  }

  /** Blocks ever created in a bucket, and blocks of it currently live. */
  function Made(p: Pool, pinned: bool, c: nat): int { Total(p.blocks, MadeIn(pinned, c)) }
  function LiveNow(p: Pool, pinned: bool, c: nat): int { Total(p.blocks, LiveIn(pinned, c)) }

  /** The most blocks of a bucket that were live at once at any point of the run. */
  function Peak(w: World, steps: seq<Step>, pinned: bool, c: nat): int
    requires Runs(w, steps)
    decreases |steps|
  {
    if steps == [] then LiveNow(w.pool, pinned, c)
    else
      var before, now := Peak(w, steps[..|steps| - 1], pinned, c), LiveNow(After(w, steps).pool, pinned, c);
      if before < now then now else before
  }

  ghost predicate NoneFreed(blocks: seq<Block>) {
    forall i :: 0 <= i < |blocks| ==> !blocks[i].place.Freed?
  }

  ghost predicate Untrimmed(steps: seq<Step>) {
    forall i :: 0 <= i < |steps| ==> !steps[i].TrimPool? && !steps[i].DestroyPool?
  }

  lemma {:induction false} LiveAtMostMade(blocks: seq<Block>, pinned: bool, c: nat)
    ensures Total(blocks, LiveIn(pinned, c)) <= Total(blocks, MadeIn(pinned, c))
    ensures (forall i :: 0 <= i < |blocks| && blocks[i].pinned == pinned && blocks[i].capacity == c ==>
               blocks[i].place.Live?)
            ==> Total(blocks, LiveIn(pinned, c)) == Total(blocks, MadeIn(pinned, c))
    decreases |blocks|
  {
    if blocks != [] {
      LiveAtMostMade(blocks[..|blocks| - 1], pinned, c);
    }
  }

  /** One allocator operation either creates nothing in the bucket, or creates one block and then
      every block of the bucket is live. */
  ghost predicate CountsMove(p: Pool, q: Pool, pinned: bool, c: nat) {
    && NoneFreed(q.blocks)
    && (Made(q, pinned, c) == Made(p, pinned, c) ||
        (Made(q, pinned, c) == Made(p, pinned, c) + 1 && LiveNow(q, pinned, c) == Made(q, pinned, c)))
  }

  lemma AcquireCounts(p: Pool, c0: nat, pinned0: bool, allocates: bool, pinned: bool, c: nat)
    requires PoolInv(p) && NoneFreed(p.blocks)
    ensures CountsMove(p, Acquire(p, c0, pinned0, allocates).0, pinned, c)
  {
    var q := Acquire(p, c0, pinned0, allocates).0;
    var list := ListAt(Lists(p, pinned0), c0);
    if list != [] {
      var ptr := list[|list| - 1];
      SoundPop(Lists(p, pinned0), pinned0, p.blocks, c0, ptr, Block(c0, pinned0, Live));
      TotalUpdate(p.blocks, ptr, Block(c0, pinned0, Live), MadeIn(pinned, c));
    } else if allocates {
      TotalAppend(p.blocks, Block(c0, pinned0, Live), MadeIn(pinned, c));
      if pinned == pinned0 && c == c0 {
        forall i | 0 <= i < |q.blocks| && q.blocks[i].pinned == pinned && q.blocks[i].capacity == c
          ensures q.blocks[i].place.Live?
        {
          assert i < |p.blocks| && p.blocks[i].place.Cached? ==> i in list;
        }
        LiveAtMostMade(q.blocks, pinned, c);
      }
    }
  }

  lemma ReleaseCounts(p: Pool, handles: map<nat, Handle>, h: nat, pinned: bool, c: nat)
    requires HandlesOk(p.blocks, handles) && h in handles && NoneFreed(p.blocks)
    ensures CountsMove(p, ReleaseHandle(p, handles[h]), pinned, c)
  {
    var x := handles[h];
    if x.ptr.Some? {
      TotalUpdate(p.blocks, x.ptr.value, Block(x.capacity, x.pinned, Cached), MadeIn(pinned, c));
    }
  }

  lemma CountsStep(w: World, step: Step, pinned: bool, c: nat)
    requires Inv(w) && NoneFreed(w.pool.blocks) && Enabled(w, step) && !step.TrimPool? && !step.DestroyPool?
    ensures CountsMove(w.pool, Apply(w, step).pool, pinned, c)
  {
    match step
    case AcquireInto(_, bytes, kind, allocates) => AcquireCounts(w.pool, BucketOf(bytes), kind, allocates, pinned, c);
    case MoveAssign(to, from) => ReleaseCounts(w.pool, w.handles, to, pinned, c);
    case Drop(h) => ReleaseCounts(w.pool, w.handles, h, pinned, c);
    case _ =>
  }

  /** Over any run without trimming, the blocks ever created in a bucket number exactly the most that
      were ever live in it at once. */
  lemma {:induction false} CreatedEqualsPeak(steps: seq<Step>, pinned: bool, c: nat)
    requires Runs(Init, steps) && Untrimmed(steps)
    ensures NoneFreed(After(Init, steps).pool.blocks)
    ensures Made(After(Init, steps).pool, pinned, c) == Peak(Init, steps, pinned, c)
    decreases |steps|
  {
    if steps != [] {
      var n := |steps| - 1;
      var w := After(Init, steps[..n]);
      CreatedEqualsPeak(steps[..n], pinned, c);
      InvRun(steps[..n]);
      CountsStep(w, steps[n], pinned, c);
      LiveAtMostMade(After(Init, steps).pool.blocks, pinned, c);
    }
  }

  /** So cudaMalloc is called again only when some bucket's concurrency sets a new high. */
  lemma AllocationMeansNewPeak(steps: seq<Step>, step: Step, w: World)
    requires Runs(Init, steps) && Untrimmed(steps) && After(Init, steps) == w && Enabled(w, step)
    ensures Apply(w, step).pool.stats.mallocCalls > w.pool.stats.mallocCalls ==>
        step.AcquireInto? &&
        var c := BucketOf(step.bytes);
        LiveNow(Apply(w, step).pool, step.pinned, c) > Peak(Init, steps, step.pinned, c)
  {
    if step.AcquireInto? {
      CreatedEqualsPeak(steps, step.pinned, BucketOf(step.bytes));
    }
    InvRun(steps);
    MallocStep(w, step);
  }

  lemma MallocStep(w: World, step: Step)
    requires PoolInv(w.pool) && Enabled(w, step) && (step.AcquireInto? ==> NoneFreed(w.pool.blocks))
    ensures Apply(w, step).pool.stats.mallocCalls > w.pool.stats.mallocCalls ==>
        step.AcquireInto? &&
        var c := BucketOf(step.bytes);
        LiveNow(Apply(w, step).pool, step.pinned, c) > Made(w.pool, step.pinned, c)
  {
    if step.AcquireInto? {
      AcquireEffect(w, step);
      MallocFillsTheBucket(w.pool, BucketOf(step.bytes), step.pinned, step.allocates);
    } else {
      NoMalloc(w, step);
    }
  }

  lemma AcquireEffect(w: World, step: Step)
    requires step.AcquireInto? && Enabled(w, step)
    ensures Apply(w, step).pool == Acquire(w.pool, BucketOf(step.bytes), step.pinned, step.allocates).0
  {
  }

  lemma NoMalloc(w: World, step: Step)
    requires Enabled(w, step) && !step.AcquireInto?
    ensures Apply(w, step).pool.stats.mallocCalls == w.pool.stats.mallocCalls
  {
  }

  lemma MallocFillsTheBucket(p: Pool, c: nat, pinned: bool, allocates: bool)
    requires PoolInv(p) && NoneFreed(p.blocks)
    ensures var q := Acquire(p, c, pinned, allocates).0;
            q.stats.mallocCalls > p.stats.mallocCalls ==> LiveNow(q, pinned, c) > Made(p, pinned, c)
  {
    if ListAt(Lists(p, pinned), c) == [] && allocates {
      AcquireCounts(p, c, pinned, true, pinned, c);
      TotalAppend(p.blocks, Block(c, pinned, Live), MadeIn(pinned, c));
    }
  }

  // ---- cudamalloc_calls is the sum of the peaks ----

  function SumMade(blocks: seq<Block>, caps: seq<nat>): int {
    if caps == [] then 0
    else SumMade(blocks, caps[..|caps| - 1]) + Total(blocks, MadeIn(false, caps[|caps| - 1]))
  }

  lemma {:induction false} SumMadeSnoc(blocks: seq<Block>, b: Block, caps: seq<nat>)
    requires Distinct(caps)
    ensures SumMade(blocks + [b], caps) ==
            SumMade(blocks, caps) + if !b.pinned && b.capacity in caps then 1 else 0
    decreases |caps|
  {
    if caps != [] {
      var n := |caps| - 1;
      SumMadeSnoc(blocks, b, caps[..n]);
      TotalAppend(blocks, b, MadeIn(false, caps[n]));
      assert caps == caps[..n] + [caps[n]];
    }
  }

  lemma {:induction false} SumMadeEmpty(caps: seq<nat>)
    ensures SumMade([], caps) == 0
    decreases |caps|
  {
    if caps != [] {
      SumMadeEmpty(caps[..|caps| - 1]);
    }
  }

  /** Every device block ever created is of one of these capacities. */
  ghost predicate Covers(caps: seq<nat>, blocks: seq<Block>) {
    forall i :: 0 <= i < |blocks| && !blocks[i].pinned ==> blocks[i].capacity in caps
  }

  lemma {:induction false} MadeByBucket(blocks: seq<Block>, caps: seq<nat>)
    requires Distinct(caps) && Covers(caps, blocks)
    ensures Total(blocks, OfKind(false)) == SumMade(blocks, caps)
    decreases |blocks|
  {
    if blocks == [] {
      SumMadeEmpty(caps);
    } else {
      var n := |blocks| - 1;
      MadeByBucket(blocks[..n], caps);
      SumMadeSnoc(blocks[..n], blocks[n], caps);
      assert blocks == blocks[..n] + [blocks[n]];
    }
  }

  function SumPeaks(steps: seq<Step>, caps: seq<nat>): int
    requires Runs(Init, steps)
    decreases |caps|
  {
    if caps == [] then 0
    else SumPeaks(steps, caps[..|caps| - 1]) + Peak(Init, steps, false, caps[|caps| - 1])
  }

  lemma {:induction false} SumMadeIsSumPeaks(steps: seq<Step>, caps: seq<nat>)
    requires Runs(Init, steps) && Untrimmed(steps)
    ensures SumMade(After(Init, steps).pool.blocks, caps) == SumPeaks(steps, caps)
    decreases |caps|
  {
    if caps != [] {
      SumMadeIsSumPeaks(steps, caps[..|caps| - 1]);
      CreatedEqualsPeak(steps, false, caps[|caps| - 1]);
    }
  }

  /** Over any run without trimming, cudamalloc_calls is exactly the sum, over the buckets used, of the
      most device blocks ever live in the bucket at once; so it stops growing once the peaks do. */
  lemma MallocCallsAreThePeaks(steps: seq<Step>, caps: seq<nat>)
    requires Runs(Init, steps) && Untrimmed(steps)
    requires Distinct(caps) && Covers(caps, After(Init, steps).pool.blocks)
    ensures After(Init, steps).pool.stats.mallocCalls == SumPeaks(steps, caps)
  {
    InvRun(steps);
    MadeByBucket(After(Init, steps).pool.blocks, caps);
    SumMadeIsSumPeaks(steps, caps);
  }
}
