/** The pool and its handles as objects updated in place. */
module PoolCode {
  import opened Basics
  import opened PoolBuckets
  import opened MemoryPool
  import opened PoolHandles

  // ---- freeing one cached block at a time, as trim() does ----

  /** Frees the first block of a free list. */
  function FreeFirst(p: Pool, pinned: bool, c: nat): Pool
    requires ListAt(Lists(p, pinned), c) != []
  {
    var list := ListAt(Lists(p, pinned), c);
    Move(WithList(p, pinned, c, list[1..]), list[0], Freed).(
      stats := p.stats.(bytesCached := p.stats.bytesCached - c))
  }

  lemma SoundShift(m: FreeLists, pinned: bool, blocks: seq<Block>, c: nat, b: Block)
    requires ListsSound(m, pinned, blocks) && c in m && m[c] != []
    ensures m[c][0] < |blocks| && blocks[m[c][0]] == Block(c, pinned, Cached)
    ensures ListsSound(m[c := m[c][1..]], pinned, blocks[m[c][0] := b])
  {
    var ptr := m[c][0];
    var m' := m[c := m[c][1..]];
    assert m[c][0] == ptr;
    forall d | d in m' ensures Distinct(m'[d]) && forall i :: 0 <= i < |m'[d]| ==>
      m'[d][i] < |blocks| && m'[d][i] != ptr && blocks[m'[d][i]] == Block(d, pinned, Cached)
    {
      if d == c {
        assert forall i :: 0 <= i < |m'[d]| ==> m'[d][i] == m[d][i + 1];
      } else {
        assert forall i :: 0 <= i < |m[d]| ==> blocks[m[d][i]].capacity == d;
      }
    }
  }

  lemma FreeFirstKeeps(p: Pool, pinned: bool, c: nat)
    requires PoolInv(p) && ListAt(Lists(p, pinned), c) != []
    ensures PoolInv(FreeFirst(p, pinned, c))
    ensures Partly(p.blocks, FreeFirst(p, pinned, c).blocks)
  {
    var q := FreeFirst(p, pinned, c);
    var list := ListAt(Lists(p, pinned), c);
    var ptr := list[0];
    SoundShift(Lists(p, pinned), pinned, p.blocks, c, Block(c, pinned, Freed));
    SoundElsewhere(Lists(p, !pinned), !pinned, p.blocks, ptr, Block(c, pinned, Freed));
    StatsMove(p, ptr, Freed);
    assert q.blocks == Move(p, ptr, Freed).blocks;
    forall i | 0 <= i < |q.blocks| && q.blocks[i].place.Cached?
      ensures i in ListAt(Lists(q, q.blocks[i].pinned), q.blocks[i].capacity)
    {
      assert i != ptr && i in ListAt(Lists(p, p.blocks[i].pinned), p.blocks[i].capacity);
      assert i in list ==> i in list[1..];
    }
  }

  /** Some cached blocks have been freed and nothing else has changed. */
  ghost predicate Partly(blocks: seq<Block>, blocks': seq<Block>) {
    |blocks'| == |blocks| && forall i :: 0 <= i < |blocks| ==>
      blocks'[i] == blocks[i] || (blocks[i].place.Cached? && blocks'[i] == blocks[i].(place := Freed))
  }

  /** The pool after the first `n` blocks of a list have been freed and taken off it. */
  function FreeMany(p: Pool, pinned: bool, c: nat, n: nat): Pool {
    if n == 0 then p else
      var q := FreeMany(p, pinned, c, n - 1);
      if ListAt(Lists(q, pinned), c) == [] then q else FreeFirst(q, pinned, c)
  }

  lemma {:induction false} FreeManyLists(p: Pool, pinned: bool, c: nat, n: nat)
    requires c in Lists(p, pinned) && n <= |Lists(p, pinned)[c]|
    ensures Lists(FreeMany(p, pinned, c, n), pinned) == Lists(p, pinned)[c := Lists(p, pinned)[c][n..]]
    ensures Lists(FreeMany(p, pinned, c, n), !pinned) == Lists(p, !pinned)
    ensures FreeMany(p, pinned, c, n).stats == p.stats.(bytesCached := FreeMany(p, pinned, c, n).stats.bytesCached)
    ensures FreeMany(p, pinned, c, n).pinnedAllocs == p.pinnedAllocs && FreeMany(p, pinned, c, n).failures == p.failures
  {
    if n == 0 {
      assert Lists(p, pinned)[c][0..] == Lists(p, pinned)[c];
    } else {
      FreeManyLists(p, pinned, c, n - 1);
    }
  }

  lemma FreeManyAll(p: Pool, pinned: bool, c: nat)
    requires c in Lists(p, pinned)
    ensures var q := FreeMany(p, pinned, c, |Lists(p, pinned)[c]|);
            q == WithList(p, pinned, c, []).(blocks := q.blocks, stats := q.stats)
  {
    FreeManyLists(p, pinned, c, |Lists(p, pinned)[c]|);
    assert Lists(p, pinned)[c][|Lists(p, pinned)[c]|..] == [];
  }

  lemma {:induction false} FreeManyKeeps(p: Pool, pinned: bool, c: nat, n: nat)
    requires PoolInv(p) && c in Lists(p, pinned) && n <= |Lists(p, pinned)[c]|
    ensures PoolInv(FreeMany(p, pinned, c, n)) && Partly(p.blocks, FreeMany(p, pinned, c, n).blocks)
  {
    if n > 0 {
      var q := FreeMany(p, pinned, c, n - 1);
      FreeManyKeeps(p, pinned, c, n - 1);
      FreeManyLists(p, pinned, c, n - 1);
      FreeFirstKeeps(q, pinned, c);
      PartlyTrans(p.blocks, q.blocks, FreeFirst(q, pinned, c).blocks);
    }
  }

  lemma PartlyTrans(a: seq<Block>, b: seq<Block>, c: seq<Block>)
    requires Partly(a, b) && Partly(b, c)
    ensures Partly(a, c)
  {
  }

  /** The next block of the list is still cached when its turn comes. */
  ghost predicate NextIsCached(p: Pool, pinned: bool, c: nat, n: nat)
    requires c in Lists(p, pinned) && n < |Lists(p, pinned)[c]|
  {
    var q := FreeMany(p, pinned, c, n);
    var ptr := Lists(p, pinned)[c][n];
    && ptr < |q.blocks| && q.blocks[ptr].place.Cached?
    && FreeMany(p, pinned, c, n + 1).blocks == q.blocks[ptr := q.blocks[ptr].(place := Freed)]
    && FreeMany(p, pinned, c, n + 1).stats == q.stats.(bytesCached := q.stats.bytesCached - c)
  }

  ghost predicate FreesInOrder(p: Pool, pinned: bool, c: nat) {
    c in Lists(p, pinned) && forall n :: 0 <= n < |Lists(p, pinned)[c]| ==> NextIsCached(p, pinned, c, n)
  }

  lemma FreeManyNext(p: Pool, pinned: bool, c: nat, n: nat)
    requires PoolInv(p) && c in Lists(p, pinned) && n < |Lists(p, pinned)[c]|
    ensures NextIsCached(p, pinned, c, n)
  {
    var q := FreeMany(p, pinned, c, n);
    FreeManyKeeps(p, pinned, c, n);
    FreeManyLists(p, pinned, c, n);
    assert Lists(q, pinned)[c][0] == Lists(p, pinned)[c][n];
    SoundShift(Lists(q, pinned), pinned, q.blocks, c, Block(c, pinned, Freed));
  }

  lemma ListFreesInOrder(p: Pool, pinned: bool, c: nat)
    requires PoolInv(p) && c in Lists(p, pinned)
    ensures FreesInOrder(p, pinned, c)
  {
    forall n | 0 <= n < |Lists(p, pinned)[c]| ensures NextIsCached(p, pinned, c, n) {
      FreeManyNext(p, pinned, c, n);
    }
  }

  lemma {:induction false} NothingCached(blocks: seq<Block>)
    requires forall i :: 0 <= i < |blocks| ==> !blocks[i].place.Cached?
    ensures Total(blocks, SizeIf(Cached)) == 0
    decreases |blocks|
  {
    if blocks != [] {
      NothingCached(blocks[..|blocks| - 1]);
    }
  }

  /** Once all lists are empty, what is left of the pool is exactly the trimmed one. */
  lemma TrimmedOnceEmpty(p: Pool, q: Pool)
    requires PoolInv(q) && Partly(p.blocks, q.blocks)
    requires q.deviceFree == Emptied(p.deviceFree) && q.pinnedFree == Emptied(p.pinnedFree)
    requires q.stats == p.stats.(bytesCached := q.stats.bytesCached)
    requires q.pinnedAllocs == p.pinnedAllocs && q.failures == p.failures
    ensures q == Trim(p)
  {
    forall i | 0 <= i < |q.blocks| ensures !q.blocks[i].place.Cached? {
      assert q.blocks[i].place.Cached? ==> i in ListAt(Lists(q, q.blocks[i].pinned), q.blocks[i].capacity);
    }
    NothingCached(q.blocks);
    assert q.blocks == FreeCached(p.blocks);
  }

  /** The bucket has no cached block. */
  predicate NoneListed(m: FreeLists, c: nat) { c !in m || m[c] == [] }

  /** The block an acquisition takes: the one cached last in the bucket, else the next new one. */
  function NextBlock(m: FreeLists, c: nat, unused: nat): nat {
    if NoneListed(m, c) then unused else m[c][|m[c]| - 1]
  }

  class MemoryPoolObject {
    var deviceFree: FreeLists
    var pinnedFree: FreeLists
    var stats: Stats
    var handedOut: nat                  // blocks CUDA has handed out
    ghost var blocks: seq<Block>
    ghost var pinnedAllocs: int
    ghost var failures: int

    ghost function View(): Pool
      reads this
    {
      Pool(deviceFree, pinnedFree, stats, blocks, pinnedAllocs, failures)
    }

    ghost predicate Valid()
      reads this
    {
      handedOut == |blocks|
    }

    constructor ()
      ensures Valid() && View() == EmptyPool
    {
      deviceFree, pinnedFree, stats, handedOut := map[], map[], Stats(0, 0, 0, 0, 0, 0), 0;
      blocks, pinnedAllocs, failures := [], 0, 0;
    }

    /** `allocates` says whether CUDA can serve an allocation now; null stands for the exception. */
    method AcquireDevice(bytes: nat, allocates: bool) returns (buffer: PooledBuffer?)
      requires Valid() && bytes <= HALF_WORD
      modifies this
      ensures Valid() && View() == Acquire(old(View()), BucketOf(bytes), false, allocates).0
      ensures Handed(buffer, Acquire(old(View()), BucketOf(bytes), false, allocates).1, bytes, false)
      ensures buffer != null ==> fresh(buffer)
      ensures buffer == null <==> NoneListed(old(deviceFree), BucketOf(bytes)) && !allocates
      ensures buffer != null ==> buffer.ptr == Some(NextBlock(old(deviceFree), BucketOf(bytes), old(handedOut)))
    {
      var capacity := BucketFor(bytes);
      var ptr := 0;
      stats := stats.(acquisitions := stats.acquisitions + 1);
      var list := ListAt(deviceFree, capacity);
      deviceFree := deviceFree[capacity := list];
      if list != [] {
        ptr := list[|list| - 1];
        deviceFree := deviceFree[capacity := list[..|list| - 1]];
        stats := stats.(cacheHits := stats.cacheHits + 1, bytesCached := stats.bytesCached - capacity);
        blocks := Move(View(), ptr, Live).blocks;
      } else if allocates {
        ptr := handedOut;
        handedOut := handedOut + 1;
        stats := stats.(mallocCalls := stats.mallocCalls + 1);
        blocks := blocks + [Block(capacity, false, Live)];
      } else {
        failures := failures + 1;
        return null;
      }
      stats := stats.(bytesInUse := stats.bytesInUse + capacity, liveHandles := stats.liveHandles + 1);
      buffer := new PooledBuffer(this, ptr, capacity, bytes, false);
    }

    method AcquirePinned(bytes: nat, allocates: bool) returns (buffer: PooledBuffer?)
      requires Valid() && bytes <= HALF_WORD
      modifies this
      ensures Valid() && View() == Acquire(old(View()), BucketOf(bytes), true, allocates).0
      ensures Handed(buffer, Acquire(old(View()), BucketOf(bytes), true, allocates).1, bytes, true)
      ensures buffer != null ==> fresh(buffer)
      ensures buffer == null <==> NoneListed(old(pinnedFree), BucketOf(bytes)) && !allocates
      ensures buffer != null ==> buffer.ptr == Some(NextBlock(old(pinnedFree), BucketOf(bytes), old(handedOut)))
    {
      var capacity := BucketFor(bytes);
      var ptr := 0;
      stats := stats.(acquisitions := stats.acquisitions + 1);
      var list := ListAt(pinnedFree, capacity);
      pinnedFree := pinnedFree[capacity := list];
      if list != [] {
        ptr := list[|list| - 1];
        pinnedFree := pinnedFree[capacity := list[..|list| - 1]];
        stats := stats.(cacheHits := stats.cacheHits + 1, bytesCached := stats.bytesCached - capacity);
        blocks := Move(View(), ptr, Live).blocks;
      } else if allocates {
        ptr := handedOut;
        handedOut := handedOut + 1;
        pinnedAllocs := pinnedAllocs + 1;
        blocks := blocks + [Block(capacity, true, Live)];
      } else {
        failures := failures + 1;
        return null;
      }
      stats := stats.(bytesInUse := stats.bytesInUse + capacity, liveHandles := stats.liveHandles + 1);
      buffer := new PooledBuffer(this, ptr, capacity, bytes, true);
    }

    /** The handle returned for block `ptr`, or null when there is none. */
    ghost predicate Handed(buffer: PooledBuffer?, ptr: Option<nat>, bytes: nat, pinned: bool)
      reads buffer
    {
      match ptr
      case None => buffer == null
      case Some(_) =>
        buffer != null && buffer.pool == this && buffer.View() == Handle(true, ptr, BucketOf(bytes), bytes, pinned)
    }

    method GiveBack(ptr: nat, capacity: nat, pinned: bool)
      requires Valid()
      modifies this
      ensures Valid() && View() == Release(old(View()), ptr, capacity, pinned)
    {
      if pinned {
        pinnedFree := pinnedFree[capacity := ListAt(pinnedFree, capacity) + [ptr]];
      } else {
        deviceFree := deviceFree[capacity := ListAt(deviceFree, capacity) + [ptr]];
      }
      stats := stats.(bytesInUse := stats.bytesInUse - capacity, bytesCached := stats.bytesCached + capacity,
                      liveHandles := stats.liveHandles - 1);
      blocks := Move(View(), ptr, Cached).blocks;
    }

    /** cudaFree / cudaFreeHost: only a cached block may be freed, so none is freed twice. */
    ghost method FreeBlock(ptr: nat)
      requires ptr < |blocks| && blocks[ptr].place.Cached?
      modifies this`blocks
      ensures blocks == old(blocks)[ptr := old(blocks)[ptr].(place := Freed)]
    {
      blocks := blocks[ptr := blocks[ptr].(place := Freed)];
    }

    /** The inner loop of trim(): frees the blocks of one list, then clears it. */
    method TrimList(pinned: bool, c: nat)
      requires Valid() && FreesInOrder(View(), pinned, c)
      modifies this
      ensures Valid() && View() == FreeMany(old(View()), pinned, c, |Lists(old(View()), pinned)[c]|)
    {
      var list := if pinned then pinnedFree[c] else deviceFree[c];
      ghost var p := View();
      for i := 0 to |list|
        invariant blocks == FreeMany(p, pinned, c, i).blocks && stats == FreeMany(p, pinned, c, i).stats
        invariant deviceFree == p.deviceFree && pinnedFree == p.pinnedFree
        invariant pinnedAllocs == p.pinnedAllocs && failures == p.failures && Valid()
      {
        assert NextIsCached(p, pinned, c, i);
        FreeBlock(list[i]);
        stats := stats.(bytesCached := stats.bytesCached - c);
      }
      FreeManyAll(p, pinned, c);
      if pinned {
        pinnedFree := pinnedFree[c := []];
      } else {
        deviceFree := deviceFree[c := []];
      }
    }

    method TrimOne(pinned: bool, c: nat)
      requires Valid() && PoolInv(View()) && c in Lists(View(), pinned)
      modifies this
      ensures Valid() && PoolInv(View()) && Partly(old(blocks), blocks)
      ensures Lists(View(), pinned) == Lists(old(View()), pinned)[c := []]
      ensures Lists(View(), !pinned) == Lists(old(View()), !pinned)
      ensures stats == old(stats).(bytesCached := stats.bytesCached)
      ensures pinnedAllocs == old(pinnedAllocs) && failures == old(failures)
    {
      ghost var p := View();
      ListFreesInOrder(p, pinned, c);
      FreeManyKeeps(p, pinned, c, |Lists(p, pinned)[c]|);
      FreeManyLists(p, pinned, c, |Lists(p, pinned)[c]|);
      assert Lists(p, pinned)[c][|Lists(p, pinned)[c]|..] == [];
      TrimList(pinned, c);
    }

    method TrimKind(pinned: bool)
      requires Valid() && PoolInv(View())
      modifies this
      ensures Valid() && PoolInv(View()) && Partly(old(blocks), blocks)
      ensures Lists(View(), pinned) == Emptied(Lists(old(View()), pinned))
      ensures Lists(View(), !pinned) == Lists(old(View()), !pinned)
      ensures stats == old(stats).(bytesCached := stats.bytesCached)
      ensures pinnedAllocs == old(pinnedAllocs) && failures == old(failures)
    {
      var keys := if pinned then pinnedFree.Keys else deviceFree.Keys;
      ghost var lists := Lists(View(), pinned);
      while keys != {}
        invariant Valid() && PoolInv(View()) && Partly(old(blocks), blocks) && keys <= lists.Keys
        invariant Lists(View(), pinned).Keys == lists.Keys
        invariant forall c :: c in lists && c !in keys ==> Lists(View(), pinned)[c] == []
        invariant Lists(View(), !pinned) == Lists(old(View()), !pinned)
        invariant stats == old(stats).(bytesCached := stats.bytesCached)
        invariant pinnedAllocs == old(pinnedAllocs) && failures == old(failures)
        decreases keys
      {
        var c :| c in keys;
        TrimOne(pinned, c);
        keys := keys - {c};
      }
    }

    /** Frees every cached block exactly once and leaves live handles alone. */
    method TrimAll()
      requires Valid() && PoolInv(View())
      modifies this
      ensures Valid() && View() == Trim(old(View())) && stats.bytesCached == 0
    {
      TrimKind(false);
      TrimKind(true);
      TrimmedOnceEmpty(old(View()), View());
    }

    /** The destructor: with a handle still out it terminates the process instead of freeing. */
    method Destroy() returns (terminated: bool)
      requires Valid() && PoolInv(View())
      modifies this
      ensures terminated == (old(stats).liveHandles != 0)
      ensures View() == if terminated then old(View()) else Trim(old(View()))
    {
      if stats.liveHandles != 0 {
        return true;
      }
      TrimAll();
      return false;
    }
  }

  class PooledBuffer {
    var pool: MemoryPoolObject?
    var ptr: Option<nat>
    var capacity: nat
    var requested: nat
    var pinned: bool

    ghost function View(): Handle
      reads this
    {
      Handle(pool != null, ptr, capacity, requested, pinned)
    }

    /** A handle without a pool has no block. */
    ghost predicate Valid()
      reads this, pool
    {
      if pool == null then ptr.None? else pool.Valid()
    }

    constructor (pool: MemoryPoolObject, ptr: nat, capacity: nat, requested: nat, pinned: bool)
      ensures this.pool == pool && View() == Handle(true, Some(ptr), capacity, requested, pinned)
    {
      this.pool, this.ptr, this.capacity := pool, Some(ptr), capacity;
      this.requested, this.pinned := requested, pinned;
    }

    constructor Empty()
      ensures View() == EmptyHandle
    {
      pool, ptr, capacity, requested, pinned := null, None, 0, 0, false;
    }

    method Drop()
      requires Valid()
      modifies this, if pool == null then {} else {pool}
      ensures View() == Cleared(old(View()))
      ensures old(pool) != null ==>
                old(pool).Valid() && old(pool).View() == ReleaseHandle(old(pool.View()), old(View()))
    {
      if pool != null && ptr.Some? {
        pool.GiveBack(ptr.value, capacity, pinned);
      }
      pool, ptr, capacity, requested := null, None, 0, 0;
    }

    /** Move assignment: the old block goes back, the other handle's block comes over, and the other
        handle is left empty; assigning a handle to itself does nothing. */
    method MoveAssign(other: PooledBuffer)
      requires Valid() && other.Valid()
      modifies this, other, if pool == null then {} else {pool}
      ensures if other == this then View() == old(View())
              else View() == old(other.View()) && pool == old(other.pool) && other.View() == EmptyHandle
      ensures old(pool) != null && other != this ==>
                old(pool).View() == ReleaseHandle(old(pool.View()), old(View()))
    {
      if this != other {
        Drop();
        pool, ptr, capacity, requested, pinned := other.pool, other.ptr, other.capacity, other.requested, other.pinned;
        other.pool, other.ptr, other.capacity, other.requested, other.pinned := null, None, 0, 0, false;
      }
    }
  }
}
