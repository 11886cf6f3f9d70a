/** The bucketed free-list allocator. Blocks are named by the order CUDA handed them out, so a name
    is never reused even if an address is. */
module MemoryPool {
  import opened Basics

  datatype Place = Live | Cached | Freed
  datatype Block = Block(capacity: nat, pinned: bool, place: Place)

  /** Counters are unbounded integers, so that an underflow would show as a negative value. */
  datatype Stats = Stats(acquisitions: int, cacheHits: int, mallocCalls: int,
                         bytesInUse: int, bytesCached: int, liveHandles: int)

  type FreeLists = map<nat, seq<nat>>

  /** `blocks` is every block ever allocated; `pinnedAllocs` and `failures` count the allocations the
      source does not. All three are history. */
  datatype Pool = Pool(deviceFree: FreeLists, pinnedFree: FreeLists, stats: Stats,
                       blocks: seq<Block>, pinnedAllocs: int, failures: int)

  const EmptyPool := Pool(map[], map[], Stats(0, 0, 0, 0, 0, 0), [], 0, 0)

  /** `free_[capacity]`, which creates an empty list when there is none. */
  function ListAt(m: FreeLists, capacity: nat): seq<nat> {
    if capacity in m then m[capacity] else []
  }

  function Lists(p: Pool, pinned: bool): FreeLists { if pinned then p.pinnedFree else p.deviceFree }

  function WithList(p: Pool, pinned: bool, capacity: nat, list: seq<nat>): Pool {
    if pinned then p.(pinnedFree := p.pinnedFree[capacity := list])
    else p.(deviceFree := p.deviceFree[capacity := list])
  }

  function Move(p: Pool, ptr: nat, place: Place): Pool {
    if ptr < |p.blocks| then p.(blocks := p.blocks[ptr := p.blocks[ptr].(place := place)]) else p
  }

  /** acquire_device() / acquire_pinned() for a bucket of size `capacity`; `allocates` says whether
      CUDA would succeed. A failed allocation has still counted the acquisition. */
  function Acquire(p: Pool, capacity: nat, pinned: bool, allocates: bool): (Pool, Option<nat>) {
    var list := ListAt(Lists(p, pinned), capacity);
    var st := p.stats.(acquisitions := p.stats.acquisitions + 1);
    if list != [] then
      var ptr := list[|list| - 1];
      (Move(WithList(p, pinned, capacity, list[..|list| - 1]), ptr, Live).(
         stats := st.(cacheHits := st.cacheHits + 1, bytesCached := st.bytesCached - capacity,
                      bytesInUse := st.bytesInUse + capacity, liveHandles := st.liveHandles + 1)),
       Some(ptr))
    else if allocates then
      (WithList(p, pinned, capacity, []).(
         blocks := p.blocks + [Block(capacity, pinned, Live)],
         pinnedAllocs := p.pinnedAllocs + (if pinned then 1 else 0),
         stats := st.(mallocCalls := st.mallocCalls + (if pinned then 0 else 1),
                      bytesInUse := st.bytesInUse + capacity, liveHandles := st.liveHandles + 1)),
       Some(|p.blocks|))
    else (WithList(p, pinned, capacity, []).(stats := st, failures := p.failures + 1), None)
  }

  /** Returns a block to its bucket's free list. */
  function Release(p: Pool, ptr: nat, capacity: nat, pinned: bool): Pool {
    Move(WithList(p, pinned, capacity, ListAt(Lists(p, pinned), capacity) + [ptr]), ptr, Cached).(
      stats := p.stats.(bytesInUse := p.stats.bytesInUse - capacity,
                        bytesCached := p.stats.bytesCached + capacity,
                        liveHandles := p.stats.liveHandles - 1))
  }

  function Emptied(m: FreeLists): FreeLists { map c | c in m :: [] }

  function FreeCached(blocks: seq<Block>): (r: seq<Block>)
    ensures |r| == |blocks|
    ensures forall i :: 0 <= i < |blocks| ==>
              r[i] == if blocks[i].place.Cached? then blocks[i].(place := Freed) else blocks[i]
  {
    seq(|blocks|, i requires 0 <= i < |blocks| =>
      if blocks[i].place.Cached? then blocks[i].(place := Freed) else blocks[i])
  }

  /** Frees every cached block and empties the free lists. */
  function Trim(p: Pool): Pool {
    p.(deviceFree := Emptied(p.deviceFree), pinnedFree := Emptied(p.pinnedFree),
       stats := p.stats.(bytesCached := 0), blocks := FreeCached(p.blocks))
  }

  // ---- sums over blocks ----

  function Total(blocks: seq<Block>, weight: Block -> int): int {
    if blocks == [] then 0 else Total(blocks[..|blocks| - 1], weight) + weight(blocks[|blocks| - 1])
  }

  lemma {:induction false} TotalUpdate(blocks: seq<Block>, i: nat, b: Block, weight: Block -> int)
    requires i < |blocks|
    ensures Total(blocks[i := b], weight) == Total(blocks, weight) - weight(blocks[i]) + weight(b)
    decreases |blocks|
  {
    var n := |blocks| - 1;
    if i < n {
      TotalUpdate(blocks[..n], i, b, weight);
      assert blocks[i := b][..n] == blocks[..n][i := b];
    } else {
      assert blocks[i := b][..n] == blocks[..n];
    }
  }

  lemma TotalAppend(blocks: seq<Block>, b: Block, weight: Block -> int)
    ensures Total(blocks + [b], weight) == Total(blocks, weight) + weight(b)
  {
    assert (blocks + [b])[..|blocks|] == blocks;
  }

  function SizeIf(place: Place): Block -> int { (b: Block) => if b.place == place then b.capacity else 0 }
  function OneIf(place: Place): Block -> int { (b: Block) => if b.place == place then 1 else 0 }

  /** Counts the blocks of one kind ever allocated, wherever they are now. */
  function OfKind(pinned: bool): Block -> int { (b: Block) => if b.pinned == pinned then 1 else 0 }

  // ---- what every operation keeps ----

  ghost predicate Distinct(list: seq<nat>) {
    forall i, j :: 0 <= i < j < |list| ==> list[i] != list[j]
  }

  /** Every entry of every free list is a cached block of that list's own kind and capacity. */
  ghost predicate ListsSound(m: FreeLists, pinned: bool, blocks: seq<Block>) {
    forall c :: c in m ==>
      Distinct(m[c]) &&
      forall i :: 0 <= i < |m[c]| ==> m[c][i] < |blocks| && blocks[m[c][i]] == Block(c, pinned, Cached)
  }

  /** Every cached block is in the free list of its kind and capacity. */
  ghost predicate ListsComplete(p: Pool) {
    forall i :: 0 <= i < |p.blocks| && p.blocks[i].place.Cached? ==>
      i in ListAt(Lists(p, p.blocks[i].pinned), p.blocks[i].capacity)
  }

  ghost predicate StatsExact(p: Pool) {
    && p.stats.bytesInUse == Total(p.blocks, SizeIf(Live))
    && p.stats.bytesCached == Total(p.blocks, SizeIf(Cached))
    && p.stats.liveHandles == Total(p.blocks, OneIf(Live))
    && p.stats.mallocCalls == Total(p.blocks, OfKind(false))
    && p.pinnedAllocs == Total(p.blocks, OfKind(true))
    && p.stats.acquisitions == p.stats.cacheHits + p.stats.mallocCalls + p.pinnedAllocs + p.failures
  }

  ghost predicate PoolInv(p: Pool) {
    && ListsSound(p.deviceFree, false, p.blocks)
    && ListsSound(p.pinnedFree, true, p.blocks)
    && ListsComplete(p)
    && StatsExact(p)
  }

  lemma EmptyPoolInv()
    ensures PoolInv(EmptyPool)
  {
    assert ListsSound(map[], false, []) && ListsSound(map[], true, []);
  }

  /** A block that is in none of these lists may change. */
  lemma SoundElsewhere(m: FreeLists, pinned: bool, blocks: seq<Block>, ptr: nat, b: Block)
    requires ListsSound(m, pinned, blocks) && ptr < |blocks|
    requires blocks[ptr].pinned != pinned || !blocks[ptr].place.Cached?
    ensures ListsSound(m, pinned, blocks[ptr := b])
  {
    forall c | c in m ensures forall i :: 0 <= i < |m[c]| ==> m[c][i] != ptr {
    }
  }

  lemma SoundPop(m: FreeLists, pinned: bool, blocks: seq<Block>, c: nat, ptr: nat, b: Block)
    requires ListsSound(m, pinned, blocks) && ListAt(m, c) != [] && ptr == ListAt(m, c)[|ListAt(m, c)| - 1]
    ensures ptr < |blocks| && blocks[ptr] == Block(c, pinned, Cached)
    ensures ListsSound(m[c := m[c][..|m[c]| - 1]], pinned, blocks[ptr := b])
  {
    assert m[c][|m[c]| - 1] == ptr;
    var m' := m[c := m[c][..|m[c]| - 1]];
    forall d | d in m' ensures Distinct(m'[d]) && forall i :: 0 <= i < |m'[d]| ==>
      m'[d][i] < |blocks| && m'[d][i] != ptr && blocks[m'[d][i]] == Block(d, pinned, Cached)
    {
      assert forall i :: 0 <= i < |m'[d]| ==> m'[d][i] == m[d][i];
    }
  }

  /** No list names a live block. */
  lemma LiveIsUnlisted(m: FreeLists, pinned: bool, blocks: seq<Block>, ptr: nat, c: nat)
    requires ListsSound(m, pinned, blocks) && ptr < |blocks| && blocks[ptr].place == Live
    ensures forall i :: 0 <= i < |ListAt(m, c)| ==> ListAt(m, c)[i] != ptr
  {
  }

  lemma SoundPush(m: FreeLists, pinned: bool, blocks: seq<Block>, c: nat, ptr: nat)
    requires ListsSound(m, pinned, blocks) && ptr < |blocks| && blocks[ptr] == Block(c, pinned, Live)
    ensures ListsSound(m[c := ListAt(m, c) + [ptr]], pinned, blocks[ptr := Block(c, pinned, Cached)])
  {
    var list := ListAt(m, c);
    var after := blocks[ptr := Block(c, pinned, Cached)];
    SoundElsewhere(m, pinned, blocks, ptr, after[ptr]);
    LiveIsUnlisted(m, pinned, blocks, ptr, c);
    assert Distinct(list + [ptr]);
    assert forall i :: 0 <= i < |list| ==> list[i] < |after| && after[list[i]] == Block(c, pinned, Cached);
  }

  lemma SoundGrow(m: FreeLists, pinned: bool, blocks: seq<Block>, c: nat, more: seq<Block>)
    requires ListsSound(m, pinned, blocks) && ListAt(m, c) == []
    ensures ListsSound(m, pinned, blocks + more) && ListsSound(m[c := []], pinned, blocks + more)
  {
  }

  lemma CompletePop(p: Pool, pinned: bool, c: nat)
    requires ListsComplete(p) && ListAt(Lists(p, pinned), c) != []
    requires ListAt(Lists(p, pinned), c)[|ListAt(Lists(p, pinned), c)| - 1] < |p.blocks|
    ensures ListsComplete(Acquire(p, c, pinned, true).0)
  {
    var list := ListAt(Lists(p, pinned), c);
    var ptr := list[|list| - 1];
    var q := Acquire(p, c, pinned, true).0;
    forall i | 0 <= i < |q.blocks| && q.blocks[i].place.Cached?
      ensures i in ListAt(Lists(q, q.blocks[i].pinned), q.blocks[i].capacity)
    {
      assert i != ptr && q.blocks[i] == p.blocks[i];
      assert i in ListAt(Lists(p, p.blocks[i].pinned), p.blocks[i].capacity);
      assert i in list ==> i in list[..|list| - 1];
    }
  }

  lemma StatsMove(p: Pool, ptr: nat, place: Place)
    requires ptr < |p.blocks|
    ensures forall w: Block -> int :: Total(Move(p, ptr, place).blocks, w) ==
              Total(p.blocks, w) - w(p.blocks[ptr]) + w(p.blocks[ptr].(place := place))
  {
    forall w: Block -> int ensures Total(Move(p, ptr, place).blocks, w) ==
              Total(p.blocks, w) - w(p.blocks[ptr]) + w(p.blocks[ptr].(place := place))
    {
      TotalUpdate(p.blocks, ptr, p.blocks[ptr].(place := place), w);
    }
  }

  /** An acquisition fails if and only if the bucket's own free list is empty and CUDA cannot allocate; a
      block handed out is the list's last or the next new one, and it is live, of that kind and size. */
  lemma AcquireFailsIff(p: Pool, c: nat, pinned: bool, allocates: bool)
    requires PoolInv(p)
    ensures var m, (q, ptr) := Lists(p, pinned), Acquire(p, c, pinned, allocates);
      && (ptr.None? <==> (c !in m || m[c] == []) && !allocates)
      && (ptr.Some? ==>
            && ptr.value == (if c in m && m[c] != [] then m[c][|m[c]| - 1] else |p.blocks|)
            && ptr.value < |q.blocks| && q.blocks[ptr.value] == Block(c, pinned, Live))
  {
    var m := Lists(p, pinned);
    if c in m && m[c] != [] {
      SoundPop(m, pinned, p.blocks, c, m[c][|m[c]| - 1], Block(c, pinned, Live));
    }
  }

  lemma AcquireHit(p: Pool, c: nat, pinned: bool, allocates: bool)
    requires PoolInv(p) && ListAt(Lists(p, pinned), c) != []
    ensures PoolInv(Acquire(p, c, pinned, allocates).0)
  {
    var q := Acquire(p, c, pinned, allocates).0;
    var list := ListAt(Lists(p, pinned), c);
    var ptr := list[|list| - 1];
    SoundPop(Lists(p, pinned), pinned, p.blocks, c, ptr, Block(c, pinned, Live));
    SoundElsewhere(Lists(p, !pinned), !pinned, p.blocks, ptr, Block(c, pinned, Live));
    CompletePop(p, pinned, c);
    StatsMove(p, ptr, Live);
    assert q.blocks == Move(p, ptr, Live).blocks;
  }

  lemma AcquireMiss(p: Pool, c: nat, pinned: bool, allocates: bool)
    requires PoolInv(p) && ListAt(Lists(p, pinned), c) == []
    ensures PoolInv(Acquire(p, c, pinned, allocates).0)
  {
    var q := Acquire(p, c, pinned, allocates).0;
    var more := if allocates then [Block(c, pinned, Live)] else [];
    assert q.blocks == p.blocks + more;
    SoundGrow(Lists(p, pinned), pinned, p.blocks, c, more);
    SoundKept(Lists(p, !pinned), !pinned, p.blocks, more);
    forall i | 0 <= i < |q.blocks| && q.blocks[i].place.Cached?
      ensures i in ListAt(Lists(q, q.blocks[i].pinned), q.blocks[i].capacity)
    {
      assert i in ListAt(Lists(p, p.blocks[i].pinned), p.blocks[i].capacity);
    }
    if allocates {
      TotalAppend(p.blocks, more[0], SizeIf(Live));
      TotalAppend(p.blocks, more[0], SizeIf(Cached));
      TotalAppend(p.blocks, more[0], OneIf(Live));
      TotalAppend(p.blocks, more[0], OfKind(false));
      TotalAppend(p.blocks, more[0], OfKind(true));
    }
  }

  lemma SoundKept(m: FreeLists, pinned: bool, blocks: seq<Block>, more: seq<Block>)
    requires ListsSound(m, pinned, blocks)
    ensures ListsSound(m, pinned, blocks + more)
  {
  }

  lemma AcquireKeeps(p: Pool, c: nat, pinned: bool, allocates: bool)
    requires PoolInv(p)
    ensures PoolInv(Acquire(p, c, pinned, allocates).0)
  {
    if ListAt(Lists(p, pinned), c) != [] {
      AcquireHit(p, c, pinned, allocates);
    } else {
      AcquireMiss(p, c, pinned, allocates);
    }
  }

  lemma ReleaseKeeps(p: Pool, ptr: nat, c: nat, pinned: bool)
    requires PoolInv(p) && ptr < |p.blocks| && p.blocks[ptr] == Block(c, pinned, Live)
    ensures PoolInv(Release(p, ptr, c, pinned))
  {
    var q := Release(p, ptr, c, pinned);
    SoundPush(Lists(p, pinned), pinned, p.blocks, c, ptr);
    SoundElsewhere(Lists(p, !pinned), !pinned, p.blocks, ptr, Block(c, pinned, Cached));
    StatsMove(p, ptr, Cached);
    assert q.blocks == Move(p, ptr, Cached).blocks;
    forall i | 0 <= i < |q.blocks| && q.blocks[i].place.Cached?
      ensures i in ListAt(Lists(q, q.blocks[i].pinned), q.blocks[i].capacity)
    {
      if i != ptr {
        assert i in ListAt(Lists(p, p.blocks[i].pinned), p.blocks[i].capacity);
      }
    }
  }

  lemma {:induction false} TrimTotals(blocks: seq<Block>)
    ensures Total(FreeCached(blocks), SizeIf(Live)) == Total(blocks, SizeIf(Live))
    ensures Total(FreeCached(blocks), OneIf(Live)) == Total(blocks, OneIf(Live))
    ensures Total(FreeCached(blocks), SizeIf(Cached)) == 0
    ensures forall pinned :: Total(FreeCached(blocks), OfKind(pinned)) == Total(blocks, OfKind(pinned))
    decreases |blocks|
  {
    if blocks != [] {
      var n := |blocks| - 1;
      TrimTotals(blocks[..n]);
      assert FreeCached(blocks)[..n] == FreeCached(blocks[..n]);
    }
  }

  lemma TrimKeeps(p: Pool)
    requires PoolInv(p)
    ensures PoolInv(Trim(p)) && Trim(p).stats.bytesCached == 0
    ensures forall i :: 0 <= i < |p.blocks| && p.blocks[i].place.Live? ==> Trim(p).blocks[i] == p.blocks[i]
  {
    TrimTotals(p.blocks);
  }

  lemma {:induction false} TotalNonNegative(blocks: seq<Block>, weight: Block -> int)
    requires forall b :: weight(b) >= 0
    ensures Total(blocks, weight) >= 0
    decreases |blocks|
  {
    if blocks != [] {
      TotalNonNegative(blocks[..|blocks| - 1], weight);
    }
  }

  /** Exact counters are never below zero. */
  lemma ExactIsNonNegative(p: Pool)
    requires StatsExact(p)
    ensures p.stats.bytesInUse >= 0 && p.stats.bytesCached >= 0 && p.stats.liveHandles >= 0
  {
    TotalNonNegative(p.blocks, SizeIf(Live));
    TotalNonNegative(p.blocks, SizeIf(Cached));
    TotalNonNegative(p.blocks, OneIf(Live));
  }

  /** Popping a list's last block undoes the push of it. */
  lemma PopAfterPush(p: Pool, q: Pool, ptr: nat, c: nat, pinned: bool, allocates: bool)
    requires ptr < |p.blocks| && p.blocks[ptr].place == Live
    requires q.blocks == p.blocks[ptr := p.blocks[ptr].(place := Cached)]
    requires ListAt(Lists(q, pinned), c) == ListAt(Lists(p, pinned), c) + [ptr]
    ensures var (r, again) := Acquire(q, c, pinned, allocates);
      && again == Some(ptr) && r.blocks == p.blocks
      && Lists(r, !pinned) == Lists(q, !pinned)
      && Lists(r, pinned) == Lists(q, pinned)[c := ListAt(Lists(p, pinned), c)]
  {
    var list := ListAt(Lists(p, pinned), c);
    assert (list + [ptr])[..|list|] == list;
    assert (list + [ptr])[|list|] == ptr;
  }

  /** A block given back is the next one handed out from its bucket, and the pool is then as it was:
      every block, every free list and every counter, but for one more acquisition and one more hit. */
  lemma ReacquireReturnsSameBlock(p: Pool, ptr: nat, c: nat, pinned: bool, allocates: bool)
    requires ptr < |p.blocks| && p.blocks[ptr].place == Live
    ensures var (r, again) := Acquire(Release(p, ptr, c, pinned), c, pinned, allocates);
      && again == Some(ptr) && r.blocks == p.blocks
      && (forall k, d :: ListAt(Lists(r, k), d) == ListAt(Lists(p, k), d))
      && r.stats == p.stats.(acquisitions := p.stats.acquisitions + 1, cacheHits := p.stats.cacheHits + 1)
  {
    PopAfterPush(p, Release(p, ptr, c, pinned), ptr, c, pinned, allocates);
  }
}
