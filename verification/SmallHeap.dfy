/** The small-memory heap (mem.c): what its operations compute on the block list.

    Offsets are relative to `heap_ptr`, and `NULL` is an offset outside the pool.  The code, on headers
    inside the pool, is in module SmallMem. */
module SmallHeap {
  import opened HeapBlocks

  const HDR := 16             // SIZEOF_STRUCT_MEM: 32-bit build with RT_USING_MEMTRACE
  const MIN_SIZE := 12
  const MIN_SIZE_ALIGNED := 12
  const HEAP_MAGIC := 0x1ea0
  const NULL := -1

  /** What the heap knows about itself: block list, lowest-free pointer and statistics. */
  datatype Heap = Heap(bs: seq<Block>, lfree: int, usedMem: int, maxMem: int)

  function Max(a: int, b: int): int { if a < b then b else a }

  function Init(memSize: nat): Heap {
    Heap([Block(0, false), Block(memSize + HDR, true)], 0, 0, 0)
  }

  // ----- searches

  predicate Fits(bs: seq<Block>, j: int, size: int, limit: int) {
    0 <= j < |bs| - 1 && !bs[j].used && Payload(bs, j, HDR) >= size && bs[j].addr < limit
  }

  /** The first block at or after `k` that fits, or |bs|. */
  function FirstFit(bs: seq<Block>, k: nat, size: int, limit: int): (r: nat)
    requires k <= |bs|
    ensures k <= r <= |bs|
    ensures r < |bs| ==> Fits(bs, r, size, limit)
    ensures forall j :: k <= j < r ==> !Fits(bs, j, size, limit)
    decreases |bs| - k
  {
    if k == |bs| || Fits(bs, k, size, limit) then k else FirstFit(bs, k + 1, size, limit)
  }

  /** The first block at or after `k` that is free, or the sentinel. */
  function NextFree(bs: seq<Block>, k: nat): (r: nat)
    requires k < |bs|
    ensures k <= r < |bs|
    ensures r == |bs| - 1 || !bs[r].used
    ensures forall j :: k <= j < r ==> bs[j].used
    decreases |bs| - k
  {
    if k == |bs| - 1 || !bs[k].used then k else NextFree(bs, k + 1)
  }

  // ----- the operations on the block list

  function Commit(h: Heap, i: nat, size: nat): Heap
    requires i + 1 < |h.bs|
  {
    var bs := Take(h.bs, i, size, HDR, MIN_SIZE_ALIGNED);
    var used := h.usedMem + (if |bs| > |h.bs| then size + HDR else Payload(h.bs, i, 0));
    Heap(bs, if h.lfree == h.bs[i].addr then bs[NextFree(bs, i)].addr else h.lfree, used, Max(h.maxMem, used))
  }

  /** The size that rt_malloc looks for. */
  function Want(n: nat): nat { Max(RoundUp(n), MIN_SIZE_ALIGNED) }

  /** rt_malloc behind its size checks. */
  function Allocate(h: Heap, memSize: nat, size: nat): (Heap, int) {
    var i := FirstFit(h.bs, IndexOf(h.bs, h.lfree), size, memSize - size);
    if i == |h.bs| then (h, NULL) else (Commit(h, i, size), h.bs[i].addr + HDR)
  }

  function Malloc(h: Heap, memSize: nat, n: nat): (Heap, int) {
    if n == 0 || RoundUp(n) > memSize then (h, NULL) else Allocate(h, memSize, Want(n))
  }

  /** The lowest-free pointer after plug_holes on block `i`. */
  function PlugLfree(bs: seq<Block>, i: nat, lfree: int): int
    requires i + 1 < |bs|
  {
    var right := if !bs[i + 1].used && lfree == bs[i + 1].addr then bs[i].addr else lfree;
    if i > 0 && !bs[i - 1].used && right == bs[i].addr then bs[i - 1].addr else right
  }

  function FreeBlock(h: Heap, i: nat): Heap
    requires i + 1 < |h.bs|
  {
    var lowest := if h.bs[i].addr < h.lfree then h.bs[i].addr else h.lfree;
    Heap(Release(h.bs, i), PlugLfree(Mark(h.bs, i, false), i, lowest), h.usedMem - Payload(h.bs, i, 0), h.maxMem)
  }

  function ShrinkBlock(h: Heap, i: nat, size: nat): Heap
    requires i + 1 < |h.bs|
  {
    Heap(Shrink(h.bs, i, size, HDR),
         PlugLfree(SplitAt(h.bs, i, h.bs[i].addr + HDR + size), i + 1, h.lfree),
         h.usedMem - (Payload(h.bs, i, HDR) - size), h.maxMem)
  }

  /** Is `rmem` what rt_malloc returned for a block that is still in use? */
  predicate IsLive(bs: seq<Block>, rmem: int) {
    var i := IndexOf(bs, rmem - HDR);
    i + 1 < |bs| && bs[i].used
  }

  /** rt_free.  NULL and pointers outside the pool have no effect; for others the code asserts that they are live. */
  function Free(h: Heap, rmem: int): Heap {
    if IsLive(h.bs, rmem) then FreeBlock(h, IndexOf(h.bs, rmem - HDR)) else h
  }

  /** rt_realloc on a live block, for an aligned size other than 0 that is not above the heap size. */
  function Resize(h: Heap, memSize: nat, rmem: int, size: nat): (Heap, int)
    requires IsLive(h.bs, rmem)
  {
    var i := IndexOf(h.bs, rmem - HDR);
    var have := Payload(h.bs, i, HDR);
    if have == size then (h, rmem)
    else if size + HDR + MIN_SIZE < have then (ShrinkBlock(h, i, size), rmem)
    else var (h1, r) := Malloc(h, memSize, size); (if r == NULL then h1 else Free(h1, rmem), r)
  }

  function Realloc(h: Heap, memSize: nat, rmem: int, n: nat): (Heap, int) {
    var size := RoundUp(n);
    if size > memSize then (h, NULL)
    else if size == 0 then (Free(h, rmem), NULL)
    else if rmem == NULL then Malloc(h, memSize, size)
    else if rmem < 0 || rmem >= memSize + HDR then (h, rmem)
    else if IsLive(h.bs, rmem) then Resize(h, memSize, rmem, size)
    else (h, rmem)
  }

  // ----- the invariant

  /** `lfree` is a free block of the list or the sentinel. */
  ghost predicate FreeOrEnd(bs: seq<Block>, lfree: int) {
    var k := IndexOf(bs, lfree);
    k < |bs| && (k == |bs| - 1 || !bs[k].used)
  }

  ghost predicate Inv(h: Heap, memSize: nat) {
    && WellFormed(h.bs, HDR, memSize + HDR)
    && Aligned(h.bs)
    && h.usedMem == Weigh(h.bs, true, 0) <= h.maxMem
    && FreeOrEnd(h.bs, h.lfree)
  }

  lemma InitInv(memSize: nat)
    requires MIN_SIZE_ALIGNED <= memSize && memSize % 4 == 0
    ensures Inv(Init(memSize), memSize)
  {
    var bs := Init(memSize).bs;
    assert Weigh(bs, true, 0) == Weigh(bs[1..], true, 0);
  }

  lemma CommitInv(h: Heap, memSize: nat, i: nat, size: nat)
    requires Inv(h, memSize) && i + 1 < |h.bs| && !h.bs[i].used
    requires 0 < size <= Payload(h.bs, i, HDR) && size % 4 == 0
    ensures Inv(Commit(h, i, size), memSize)
    ensures IndexOf(Commit(h, i, size).bs, h.bs[i].addr) == i
  {
    var end := memSize + HDR;
    var h' := Commit(h, i, size);
    TakeKeeps(h.bs, i, size, HDR, MIN_SIZE_ALIGNED, end);
    TakeWeighs(h.bs, i, size, HDR, MIN_SIZE_ALIGNED);
    KeepAligned(h.bs, i, size, HDR, MIN_SIZE_ALIGNED);
    IndexUnique(h'.bs, HDR, end, i);
    CommitLfree(h, i, size, end);
  }

  lemma CommitLfree(h: Heap, i: nat, size: nat, end: int)
    requires FreeOrEnd(h.bs, h.lfree) && i + 1 < |h.bs| && Tiled(Commit(h, i, size).bs, HDR, end)
    ensures FreeOrEnd(Commit(h, i, size).bs, Commit(h, i, size).lfree)
  {
    var h' := Commit(h, i, size);
    if h.lfree == h.bs[i].addr {
      IndexUnique(h'.bs, HDR, end, NextFree(h'.bs, i));
    } else {
      var k := IndexOf(h.bs, h.lfree);
      var k' := if k > i && |h'.bs| > |h.bs| then k + 1 else k;
      assert h'.bs[k'] == h.bs[k];
      IndexUnique(h'.bs, HDR, end, k');
    }
  }

  lemma MergeLfree(bs: seq<Block>, j: nat, lfree: int, end: int)
    requires Tiled(bs, HDR, end) && j + 2 < |bs| && !bs[j].used && !bs[j + 1].used && FreeOrEnd(bs, lfree)
    ensures FreeOrEnd(Merge(bs, j), if lfree == bs[j + 1].addr then bs[j].addr else lfree)
  {
    var cs := Merge(bs, j);
    MergeTiled(bs, j, HDR, end);
    IndexUnique(bs, HDR, end, j + 1);
    var k := IndexOf(bs, lfree);
    var k' := if k <= j then k else k - 1;
    assert k != j + 1 ==> cs[k'] == bs[k];
    IndexUnique(cs, HDR, end, k');
  }

  /** plug_holes leaves the lowest-free pointer on a free block or the sentinel. */
  lemma PlugLfreeOk(bs: seq<Block>, i: nat, lfree: int, end: int)
    requires Tiled(bs, HDR, end) && i + 1 < |bs| && !bs[i].used && FreeOrEnd(bs, lfree)
    ensures FreeOrEnd(Coalesce(bs, i), PlugLfree(bs, i, lfree))
  {
    hide FreeOrEnd, Tiled, Merge;
    var mid, at := bs, lfree;
    if !bs[i + 1].used {
      mid, at := Merge(bs, i), if lfree == bs[i + 1].addr then bs[i].addr else lfree;
      BeforeMerged(bs, i, end);
      MergeTiled(bs, i, HDR, end);
      MergeLfree(bs, i, lfree, end);
    }
    if i > 0 && !bs[i - 1].used {
      BeforeMerged(mid, i - 1, end);
      MergeLfree(mid, i - 1, at, end);
    }
  }

  lemma BeforeMerged(bs: seq<Block>, j: nat, end: int)
    requires Tiled(bs, HDR, end) && j + 1 < |bs| && !bs[j + 1].used
    ensures j + 2 < |bs| && |Merge(bs, j)| == |bs| - 1 && Merge(bs, j)[j] == bs[j]
    ensures j > 0 ==> Merge(bs, j)[j - 1] == bs[j - 1]
  {
  }

  lemma FreeInv(h: Heap, memSize: nat, i: nat)
    requires Inv(h, memSize) && i + 1 < |h.bs| && h.bs[i].used
    ensures Inv(FreeBlock(h, i), memSize)
  {
    var end := memSize + HDR;
    var freed := Mark(h.bs, i, false);
    ReleaseKeeps(h.bs, i, HDR, end);
    ReleaseWeighs(h.bs, i, true, HDR, end);
    KeepAligned(h.bs, i, 0, HDR, 0);
    MarkTiled(h.bs, i, false, HDR, end);
    PayloadPositive(h.bs, i, end);
    var lowest := if h.bs[i].addr < h.lfree then h.bs[i].addr else h.lfree;
    IndexUnique(freed, HDR, end, i);
    IndexUnique(freed, HDR, end, IndexOf(h.bs, h.lfree));
    PlugLfreeOk(freed, i, lowest, end);
  }

  /** Past that assertion it would be lost: freeing a block keeps the invariant exactly if the block is in use.  For a
      free one used_mem goes down once more. */
  lemma FreeBlockInvIff(h: Heap, memSize: nat, i: nat)
    requires Inv(h, memSize) && i + 1 < |h.bs|
    ensures Inv(FreeBlock(h, i), memSize) <==> h.bs[i].used
  {
    if h.bs[i].used {
      FreeInv(h, memSize, i);
    } else {
      FreedAgain(h.bs, i);
      PayloadPositive(h.bs, i, memSize + HDR);
    }
  }

  lemma FreedAgain(bs: seq<Block>, i: nat)
    requires NoAdjacentFree(bs) && i + 1 < |bs| && !bs[i].used
    ensures Release(bs, i) == bs
  {
    assert Mark(bs, i, false) == bs;
    assert !BothFree(bs, i) && (i > 0 ==> !BothFree(bs, i - 1));
    CoalesceClosed(bs, i);
  }

  lemma PayloadPositive(bs: seq<Block>, i: nat, end: int)
    requires Tiled(bs, HDR, end) && i + 1 < |bs|
    ensures Payload(bs, i, 0) > HDR
  {
    assert Payload(bs, i, HDR) > 0;
  }

  lemma ShrinkInv(h: Heap, memSize: nat, i: nat, size: nat)
    requires Inv(h, memSize) && i + 1 < |h.bs| && h.bs[i].used
    requires 0 < size && size % 4 == 0 && size + HDR + MIN_SIZE < Payload(h.bs, i, HDR)
    ensures Inv(ShrinkBlock(h, i, size), memSize)
  {
    hide IndexOf, Weigh, Coalesce, NoAdjacentFree, Aligned, FreeOrEnd, PlugLfree;
    var end := memSize + HDR;
    var at := h.bs[i].addr + HDR + size;
    var cut := SplitAt(h.bs, i, at);
    ShrinkKeeps(h.bs, i, size, HDR, end);
    ShrinkWeighs(h.bs, i, size, HDR, end);
    KeepAligned(h.bs, i, size, HDR, 0);
    SplitTiled(h.bs, i, at, HDR, end);
    SplitLfree(h.bs, i, at, h.lfree, end);
    PlugLfreeOk(cut, i + 1, h.lfree, end);
  }

  lemma SplitLfree(bs: seq<Block>, i: nat, at: int, lfree: int, end: int)
    requires i + 1 < |bs| && FreeOrEnd(bs, lfree) && Tiled(SplitAt(bs, i, at), HDR, end)
    ensures FreeOrEnd(SplitAt(bs, i, at), lfree)
  {
    var k := IndexOf(bs, lfree);
    IndexUnique(SplitAt(bs, i, at), HDR, end, if k <= i then k else k + 1);
  }

  lemma MallocFinds(h: Heap, memSize: nat, n: nat, i: nat)
    requires Inv(h, memSize) && i + 1 < |h.bs| && Fits(h.bs, i, Want(n), memSize - Want(n))
    ensures var h' := Commit(h, i, Want(n));
            && Inv(h', memSize)
            && IndexOf(h'.bs, h.bs[i].addr) == i
            && i + 1 < |h'.bs| && h'.bs[i].used && Payload(h'.bs, i, HDR) >= Want(n)
    ensures h.bs[i].addr >= 0 && h.bs[i].addr % 4 == 0
  {
    CommitInv(h, memSize, i, Want(n));
    TakeKeeps(h.bs, i, Want(n), HDR, MIN_SIZE_ALIGNED, memSize + HDR);
    assert OnBoundary(h.bs, i);
    if i > 0 {
      Ordered(h.bs, HDR, memSize + HDR, 0, i);
    }
  }

  lemma MallocInv(h: Heap, memSize: nat, n: nat)
    requires Inv(h, memSize)
    ensures Inv(Malloc(h, memSize, n).0, memSize)
    ensures Malloc(h, memSize, n).1 == NULL ==> Malloc(h, memSize, n).0 == h
  {
    hide IndexOf, Weigh, FirstFit, Commit;
    var i := FirstFit(h.bs, IndexOf(h.bs, h.lfree), Want(n), memSize - Want(n));
    if i < |h.bs| {
      MallocFinds(h, memSize, n, i);
    }
  }

  /** What a caller gets: a live block of at least the size asked for, on a 4-byte boundary. */
  lemma MallocDelivers(h: Heap, memSize: nat, n: nat)
    requires Inv(h, memSize) && Malloc(h, memSize, n).1 != NULL
    ensures var (h', r) := Malloc(h, memSize, n);
            IsLive(h'.bs, r) && Payload(h'.bs, IndexOf(h'.bs, r - HDR), HDR) >= n && r % 4 == 0
  {
    hide IndexOf, Weigh, FirstFit, Commit, Inv;
    MallocFinds(h, memSize, n, FirstFit(h.bs, IndexOf(h.bs, h.lfree), Want(n), memSize - Want(n)));
  }

  lemma FreeOpInv(h: Heap, memSize: nat, rmem: int)
    requires Inv(h, memSize)
    ensures Inv(Free(h, rmem), memSize)
  {
    if IsLive(h.bs, rmem) {
      FreeInv(h, memSize, IndexOf(h.bs, rmem - HDR));
    }
  }

  lemma ResizeInv(h: Heap, memSize: nat, rmem: int, size: nat)
    requires Inv(h, memSize) && IsLive(h.bs, rmem) && 0 < size && size % 4 == 0
    ensures Inv(Resize(h, memSize, rmem, size).0, memSize)
    ensures Resize(h, memSize, rmem, size).1 == NULL && rmem != NULL ==> Resize(h, memSize, rmem, size).0 == h
  {
    var i := IndexOf(h.bs, rmem - HDR);
    if Payload(h.bs, i, HDR) != size {
      if size + HDR + MIN_SIZE < Payload(h.bs, i, HDR) {
        ShrinkInv(h, memSize, i, size);
      } else {
        MallocInv(h, memSize, size);
        FreeOpInv(Malloc(h, memSize, size).0, memSize, rmem);
      }
    }
  }

  lemma ReallocInv(h: Heap, memSize: nat, rmem: int, n: nat)
    requires Inv(h, memSize)
    ensures Inv(Realloc(h, memSize, rmem, n).0, memSize)
    ensures RoundUp(n) != 0 && Realloc(h, memSize, rmem, n).1 == NULL ==> Realloc(h, memSize, rmem, n).0 == h
  {
    var size := RoundUp(n);
    if size == 0 {
      FreeOpInv(h, memSize, rmem);
    } else if size <= memSize && rmem == NULL {
      MallocInv(h, memSize, size);
    } else if size <= memSize && 0 <= rmem < memSize + HDR && IsLive(h.bs, rmem) {
      ResizeInv(h, memSize, rmem, size);
    }
  }

  // ----- what the operations do for a caller

  /** The bytes at `ptr`. */
  ghost function LiveSize(bs: seq<Block>, ptr: int): int {
    if IsLive(bs, ptr) then Payload(bs, IndexOf(bs, ptr - HDR), HDR) else 0
  }

  lemma LiveIsUsed(bs: seq<Block>, end: int, ptr: int)
    requires Tiled(bs, HDR, end)
    ensures IsLive(bs, ptr) ==> Used(bs, HDR, ptr - HDR, LiveSize(bs, ptr))
    ensures forall addr, len ::
              Used(bs, HDR, addr, len) && addr == ptr - HDR ==> IsLive(bs, ptr) && len == LiveSize(bs, ptr)
  {
    hide IndexOf;
    if IsLive(bs, ptr) { assert UsedAt(bs, HDR, ptr - HDR, LiveSize(bs, ptr), IndexOf(bs, ptr - HDR)); }
    forall addr, len | Used(bs, HDR, addr, len) && addr == ptr - HDR
      ensures IsLive(bs, ptr) && len == LiveSize(bs, ptr)
    {
      var j :| UsedAt(bs, HDR, addr, len, j);
      IndexUnique(bs, HDR, end, j);
    }
  }

  /** The live blocks are those of bs without the one at `gone`, and one at `r`. */
  ghost predicate Replaced(bs: seq<Block>, bs': seq<Block>, gone: int, r: int) {
    forall addr, len :: Used(bs', HDR, addr, len) <==>
      (Used(bs, HDR, addr, len) && addr != gone - HDR) || (IsLive(bs', r) && addr == r - HDR && len == LiveSize(bs', r))
  }

  ghost predicate Removed(bs: seq<Block>, bs': seq<Block>, gone: int) {
    forall addr, len :: Used(bs', HDR, addr, len) <==> Used(bs, HDR, addr, len) && addr != gone - HDR
  }

  /** A malloc that does not return NULL adds one block, where none was, that is large enough, and not so much larger
      that another block would have fitted in; and no other changes. */
  lemma MallocAdds(h: Heap, memSize: nat, n: nat)
    requires Inv(h, memSize) && Malloc(h, memSize, n).1 != NULL
    ensures var (h', r) := Malloc(h, memSize, n);
            && !IsLive(h.bs, r) && IsLive(h'.bs, r) && LiveSize(h'.bs, r) >= n && Replaced(h.bs, h'.bs, NULL, r)
            && MIN_SIZE_ALIGNED <= LiveSize(h'.bs, r) < Max(RoundUp(n), MIN_SIZE_ALIGNED) + HDR + MIN_SIZE_ALIGNED
            && h'.usedMem == h.usedMem + LiveSize(h'.bs, r) + HDR && h'.maxMem == Max(h.maxMem, h'.usedMem)
  {
    hide IndexOf, FirstFit, Weigh, Take, Tiled, NoAdjacentFree, Aligned;
    var i := FirstFit(h.bs, IndexOf(h.bs, h.lfree), Want(n), memSize - Want(n));
    var (h', r) := Malloc(h, memSize, n);
    MallocFinds(h, memSize, n, i);
    TakeWeighs(h.bs, i, Want(n), HDR, MIN_SIZE_ALIGNED);
    TakeLength(h.bs, i, Want(n));
    IndexUnique(h.bs, HDR, memSize + HDR, i);
    forall addr, len ensures Used(h'.bs, HDR, addr, len) <==>
      (Used(h.bs, HDR, addr, len) && addr != NULL - HDR) || (addr == r - HDR && len == LiveSize(h'.bs, r))
    {
      TakeUses(h.bs, i, Want(n), HDR, MIN_SIZE_ALIGNED, addr, len);
      NullUnused(h, memSize, len);
    }
  }

  lemma TakeLength(bs: seq<Block>, i: nat, size: nat)
    requires i + 1 < |bs|
    ensures var cs := Take(bs, i, size, HDR, MIN_SIZE_ALIGNED);
            var split := Payload(bs, i, HDR) >= size + HDR + MIN_SIZE_ALIGNED;
            && |cs| == (if split then |bs| + 1 else |bs|)
            && Payload(cs, i, HDR) == if split then size else Payload(bs, i, HDR)
  {
  }

  /** No block is at NULL. */
  lemma NullUnused(h: Heap, memSize: nat, len: int)
    requires Inv(h, memSize)
    ensures !Used(h.bs, HDR, NULL - HDR, len)
  {
    if Used(h.bs, HDR, NULL - HDR, len) {
      var j :| UsedAt(h.bs, HDR, NULL - HDR, len, j);
      if j > 0 { Ordered(h.bs, HDR, memSize + HDR, 0, j); }
      assert false;
    }
  }

  /** A free of a live block takes that block away, gives its extent back, and changes no other.  A pointer that is not
      live changes nothing. */
  lemma FreeRemoves(h: Heap, memSize: nat, rmem: int)
    requires Inv(h, memSize)
    ensures var h' := Free(h, rmem);
            if IsLive(h.bs, rmem) then
              && !IsLive(h'.bs, rmem) && Removed(h.bs, h'.bs, rmem)
              && h'.usedMem == h.usedMem - LiveSize(h.bs, rmem) - HDR && h'.usedMem < h.usedMem && h'.maxMem == h.maxMem
            else h' == h
  {
    hide IndexOf, Release, Tiled, Weigh, NoAdjacentFree, Aligned;
    if IsLive(h.bs, rmem) {
      var i, end := IndexOf(h.bs, rmem - HDR), memSize + HDR;
      var h' := Free(h, rmem);
      PayloadPositive(h.bs, i, end);
      FreeInv(h, memSize, i);
      forall addr, len
        ensures Used(h'.bs, HDR, addr, len) <==> Used(h.bs, HDR, addr, len) && addr != rmem - HDR
      {
        ReleaseUses(h.bs, i, HDR, end, addr, len);
      }
      LiveIsUsed(h'.bs, end, rmem);
    }
  }

  /** Freeing what was just allocated gives the same heap back, but for lfree and max_mem. */
  lemma FreeUndoesMalloc(h: Heap, memSize: nat, n: nat)
    requires Inv(h, memSize) && Malloc(h, memSize, n).1 != NULL
    ensures var (h1, r) := Malloc(h, memSize, n);
            Free(h1, r).bs == h.bs && Free(h1, r).usedMem == h.usedMem
  {
    hide Malloc, Free, Tiled, NoAdjacentFree, Used, IsLive;
    var (h1, r) := Malloc(h, memSize, n);
    MallocInv(h, memSize, n);
    MallocAdds(h, memSize, n);
    FreeOpInv(h1, memSize, r);
    FreeRemoves(h1, memSize, r);
    var h2 := Free(h1, r);
    forall addr, len ensures Used(h2.bs, HDR, addr, len) <==> Used(h.bs, HDR, addr, len) {
      LiveIsUsed(h.bs, memSize + HDR, r);
      NullUnused(h, memSize, len);
      assert Used(h1.bs, HDR, addr, len) <==>
        (Used(h.bs, HDR, addr, len) && addr != NULL - HDR) || (addr == r - HDR && len == LiveSize(h1.bs, r));
    }
    UsedDetermines(h2.bs, h.bs, HDR, memSize + HDR);
  }

  /** A realloc of a live block: NULL changes nothing; else the block at rmem is replaced by one that is large enough,
      at the same place or another, and no other changes. */
  lemma ReallocReplaces(h: Heap, memSize: nat, rmem: int, n: nat)
    requires Inv(h, memSize) && IsLive(h.bs, rmem) && n > 0
    ensures var (h', r) := Realloc(h, memSize, rmem, n);
            if r == NULL then h' == h
            else IsLive(h'.bs, r) && LiveSize(h'.bs, r) >= n && Replaced(h.bs, h'.bs, rmem, r)
  {
    hide Malloc, Free, Tiled, NoAdjacentFree, IndexOf, ShrinkBlock, Used;
    var size, i, end := RoundUp(n), IndexOf(h.bs, rmem - HDR), memSize + HDR;
    InsideHeap(h, memSize, rmem);
    ReallocInv(h, memSize, rmem, n);
    LiveIsUsed(h.bs, end, rmem);
    if size <= memSize {
      var have := Payload(h.bs, i, HDR);
      if have != size && size + HDR + MIN_SIZE < have {
        ShrinkReplaces(h, memSize, rmem, size);
      } else if have != size {
        MoveReplaces(h, memSize, rmem, size);
      } else {
        SameReplaces(h.bs, end, rmem);
      }
    }
  }

  /** The block stays where it is, and NULL does not come, exactly if it has the size asked for or can be cut down to
      it with room for a header and a smallest block behind; a block only a little too large is moved as well. */
  lemma ReallocStaysIff(h: Heap, memSize: nat, rmem: int, n: nat)
    requires Inv(h, memSize) && IsLive(h.bs, rmem) && 0 < n && RoundUp(n) <= memSize
    ensures var (h', r) := Realloc(h, memSize, rmem, n);
            var have, size := LiveSize(h.bs, rmem), RoundUp(n);
            && (r == rmem <==> have == size || size + HDR + MIN_SIZE < have)
            && (r == rmem ==> LiveSize(h'.bs, rmem) == size)
            && (r != rmem ==> (r == NULL <==> Malloc(h, memSize, size).1 == NULL))
  {
    hide Malloc, Free, Tiled, NoAdjacentFree, IndexOf, ShrinkBlock, Used, Weigh, Aligned;
    var size := RoundUp(n);
    InsideHeap(h, memSize, rmem);
    if size + HDR + MIN_SIZE < LiveSize(h.bs, rmem) {
      ShrinkReplaces(h, memSize, rmem, size);
    } else if size != LiveSize(h.bs, rmem) && Malloc(h, memSize, size).1 != NULL {
      MallocAdds(h, memSize, size);
    }
  }

  /** So a request for fewer bytes can fail: here the block has 1000, and 990 are refused. */
  lemma SmallerIsRefused()
    ensures var h := Malloc(Init(1000), 1000, 980).0;
            && Inv(h, 1000) && IsLive(h.bs, HDR) && LiveSize(h.bs, HDR) == 1000
            && Realloc(h, 1000, HDR, 990) == (h, NULL)
  {
    InitInv(1000);
    MallocInv(Init(1000), 1000, 980);
    var h := Malloc(Init(1000), 1000, 980).0;
    assert FirstFit(Init(1000).bs, 0, 980, 20) == 0;
    assert h.bs == [Block(0, true), Block(1000 + HDR, true)];
    assert NextFree(h.bs, 0) == NextFree(h.bs, 1) == 1;
    assert FirstFit(h.bs, 1, 992, 8) == FirstFit(h.bs, 2, 992, 8) == 2;
  }

  lemma InsideHeap(h: Heap, memSize: nat, rmem: int)
    requires Inv(h, memSize) && IsLive(h.bs, rmem)
    ensures 0 <= rmem < memSize + HDR && rmem != NULL
  {
    var i := IndexOf(h.bs, rmem - HDR);
    if i > 0 { Ordered(h.bs, HDR, memSize + HDR, 0, i); }
    PayloadPositive(h.bs, i, memSize + HDR);
    if i + 1 < |h.bs| - 1 { Ordered(h.bs, HDR, memSize + HDR, i + 1, |h.bs| - 1); }
  }

  lemma SameReplaces(bs: seq<Block>, end: int, rmem: int)
    requires Tiled(bs, HDR, end) && IsLive(bs, rmem)
    ensures Replaced(bs, bs, rmem, rmem)
  {
    hide Tiled, Used, IsLive;
    LiveIsUsed(bs, end, rmem);
  }

  lemma ShrinkReplaces(h: Heap, memSize: nat, rmem: int, size: nat)
    requires Inv(h, memSize) && IsLive(h.bs, rmem) && 0 < size && size % 4 == 0
    requires size + HDR + MIN_SIZE < LiveSize(h.bs, rmem)
    ensures var h' := ShrinkBlock(h, IndexOf(h.bs, rmem - HDR), size);
            IsLive(h'.bs, rmem) && LiveSize(h'.bs, rmem) == size && Replaced(h.bs, h'.bs, rmem, rmem)
  {
    hide Tiled, NoAdjacentFree, IndexOf, Shrink, Weigh, Aligned;
    var i, end := IndexOf(h.bs, rmem - HDR), memSize + HDR;
    var h' := ShrinkBlock(h, i, size);
    ShrinkInv(h, memSize, i, size);
    forall addr, len ensures Used(h'.bs, HDR, addr, len) <==>
      (Used(h.bs, HDR, addr, len) && addr != rmem - HDR) || (addr == rmem - HDR && len == size)
    {
      ShrinkUses(h.bs, i, size, HDR, end, addr, len);
    }
    LiveIsUsed(h'.bs, end, rmem);
    assert Used(h'.bs, HDR, rmem - HDR, size);
  }

  lemma MoveReplaces(h: Heap, memSize: nat, rmem: int, size: nat)
    requires Inv(h, memSize) && IsLive(h.bs, rmem) && 0 < size
    ensures var (h1, r) := Malloc(h, memSize, size);
            if r == NULL then h1 == h
            else var h' := Free(h1, rmem);
                 IsLive(h'.bs, r) && LiveSize(h'.bs, r) >= size && Replaced(h.bs, h'.bs, rmem, r)
  {
    hide Malloc, Free, Tiled, NoAdjacentFree, Used, IsLive;
    var (h1, r) := Malloc(h, memSize, size);
    var end := memSize + HDR;
    MallocInv(h, memSize, size);
    if r != NULL {
      MallocAdds(h, memSize, size);
      var h' := Free(h1, rmem);
      FreeOpInv(h1, memSize, rmem);
      FreeRemoves(h1, memSize, rmem);
      LiveIsUsed(h.bs, end, rmem);
      LiveIsUsed(h1.bs, end, rmem);
      InsideHeap(h, memSize, rmem);
      assert Used(h1.bs, HDR, rmem - HDR, LiveSize(h.bs, rmem));
      LiveIsUsed(h1.bs, end, r);
      LiveIsUsed(h'.bs, end, r);
      assert Used(h'.bs, HDR, r - HDR, LiveSize(h1.bs, r));
      forall addr, len ensures Used(h'.bs, HDR, addr, len) <==>
        (Used(h.bs, HDR, addr, len) && addr != rmem - HDR) || (addr == r - HDR && len == LiveSize(h'.bs, r))
      {
        NullUnused(h, memSize, len);
        assert Used(h1.bs, HDR, addr, len) <==>
          (Used(h.bs, HDR, addr, len) && addr != NULL - HDR) || (addr == r - HDR && len == LiveSize(h1.bs, r));
      }
    }
  }

  /** A realloc to nothing frees, and returns NULL. */
  lemma ReallocToNothing(h: Heap, memSize: nat, rmem: int)
    requires Inv(h, memSize)
    ensures var (h', r) := Realloc(h, memSize, rmem, 0);
            && r == NULL
            && if IsLive(h.bs, rmem) then !IsLive(h'.bs, rmem) && Removed(h.bs, h'.bs, rmem) && h'.usedMem < h.usedMem
               else h' == h
  {
    hide Free, IsLive, Removed;
    FreeRemoves(h, memSize, rmem);
  }

  /** A realloc of NULL allocates. */
  lemma ReallocOfNull(h: Heap, memSize: nat, n: nat)
    requires Inv(h, memSize) && n > 0
    ensures var (h', r) := Realloc(h, memSize, NULL, n);
            && (r == NULL <==> Malloc(h, memSize, n).1 == NULL)
            && if r == NULL then h' == h
               else !IsLive(h.bs, r) && IsLive(h'.bs, r) && LiveSize(h'.bs, r) >= n && Replaced(h.bs, h'.bs, NULL, r)
  {
    hide Allocate, IsLive, Replaced;
    RoundTwice(n);
    MallocInv(h, memSize, RoundUp(n));
    if Realloc(h, memSize, NULL, n).1 != NULL { MallocAdds(h, memSize, RoundUp(n)); }
  }

  lemma RoundTwice(n: nat)
    ensures RoundUp(RoundUp(n)) == RoundUp(n) && (RoundUp(n) == 0 <==> n == 0)
  {
  }

  // ----- the lowest-free pointer

  ghost predicate LowestFree(h: Heap) {
    h.bs != [] && h.lfree == h.bs[NextFree(h.bs, 0)].addr
  }

  lemma {:induction false} NextFreeIs(bs: seq<Block>, k: nat, r: nat)
    requires k <= r < |bs| && (r == |bs| - 1 || !bs[r].used)
    requires forall j :: k <= j < r ==> bs[j].used
    ensures NextFree(bs, k) == r
    decreases r - k
  {
    if k < r {
      NextFreeIs(bs, k + 1, r);
    }
  }

  lemma CommitLowest(h: Heap, memSize: nat, i: nat, size: nat)
    requires Inv(h, memSize) && LowestFree(h) && i + 1 < |h.bs| && !h.bs[i].used
    ensures LowestFree(Commit(h, i, size))
  {
    var f, bs := NextFree(h.bs, 0), Commit(h, i, size).bs;
    if f == i {
      NextFreeIs(bs, 0, NextFree(bs, i));
    } else {
      Ordered(h.bs, HDR, memSize + HDR, f, i);
      NextFreeIs(bs, 0, f);
    }
  }

  lemma FreeLowest(h: Heap, memSize: nat, i: nat)
    requires Inv(h, memSize) && LowestFree(h) && i + 1 < |h.bs| && h.bs[i].used
    ensures LowestFree(FreeBlock(h, i))
  {
    var f := NextFree(h.bs, 0);
    FreeLfreeValue(h.bs, memSize + HDR, i, f);
    ReleaseNextFree(h.bs, i, f);
  }

  lemma FreeLfreeValue(bs: seq<Block>, end: int, i: nat, f: nat)
    requires Tiled(bs, HDR, end) && i + 1 < |bs| && bs[i].used && f == NextFree(bs, 0)
    ensures var lowest := if bs[i].addr < bs[f].addr then bs[i].addr else bs[f].addr;
            PlugLfree(Mark(bs, i, false), i, lowest) == bs[if i < f then i else f].addr
  {
    assert Payload(bs, i, HDR) > 0;
    if i < f {
      Ordered(bs, HDR, end, i, f);
    } else {
      Ordered(bs, HDR, end, f, i);
    }
  }

  lemma ReleaseNextFree(bs: seq<Block>, i: nat, f: nat)
    requires i + 1 < |bs| && bs[i].used && bs[|bs| - 1].used && f == NextFree(bs, 0)
    ensures var g := if i < f then i else f;
            g < |Release(bs, i)| && NextFree(Release(bs, i), 0) == g && Release(bs, i)[g].addr == bs[g].addr
  {
    hide Coalesce, IndexOf;
    CoalesceClosed(Mark(bs, i, false), i);
    NextFreeIs(Release(bs, i), 0, if i < f then i else f);
  }

  lemma {:induction false} SkipUsed(bs: seq<Block>, k: nat, r: nat, size: int, limit: int)
    requires k <= r <= |bs| && forall j :: k <= j < r ==> bs[j].used
    ensures FirstFit(bs, k, size, limit) == FirstFit(bs, r, size, limit)
    decreases r - k
  {
    if k < r {
      SkipUsed(bs, k + 1, r, size, limit);
    }
  }

  /** Starting the search at `lfree` finds what the same search from the heap start finds. */
  lemma SearchFromLfree(h: Heap, memSize: nat, size: int, limit: int)
    requires Inv(h, memSize) && LowestFree(h)
    ensures FirstFit(h.bs, IndexOf(h.bs, h.lfree), size, limit) == FirstFit(h.bs, 0, size, limit)
  {
    IndexUnique(h.bs, HDR, memSize + HDR, NextFree(h.bs, 0));
    SkipUsed(h.bs, 0, NextFree(h.bs, 0), size, limit);
  }

  /** A shrinking realloc does not look at `lfree`, so it keeps it lowest exactly when the block it
      gives back lies above `lfree` or swallows the block that `lfree` points to. */
  lemma ShrinkLowest(h: Heap, memSize: nat, i: nat, size: nat)
    requires Inv(h, memSize) && LowestFree(h) && i + 1 < |h.bs| && h.bs[i].used
    requires 0 < size && size + HDR + MIN_SIZE < Payload(h.bs, i, HDR)
    ensures LowestFree(ShrinkBlock(h, i, size))
            <==> h.lfree < h.bs[i].addr || (h.lfree == h.bs[i + 1].addr && !h.bs[i + 1].used)
  {
    hide Shrink, NextFree, Weigh, IndexOf;
    var end, f, at := memSize + HDR, NextFree(h.bs, 0), h.bs[i].addr + HDR + size;
    ShrinkNextFree(h.bs, i, size, f);
    assert Payload(h.bs, i, HDR) > 0;
    if f < i {
      Ordered(h.bs, HDR, end, f, i);
    } else {
      Ordered(h.bs, HDR, end, i, f);
      if f > i + 1 { Ordered(h.bs, HDR, end, i + 1, f); }
    }
  }

  lemma ShrinkNextFree(bs: seq<Block>, i: nat, size: nat, f: nat)
    requires i + 1 < |bs| && bs[i].used && bs[|bs| - 1].used && f == NextFree(bs, 0)
    ensures var cs := Shrink(bs, i, size, HDR);
            cs != [] && cs[NextFree(cs, 0)].addr == if f < i then bs[f].addr else bs[i].addr + HDR + size
  {
    hide Shrink, NextFree;
    ShrinkClosed(bs, i, size, HDR);
    InsertNextFree(bs, i, bs[i].addr + HDR + size, bs[if bs[i + 1].used then i + 1 else i + 2..], f);
  }

  lemma InsertNextFree(bs: seq<Block>, i: nat, at: int, rest: seq<Block>, f: nat)
    requires i + 1 < |bs| && bs[i].used && f == NextFree(bs, 0)
    ensures var cs := bs[..i + 1] + [Block(at, false)] + rest;
            cs[NextFree(cs, 0)].addr == if f < i then bs[f].addr else at
  {
    NextFreeIs(bs[..i + 1] + [Block(at, false)] + rest, 0, if f < i then f else i + 1);
  }

  // ----- when rt_malloc says no

  ghost predicate Serves(h: Heap, memSize: nat, n: nat, j: int) {
    Fits(h.bs, j, Want(n), memSize - Want(n))
  }

  /** With `lfree` lowest, a request fails exactly when it is 0, too large, or no free block fits it below
      the search limit. */
  lemma MallocFails(h: Heap, memSize: nat, n: nat)
    requires Inv(h, memSize) && LowestFree(h)
    ensures Malloc(h, memSize, n).1 == NULL <==>
              n == 0 || RoundUp(n) > memSize || forall j :: !Serves(h, memSize, n, j)
  {
    hide IndexOf, Weigh, FirstFit, Commit, Inv;
    if 0 < n && RoundUp(n) <= memSize {
      SearchFromLfree(h, memSize, Want(n), memSize - Want(n));
      var i := FirstFit(h.bs, 0, Want(n), memSize - Want(n));
      if i < |h.bs| {
        MallocFinds(h, memSize, n, i);
        assert Serves(h, memSize, n, i);
      }
    }
  }

  /** The search limit hides a large enough free block exactly when it is the last one and fits exactly. */
  lemma LimitHidesExactLastFit(bs: seq<Block>, memSize: nat, j: nat, size: nat)
    requires Tiled(bs, HDR, memSize + HDR) && j + 1 < |bs| && !bs[j].used && Payload(bs, j, HDR) >= size
    ensures !Fits(bs, j, size, memSize - size) <==> j + 2 == |bs| && Payload(bs, j, HDR) == size
  {
    if j + 2 < |bs| {
      Ordered(bs, HDR, memSize + HDR, j + 1, |bs| - 1);
    }
  }

  /** So a new heap, whose one free block has all its bytes, does not give them away in one piece. */
  lemma WholeHeapIsRefused(memSize: nat)
    requires MIN_SIZE_ALIGNED <= memSize && memSize % 4 == 0
    ensures var h := Init(memSize);
            && Inv(h, memSize) && |h.bs| == 2 && !h.bs[0].used && Payload(h.bs, 0, HDR) == memSize
            && Malloc(h, memSize, memSize) == (h, NULL)
  {
    InitInv(memSize);
  }

  // ----- every run

  datatype Op = DoMalloc(n: nat) | DoFree(rmem: int) | DoRealloc(rmem: int, n: nat)

  /** One call.  A pointer that is not live has no effect here: callers never pass one. */
  function Step(h: Heap, memSize: nat, op: Op): Heap {
    match op
    case DoMalloc(n) => Malloc(h, memSize, n).0
    case DoFree(rmem) => Free(h, rmem)
    case DoRealloc(rmem, n) => Realloc(h, memSize, rmem, n).0
  }

  function Exec(h: Heap, memSize: nat, ops: seq<Op>): Heap
    decreases ops
  {
    if ops == [] then h else Exec(Step(h, memSize, ops[0]), memSize, ops[1..])
  }

  // ----- a run in which free memory is not found

  /** The heap of 1000 bytes after malloc(100), malloc(100), realloc of the first block to 20, and malloc(740). */
  function After(n: nat): Heap
    requires n <= 4
  {
    if n == 0 then Init(1000)
    else if n == 1 then Heap([Block(0, true), Block(116, false), Block(1016, true)], 116, 116, 116)
    else if n == 2 then Heap([Block(0, true), Block(116, true), Block(232, false), Block(1016, true)], 232, 232, 232)
    else if n == 3 then
      Heap([Block(0, true), Block(36, false), Block(116, true), Block(232, false), Block(1016, true)], 232, 152, 232)
    else
      Heap([Block(0, true), Block(36, false), Block(116, true), Block(232, true), Block(988, false), Block(1016, true)],
           988, 908, 908)
  }

  function Ops(): seq<Op> { [DoMalloc(100), DoMalloc(100), DoRealloc(HDR, 20), DoMalloc(740)] }

  lemma MallocStep(h: Heap, n: nat, i: nat)
    requires 0 < n && RoundUp(n) <= 1000 && IndexOf(h.bs, h.lfree) == i && Fits(h.bs, i, Want(n), 1000 - Want(n))
    ensures Malloc(h, 1000, n) == (Commit(h, i, Want(n)), h.bs[i].addr + HDR)
  {
  }

  lemma SplitLast(h: Heap, i: nat, size: nat)
    requires i + 2 == |h.bs| && h.lfree == h.bs[i].addr && Payload(h.bs, i, HDR) >= size + HDR + MIN_SIZE_ALIGNED
    ensures var at, used := h.bs[i].addr + HDR + size, h.usedMem + size + HDR;
            Commit(h, i, size) == Heap(h.bs[..i] + [Block(h.bs[i].addr, true), Block(at, false), h.bs[i + 1]], at, used,
                                       Max(h.maxMem, used))
  {
    var bs := Take(h.bs, i, size, HDR, MIN_SIZE_ALIGNED);
    assert bs == h.bs[..i] + [Block(h.bs[i].addr, true), Block(h.bs[i].addr + HDR + size, false), h.bs[i + 1]];
    assert NextFree(bs, i) == NextFree(bs, i + 1) == i + 1;
  }

  lemma AfterSteps(n: nat)
    requires n < 4
    ensures Step(After(n), 1000, Ops()[n]) == After(n + 1)
  {
    hide Step, After;
    match n
    case 0 => AfterFirst();
    case 1 => AfterSecond();
    case 2 => AfterThird();
    case _ => AfterFourth();
  }

  lemma AfterFirst()
    ensures Step(After(0), 1000, Ops()[0]) == After(1)
  {
    hide Take, NextFree, Malloc, Commit;
    MallocStep(After(0), 100, 0);
    SplitLast(After(0), 0, 100);
  }

  lemma AfterSecond()
    ensures Step(After(1), 1000, Ops()[1]) == After(2)
  {
    hide Take, NextFree, Malloc, Commit, IndexOf;
    IndexIs(After(1).bs, 1);
    MallocStep(After(1), 100, 1);
    SplitLast(After(1), 1, 100);
  }

  lemma AfterThird()
    ensures Step(After(2), 1000, Ops()[2]) == After(3)
  {
    hide Malloc, IndexOf;
    var h := After(2);
    IndexIs(h.bs, 0);
    assert Realloc(h, 1000, HDR, 20) == (ShrinkBlock(h, 0, 20), HDR);
    assert ShrinkBlock(h, 0, 20).bs == After(3).bs;
  }

  lemma AfterFourth()
    ensures Step(After(3), 1000, Ops()[3]) == After(4)
  {
    hide Take, NextFree, Malloc, Commit, IndexOf;
    var h := After(3);
    IndexIs(h.bs, 3);
    MallocStep(h, 740, 3);
    SplitLast(h, 3, 740);
  }

  lemma ExecOps()
    ensures After(2) == Exec(Init(1000), 1000, Ops()[..2]) && After(3) == Exec(Init(1000), 1000, Ops()[..3])
    ensures After(4) == Exec(Init(1000), 1000, Ops())
  {
    hide Step, After;
    assert After(0) == Init(1000) by { AfterNone(); }
    ExecMore(0);
    ExecMore(1);
    ExecMore(2);
    ExecMore(3);
    assert Ops()[..0] == [] && Ops()[..4] == Ops();
  }

  lemma AfterNone()
    ensures After(0) == Init(1000)
  {
  }

  lemma ExecMore(n: nat)
    requires n < 4
    ensures Exec(Init(1000), 1000, Ops()[..n]) == After(n) ==> Exec(Init(1000), 1000, Ops()[..n + 1]) == After(n + 1)
  {
    hide Step, After;
    AfterSteps(n);
    assert Ops()[..n + 1] == Ops()[..n] + [Ops()[n]];
    ExecAppend(Init(1000), 1000, Ops()[..n], Ops()[n]);
  }

  lemma {:induction false} ExecAppend(h: Heap, memSize: nat, ops: seq<Op>, op: Op)
    ensures Exec(h, memSize, ops + [op]) == Step(Exec(h, memSize, ops), memSize, op)
    decreases ops
  {
    hide Step;
    if ops == [] {
      assert ([op])[1..] == [];
      assert Exec(Step(h, memSize, op), memSize, []) == Step(h, memSize, op);
    } else {
      assert (ops + [op])[1..] == ops[1..] + [op];
      ExecAppend(Step(h, memSize, ops[0]), memSize, ops[1..], op);
    }
  }

  lemma AfterRealloc()
    ensures Realloc(After(2), 1000, HDR, 20).0 == After(3)
  {
    hide After, Realloc;
    AfterThird();
  }

  /** Two mallocs lead to a heap whose lfree is lowest, and shrinking its first block leaves it above a free block. */
  lemma ShrinkCanHideFreeMemory()
    ensures var h := Exec(Init(1000), 1000, Ops()[..2]);
            Inv(h, 1000) && LowestFree(h) && !LowestFree(Realloc(h, 1000, HDR, 20).0)
  {
    hide Exec, Step, Inv, NextFree;
    ExecOps();
    InitInv(1000);
    RunInv(Init(1000), 1000, Ops()[..2]);
    AfterRealloc();
    NextFreeIs(After(2).bs, 0, 2);
    NextFreeIs(After(3).bs, 0, 1);
  }

  lemma Missed()
    ensures Serves(After(4), 1000, 64, 1) && Malloc(After(4), 1000, 64).1 == NULL
  {
    hide IndexOf, Commit;
    var h := After(4);
    IndexIs(h.bs, 4);
    assert FirstFit(h.bs, 4, 64, 936) == FirstFit(h.bs, 5, 64, 936) == FirstFit(h.bs, 6, 64, 936) == 6;
  }

  /** And two calls later a request is refused although a free block fits it. */
  lemma HiddenMemoryIsMissed()
    ensures var h := Exec(Init(1000), 1000, Ops());
            Inv(h, 1000) && Serves(h, 1000, 64, 1) && Malloc(h, 1000, 64).1 == NULL
  {
    hide Exec, Step, Inv, After;
    ExecOps();
    InitInv(1000);
    RunInv(Init(1000), 1000, Ops());
    Missed();
  }

  lemma StepInv(h: Heap, memSize: nat, op: Op)
    requires Inv(h, memSize)
    ensures Inv(Step(h, memSize, op), memSize)
  {
    match op
    case DoMalloc(n) => MallocInv(h, memSize, n);
    case DoFree(rmem) => FreeOpInv(h, memSize, rmem);
    case DoRealloc(rmem, n) => ReallocInv(h, memSize, rmem, n);
  }

  /** Every state of every run is well formed, and its used and free extents add up to the pool. */
  lemma {:induction false} RunInv(h: Heap, memSize: nat, ops: seq<Op>)
    requires Inv(h, memSize)
    ensures Inv(Exec(h, memSize, ops), memSize)
    ensures var e := Exec(h, memSize, ops); e.usedMem + Weigh(e.bs, false, 0) == memSize + HDR
    decreases ops
  {
    if ops == [] {
      WeighTotal(h.bs);
    } else {
      StepInv(h, memSize, ops[0]);
      RunInv(Step(h, memSize, ops[0]), memSize, ops[1..]);
    }
  }

  lemma StepLowest(h: Heap, memSize: nat, op: Op)
    requires Inv(h, memSize) && LowestFree(h) && !op.DoRealloc?
    ensures LowestFree(Step(h, memSize, op))
  {
    match op
    case DoMalloc(n) =>
      if Malloc(h, memSize, n).0 != h {
        CommitLowest(h, memSize, FirstFit(h.bs, IndexOf(h.bs, h.lfree), Want(n), memSize - Want(n)), Want(n));
      }
    case DoFree(rmem) =>
      if IsLive(h.bs, rmem) {
        FreeLowest(h, memSize, IndexOf(h.bs, rmem - HDR));
      }
  }

  /** Without realloc, `lfree` is the lowest free block in every state of every run. */
  lemma {:induction false} RunLowestFree(h: Heap, memSize: nat, ops: seq<Op>)
    requires Inv(h, memSize) && LowestFree(h)
    requires forall k :: 0 <= k < |ops| ==> !ops[k].DoRealloc?
    ensures LowestFree(Exec(h, memSize, ops))
    decreases ops
  {
    if ops != [] {
      StepInv(h, memSize, ops[0]);
      StepLowest(h, memSize, ops[0]);
      RunLowestFree(Step(h, memSize, ops[0]), memSize, ops[1..]);
    }
  }

  /** A realloc that takes a new block, copies and frees the old one. */
  predicate Moves(h: Heap, memSize: nat, op: Op) {
    && op.DoRealloc? && 0 < RoundUp(op.n) <= memSize && 0 <= op.rmem < memSize + HDR && IsLive(h.bs, op.rmem)
    && var have := Payload(h.bs, IndexOf(h.bs, op.rmem - HDR), HDR);
       have != RoundUp(op.n) && have <= RoundUp(op.n) + HDR + MIN_SIZE
  }

  /** The largest usedMem among the states one call goes through; a moving realloc holds both blocks for a while. */
  function StepPeak(h: Heap, memSize: nat, op: Op): int {
    var after := Step(h, memSize, op).usedMem;
    if Moves(h, memSize, op) then Max(Malloc(h, memSize, RoundUp(op.n)).0.usedMem, after) else after
  }

  function Peak(h: Heap, memSize: nat, ops: seq<Op>): int
    decreases ops
  {
    if ops == [] then h.usedMem
    else Max(Max(h.usedMem, StepPeak(h, memSize, ops[0])), Peak(Step(h, memSize, ops[0]), memSize, ops[1..]))
  }

  lemma FreeUsedMem(h: Heap, memSize: nat, rmem: int)
    requires Inv(h, memSize)
    ensures Free(h, rmem).maxMem == h.maxMem && Free(h, rmem).usedMem <= h.usedMem
  {
    if IsLive(h.bs, rmem) {
      PayloadPositive(h.bs, IndexOf(h.bs, rmem - HDR), memSize + HDR);
    }
  }

  lemma MallocMax(h: Heap, memSize: nat, n: nat)
    requires Inv(h, memSize)
    ensures Malloc(h, memSize, n).0.maxMem == Max(h.maxMem, Malloc(h, memSize, n).0.usedMem)
  {
  }

  lemma ResizeMax(h: Heap, memSize: nat, rmem: int, n: nat)
    requires Inv(h, memSize) && 0 < RoundUp(n) <= memSize && 0 <= rmem < memSize + HDR && IsLive(h.bs, rmem)
    ensures Resize(h, memSize, rmem, RoundUp(n)).0.maxMem == Max(h.maxMem, StepPeak(h, memSize, DoRealloc(rmem, n)))
  {
    hide Malloc, Free, Shrink, PlugLfree, Weigh, WellFormed, Aligned, FreeOrEnd;
    var op, size := DoRealloc(rmem, n), RoundUp(n);
    if Moves(h, memSize, op) {
      var (h1, r) := Malloc(h, memSize, size);
      var h2 := if r == NULL then h1 else Free(h1, rmem);
      MallocInv(h, memSize, size);
      MallocMax(h, memSize, size);
      FreeUsedMem(h1, memSize, rmem);
      assert h2.maxMem == h1.maxMem && h2.usedMem <= h1.usedMem;
      assert Step(h, memSize, op) == h2;
      assert StepPeak(h, memSize, op) == Max(h1.usedMem, h2.usedMem) == h1.usedMem;
    } else {
      assert Resize(h, memSize, rmem, size).0.maxMem == h.maxMem;
    }
  }

  lemma StepMax(h: Heap, memSize: nat, op: Op)
    requires Inv(h, memSize)
    ensures Step(h, memSize, op).maxMem == Max(h.maxMem, StepPeak(h, memSize, op))
  {
    hide Malloc, Free, Resize, IsLive, WellFormed, Aligned, FreeOrEnd, Weigh;
    match op
    case DoMalloc(n) => MallocMax(h, memSize, n);
    case DoFree(rmem) => FreeUsedMem(h, memSize, rmem);
    case DoRealloc(rmem, n) =>
      FreeUsedMem(h, memSize, rmem);
      MallocMax(h, memSize, RoundUp(n));
      if 0 < RoundUp(n) <= memSize && 0 <= rmem < memSize + HDR && IsLive(h.bs, rmem) {
        ResizeMax(h, memSize, rmem, n);
      }
  }

  /** max_mem is the running maximum of used_mem. */
  lemma {:induction false} RunMaxMem(h: Heap, memSize: nat, ops: seq<Op>)
    requires Inv(h, memSize)
    ensures Exec(h, memSize, ops).maxMem == Max(h.maxMem, Peak(h, memSize, ops))
    decreases ops
  {
    if ops != [] {
      StepInv(h, memSize, ops[0]);
      StepMax(h, memSize, ops[0]);
      RunMaxMem(Step(h, memSize, ops[0]), memSize, ops[1..]);
    }
  }
}
