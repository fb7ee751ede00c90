/** What the memory heap object (memheap.c) computes: a block list, and beside it a free list in the
    order in which blocks were given back.  Offsets are relative to the pool's start address. */
module MemPool {
  import opened HeapBlocks
  import opened Ring

  const HDR := 24             // RT_MEMHEAP_SIZE: six 4-byte fields
  const MINIALLOC := 12
  const NULL := -2

  datatype Pool = Pool(bs: seq<Block>, fl: seq<int>, available: int, maxUsed: int)

  function Max(a: int, b: int): int { if a < b then b else a }

  function Want(n: nat): nat { Max(RoundUp(n), MINIALLOC) }

  function Init(size: nat): Pool {
    Pool([Block(0, false), Block(size - HDR, true)], [0], size - 2 * HDR, 2 * HDR)
  }

  /** Payload of the block at `addr`; 0 if there is none. */
  function SizeAt(bs: seq<Block>, addr: int): int {
    var i := IndexOf(bs, addr);
    if i + 1 < |bs| then Payload(bs, i, HDR) else 0
  }

  /** The first entry of the free list, from `k` on, that is large enough, or |fl|. */
  function FirstFit(bs: seq<Block>, fl: seq<int>, k: nat, size: int): (r: nat)
    requires k <= |fl|
    ensures k <= r <= |fl|
    ensures r < |fl| ==> SizeAt(bs, fl[r]) >= size
    ensures forall j :: k <= j < r ==> SizeAt(bs, fl[j]) < size
    decreases |fl| - k
  {
    if k == |fl| || SizeAt(bs, fl[k]) >= size then k else FirstFit(bs, fl, k + 1, size)
  }

  // ----- the operations

  function Grant(p: Pool, poolSize: nat, i: nat, size: nat): Pool
    requires i + 1 < |p.bs|
  {
    var have := Payload(p.bs, i, HDR);
    var split := have >= size + HDR + MINIALLOC;
    var rest := Drop(p.fl, p.bs[i].addr);
    var available := p.available - (if split then size + HDR else have);
    Pool(Take(p.bs, i, size, HDR, MINIALLOC),
         if split then [p.bs[i].addr + HDR + size] + rest else rest,
         available, Max(p.maxUsed, poolSize - available))
  }

  function Alloc(p: Pool, poolSize: nat, n: nat): (Pool, int) {
    var size := Want(n);
    if size >= p.available then (p, NULL)
    else
      var k := FirstFit(p.bs, p.fl, 0, size);
      if k == |p.fl| || IndexOf(p.bs, p.fl[k]) + 1 >= |p.bs| then (p, NULL)
      else (Grant(p, poolSize, IndexOf(p.bs, p.fl[k]), size), p.fl[k] + HDR)
  }

  predicate IsLive(bs: seq<Block>, ptr: int) {
    var i := IndexOf(bs, ptr - HDR);
    i + 1 < |bs| && bs[i].used
  }

  function FreeBlock(p: Pool, i: nat): Pool
    requires i + 1 < |p.bs|
  {
    var left, right := i > 0 && !p.bs[i - 1].used, !p.bs[i + 1].used;
    var rest := if right then Drop(p.fl, p.bs[i + 1].addr) else p.fl;
    Pool(Release(p.bs, i), if left then rest else [p.bs[i].addr] + rest,
         p.available + Payload(p.bs, i, HDR) + (if left then HDR else 0) + (if right then HDR else 0), p.maxUsed)
  }

  function Free(p: Pool, ptr: int): Pool {
    if IsLive(p.bs, ptr) then FreeBlock(p, IndexOf(p.bs, ptr - HDR)) else p
  }

  /** Enlarge the used block `i` into its free successor, whose header moves up. */
  function Grow(p: Pool, poolSize: nat, i: nat, size: nat): Pool
    requires i + 1 < |p.bs|
  {
    var at := p.bs[i].addr + HDR + size;
    var available := p.available - (size - Payload(p.bs, i, HDR));
    Pool(p.bs[i + 1 := Block(at, false)], [at] + Drop(p.fl, p.bs[i + 1].addr), available,
         Max(p.maxUsed, poolSize - available))
  }

  function ShrinkBlock(p: Pool, i: nat, size: nat): Pool
    requires i + 1 < |p.bs|
  {
    var right := !p.bs[i + 1].used;
    var rest := if right then Drop(p.fl, p.bs[i + 1].addr) else p.fl;
    Pool(Shrink(p.bs, i, size, HDR), [p.bs[i].addr + HDR + size] + rest,
         p.available + Payload(p.bs, i, HDR) - size - HDR + (if right then HDR else 0), p.maxUsed)
  }

  predicate CanGrow(bs: seq<Block>, i: nat, size: nat)
    requires i + 1 < |bs|
  {
    i + 2 < |bs| && !bs[i + 1].used && Payload(bs, i + 1, HDR) + Payload(bs, i, HDR) > size + MINIALLOC
  }

  function Resize(p: Pool, poolSize: nat, ptr: int, size: nat): (Pool, int)
    requires IsLive(p.bs, ptr)
  {
    var i := IndexOf(p.bs, ptr - HDR);
    var have := Payload(p.bs, i, HDR);
    if size > have then
      if CanGrow(p.bs, i, size) then (Grow(p, poolSize, i, size), ptr)
      else var (p1, r) := Alloc(p, poolSize, size); (if r == NULL then p1 else Free(p1, ptr), r)
    else if size + HDR + MINIALLOC >= have then (p, ptr)
    else (ShrinkBlock(p, i, size), ptr)
  }

  function Realloc(p: Pool, poolSize: nat, ptr: int, n: nat): (Pool, int) {
    if n == 0 then (Free(p, ptr), NULL)
    else if ptr == NULL then Alloc(p, poolSize, Want(n))
    else if IsLive(p.bs, ptr) then Resize(p, poolSize, ptr, Want(n))
    else (p, ptr)
  }

  // ----- the invariant

  /** The free list holds exactly the blocks that are not used, each once. */
  ghost predicate FreeListOk(bs: seq<Block>, fl: seq<int>) {
    Distinct(fl) && forall a :: a in fl <==> Block(a, false) in bs
  }

  ghost predicate Inv(p: Pool, poolSize: nat) {
    && WellFormed(p.bs, HDR, poolSize - HDR)
    && Aligned(p.bs)
    && FreeListOk(p.bs, p.fl)
    && p.available == Weigh(p.bs, false, HDR)
    && poolSize - p.available <= p.maxUsed
  }

  lemma InitInv(size: nat)
    requires 2 * HDR + MINIALLOC <= size && size % 4 == 0
    ensures Inv(Init(size), size)
  {
    var bs := Init(size).bs;
    assert Weigh(bs, false, HDR) == size - 2 * HDR + Weigh(bs[1..], false, HDR);
  }

  /** A block value is in the list exactly at the index of its address. */
  lemma InListAt(bs: seq<Block>, end: int, i: nat, a: int)
    requires Tiled(bs, HDR, end) && i < |bs| && bs[i].addr == a
    ensures forall u :: Block(a, u) in bs <==> bs[i].used == u
  {
    forall u | Block(a, u) in bs ensures bs[i].used == u {
      var j :| 0 <= j < |bs| && bs[j] == Block(a, u);
      if j < i { Ordered(bs, HDR, end, j, i); }
      if i < j { Ordered(bs, HDR, end, i, j); }
    }
  }

  /** Block `i` turned used or free, in terms of membership. */
  lemma MarkMembers(bs: seq<Block>, end: int, i: nat, used: bool)
    requires Tiled(bs, HDR, end) && i + 1 < |bs|
    ensures forall a ::
              Block(a, false) in Mark(bs, i, used) <==> if a == bs[i].addr then !used else Block(a, false) in bs
  {
    var cs := Mark(bs, i, used);
    MarkTiled(bs, i, used, HDR, end);
    InListAt(cs, end, i, bs[i].addr);
    assert bs[..i] == cs[..i] && bs[i + 1..] == cs[i + 1..];
    assert bs == bs[..i] + [bs[i]] + bs[i + 1..] && cs == cs[..i] + [cs[i]] + cs[i + 1..];
  }

  lemma SplitMembers(bs: seq<Block>, i: nat, at: int)
    requires i + 1 < |bs|
    ensures forall a :: Block(a, false) in SplitAt(bs, i, at) <==> a == at || Block(a, false) in bs
  {
    assert bs == bs[..i + 1] + bs[i + 1..];
  }

  lemma MergeMembers(bs: seq<Block>, end: int, i: nat)
    requires Tiled(bs, HDR, end) && i + 2 < |bs|
    ensures forall a :: Block(a, false) in Merge(bs, i) <==> a != bs[i + 1].addr && Block(a, false) in bs
  {
    assert bs == bs[..i + 1] + [bs[i + 1]] + bs[i + 2..];
    forall a | Block(a, false) in Merge(bs, i) ensures a != bs[i + 1].addr {
      var j :| 0 <= j < |Merge(bs, i)| && Merge(bs, i)[j] == Block(a, false);
      if j <= i { Ordered(bs, HDR, end, j, i + 1); } else { Ordered(bs, HDR, end, i + 1, j + 1); }
    }
  }

  lemma GrantInv(p: Pool, poolSize: nat, i: nat, size: nat)
    requires Inv(p, poolSize) && i + 1 < |p.bs| && !p.bs[i].used
    requires 0 < size <= Payload(p.bs, i, HDR) && size % 4 == 0
    ensures Inv(Grant(p, poolSize, i, size), poolSize)
  {
    hide FreeListOk, Aligned, WellFormed, Take, Tiled, Weigh, Drop, Release, Shrink;
    GrantLists(p.bs, p.fl, poolSize - HDR, i, size);
    UseWellFormed(p.bs, poolSize - HDR);
    TakeKeeps(p.bs, i, size, HDR, MINIALLOC, poolSize - HDR);
    TakeWeighs(p.bs, i, size, HDR, MINIALLOC);
    KeepAligned(p.bs, i, size, HDR, MINIALLOC);
  }

  lemma UseWellFormed(bs: seq<Block>, end: int)
    requires WellFormed(bs, HDR, end)
    ensures Tiled(bs, HDR, end)
  {
  }

  lemma GrantLists(bs: seq<Block>, fl: seq<int>, end: int, i: nat, size: nat)
    requires WellFormed(bs, HDR, end) && FreeListOk(bs, fl) && i + 1 < |bs| && 0 < size <= Payload(bs, i, HDR)
    ensures var split := Payload(bs, i, HDR) >= size + HDR + MINIALLOC;
            var rest := Drop(fl, bs[i].addr);
            FreeListOk(Take(bs, i, size, HDR, MINIALLOC), if split then [bs[i].addr + HDR + size] + rest else rest)
  {
    hide NoAdjacentFree, Drop, Take, Distinct, Tiled;
    var at, rest := bs[i].addr + HDR + size, Drop(fl, bs[i].addr);
    DropKeeps(fl, bs[i].addr);
    TakeMembers(bs, end, i, size);
    if Payload(bs, i, HDR) >= size + HDR + MINIALLOC {
      NewAddress(bs, end, i, at);
      ConsOk(Take(bs, i, size, HDR, MINIALLOC), at, rest);
    }
  }

  lemma ConsOk(bs: seq<Block>, x: int, rest: seq<int>)
    requires Distinct(rest) && x !in rest && forall a :: Block(a, false) in bs <==> a == x || a in rest
    ensures FreeListOk(bs, [x] + rest)
  {
  }

  lemma TakeMembers(bs: seq<Block>, end: int, i: nat, size: nat)
    requires Tiled(bs, HDR, end) && i + 1 < |bs|
    ensures var split, at := Payload(bs, i, HDR) >= size + HDR + MINIALLOC, bs[i].addr + HDR + size;
            forall a :: Block(a, false) in Take(bs, i, size, HDR, MINIALLOC) <==>
              (split && a == at) || (a != bs[i].addr && Block(a, false) in bs)
  {
    hide SplitAt, Mark;
    MarkMembers(bs, end, i, true);
    MarkLength(bs, i, true);
    SplitMembers(Mark(bs, i, true), i, bs[i].addr + HDR + size);
  }

  lemma MarkLength(bs: seq<Block>, i: nat, used: bool)
    requires i < |bs|
    ensures |Mark(bs, i, used)| == |bs|
  {
  }

  /** No block starts inside another block. */
  lemma NewAddress(bs: seq<Block>, end: int, i: nat, at: int)
    requires Tiled(bs, HDR, end) && i + 1 < |bs| && bs[i].addr < at < bs[i + 1].addr
    ensures forall u :: Block(at, u) !in bs
  {
    forall u ensures Block(at, u) !in bs {
      if Block(at, u) in bs {
        var j :| 0 <= j < |bs| && bs[j] == Block(at, u);
        if j < i { Ordered(bs, HDR, end, j, i); }
        if i + 1 < j { Ordered(bs, HDR, end, i + 1, j); }
      }
    }
  }

  /** Coalescing around block `i`, whose address is already on the free list. */
  lemma CoalesceMembers(bs: seq<Block>, end: int, i: nat)
    requires Tiled(bs, HDR, end) && i + 1 < |bs| && !bs[i].used
    ensures forall a :: Block(a, false) in Coalesce(bs, i) <==>
              Block(a, false) in bs && (!bs[i + 1].used ==> a != bs[i + 1].addr)
                && (i > 0 && !bs[i - 1].used ==> a != bs[i].addr)
  {
    var right := bs;
    if !bs[i + 1].used {
      right := Merge(bs, i);
      MergeMembers(bs, end, i);
      MergeTiled(bs, i, HDR, end);
    }
    if i > 0 && !bs[i - 1].used {
      MergeMembers(right, end, i - 1);
    }
  }

  lemma FreeLists(bs: seq<Block>, fl: seq<int>, end: int, i: nat)
    requires WellFormed(bs, HDR, end) && FreeListOk(bs, fl) && i + 1 < |bs| && bs[i].used
    ensures var rest := if !bs[i + 1].used then Drop(fl, bs[i + 1].addr) else fl;
            FreeListOk(Release(bs, i), if i > 0 && !bs[i - 1].used then rest else [bs[i].addr] + rest)
  {
    var freed := Mark(bs, i, false);
    assert Payload(bs, i, HDR) > 0;
    MarkMembers(bs, end, i, false);
    MarkTiled(bs, i, false, HDR, end);
    InListAt(bs, end, i, bs[i].addr);
    CoalesceMembers(freed, end, i);
    DropKeeps(fl, bs[i + 1].addr);
  }

  lemma FreeInv(p: Pool, poolSize: nat, i: nat)
    requires Inv(p, poolSize) && i + 1 < |p.bs| && p.bs[i].used
    ensures Inv(FreeBlock(p, i), poolSize)
  {
    hide FreeListOk, Aligned, WellFormed, Release;
    FreeLists(p.bs, p.fl, poolSize - HDR, i);
    UseWellFormed(p.bs, poolSize - HDR);
    ReleaseKeeps(p.bs, i, HDR, poolSize - HDR);
    ReleaseWeighs(p.bs, i, false, HDR, poolSize - HDR);
    KeepAligned(p.bs, i, 0, HDR, 0);
    assert Payload(p.bs, i, HDR) > 0;
  }

  /** The source only asserts that the block is in use.  Past the assertion the invariant is kept exactly if it is:
      a free block would be listed a second time. */
  lemma FreeBlockInvIff(p: Pool, poolSize: nat, i: nat)
    requires Inv(p, poolSize) && i + 1 < |p.bs|
    ensures Inv(FreeBlock(p, i), poolSize) <==> p.bs[i].used
  {
    if p.bs[i].used {
      FreeInv(p, poolSize, i);
    } else {
      hide Release, Weigh, Drop;
      assert !BothFree(p.bs, i) && (i > 0 ==> !BothFree(p.bs, i - 1));
      assert Block(p.bs[i].addr, false) in p.bs;
      ListedTwice(p.fl, p.bs[i].addr);
    }
  }

  lemma ListedTwice(fl: seq<int>, a: int)
    requires a in fl
    ensures !Distinct([a] + fl)
  {
    var k :| 0 <= k < |fl| && fl[k] == a;
    assert ([a] + fl)[0] == ([a] + fl)[k + 1];
  }

  lemma ShrinkLists(bs: seq<Block>, fl: seq<int>, end: int, i: nat, size: nat)
    requires WellFormed(bs, HDR, end) && FreeListOk(bs, fl) && i + 1 < |bs| && bs[i].used && 0 < size
    requires size + HDR < Payload(bs, i, HDR)
    ensures var rest := if !bs[i + 1].used then Drop(fl, bs[i + 1].addr) else fl;
            FreeListOk(Shrink(bs, i, size, HDR), [bs[i].addr + HDR + size] + rest)
  {
    hide Shrink, Coalesce, NoAdjacentFree, Drop, Merge;
    var at := bs[i].addr + HDR + size;
    ShrinkIsSplit(bs, i, size);
    NewAddress(bs, end, i, at);
    DropKeeps(fl, bs[i + 1].addr);
    if bs[i + 1].used {
      SplitMembers(bs, i, at);
    } else {
      MergeMembers(bs, end, i);
      assert i + 1 < |Merge(bs, i)| by { MergeTiled(bs, i, HDR, end); MergeLength(bs, i); }
      SplitMembers(Merge(bs, i), i, at);
      assert Shrink(bs, i, size, HDR) == SplitAt(Merge(bs, i), i, at);
    }
  }

  lemma MergeLength(bs: seq<Block>, i: nat)
    requires i + 1 < |bs|
    ensures |Merge(bs, i)| == |bs| - 1
  {
  }

  lemma ShrinkIsSplit(bs: seq<Block>, i: nat, size: nat)
    requires i + 1 < |bs| && bs[i].used && bs[|bs| - 1].used
    ensures Shrink(bs, i, size, HDR) == SplitAt(if bs[i + 1].used then bs else Merge(bs, i), i, bs[i].addr + HDR + size)
  {
    hide Shrink;
    ShrinkClosed(bs, i, size, HDR);
    if !bs[i + 1].used {
      assert Merge(bs, i)[..i + 1] == bs[..i + 1] && Merge(bs, i)[i + 1..] == bs[i + 2..];
    }
  }

  lemma ShrinkInv(p: Pool, poolSize: nat, i: nat, size: nat)
    requires Inv(p, poolSize) && i + 1 < |p.bs| && p.bs[i].used
    requires 0 < size && size % 4 == 0 && size + HDR + MINIALLOC < Payload(p.bs, i, HDR)
    ensures Inv(ShrinkBlock(p, i, size), poolSize)
  {
    hide FreeListOk, Aligned, WellFormed, Shrink;
    ShrinkLists(p.bs, p.fl, poolSize - HDR, i, size);
    UseWellFormed(p.bs, poolSize - HDR);
    ShrinkKeeps(p.bs, i, size, HDR, poolSize - HDR);
    ShrinkWeighs(p.bs, i, size, HDR, poolSize - HDR);
    KeepAligned(p.bs, i, size, HDR, 0);
  }

  /** A free header moved up behind the used block `i`. */
  lemma GrowKeeps(bs: seq<Block>, end: int, i: nat, at: int)
    requires WellFormed(bs, HDR, end) && i + 2 < |bs| && bs[i].used && !bs[i + 1].used
    requires bs[i].addr + HDR < at && at + HDR < bs[i + 2].addr
    ensures WellFormed(bs[i + 1 := Block(at, false)], HDR, end)
    ensures Weigh(bs[i + 1 := Block(at, false)], false, HDR) == Weigh(bs, false, HDR) + bs[i + 1].addr - at
  {
    var cs := bs[i + 1 := Block(at, false)];
    forall p | 0 <= p < |cs| - 1 ensures Payload(cs, p, HDR) > 0 && !BothFree(cs, p) {
      assert Payload(bs, p, HDR) > 0 && !BothFree(bs, p);
    }
    WeighCut(bs, i, false, HDR);
    WeighCut(cs, i, false, HDR);
    assert bs[..i + 1] == cs[..i + 1] && bs[i..][1..][1..] == cs[i..][1..][1..];
  }

  lemma GrowLists(bs: seq<Block>, fl: seq<int>, end: int, i: nat, at: int)
    requires WellFormed(bs, HDR, end) && FreeListOk(bs, fl) && i + 2 < |bs| && bs[i].used && !bs[i + 1].used
    requires bs[i + 1].addr < at < bs[i + 2].addr
    ensures FreeListOk(bs[i + 1 := Block(at, false)], [at] + Drop(fl, bs[i + 1].addr))
  {
    hide NoAdjacentFree;
    MergeMembers(bs, end, i);
    SplitMembers(Merge(bs, i), i, at);
    assert SplitAt(Merge(bs, i), i, at) == bs[i + 1 := Block(at, false)];
    NewAddress(bs, end, i + 1, at);
    DropKeeps(fl, bs[i + 1].addr);
  }

  lemma GrowAligned(bs: seq<Block>, i: nat, size: nat)
    requires Aligned(bs) && i + 1 < |bs| && size % 4 == 0
    ensures Aligned(bs[i + 1 := Block(bs[i].addr + HDR + size, false)])
  {
    var cs := bs[i + 1 := Block(bs[i].addr + HDR + size, false)];
    assert OnBoundary(bs, i);
    forall p | 0 <= p < |cs| ensures OnBoundary(cs, p) {
      assert OnBoundary(bs, p);
    }
  }

  lemma GrowInv(p: Pool, poolSize: nat, i: nat, size: nat)
    requires Inv(p, poolSize) && i + 1 < |p.bs| && p.bs[i].used && CanGrow(p.bs, i, size)
    requires size % 4 == 0 && size > Payload(p.bs, i, HDR)
    ensures Inv(Grow(p, poolSize, i, size), poolSize)
  {
    hide FreeListOk, Aligned, WellFormed;
    var at := p.bs[i].addr + HDR + size;
    assert Payload(p.bs, i, HDR) > 0 by { UseWellFormed(p.bs, poolSize - HDR); }
    GrowKeeps(p.bs, poolSize - HDR, i, at);
    GrowLists(p.bs, p.fl, poolSize - HDR, i, at);
    GrowAligned(p.bs, i, size);
  }

  /** The entry that the search finds is a free block. */
  lemma FitIsFree(p: Pool, poolSize: nat, k: nat)
    requires Inv(p, poolSize) && k < |p.fl|
    ensures var i := IndexOf(p.bs, p.fl[k]); i + 1 < |p.bs| && !p.bs[i].used && p.bs[i].addr == p.fl[k] >= 0
  {
    var a := p.fl[k];
    assert a in p.fl;
    assert Block(a, false) in p.bs;
    var j :| 0 <= j < |p.bs| && p.bs[j] == Block(a, false);
    IndexUnique(p.bs, HDR, poolSize - HDR, j);
    if 0 < j { Ordered(p.bs, HDR, poolSize - HDR, 0, j); }
  }

  lemma AllocInv(p: Pool, poolSize: nat, n: nat)
    requires Inv(p, poolSize)
    ensures Inv(Alloc(p, poolSize, n).0, poolSize)
    ensures Alloc(p, poolSize, n).1 == NULL ==> Alloc(p, poolSize, n).0 == p
  {
    hide Inv, Grant;
    var size := Want(n);
    var k := FirstFit(p.bs, p.fl, 0, size);
    if size < p.available && k < |p.fl| {
      FitIsFree(p, poolSize, k);
      GrantInv(p, poolSize, IndexOf(p.bs, p.fl[k]), size);
    }
  }

  lemma FreeOpInv(p: Pool, poolSize: nat, ptr: int)
    requires Inv(p, poolSize)
    ensures Inv(Free(p, ptr), poolSize)
  {
    hide Inv, FreeBlock;
    if IsLive(p.bs, ptr) {
      FreeInv(p, poolSize, IndexOf(p.bs, ptr - HDR));
    }
  }

  lemma ResizeInv(p: Pool, poolSize: nat, ptr: int, size: nat)
    requires Inv(p, poolSize) && IsLive(p.bs, ptr) && 0 < size && size % 4 == 0
    ensures Inv(Resize(p, poolSize, ptr, size).0, poolSize)
    ensures ptr != NULL && Resize(p, poolSize, ptr, size).1 == NULL ==> Resize(p, poolSize, ptr, size).0 == p
  {
    hide Inv, FreeBlock, Grow, ShrinkBlock, Alloc, Free;
    var i := IndexOf(p.bs, ptr - HDR);
    if size > Payload(p.bs, i, HDR) {
      if CanGrow(p.bs, i, size) {
        GrowInv(p, poolSize, i, size);
      } else {
        AllocInv(p, poolSize, size);
        FreeOpInv(Alloc(p, poolSize, size).0, poolSize, ptr);
      }
    } else if size + HDR + MINIALLOC < Payload(p.bs, i, HDR) {
      ShrinkInv(p, poolSize, i, size);
    }
  }

  lemma ReallocInv(p: Pool, poolSize: nat, ptr: int, n: nat)
    requires Inv(p, poolSize)
    ensures Inv(Realloc(p, poolSize, ptr, n).0, poolSize)
    ensures n != 0 && Realloc(p, poolSize, ptr, n).1 == NULL ==> Realloc(p, poolSize, ptr, n).0 == p
  {
    hide Inv, Resize, Alloc, Free;
    if n == 0 {
      FreeOpInv(p, poolSize, ptr);
    } else if ptr == NULL {
      AllocInv(p, poolSize, Want(n));
    } else if IsLive(p.bs, ptr) {
      ResizeInv(p, poolSize, ptr, Want(n));
    }
  }

  // ----- every run

  datatype Op = DoAlloc(n: nat) | DoFree(ptr: int) | DoRealloc(ptr: int, n: nat)

  /** One call.  A pointer that is not live has no effect here: callers never pass one. */
  function Step(p: Pool, poolSize: nat, op: Op): Pool {
    match op
    case DoAlloc(n) => Alloc(p, poolSize, n).0
    case DoFree(ptr) => Free(p, ptr)
    case DoRealloc(ptr, n) => Realloc(p, poolSize, ptr, n).0
  }

  function Exec(p: Pool, poolSize: nat, ops: seq<Op>): Pool
    decreases ops
  {
    if ops == [] then p else Exec(Step(p, poolSize, ops[0]), poolSize, ops[1..])
  }

  /** Every state of every run: the blocks tile the pool up to the used tailer, no two free blocks meet,
      the free list is exactly the free blocks, and available_size is the sum of their payloads. */
  lemma {:induction false} RunInv(p: Pool, poolSize: nat, ops: seq<Op>)
    requires Inv(p, poolSize)
    ensures Inv(Exec(p, poolSize, ops), poolSize)
    decreases ops
  {
    hide Inv, Alloc, Free, Realloc;
    if ops != [] {
      match ops[0] {
        case DoAlloc(n) => AllocInv(p, poolSize, n);
        case DoFree(ptr) => FreeOpInv(p, poolSize, ptr);
        case DoRealloc(ptr, n) => ReallocInv(p, poolSize, ptr, n);
      }
      RunInv(Step(p, poolSize, ops[0]), poolSize, ops[1..]);
    }
  }

  // ----- when rt_memheap_alloc says no

  lemma {:induction false} WeighAtLeast(bs: seq<Block>, i: nat)
    requires i + 1 < |bs| && !bs[i].used && forall j :: 0 <= j < |bs| - 1 ==> Payload(bs, j, HDR) > 0
    ensures Payload(bs, i, HDR) <= Weigh(bs, false, HDR)
  {
    WeighCut(bs, i, false, HDR);
    WeighNonNegative(bs[..i + 1], bs, 0);
    WeighNonNegative(bs[i..][1..], bs, i + 1);
  }

  lemma {:induction false} WeighNonNegative(part: seq<Block>, bs: seq<Block>, k: nat)
    requires k + |part| <= |bs| && part == bs[k..k + |part|]
    requires forall j :: 0 <= j < |bs| - 1 ==> Payload(bs, j, HDR) > 0
    ensures Weigh(part, false, HDR) >= 0
    decreases |part|
  {
    if |part| >= 2 {
      assert Payload(part, 0, HDR) == Payload(bs, k, HDR);
      assert part[1..] == bs[k + 1..k + 1 + |part[1..]|];
      WeighNonNegative(part[1..], bs, k + 1);
    }
  }

  /** The strict test against available_size refuses a request that a free block could serve exactly
      when the request asks for all that is available. */
  lemma AllocRefuses(p: Pool, poolSize: nat, n: nat, i: nat)
    requires Inv(p, poolSize) && i + 1 < |p.bs| && !p.bs[i].used && Payload(p.bs, i, HDR) >= Want(n)
    ensures Alloc(p, poolSize, n).1 == NULL <==> p.available == Want(n)
  {
    hide Grant;
    WeighAtLeast(p.bs, i);
    if Want(n) < p.available {
      assert Block(p.bs[i].addr, false) in p.bs;
      var j :| 0 <= j < |p.fl| && p.fl[j] == p.bs[i].addr;
      IndexUnique(p.bs, HDR, poolSize - HDR, i);
      assert SizeAt(p.bs, p.fl[j]) >= Want(n);
      var k := FirstFit(p.bs, p.fl, 0, Want(n));
      assert k <= j;
      FitIsFree(p, poolSize, k);
    }
  }

  /** So a new pool, which is one free block, does not give it away whole. */
  lemma WholePoolIsRefused(size: nat)
    requires 2 * HDR + MINIALLOC <= size && size % 4 == 0
    ensures var p, n := Init(size), size - 2 * HDR;
            && Inv(p, size) && |p.bs| > 1 && !p.bs[0].used && Payload(p.bs, 0, HDR) == n
            && Alloc(p, size, n) == (p, NULL)
  {
    InitInv(size);
  }

  // ----- blocks in use stay where they are

  ghost predicate Holds(bs: seq<Block>, addr: int, len: int) {
    var i := IndexOf(bs, addr);
    i + 1 < |bs| && bs[i].used && Payload(bs, i, HDR) == len
  }

  /** Where the payload of a block in use lies. */
  lemma PayloadRange(bs: seq<Block>, end: int, addr: int, len: int)
    requires Tiled(bs, HDR, end) && Holds(bs, addr, len)
    ensures 0 <= addr && addr + HDR + len <= end && 0 < len
  {
    var i := IndexOf(bs, addr);
    if i > 0 { Ordered(bs, HDR, end, 0, i); }
    if i + 1 < |bs| - 1 { Ordered(bs, HDR, end, i + 1, |bs| - 1); }
  }

  /** Payloads of different blocks in use do not overlap. */
  lemma PayloadsApart(bs: seq<Block>, end: int, a: int, m: int, b: int, n: int)
    requires Tiled(bs, HDR, end) && Holds(bs, a, m) && Holds(bs, b, n) && a != b
    ensures a + HDR + m <= b || b + HDR + n <= a
  {
    var i, j := IndexOf(bs, a), IndexOf(bs, b);
    if i + 1 < j { Ordered(bs, HDR, end, i + 1, j); }
    if j + 1 < i { Ordered(bs, HDR, end, j + 1, i); }
  }

  /** No header of a well-formed list lies in the payload of a block in use: what an operation writes into the headers
      of the list before or after it stays out of every payload that is live in both. */
  lemma HeadersSparePayloads(bs: seq<Block>, end: int, addr: int, len: int, j: nat)
    requires Tiled(bs, HDR, end) && Holds(bs, addr, len) && j < |bs|
    ensures bs[j].addr + HDR <= addr + HDR || addr + HDR + len <= bs[j].addr
  {
    var i := IndexOf(bs, addr);
    if j < i { Ordered(bs, HDR, end, j, i); }
    if i + 1 < j { Ordered(bs, HDR, end, i + 1, j); }
  }

  lemma HoldsAt(bs: seq<Block>, end: int, j: nat)
    requires Tiled(bs, HDR, end) && j + 1 < |bs| && bs[j].used
    ensures Holds(bs, bs[j].addr, Payload(bs, j, HDR))
  {
    IndexUnique(bs, HDR, end, j);
  }

  lemma GrantKeepsOthers(bs: seq<Block>, end: int, i: nat, size: nat, addr: int, len: int)
    requires WellFormed(bs, HDR, end) && Holds(bs, addr, len) && i + 1 < |bs| && !bs[i].used
    requires 0 < size <= Payload(bs, i, HDR)
    ensures var cs := Take(bs, i, size, HDR, MINIALLOC);
            && Holds(cs, addr, len) && bs[i].addr != addr
            && IsLive(cs, bs[i].addr + HDR) && SizeAt(cs, bs[i].addr) >= size
  {
    hide Take;
    var j := IndexOf(bs, addr);
    TakeKeepsBlock(bs, i, size, HDR, MINIALLOC, j);
    TakeKeeps(bs, i, size, HDR, MINIALLOC, end);
    var cs := Take(bs, i, size, HDR, MINIALLOC);
    HoldsAt(cs, end, TakeIndex(bs, i, j, size, HDR, MINIALLOC));
    HoldsAt(cs, end, i);
    IndexUnique(bs, HDR, end, i);
  }

  lemma AllocKeepsOthers(p: Pool, poolSize: nat, n: nat, addr: int, len: int)
    requires Inv(p, poolSize) && Holds(p.bs, addr, len)
    ensures Holds(Alloc(p, poolSize, n).0.bs, addr, len)
    ensures var (p', r) := Alloc(p, poolSize, n); r != NULL ==>
              r - HDR != addr && IsLive(p'.bs, r) && SizeAt(p'.bs, r - HDR) >= n
  {
    hide FreeListOk, Aligned, Weigh, Take, Holds, IsLive, SizeAt, Drop;
    var k := FirstFit(p.bs, p.fl, 0, Want(n));
    if Want(n) < p.available && k < |p.fl| {
      FitIsFree(p, poolSize, k);
      assert Payload(p.bs, IndexOf(p.bs, p.fl[k]), HDR) >= Want(n) by { FitSize(p, k, Want(n)); }
      GrantKeepsOthers(p.bs, poolSize - HDR, IndexOf(p.bs, p.fl[k]), Want(n), addr, len);
    }
  }

  lemma FitSize(p: Pool, k: nat, size: int)
    requires k < |p.fl| && SizeAt(p.bs, p.fl[k]) >= size && IndexOf(p.bs, p.fl[k]) + 1 < |p.bs|
    ensures Payload(p.bs, IndexOf(p.bs, p.fl[k]), HDR) >= size
  {
  }

  lemma FreeKeepsOthers(p: Pool, poolSize: nat, ptr: int, addr: int, len: int)
    requires Inv(p, poolSize) && Holds(p.bs, addr, len) && addr != ptr - HDR
    ensures Holds(Free(p, ptr).bs, addr, len)
  {
    hide FreeListOk, Aligned, Weigh, Release, Drop;
    if IsLive(p.bs, ptr) {
      var i, j := IndexOf(p.bs, ptr - HDR), IndexOf(p.bs, addr);
      ReleaseKeeps(p.bs, i, HDR, poolSize - HDR);
      ReleaseKeepsBlock(p.bs, i, j);
      HoldsAt(Release(p.bs, i), poolSize - HDR, ReleaseIndex(p.bs, i, j));
    }
  }

  lemma ShrinkKeepsOthers(bs: seq<Block>, end: int, i: nat, size: nat, addr: int, len: int)
    requires WellFormed(bs, HDR, end) && i + 1 < |bs| && bs[i].used && 0 < size && size + HDR < Payload(bs, i, HDR)
    requires Holds(bs, addr, len) && addr != bs[i].addr
    ensures Holds(Shrink(bs, i, size, HDR), addr, len)
  {
    hide Shrink;
    var j := IndexOf(bs, addr);
    ShrinkKeeps(bs, i, size, HDR, end);
    ShrinkClosed(bs, i, size, HDR);
    HoldsAt(Shrink(bs, i, size, HDR), end, if j < i then j else if bs[i + 1].used then j + 1 else j);
  }

  lemma GrowKeepsOthers(bs: seq<Block>, end: int, i: nat, at: int, addr: int, len: int)
    requires WellFormed(bs, HDR, end) && i + 2 < |bs| && bs[i].used && !bs[i + 1].used
    requires bs[i].addr + HDR < at && at + HDR < bs[i + 2].addr && Holds(bs, addr, len) && addr != bs[i].addr
    ensures Holds(bs[i + 1 := Block(at, false)], addr, len)
  {
    GrowKeeps(bs, end, i, at);
    HoldsAt(bs[i + 1 := Block(at, false)], end, IndexOf(bs, addr));
  }

  /** A realloc leaves every other block in use at its place and size. */
  lemma ResizeKeepsOthers(p: Pool, poolSize: nat, ptr: int, size: nat, addr: int, len: int)
    requires Inv(p, poolSize) && IsLive(p.bs, ptr) && 0 < size && size % 4 == 0
    requires Holds(p.bs, addr, len) && addr != ptr - HDR
    ensures Holds(Resize(p, poolSize, ptr, size).0.bs, addr, len)
  {
    hide FreeListOk, Aligned, Weigh, Alloc, Free, Holds, Shrink, Drop;
    var end, i := poolSize - HDR, IndexOf(p.bs, ptr - HDR);
    if size > Payload(p.bs, i, HDR) {
      if CanGrow(p.bs, i, size) {
        assert Payload(p.bs, i, HDR) > 0;
        GrowKeepsOthers(p.bs, end, i, p.bs[i].addr + HDR + size, addr, len);
      } else {
        AllocInv(p, poolSize, size);
        AllocKeepsOthers(p, poolSize, size, addr, len);
        FreeKeepsOthers(Alloc(p, poolSize, size).0, poolSize, ptr, addr, len);
      }
    } else if size + HDR + MINIALLOC < Payload(p.bs, i, HDR) {
      ShrinkKeepsOthers(p.bs, end, i, size, addr, len);
    }
  }

  // ----- what the operations do for a caller

  ghost function LiveSize(bs: seq<Block>, ptr: int): int {
    if IsLive(bs, ptr) then Payload(bs, IndexOf(bs, ptr - HDR), HDR) else 0
  }

  lemma LiveIsUsed(bs: seq<Block>, end: int, ptr: int)
    requires Tiled(bs, HDR, end)
    ensures IsLive(bs, ptr) ==> Used(bs, HDR, ptr - HDR, LiveSize(bs, ptr))
    ensures forall addr, len ::
              Used(bs, HDR, addr, len) && addr == ptr - HDR ==> IsLive(bs, ptr) && len == LiveSize(bs, ptr)
  {
    hide IndexOf;
    if IsLive(bs, ptr) { assert UsedAt(bs, HDR, ptr - HDR, LiveSize(bs, ptr), IndexOf(bs, ptr - HDR)); }
    forall addr, len | Used(bs, HDR, addr, len) && addr == ptr - HDR
      ensures IsLive(bs, ptr) && len == LiveSize(bs, ptr)
    {
      var j :| UsedAt(bs, HDR, addr, len, j);
      IndexUnique(bs, HDR, end, j);
    }
  }

  /** The live blocks are those of bs without the one at `gone`, and one at `r`. */
  ghost predicate Replaced(bs: seq<Block>, bs': seq<Block>, gone: int, r: int) {
    forall addr, len :: Used(bs', HDR, addr, len) <==>
      (Used(bs, HDR, addr, len) && addr != gone - HDR) || (IsLive(bs', r) && addr == r - HDR && len == LiveSize(bs', r))
  }

  ghost predicate Removed(bs: seq<Block>, bs': seq<Block>, gone: int) {
    forall addr, len :: Used(bs', HDR, addr, len) <==> Used(bs, HDR, addr, len) && addr != gone - HDR
  }

  /** NULL comes exactly if the request is not below what is available, or no free block is large enough. */
  lemma AllocFailsIff(p: Pool, poolSize: nat, n: nat)
    requires Inv(p, poolSize)
    ensures Alloc(p, poolSize, n).1 == NULL <==>
            || Want(n) >= p.available
            || forall i :: 0 <= i < |p.bs| - 1 && !p.bs[i].used ==> Payload(p.bs, i, HDR) < Want(n)
  {
    hide Grant, Weigh, Inv;
    var k := FirstFit(p.bs, p.fl, 0, Want(n));
    if Want(n) < p.available {
      if k < |p.fl| {
        FitIsFree(p, poolSize, k);
        FitSize(p, k, Want(n));
      }
      forall i | 0 <= i < |p.bs| - 1 && !p.bs[i].used && Payload(p.bs, i, HDR) >= Want(n)
        ensures Alloc(p, poolSize, n).1 != NULL
      {
        AllocRefuses(p, poolSize, n, i);
      }
    }
  }

  /** An allocation that does not return NULL adds one block, where none was, that is large enough, and not so much
      larger that another block would have fitted in; no other changes. */
  lemma AllocAdds(p: Pool, poolSize: nat, n: nat)
    requires Inv(p, poolSize) && Alloc(p, poolSize, n).1 != NULL
    ensures var (p', r) := Alloc(p, poolSize, n);
            && !IsLive(p.bs, r) && IsLive(p'.bs, r) && LiveSize(p'.bs, r) >= n && Replaced(p.bs, p'.bs, NULL, r)
            && MINIALLOC <= LiveSize(p'.bs, r) < Max(RoundUp(n), MINIALLOC) + HDR + MINIALLOC
            && p'.available < p.available && p'.maxUsed == Max(p.maxUsed, poolSize - p'.available)
  {
    hide IndexOf, FirstFit, Weigh, Take, Drop, FreeListOk, Aligned, Tiled, NoAdjacentFree;
    var k := FirstFit(p.bs, p.fl, 0, Want(n));
    var (p', r) := Alloc(p, poolSize, n);
    FitIsFree(p, poolSize, k);
    FitSize(p, k, Want(n));
    var i, end := IndexOf(p.bs, p.fl[k]), poolSize - HDR;
    TakeKeeps(p.bs, i, Want(n), HDR, MINIALLOC, end);
    IndexUnique(p'.bs, HDR, end, i);
    TakeLength(p.bs, i, Want(n));
    forall addr, len ensures Used(p'.bs, HDR, addr, len) <==>
      (Used(p.bs, HDR, addr, len) && addr != NULL - HDR) || (addr == r - HDR && len == LiveSize(p'.bs, r))
    {
      TakeUses(p.bs, i, Want(n), HDR, MINIALLOC, addr, len);
      NullUnused(p.bs, end, len);
    }
  }

  lemma TakeLength(bs: seq<Block>, i: nat, size: nat)
    requires i + 1 < |bs|
    ensures var cs, split := Take(bs, i, size, HDR, MINIALLOC), Payload(bs, i, HDR) >= size + HDR + MINIALLOC;
            i + 1 < |cs| && Payload(cs, i, HDR) == if split then size else Payload(bs, i, HDR)
  {
  }

  lemma NullUnused(bs: seq<Block>, end: int, len: int)
    requires Tiled(bs, HDR, end)
    ensures !Used(bs, HDR, NULL - HDR, len)
  {
    if Used(bs, HDR, NULL - HDR, len) {
      var j :| UsedAt(bs, HDR, NULL - HDR, len, j);
      if j > 0 { Ordered(bs, HDR, end, 0, j); }
      assert false;
    }
  }

  /** A free of a live block takes that block away and changes no other; its bytes are available again. */
  lemma FreeRemoves(p: Pool, poolSize: nat, ptr: int)
    requires Inv(p, poolSize)
    ensures var p' := Free(p, ptr);
            if IsLive(p.bs, ptr) then
              && !IsLive(p'.bs, ptr) && Removed(p.bs, p'.bs, ptr)
              && p.available + LiveSize(p.bs, ptr) <= p'.available && p.available < p'.available
              && p'.maxUsed == p.maxUsed
            else p' == p
  {
    hide IndexOf, Release, Tiled, Weigh, NoAdjacentFree, Aligned, FreeListOk, Drop;
    if IsLive(p.bs, ptr) {
      var i, end := IndexOf(p.bs, ptr - HDR), poolSize - HDR;
      var p' := Free(p, ptr);
      FreeInv(p, poolSize, i);
      UsedPositive(p.bs, end, i);
      forall addr, len
        ensures Used(p'.bs, HDR, addr, len) <==> Used(p.bs, HDR, addr, len) && addr != ptr - HDR
      {
        ReleaseUses(p.bs, i, HDR, end, addr, len);
      }
      LiveIsUsed(p'.bs, end, ptr);
    }
  }

  lemma UsedPositive(bs: seq<Block>, end: int, i: nat)
    requires Tiled(bs, HDR, end) && i + 1 < |bs|
    ensures Payload(bs, i, HDR) > 0
  {
  }

  /** Freeing what was just allocated gives back the same blocks and as many bytes. */
  lemma FreeUndoesAlloc(p: Pool, poolSize: nat, n: nat)
    requires Inv(p, poolSize) && Alloc(p, poolSize, n).1 != NULL
    ensures var (p1, r) := Alloc(p, poolSize, n);
            Free(p1, r).bs == p.bs && Free(p1, r).available == p.available
  {
    hide Alloc, Free, Tiled, NoAdjacentFree, Used, IsLive, FreeListOk;
    var (p1, r) := Alloc(p, poolSize, n);
    AllocInv(p, poolSize, n);
    AllocAdds(p, poolSize, n);
    FreeOpInv(p1, poolSize, r);
    FreeRemoves(p1, poolSize, r);
    var p2 := Free(p1, r);
    forall addr, len ensures Used(p2.bs, HDR, addr, len) <==> Used(p.bs, HDR, addr, len) {
      LiveIsUsed(p.bs, poolSize - HDR, r);
      NullUnused(p.bs, poolSize - HDR, len);
      assert Used(p1.bs, HDR, addr, len) <==>
        (Used(p.bs, HDR, addr, len) && addr != NULL - HDR) || (addr == r - HDR && len == LiveSize(p1.bs, r));
    }
    UsedDetermines(p2.bs, p.bs, HDR, poolSize - HDR);
  }

  /** A realloc of a live block: NULL changes nothing; else the block at ptr is replaced by one that is large enough,
      at the same place or another, and no other changes. */
  lemma ReallocReplaces(p: Pool, poolSize: nat, ptr: int, n: nat)
    requires Inv(p, poolSize) && IsLive(p.bs, ptr) && n > 0
    ensures var (p', r) := Realloc(p, poolSize, ptr, n);
            if r == NULL then p' == p
            else IsLive(p'.bs, r) && LiveSize(p'.bs, r) >= n && Replaced(p.bs, p'.bs, ptr, r)
  {
    hide Alloc, Free, Tiled, NoAdjacentFree, IndexOf, ShrinkBlock, Grow, Used, FreeListOk, Weigh, Aligned;
    var size, i, end := Want(n), IndexOf(p.bs, ptr - HDR), poolSize - HDR;
    WantAligned(n);
    LiveIsUsed(p.bs, end, ptr);
    NullUnused(p.bs, end, LiveSize(p.bs, ptr));
    if size > Payload(p.bs, i, HDR) {
      if CanGrow(p.bs, i, size) {
        GrowReplaces(p, poolSize, ptr, size);
      } else {
        MoveReplaces(p, poolSize, ptr, size);
      }
    } else if size + HDR + MINIALLOC >= Payload(p.bs, i, HDR) {
      SameReplaces(p.bs, end, ptr);
    } else {
      ShrinkReplaces(p, poolSize, ptr, size);
    }
  }

  /** The block stays where it is exactly if it is large enough, or the free block behind it makes it so. */
  lemma ReallocStaysIff(p: Pool, poolSize: nat, ptr: int, n: nat)
    requires Inv(p, poolSize) && IsLive(p.bs, ptr) && n > 0
    ensures var (p', r) := Realloc(p, poolSize, ptr, n);
            && (r == ptr <==> Want(n) <= LiveSize(p.bs, ptr) || CanGrow(p.bs, IndexOf(p.bs, ptr - HDR), Want(n)))
            && (r != ptr ==> (r == NULL <==> Alloc(p, poolSize, Want(n)).1 == NULL))
            && (r == ptr && Want(n) + HDR + MINIALLOC < LiveSize(p.bs, ptr) ==> LiveSize(p'.bs, ptr) == Want(n))
  {
    hide Alloc, Free, Tiled, NoAdjacentFree, IndexOf, ShrinkBlock, Grow, Used, FreeListOk, Weigh, Aligned;
    var size, end := Want(n), poolSize - HDR;
    WantAligned(n);
    LiveIsUsed(p.bs, end, ptr);
    NullUnused(p.bs, end, LiveSize(p.bs, ptr));
    if size + HDR + MINIALLOC < LiveSize(p.bs, ptr) {
      ShrinkReplaces(p, poolSize, ptr, size);
    } else if size > LiveSize(p.bs, ptr) && Alloc(p, poolSize, size).1 != NULL {
      AllocAdds(p, poolSize, size);
    }
  }

  lemma WantAligned(n: nat)
    ensures 0 < Want(n) && n <= Want(n) && Want(n) % 4 == 0 && Want(Want(n)) == Want(n)
  {
  }

  lemma SameReplaces(bs: seq<Block>, end: int, ptr: int)
    requires Tiled(bs, HDR, end) && IsLive(bs, ptr)
    ensures Replaced(bs, bs, ptr, ptr)
  {
    hide Tiled, Used, IsLive;
    LiveIsUsed(bs, end, ptr);
  }

  lemma ShrinkReplaces(p: Pool, poolSize: nat, ptr: int, size: nat)
    requires Inv(p, poolSize) && IsLive(p.bs, ptr) && 0 < size && size % 4 == 0
    requires size + HDR + MINIALLOC < LiveSize(p.bs, ptr)
    ensures var p' := ShrinkBlock(p, IndexOf(p.bs, ptr - HDR), size);
            IsLive(p'.bs, ptr) && LiveSize(p'.bs, ptr) == size && Replaced(p.bs, p'.bs, ptr, ptr)
  {
    hide Tiled, NoAdjacentFree, IndexOf, Shrink, Weigh, Aligned, FreeListOk, Drop;
    var i, end := IndexOf(p.bs, ptr - HDR), poolSize - HDR;
    var p' := ShrinkBlock(p, i, size);
    ShrinkInv(p, poolSize, i, size);
    forall addr, len ensures Used(p'.bs, HDR, addr, len) <==>
      (Used(p.bs, HDR, addr, len) && addr != ptr - HDR) || (addr == ptr - HDR && len == size)
    {
      ShrinkUses(p.bs, i, size, HDR, end, addr, len);
    }
    LiveIsUsed(p'.bs, end, ptr);
    assert Used(p'.bs, HDR, ptr - HDR, size);
  }

  lemma GrowReplaces(p: Pool, poolSize: nat, ptr: int, size: nat)
    requires Inv(p, poolSize) && IsLive(p.bs, ptr) && 0 < size && size % 4 == 0 && size > LiveSize(p.bs, ptr)
    requires CanGrow(p.bs, IndexOf(p.bs, ptr - HDR), size)
    ensures var p' := Grow(p, poolSize, IndexOf(p.bs, ptr - HDR), size);
            IsLive(p'.bs, ptr) && LiveSize(p'.bs, ptr) == size && Replaced(p.bs, p'.bs, ptr, ptr)
  {
    hide Tiled, NoAdjacentFree, IndexOf, Weigh, Aligned, FreeListOk, Drop;
    var i, end := IndexOf(p.bs, ptr - HDR), poolSize - HDR;
    var p' := Grow(p, poolSize, i, size);
    GrowInv(p, poolSize, i, size);
    forall addr, len ensures Used(p'.bs, HDR, addr, len) <==>
      (Used(p.bs, HDR, addr, len) && addr != ptr - HDR) || (addr == ptr - HDR && len == size)
    {
      GrowUses(p.bs, i, p.bs[i].addr + HDR + size, HDR, end, addr, len);
    }
    LiveIsUsed(p'.bs, end, ptr);
    assert Used(p'.bs, HDR, ptr - HDR, size);
  }

  lemma MoveReplaces(p: Pool, poolSize: nat, ptr: int, size: nat)
    requires Inv(p, poolSize) && IsLive(p.bs, ptr) && 0 < size
    ensures var (p1, r) := Alloc(p, poolSize, size);
            if r == NULL then p1 == p
            else var p' := Free(p1, ptr);
                 IsLive(p'.bs, r) && LiveSize(p'.bs, r) >= size && Replaced(p.bs, p'.bs, ptr, r)
  {
    hide Alloc, Free, Tiled, NoAdjacentFree, Used, IsLive, FreeListOk, Weigh, Aligned;
    var (p1, r) := Alloc(p, poolSize, size);
    var end := poolSize - HDR;
    AllocInv(p, poolSize, size);
    if r != NULL {
      AllocAdds(p, poolSize, size);
      var p' := Free(p1, ptr);
      FreeOpInv(p1, poolSize, ptr);
      FreeRemoves(p1, poolSize, ptr);
      LiveIsUsed(p.bs, end, ptr);
      LiveIsUsed(p1.bs, end, ptr);
      NullUnused(p.bs, end, LiveSize(p.bs, ptr));
      assert Used(p1.bs, HDR, ptr - HDR, LiveSize(p.bs, ptr));
      LiveIsUsed(p1.bs, end, r);
      LiveIsUsed(p'.bs, end, r);
      assert Used(p'.bs, HDR, r - HDR, LiveSize(p1.bs, r));
      forall addr, len ensures Used(p'.bs, HDR, addr, len) <==>
        (Used(p.bs, HDR, addr, len) && addr != ptr - HDR) || (addr == r - HDR && len == LiveSize(p'.bs, r))
      {
        NullUnused(p.bs, end, len);
        assert Used(p1.bs, HDR, addr, len) <==>
          (Used(p.bs, HDR, addr, len) && addr != NULL - HDR) || (addr == r - HDR && len == LiveSize(p1.bs, r));
      }
    }
  }

  /** A realloc to nothing frees, and returns NULL. */
  lemma ReallocToNothing(p: Pool, poolSize: nat, ptr: int)
    requires Inv(p, poolSize)
    ensures var (p', r) := Realloc(p, poolSize, ptr, 0);
            && r == NULL
            && if IsLive(p.bs, ptr) then
                 !IsLive(p'.bs, ptr) && Removed(p.bs, p'.bs, ptr) && p.available < p'.available
               else p' == p
  {
    hide Free, IsLive, Removed;
    FreeRemoves(p, poolSize, ptr);
  }

  /** A realloc of NULL allocates. */
  lemma ReallocOfNull(p: Pool, poolSize: nat, n: nat)
    requires Inv(p, poolSize) && n > 0
    ensures var (p', r) := Realloc(p, poolSize, NULL, n);
            && (r == NULL <==> Alloc(p, poolSize, n).1 == NULL)
            && if r == NULL then p' == p
               else !IsLive(p.bs, r) && IsLive(p'.bs, r) && LiveSize(p'.bs, r) >= n && Replaced(p.bs, p'.bs, NULL, r)
  {
    hide IsLive, Replaced, Grant;
    WantAligned(n);
    AllocInv(p, poolSize, Want(n));
    if Realloc(p, poolSize, NULL, n).1 != NULL { AllocAdds(p, poolSize, Want(n)); }
  }
}
