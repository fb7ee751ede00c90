/** The code of the memory heap object (memheap.c): headers that carry a circular block list and,
    for free blocks, a circular free list through the heap object's own header.  Each header field
    is a map from header addresses to values. */
module Memheap {
  import opened HeapBlocks
  import opened Ring
  import opened MemPool
  import Nodes

  const FREE_HEADER := -1     // the free list's header lies outside the pool

  function Addrs(bs: seq<Block>): seq<int> {
    seq(|bs|, i requires 0 <= i < |bs| => bs[i].addr)
  }

  /** The fields of the headers: the two circular lists run through exactly the blocks and the free list. */
  ghost predicate Links(used: map<int, bool>, next: map<int, int>, prev: map<int, int>,
                        nextFree: map<int, int>, prevFree: map<int, int>, bs: seq<Block>, fl: seq<int>) {
    && FlagsOk(used, bs)
    && IsRing(next, prev, Addrs(bs))
    && IsRing(nextFree, prevFree, [FREE_HEADER] + fl)
    && Distinct([FREE_HEADER] + fl)
  }

  ghost predicate FlagOk(used: map<int, bool>, bs: seq<Block>, i: nat)
    requires i < |bs|
  {
    bs[i].addr in used && used[bs[i].addr] == bs[i].used
  }

  ghost predicate FlagsOk(used: map<int, bool>, bs: seq<Block>) {
    forall i :: 0 <= i < |bs| ==> FlagOk(used, bs, i)
  }

  lemma AddrsDistinct(bs: seq<Block>, end: int)
    requires Tiled(bs, HDR, end)
    ensures Distinct(Addrs(bs)) && forall a :: a in Addrs(bs) ==> 0 <= a <= end
  {
    var r := Addrs(bs);
    forall i, j | 0 <= i < j < |r| ensures r[i] != r[j] {
      Ordered(bs, HDR, end, i, j);
    }
    forall i | 0 <= i < |r| ensures 0 <= r[i] <= end {
      if 0 < i { Ordered(bs, HDR, end, 0, i); }
      if i < |bs| - 1 { Ordered(bs, HDR, end, i, |bs| - 1); }
    }
  }

  lemma AddrsSplit(bs: seq<Block>, i: nat, at: int)
    requires i < |bs|
    ensures Addrs(SplitAt(bs, i, at)) == With(Addrs(bs), i, at)
  {
  }

  lemma AddrsMerge(bs: seq<Block>, i: nat)
    requires i + 1 < |bs|
    ensures Addrs(Merge(bs, i)) == Without(Addrs(bs), i + 1)
  {
  }

  lemma NotAnAddress(bs: seq<Block>, end: int, i: nat, at: int)
    requires Tiled(bs, HDR, end) && i + 1 < |bs| && bs[i].addr < at < bs[i + 1].addr
    ensures at !in Addrs(bs)
  {
    NewAddress(bs, end, i, at);
    forall j | 0 <= j < |bs| ensures Addrs(bs)[j] != at {
      assert bs[j] == Block(bs[j].addr, bs[j].used) && bs[j] in bs;
    }
  }

  lemma FlagsSplit(used: map<int, bool>, bs: seq<Block>, end: int, i: nat, at: int)
    requires FlagsOk(used, bs) && Tiled(bs, HDR, end) && i + 1 < |bs| && bs[i].addr < at < bs[i + 1].addr
    ensures FlagsOk(used[at := false], SplitAt(bs, i, at))
  {
    var cs := SplitAt(bs, i, at);
    NewAddress(bs, end, i, at);
    var used' := used[at := false];
    forall p | 0 <= p < |cs| ensures FlagOk(used', cs, p) {
      if p != i + 1 {
        var q := if p <= i then p else p - 1;
        assert FlagOk(used, bs, q) && cs[p] == bs[q] && bs[q] in bs;
        assert bs[q] == Block(bs[q].addr, bs[q].used);
      }
    }
  }

  lemma FlagsMark(used: map<int, bool>, bs: seq<Block>, end: int, i: nat, flag: bool)
    requires FlagsOk(used, bs) && Tiled(bs, HDR, end) && i < |bs|
    ensures FlagsOk(used[bs[i].addr := flag], Mark(bs, i, flag))
  {
    var cs := Mark(bs, i, flag);
    var used' := used[bs[i].addr := flag];
    forall p | 0 <= p < |cs| ensures FlagOk(used', cs, p) {
      assert FlagOk(used, bs, p);
      if p < i { Ordered(bs, HDR, end, p, i); }
      if i < p { Ordered(bs, HDR, end, i, p); }
    }
  }

  lemma FlagsMerge(used: map<int, bool>, bs: seq<Block>, i: nat)
    requires FlagsOk(used, bs) && i + 1 < |bs|
    ensures FlagsOk(used, Merge(bs, i))
  {
    var cs := Merge(bs, i);
    forall p | 0 <= p < |cs| ensures FlagOk(used, cs, p) {
      assert FlagOk(used, bs, if p <= i then p else p + 1);
    }
  }

  /** What freeing a free block again would do past the assertions of rt_memheap_free: its neighbours are in use, so
      its header is put behind the free list's header once more, and who follows next_free from there never comes
      back to it.  The search of rt_memheap_alloc for a size that no block has would not end. */
  lemma FreedTwiceLoops(used: map<int, bool>, next: map<int, int>, prev: map<int, int>, nextFree: map<int, int>,
                        prevFree: map<int, int>, bs: seq<Block>, fl: seq<int>, i: nat, n: nat)
    requires Links(used, next, prev, nextFree, prevFree, bs, fl) && FreeListOk(bs, fl)
    requires i < |bs| && !bs[i].used
    ensures var x := bs[i].addr;
            && FREE_HEADER in nextFree
            && |Nodes.Forward(nextFree[x := nextFree[FREE_HEADER]][FREE_HEADER := x], FREE_HEADER, x, n)| == n
  {
    assert bs[i] == Block(bs[i].addr, false) && bs[i] in bs;
    Nodes.InsertFirstTwice(nextFree, prevFree, FREE_HEADER, fl, bs[i].addr, n);
  }

  /** Outside the block at `ptr`, every payload holds what it held. */
  ghost predicate KeepsOthers(m: seq<int>, m': seq<int>, bs: seq<Block>, ptr: int) {
    |m'| == |m| && forall addr, len :: Holds(bs, addr, len) && addr != ptr - HDR ==> SameRange(m, m', addr + HDR, len)
  }

  ghost predicate SameRange(m: seq<int>, m': seq<int>, a: int, len: int) {
    0 <= a && 0 <= len && a + len <= |m| == |m'| && m'[a..a + len] == m[a..a + len]
  }

  /** The bytes that were at `ptr` are at `r`. */
  ghost predicate Carries(m: seq<int>, m': seq<int>, ptr: int, r: int, len: int) {
    0 <= len && 0 <= ptr && ptr + len <= |m| && 0 <= r && r + len <= |m'| && m'[r..r + len] == m[ptr..ptr + len]
  }

  lemma Unchanged(m: seq<int>, bs: seq<Block>, end: int, ptr: int)
    requires Tiled(bs, HDR, end) && end <= |m|
    ensures KeepsOthers(m, m, bs, ptr)
    ensures forall addr, len :: Holds(bs, addr, len) ==> Carries(m, m, addr + HDR, addr + HDR, len)
  {
    forall addr, len | Holds(bs, addr, len)
      ensures SameRange(m, m, addr + HDR, len) && Carries(m, m, addr + HDR, addr + HDR, len)
    {
      PayloadRange(bs, end, addr, len);
    }
  }

  function Min(a: int, b: int): int { if a < b then a else b }

  lemma LiveHolds(bs: seq<Block>, ptr: int)
    requires IsLive(bs, ptr)
    ensures Holds(bs, ptr - HDR, SizeAt(bs, ptr - HDR))
  {
  }

  /** After an allocation the old blocks are where they were, and the new one is none of them. */
  lemma AllocSpares(p: Pool, poolSize: nat, n: nat, ptr: int)
    requires Inv(p, poolSize) && IsLive(p.bs, ptr)
    ensures var (p', r) := MemPool.Alloc(p, poolSize, n);
            && Holds(p'.bs, ptr - HDR, SizeAt(p.bs, ptr - HDR)) && IsLive(p'.bs, ptr)
            && (forall addr, len :: Holds(p.bs, addr, len) ==> Holds(p'.bs, addr, len))
            && (r != NULL ==>
                IsLive(p'.bs, r) && SizeAt(p'.bs, r - HDR) >= n && Holds(p'.bs, r - HDR, SizeAt(p'.bs, r - HDR)))
            && (r != NULL ==> forall addr, len :: Holds(p.bs, addr, len) ==> addr != r - HDR)
  {
    hide MemPool.Alloc, Inv;
    LiveHolds(p.bs, ptr);
    var (p', r) := MemPool.Alloc(p, poolSize, n);
    AllocKeepsOthers(p, poolSize, n, ptr - HDR, SizeAt(p.bs, ptr - HDR));
    forall addr, len | Holds(p.bs, addr, len) ensures Holds(p'.bs, addr, len) && (r != NULL ==> addr != r - HDR) {
      AllocKeepsOthers(p, poolSize, n, addr, len);
    }
  }

  /** A copy into a block that was not in use disturbs nobody. */
  lemma CopySpares(m: seq<int>, m': seq<int>, bs: seq<Block>, bs1: seq<Block>, end: int, ptr: int, r: int, len: int)
    requires Tiled(bs, HDR, end) && Tiled(bs1, HDR, end) && end <= |m| == |m'| && IsLive(bs1, r)
    requires len <= SizeAt(bs1, r - HDR)
    requires forall addr, n :: Holds(bs, addr, n) ==> Holds(bs1, addr, n) && addr != r - HDR
    requires forall k :: 0 <= k < |m| && !(r <= k < r + len) ==> m'[k] == m[k]
    ensures KeepsOthers(m, m', bs, ptr)
  {
    forall addr, n | Holds(bs, addr, n) && addr != ptr - HDR ensures SameRange(m, m', addr + HDR, n) {
      PayloadRange(bs, end, addr, n);
      PayloadsApart(bs1, end, addr, n, r - HDR, SizeAt(bs1, r - HDR));
    }
  }

  class MemHeap {
    const poolSize: nat
    /** The bytes of the pool; the headers among them are the fields below. */
    const data: array<int>
    var used: map<int, bool>
    var next: map<int, int>
    var prev: map<int, int>
    var nextFree: map<int, int>
    var prevFree: map<int, int>
    var available: int
    var maxUsed: int
    ghost var bs: seq<Block>
    ghost var fl: seq<int>

    ghost function View(): Pool
      reads this
    {
      Pool(bs, fl, available, maxUsed)
    }

    ghost predicate Linked()
      reads this
    {
      && poolSize >= HDR
      && Tiled(bs, HDR, poolSize - HDR)
      && Links(used, next, prev, nextFree, prevFree, bs, fl)
    }

    ghost predicate Valid()
      reads this
    {
      Linked() && Inv(View(), poolSize) && data.Length == poolSize
    }

    /** rt_memheap_init on a pool of `size` bytes. */
    constructor (size: nat)
      requires 2 * HDR + MINIALLOC <= size && size % 4 == 0
      ensures Valid() && View() == Init(size) && poolSize == size && fresh(data)
    {
      poolSize := size;
      data := new int[size];
      available := size - 2 * HDR;
      maxUsed := 2 * HDR;
      var item, tail := 0, size - HDR;
      used := map[item := false, tail := true];
      next := map[item := tail, tail := item];
      prev := map[item := tail, tail := item];
      nextFree := map[FREE_HEADER := item, item := FREE_HEADER];
      prevFree := map[FREE_HEADER := item, item := FREE_HEADER];
      bs, fl := Init(size).bs, Init(size).fl;
      InitInv(size);
    }

    /** Take `x` off the free list. */
    method UnlinkFree(x: int)
      requires Linked() && x in fl
      modifies `nextFree, `prevFree, `fl
      ensures Linked() && fl == Drop(old(fl), x)
    {
      hide PosOf, Distinct;
      ghost var r, k := [FREE_HEADER] + fl, PosOf(fl, x) + 1;
      WithoutBehindHead(FREE_HEADER, fl, k - 1);
      assert LinkedAt(nextFree, prevFree, r, k);
      Unlink(nextFree, prevFree, r, k);
      DistinctWithout(r, k);
      var p, n := prevFree[x], nextFree[x];
      prevFree := prevFree[n := p];
      nextFree := nextFree[p := n];
      fl := Drop(fl, x);
    }

    /** Put `x` at the front of the free list. */
    method LinkFree(x: int)
      requires Linked() && x !in fl && x != FREE_HEADER
      modifies `nextFree, `prevFree, `fl
      ensures Linked() && fl == [x] + old(fl)
    {
      ghost var r := [FREE_HEADER] + fl;
      assert LinkedAt(nextFree, prevFree, r, 0);
      Link(nextFree, prevFree, r, 0, x);
      var n := nextFree[FREE_HEADER];
      nextFree := nextFree[x := n];
      prevFree := prevFree[x := FREE_HEADER];
      prevFree := prevFree[n := x];
      nextFree := nextFree[FREE_HEADER := x];
      fl := [x] + fl;
      assert With(r, 0, x) == [FREE_HEADER] + fl;
    }

    /** Write a free header at `at` and link it behind the block at `header`. */
    method LinkBlock(header: int, at: int, ghost i: nat)
      requires Linked() && i + 1 < |bs| && bs[i].addr == header && header + HDR < at && at + HDR < bs[i + 1].addr
      modifies `used, `next, `prev, `bs
      ensures Linked() && bs == SplitAt(old(bs), i, at)
    {
      hide Distinct, NoAdjacentFree;
      ghost var r := Addrs(bs);
      AddrsDistinct(bs, poolSize - HDR);
      NotAnAddress(bs, poolSize - HDR, i, at);
      assert LinkedAt(next, prev, r, i);
      Link(next, prev, r, i, at);
      FlagsSplit(used, bs, poolSize - HDR, i, at);
      SplitTiled(bs, i, at, HDR, poolSize - HDR);
      var n := next[header];
      used := used[at := false];
      prev := prev[at := header];
      next := next[at := n];
      prev := prev[n := at];
      next := next[header := at];
      AddrsSplit(bs, i, at);
      bs := SplitAt(bs, i, at);
    }

    /** Take the block at `x`, the one behind block `i`, out of the block list. */
    method UnlinkBlock(x: int, ghost i: nat)
      requires Linked() && i + 2 < |bs| && bs[i + 1].addr == x
      modifies `next, `prev, `bs
      ensures Linked() && bs == Merge(old(bs), i)
    {
      hide Distinct;
      ghost var r := Addrs(bs);
      AddrsDistinct(bs, poolSize - HDR);
      assert LinkedAt(next, prev, r, i + 1);
      Unlink(next, prev, r, i + 1);
      FlagsMerge(used, bs, i);
      MergeTiled(bs, i, HDR, poolSize - HDR);
      var p, n := prev[x], next[x];
      next := next[p := n];
      prev := prev[n := p];
      AddrsMerge(bs, i);
      bs := Merge(bs, i);
    }

    method SetUsed(x: int, flag: bool, ghost i: nat)
      requires Linked() && i + 1 < |bs| && bs[i].addr == x
      modifies `used, `bs
      ensures Linked() && bs == Mark(old(bs), i, flag)
    {
      FlagsMark(used, bs, poolSize - HDR, i, flag);
      MarkTiled(bs, i, flag, HDR, poolSize - HDR);
      used := used[x := flag];
      bs := Mark(bs, i, flag);
      assert Addrs(bs) == Addrs(old(bs));
    }

    method Alloc(n: nat) returns (r: int)
      requires Valid()
      modifies this
      ensures Valid() && (View(), r) == MemPool.Alloc(old(View()), poolSize, n)
    {
      hide Links, MemPool.Grant, Tiled, FirstFit, FreeListOk, WellFormed, IndexOf, Weigh, Aligned;
      var size: nat := RoundUp(n);
      if size < MINIALLOC { size := MINIALLOC; }
      if size < available {
        var header := Search(size);
        if header != FREE_HEADER {
          ghost var k := FirstFit(bs, fl, 0, size);
          FitIsFree(View(), poolSize, k);
          ghost var i := IndexOf(bs, header);
          GrantInv(View(), poolSize, i, size);
          Grant(header, size, i);
          return header + HDR;
        }
      }
      return NULL;
    }

    /** Walk the free list to the first block that is large enough. */
    method Search(size: nat) returns (header: int)
      requires Valid() && 0 < size
      ensures var k := FirstFit(bs, fl, 0, size);
              if k == |fl| then header == FREE_HEADER else header == fl[k] != FREE_HEADER
    {
      hide Links, Weigh, Aligned, Tiled, FirstFit, FreeListOk, WellFormed, IndexOf;
      ghost var k := 0;
      var freeSize := 0;
      header := Following(FREE_HEADER, 0);
      while header != FREE_HEADER && freeSize < size
        invariant 0 <= k <= |fl| && header == (if k == |fl| then FREE_HEADER else fl[k])
        invariant k <= FirstFit(bs, fl, 0, size)
        invariant freeSize >= size ==> k < |fl| && k == FirstFit(bs, fl, 0, size)
        decreases |fl| - k, size - freeSize
      {
        FitIsFree(View(), poolSize, k);
        freeSize := SizeOf(header, IndexOf(bs, header));
        assert freeSize == SizeAt(bs, fl[k]);
        if freeSize < size {
          header := Following(header, k + 1);
          k := k + 1;
        }
      }
      if k < |fl| {
        FitIsFree(View(), poolSize, k);
      }
    }

    /** next_free of the k-th node of the free list's ring. */
    method Following(node: int, ghost k: nat) returns (r: int)
      requires Linked() && k <= |fl| && node == if k == 0 then FREE_HEADER else fl[k - 1]
      ensures r == if k == |fl| then FREE_HEADER else fl[k]
    {
      hide Distinct;
      ghost var ring := [FREE_HEADER] + fl;
      assert ring[k] == node && LinkedAt(nextFree, prevFree, ring, k);
      r := nextFree[node];
    }

    /** Wipe the free-list links of a header that is on no free list. */
    method ClearFree(x: int)
      requires Linked() && x !in fl && x != FREE_HEADER
      modifies `nextFree, `prevFree
      ensures Linked()
    {
      ghost var r, next0, prev0 := [FREE_HEADER] + fl, nextFree, prevFree;
      nextFree, prevFree := nextFree[x := NULL], prevFree[x := NULL];
      forall k | 0 <= k < |r| ensures LinkedAt(nextFree, prevFree, r, k) {
        assert LinkedAt(next0, prev0, r, k) && r[k] in r;
      }
    }

    /** Split or take whole the free block at `header`. */
    method Grant(header: int, size: nat, ghost i: nat)
      requires Linked() && FreeListOk(bs, fl) && i + 1 < |bs| && bs[i] == Block(header, false)
      requires 0 < size <= Payload(bs, i, HDR)
      modifies this
      ensures Linked() && View() == MemPool.Grant(old(View()), poolSize, i, size)
    {
      hide Links, Take, Drop, FreeListOk, SplitAt, Mark, Tiled, Distinct;
      assert header in fl && Distinct(fl) by { ListedOrNot(bs, fl, poolSize - HDR, i); }
      SplitHead(bs, i, header + HDR + size);
      var freeSize := SizeOf(header, i);
      TakeIs(bs, i, size);
      if freeSize >= size + HDR + MINIALLOC {
        GrantSplit(header, header + size + HDR, i);
        Charge(size + HDR);
      } else {
        Charge(freeSize);
        OffFreeList(header, i);
      }
      SetUsed(header, true, i);
    }

    /** Count bytes as no longer available. */
    method Charge(n: int)
      modifies `available, `maxUsed
      ensures available == old(available) - n && maxUsed == Max(old(maxUsed), poolSize - available)
    {
      available := available - n;
      if poolSize - available > maxUsed {
        maxUsed := poolSize - available;
      }
    }

    /** Take a free block's header off the free list and wipe its links. */
    method OffFreeList(header: int, ghost i: nat)
      requires Linked() && Distinct(fl) && header in fl && i < |bs| && bs[i].addr == header
      modifies `nextFree, `prevFree, `fl
      ensures Linked() && fl == Drop(old(fl), header)
    {
      hide Links, Tiled;
      DropKeeps(fl, header);
      Inside(bs, poolSize - HDR, i);
      UnlinkFree(header);
      ClearFree(header);
    }

    method GrantSplit(header: int, at: int, ghost i: nat)
      requires Linked() && FreeListOk(bs, fl) && header in fl && i + 1 < |bs| && bs[i].addr == header
      requires header + HDR < at && at + HDR < bs[i + 1].addr
      modifies `used, `next, `prev, `bs, `nextFree, `prevFree, `fl
      ensures Linked() && bs == SplitAt(old(bs), i, at) && fl == [at] + Drop(old(fl), header)
    {
      hide Links, SplitAt, Drop, Tiled;
      NewAddress(bs, poolSize - HDR, i, at);
      DropKeeps(fl, header);
      Inside(bs, poolSize - HDR, i);
      LinkBlock(header, at, i);
      assert bs[i].addr == header by { SplitHead(old(bs), i, at); }
      OffFreeList(header, i);
      LinkFree(at);
    }

    /** MEMITEM_SIZE. */
    method SizeOf(header: int, ghost i: nat) returns (size: int)
      requires Linked() && i + 1 < |bs| && bs[i].addr == header
      ensures size == Payload(bs, i, HDR)
    {
      assert LinkedAt(next, prev, Addrs(bs), i);
      size := next[header] - header - HDR;
    }

    method Free(ptr: int)
      requires Valid() && (ptr == NULL || IsLive(bs, ptr))
      modifies this
      ensures Valid() && View() == MemPool.Free(old(View()), ptr)
    {
      if ptr == NULL {
        NullNotLive(bs, poolSize - HDR);
        return;
      }
      ghost var i := IndexOf(bs, ptr - HDR);
      FreeInv(View(), poolSize, i);
      Discard(ptr - HDR, i);
    }

    method Discard(header: int, ghost i: nat)
      requires Linked() && FreeListOk(bs, fl) && i + 1 < |bs| && bs[i] == Block(header, true)
      modifies this
      ensures Linked() && View() == FreeBlock(old(View()), i)
    {
      hide Links, FreeListOk, Coalesce, Drop, Merge, Mark, Tiled;
      MarkFacts(bs, i, false);
      ListedOrNot(bs, fl, poolSize - HDR, i);
      ListedOrNot(bs, fl, poolSize - HDR, i + 1);
      var size := SizeOf(header, i);
      SetUsed(header, false, i);
      available := available + size;
      Rejoin(header, i);
    }

    /** Block `i` was marked free: merge it with its free neighbours, and list it if it stands alone on the left. */
    method Rejoin(header: int, ghost i: nat)
      requires Linked() && i + 1 < |bs| && bs[i].addr == header && header !in fl
      requires !bs[i + 1].used ==> bs[i + 1].addr in fl
      modifies `next, `prev, `nextFree, `prevFree, `bs, `fl, `available
      ensures Linked() && bs == Coalesce(old(bs), i)
      ensures var left, right := i > 0 && !old(bs)[i - 1].used, !old(bs)[i + 1].used;
              && (var rest := if right then Drop(old(fl), old(bs)[i + 1].addr) else old(fl);
                  fl == if left then rest else [header] + rest)
              && available == old(available) + (if left then HDR else 0) + (if right then HDR else 0)
    {
      hide Links, Coalesce, Drop, Merge, Tiled;
      Inside(bs, poolSize - HDR, i);
      LeftFirst(bs, i);
      DropShrinks(fl, bs[i + 1].addr);
      var h, left := MergeLeft(header, i);
      var right := MergeRight(h, if left then i - 1 else i);
      if right {
        available := available + HDR;
      }
      if !left {
        LinkFree(h);
      }
    }

    /** Merge the free block `i` into a free predecessor. */
    method MergeLeft(header: int, ghost i: nat) returns (h: int, left: bool)
      requires Linked() && i + 1 < |bs| && bs[i].addr == header
      modifies `next, `prev, `bs, `available
      ensures Linked() && left == (i > 0 && !old(bs)[i - 1].used)
      ensures bs == (if left then Merge(old(bs), i - 1) else old(bs))
      ensures h == if left then old(bs)[i - 1].addr else header
      ensures available == old(available) + if left then HDR else 0
    {
      hide Distinct, Merge;
      h, left := header, false;
      assert LinkedAt(next, prev, Addrs(bs), i);
      assert i > 0 ==> FlagOk(used, bs, i - 1);
      assert FlagOk(used, bs, |bs| - 1);
      var p := prev[header];
      if !used[p] {
        available := available + HDR;
        UnlinkBlock(header, i - 1);
        h, left := p, true;
      }
    }

    /** Merge a free successor into block `j`, and take it off the free list. */
    method MergeRight(h: int, ghost j: nat) returns (right: bool)
      requires Linked() && j + 1 < |bs| && bs[j].addr == h && (!bs[j + 1].used ==> bs[j + 1].addr in fl)
      modifies `next, `prev, `bs, `nextFree, `prevFree, `fl
      ensures Linked() && right == !old(bs)[j + 1].used && bs == if right then Merge(old(bs), j) else old(bs)
      ensures fl == if right then Drop(old(fl), old(bs)[j + 1].addr) else old(fl)
    {
      hide Distinct, Merge, Drop;
      var n, busy := Successor(h, j);
      right := !busy;
      if right {
        UnlinkBlock(n, j);
        UnlinkFree(n);
      }
    }

    /** The block behind block `i`, and whether it is used. */
    method Successor(header: int, ghost i: nat) returns (n: int, busy: bool)
      requires Linked() && i + 1 < |bs| && bs[i].addr == header
      ensures n == bs[i + 1].addr && busy == bs[i + 1].used
    {
      assert LinkedAt(next, prev, Addrs(bs), i) && FlagOk(used, bs, i + 1);
      n := next[header];
      busy := used[n];
    }

    method Realloc(ptr: int, n: nat) returns (r: int)
      requires Valid() && (ptr == NULL || IsLive(bs, ptr))
      modifies this, data
      ensures Valid() && (View(), r) == MemPool.Realloc(old(View()), poolSize, ptr, n)
      ensures KeepsOthers(old(data[..]), data[..], old(bs), ptr)
      ensures ptr != NULL && n != 0 && r != NULL ==>
                Carries(old(data[..]), data[..], ptr, r, Min(SizeAt(old(bs), ptr - HDR), Want(n)))
    {
      hide Links, Inv, MemPool.Alloc, MemPool.Resize, MemPool.Free, KeepsOthers, Carries;
      Unchanged(data[..], bs, poolSize - HDR, ptr);
      if n == 0 {
        Free(ptr);
        return NULL;
      }
      var size: nat := RoundUp(n);
      if size < MINIALLOC { size := MINIALLOC; }
      if ptr == NULL {
        r := Alloc(size);
      } else {
        r := Resize(ptr, size);
      }
    }

    method Resize(ptr: int, size: nat) returns (r: int)
      requires Valid() && IsLive(bs, ptr) && 0 < size && size % 4 == 0
      modifies this, data
      ensures Valid() && (View(), r) == MemPool.Resize(old(View()), poolSize, ptr, size)
      ensures KeepsOthers(old(data[..]), data[..], old(bs), ptr)
      ensures r != NULL ==> Carries(old(data[..]), data[..], ptr, r, Min(SizeAt(old(bs), ptr - HDR), size))
    {
      hide Links, FreeListOk, Weigh, Aligned, MemPool.Alloc, MemPool.Grow, ShrinkBlock, KeepsOthers;
      Unchanged(data[..], bs, poolSize - HDR, ptr);
      LiveHolds(bs, ptr);
      ghost var i := IndexOf(bs, ptr - HDR);
      ResizeInv(View(), poolSize, ptr, size);
      var header := ptr - HDR;
      var have := SizeOf(header, i);
      if size > have {
        var grow := Expandable(header, size, have, i);
        if grow {
          Grow(header, size, have, i);
          return ptr;
        }
        r := Move(ptr, size, have);
        return;
      }
      if size + HDR + MINIALLOC >= have {
        return ptr;
      }
      Cut(header, size, i);
      return ptr;
    }

    method Expandable(header: int, size: nat, have: int, ghost i: nat) returns (grow: bool)
      requires Linked() && i + 1 < |bs| && bs[i].addr == header && have == Payload(bs, i, HDR)
      ensures grow == CanGrow(bs, i, size)
    {
      var n, busy := Successor(header, i);
      grow := false;
      if !busy {
        var nextSize := SizeOf(n, i + 1);
        grow := nextSize + have > size + MINIALLOC;
      }
    }

    /** Allocate, copy, free. */
    method Move(ptr: int, size: nat, have: int) returns (r: int)
      requires Valid() && IsLive(bs, ptr) && have == SizeAt(bs, ptr - HDR)
      modifies this, data
      ensures Valid()
      ensures var (p1, q) := MemPool.Alloc(old(View()), poolSize, size);
              r == q && View() == if q == NULL then p1 else MemPool.Free(p1, ptr)
      ensures KeepsOthers(old(data[..]), data[..], old(bs), ptr) && (r == NULL ==> data[..] == old(data[..]))
      ensures r != NULL ==> Carries(old(data[..]), data[..], ptr, r, if have < size then have else size)
    {
      hide Links, Tiled, MemPool.Alloc, MemPool.Free, Inv, KeepsOthers, Carries, Holds, IsLive, SizeAt;
      ghost var p := View();
      AllocInv(p, poolSize, size);
      AllocSpares(p, poolSize, size, ptr);
      Unchanged(data[..], bs, poolSize - HDR, ptr);
      r := Alloc(size);
      if r != NULL {
        LiveHolds(p.bs, ptr);
        CopyOver(ptr, r, have, size, p.bs);
        Free(ptr);
      }
    }

    /** The bytes of the block at `ptr` that fit go to the new block at `r`. */
    method CopyOver(ptr: int, r: int, have: int, size: nat, ghost was: seq<Block>)
      requires Linked() && data.Length == poolSize && Tiled(was, HDR, poolSize - HDR) && r != ptr
      requires Holds(bs, ptr - HDR, have) && IsLive(bs, r) && SizeAt(bs, r - HDR) >= size
      requires forall addr, n :: Holds(was, addr, n) ==> Holds(bs, addr, n) && addr != r - HDR
      modifies data
      ensures KeepsOthers(old(data[..]), data[..], was, ptr)
      ensures Carries(old(data[..]), data[..], ptr, r, if have < size then have else size)
    {
      hide Links, KeepsOthers, Tiled, Holds, IsLive, SizeAt, FreeListOk;
      ghost var end, m, there := poolSize - HDR, data[..], SizeAt(bs, r - HDR);
      LiveHolds(bs, r);
      PayloadRange(bs, end, ptr - HDR, have);
      PayloadRange(bs, end, r - HDR, there);
      PayloadsApart(bs, end, ptr - HDR, have, r - HDR, there);
      var len := if have < size then have else size;
      Copy(r, ptr, len);
      CopySpares(m, data[..], was, bs, end, ptr, r, len);
    }

    method Copy(dst: int, src: int, len: nat)
      requires 0 <= dst && dst + len <= data.Length && 0 <= src && src + len <= data.Length
      requires dst + len <= src || src + len <= dst
      modifies data
      ensures data[dst..dst + len] == old(data[src..src + len])
      ensures forall k :: 0 <= k < data.Length && !(dst <= k < dst + len) ==> data[k] == old(data[k])
    {
      for c := 0 to len
        invariant data[dst..dst + c] == old(data[src..src + c])
        invariant forall k :: 0 <= k < data.Length && !(dst <= k < dst + c) ==> data[k] == old(data[k])
      {
        data[dst + c] := data[src + c];
      }
    }

    method Grow(header: int, size: nat, have: int, ghost i: nat)
      requires Linked() && FreeListOk(bs, fl) && i + 1 < |bs| && bs[i] == Block(header, true)
      requires CanGrow(bs, i, size) && have == Payload(bs, i, HDR) && size > have
      modifies this
      ensures Linked() && View() == MemPool.Grow(old(View()), poolSize, i, size)
    {
      hide Links, FreeListOk, Merge, SplitAt, Drop, Tiled;
      ghost var was, fl0 := bs, fl;
      Charge(size - have);
      Inside(bs, poolSize - HDR, i);
      var at := header + HDR + size;
      ListedOrNot(bs, fl, poolSize - HDR, i + 1);
      NewNotListed(bs, fl, poolSize - HDR, i + 1, at);
      DropShrinks(fl, bs[i + 1].addr);
      MergeFacts(bs, i, at);
      var n, busy := Successor(header, i);
      UnlinkFree(n);
      UnlinkBlock(n, i);
      LinkBlock(header, at, i);
      LinkFree(at);
    }

    /** Split the used block and give the rest back, merged with a free successor. */
    method Cut(header: int, size: nat, ghost i: nat)
      requires Linked() && FreeListOk(bs, fl) && i + 1 < |bs| && bs[i] == Block(header, true)
      requires 0 < size && size + HDR < Payload(bs, i, HDR)
      modifies this
      ensures Linked() && View() == ShrinkBlock(old(View()), i, size)
    {
      hide Links, FreeListOk, Shrink, SplitAt, Merge, Drop, Tiled;
      ghost var was, fl0 := bs, fl;
      var at := header + size + HDR;
      Inside(bs, poolSize - HDR, i);
      NewNotListed(bs, fl, poolSize - HDR, i, at);
      CutFacts(bs, i, size);
      DropShrinks(fl, bs[i + 1].addr);
      ListedOrNot(bs, fl, poolSize - HDR, i + 1);
      LinkBlock(header, at, i);
      var n, busy := Successor(at, i + 1);
      if !busy {
        var nextSize := SizeOf(n, i + 2);
        available := available - nextSize;
        UnlinkBlock(n, i + 1);
        UnlinkFree(n);
      }
      LinkFree(at);
      var rest := SizeOf(at, i + 1);
      available := available + rest;
    }
  }

  lemma Inside(bs: seq<Block>, end: int, i: nat)
    requires Tiled(bs, HDR, end) && i < |bs|
    ensures 0 <= bs[i].addr <= end && bs[|bs| - 1].used
    ensures i + 1 < |bs| ==>
            Payload(bs, i, HDR) > 0 && (!bs[i + 1].used ==> i + 2 < |bs| && Payload(bs, i + 1, HDR) > 0)
  {
    AddrsDistinct(bs, end);
    assert Addrs(bs)[i] in Addrs(bs);
  }

  lemma MarkFacts(bs: seq<Block>, i: nat, flag: bool)
    requires i < |bs|
    ensures |Mark(bs, i, flag)| == |bs| && Mark(bs, i, flag)[i] == Block(bs[i].addr, flag)
    ensures i > 0 ==> Mark(bs, i, flag)[i - 1] == bs[i - 1]
    ensures i + 1 < |bs| ==> Mark(bs, i, flag)[i + 1] == bs[i + 1]
  {
  }

  /** A block's address is on the free list exactly when the block is free. */
  lemma ListedOrNot(bs: seq<Block>, fl: seq<int>, end: int, i: nat)
    requires Tiled(bs, HDR, end) && FreeListOk(bs, fl) && i < |bs|
    ensures bs[i].addr in fl <==> !bs[i].used
    ensures Distinct(fl)
  {
    InListAt(bs, end, i, bs[i].addr);
  }

  lemma NewNotListed(bs: seq<Block>, fl: seq<int>, end: int, i: nat, at: int)
    requires Tiled(bs, HDR, end) && FreeListOk(bs, fl) && i + 1 < |bs| && bs[i].addr < at < bs[i + 1].addr
    ensures at !in fl
  {
    NewAddress(bs, end, i, at);
  }

  lemma DropShrinks(fl: seq<int>, a: int)
    ensures forall x :: x in Drop(fl, a) ==> x in fl
  {
  }

  /** The code merges with the left neighbour first, Coalesce with the right one. */
  lemma LeftFirst(bs: seq<Block>, i: nat)
    requires i + 1 < |bs| && bs[|bs| - 1].used
    ensures var left := i > 0 && !bs[i - 1].used;
            var l, j := if left then Merge(bs, i - 1) else bs, if left then i - 1 else i;
            && j + 1 < |l| && l[j + 1] == bs[i + 1] && l[j].addr == (if left then bs[i - 1].addr else bs[i].addr)
            && Coalesce(bs, i) == if !bs[i + 1].used then Merge(l, j) else l
  {
    hide Merge;
    if i > 0 && !bs[i - 1].used { MergeBothWays(bs, i); }
  }

  lemma MergeBothWays(bs: seq<Block>, i: nat)
    requires 0 < i && i + 1 < |bs|
    ensures |Merge(bs, i - 1)| == |bs| - 1 && Merge(bs, i - 1)[i] == bs[i + 1] && Merge(bs, i - 1)[i - 1] == bs[i - 1]
    ensures |Merge(bs, i)| == |bs| - 1 && Merge(bs, i)[i - 1] == bs[i - 1]
    ensures Merge(Merge(bs, i), i - 1) == Merge(Merge(bs, i - 1), i - 1)
  {
  }

  /** Block i + 1 taken out and a free one put back at `at`. */
  lemma MergeFacts(bs: seq<Block>, i: nat, at: int)
    requires i + 2 < |bs|
    ensures |Merge(bs, i)| == |bs| - 1 && Merge(bs, i)[i] == bs[i] && Merge(bs, i)[i + 1] == bs[i + 2]
    ensures SplitAt(Merge(bs, i), i, at) == bs[i + 1 := Block(at, false)]
  {
  }

  lemma CutFacts(bs: seq<Block>, i: nat, size: nat)
    requires i + 1 < |bs| && bs[i].used && bs[|bs| - 1].used
    ensures var cut := SplitAt(bs, i, bs[i].addr + HDR + size);
            && |cut| == |bs| + 1 && cut[i + 1] == Block(bs[i].addr + HDR + size, false) && cut[i + 2] == bs[i + 1]
            && (i + 2 < |bs| ==> cut[i + 3] == bs[i + 2])
            && Shrink(bs, i, size, HDR) == (if bs[i + 1].used then cut else Merge(cut, i + 1))
            && (!bs[i + 1].used ==>
                && i + 2 < |Merge(cut, i + 1)| && Merge(cut, i + 1)[i + 1] == cut[i + 1]
                && Merge(cut, i + 1)[i + 2] == bs[i + 2])
  {
  }

  lemma SplitHead(bs: seq<Block>, i: nat, at: int)
    requires i + 1 < |bs|
    ensures |SplitAt(bs, i, at)| == |bs| + 1 && SplitAt(bs, i, at)[i] == bs[i]
  {
  }

  lemma TakeIs(bs: seq<Block>, i: nat, size: nat)
    requires i + 1 < |bs|
    ensures var split := Payload(bs, i, HDR) >= size + HDR + MINIALLOC;
            Take(bs, i, size, HDR, MINIALLOC) ==
            Mark(if split then SplitAt(bs, i, bs[i].addr + HDR + size) else bs, i, true)
  {
    SplitThenMark(bs, i, bs[i].addr + HDR + size);
  }

  lemma NullNotLive(bs: seq<Block>, end: int)
    requires Tiled(bs, HDR, end)
    ensures !IsLive(bs, NULL)
  {
    if IsLive(bs, NULL) {
      AddrsDistinct(bs, end);
      assert Addrs(bs)[IndexOf(bs, NULL - HDR)] in Addrs(bs);
    }
  }
}
