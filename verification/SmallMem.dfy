/** The code of the small-memory heap (mem.c), working in place on the pool.

    The pool is an array with one cell per byte; a header field that is wider than one byte lives in the
    cell of its first byte. */
module SmallMem {
  import opened HeapBlocks
  import opened SmallHeap

  // ----- how a block list lies in the pool

  /** Block `i`'s header is written at its address: magic, used flag, and the links to its neighbours.
      The sentinel's `prev` is not kept up to date by the code and not read by it. */
  ghost predicate HeaderOk(m: seq<int>, bs: seq<Block>, i: nat)
    requires i < |bs|
  {
    var a := bs[i].addr;
    && 0 <= a && a + HDR <= |m|
    && m[a] == HEAP_MAGIC
    && m[a + 2] == (if bs[i].used then 1 else 0)
    && m[a + 4] == (if i + 1 < |bs| then bs[i + 1].addr else a)
    && (i + 1 < |bs| ==> m[a + 8] == if i > 0 then bs[i - 1].addr else 0)
  }

  ghost predicate Rep(m: seq<int>, bs: seq<Block>) {
    forall i :: 0 <= i < |bs| ==> HeaderOk(m, bs, i)
  }

  /** The pool after a free header was written at `at`, between the headers at `a` and `next`. */
  function SplitMem(m: seq<int>, a: nat, at: nat, next: nat, end: int): (r: seq<int>)
    requires a + HDR <= |m| && at + HDR <= |m| && next + HDR <= |m|
    ensures |r| == |m|
  {
    var m1 := m[at := HEAP_MAGIC][at + 2 := 0][at + 4 := next][at + 8 := a][a + 4 := at];
    if next != end then m1[next + 8 := at] else m1
  }

  /** The pool after the header at `a` was linked directly to the one at `c`. */
  function MergeMem(m: seq<int>, a: nat, c: nat): (r: seq<int>)
    requires a + HDR <= |m| && c + HDR <= |m|
    ensures |r| == |m|
  {
    m[a + 4 := c][c + 8 := a]
  }

  lemma UseRep(m: seq<int>, bs: seq<Block>, i: nat)
    requires Rep(m, bs) && i < |bs|
    ensures HeaderOk(m, bs, i)
  {
  }

  lemma RepMark(m: seq<int>, bs: seq<Block>, end: int, i: nat, used: bool)
    requires Tiled(bs, HDR, end) && Rep(m, bs) && i + 1 < |bs| && HeaderOk(m, bs, i)
    ensures Rep(m[bs[i].addr + 2 := if used then 1 else 0], Mark(bs, i, used))
  {
    var m', cs := m[bs[i].addr + 2 := if used then 1 else 0], Mark(bs, i, used);
    forall p | 0 <= p < |cs| ensures HeaderOk(m', cs, p) {
      assert HeaderOk(m, bs, p);
      if p < i { Ordered(bs, HDR, end, p, i); }
      if i < p { Ordered(bs, HDR, end, i, p); }
    }
  }

  lemma RepSplit(m: seq<int>, bs: seq<Block>, end: int, i: nat, at: int)
    requires Tiled(bs, HDR, end) && Rep(m, bs) && i + 1 < |bs|
    requires HeaderOk(m, bs, i) && HeaderOk(m, bs, i + 1)
    requires bs[i].addr + HDR < at && at + HDR < bs[i + 1].addr
    ensures Rep(SplitMem(m, bs[i].addr, at, bs[i + 1].addr, end), SplitAt(bs, i, at))
  {
    hide SplitMem, Tiled;
    var m', cs := SplitMem(m, bs[i].addr, at, bs[i + 1].addr, end), SplitAt(bs, i, at);
    forall p | 0 <= p < |cs| ensures HeaderOk(m', cs, p) {
      if p <= i {
        assert HeaderOk(m, bs, p);
        SplitBefore(m, bs, end, i, at, p);
      } else if p > i + 1 {
        assert HeaderOk(m, bs, p - 1);
        SplitBehind(m, bs, end, i, at, p);
      } else {
        SplitNew(m, bs, end, i, at);
      }
    }
  }

  lemma SplitBefore(m: seq<int>, bs: seq<Block>, end: int, i: nat, at: int, p: nat)
    requires Tiled(bs, HDR, end) && i + 1 < |bs| && HeaderOk(m, bs, i) && HeaderOk(m, bs, i + 1)
    requires bs[i].addr + HDR < at && at + HDR < bs[i + 1].addr && p <= i && HeaderOk(m, bs, p)
    ensures HeaderOk(SplitMem(m, bs[i].addr, at, bs[i + 1].addr, end), SplitAt(bs, i, at), p)
  {
    hide Tiled;
    if p < i { Ordered(bs, HDR, end, p, i); }
  }

  lemma SplitNew(m: seq<int>, bs: seq<Block>, end: int, i: nat, at: int)
    requires Tiled(bs, HDR, end) && i + 1 < |bs| && HeaderOk(m, bs, i) && HeaderOk(m, bs, i + 1)
    requires bs[i].addr + HDR < at && at + HDR < bs[i + 1].addr
    ensures HeaderOk(SplitMem(m, bs[i].addr, at, bs[i + 1].addr, end), SplitAt(bs, i, at), i + 1)
  {
  }

  lemma SplitBehind(m: seq<int>, bs: seq<Block>, end: int, i: nat, at: int, p: nat)
    requires Tiled(bs, HDR, end) && i + 1 < |bs| && HeaderOk(m, bs, i) && HeaderOk(m, bs, i + 1)
    requires bs[i].addr + HDR < at && at + HDR < bs[i + 1].addr && i + 1 < p <= |bs| && HeaderOk(m, bs, p - 1)
    ensures HeaderOk(SplitMem(m, bs[i].addr, at, bs[i + 1].addr, end), SplitAt(bs, i, at), p)
  {
    assert bs[|bs| - 1].addr == end;
    hide Tiled, SplitAt;
    if p > i + 2 { Ordered(bs, HDR, end, i + 1, p - 1); }
    if p < |bs| { Ordered(bs, HDR, end, p - 1, |bs| - 1); }
    BehindSplit(bs, i, at, p);
  }

  lemma BehindSplit(bs: seq<Block>, i: nat, at: int, p: nat)
    requires i + 1 < p <= |bs|
    ensures var cs := SplitAt(bs, i, at);
            && |cs| == |bs| + 1 && cs[p] == bs[p - 1] && (p < |bs| ==> cs[p + 1] == bs[p])
            && cs[p - 1] == if p == i + 2 then Block(at, false) else bs[p - 2]
  {
  }

  lemma RepMerge(m: seq<int>, bs: seq<Block>, end: int, j: nat)
    requires Tiled(bs, HDR, end) && Rep(m, bs) && j + 2 < |bs|
    requires HeaderOk(m, bs, j) && HeaderOk(m, bs, j + 2)
    ensures Rep(MergeMem(m, bs[j].addr, bs[j + 2].addr), Merge(bs, j))
  {
    var m', cs := MergeMem(m, bs[j].addr, bs[j + 2].addr), Merge(bs, j);
    Ordered(bs, HDR, end, j, j + 2);
    forall p | 0 <= p < |cs| ensures HeaderOk(m', cs, p) {
      if p <= j {
        assert HeaderOk(m, bs, p) && cs[p] == bs[p];
        if p < j { Ordered(bs, HDR, end, p, j); }
      } else {
        assert HeaderOk(m, bs, p + 1) && cs[p] == bs[p + 1];
        if p > j + 1 { Ordered(bs, HDR, end, j + 2, p + 1); }
      }
    }
  }

  /** Offset `k` is in no header of the list. */
  ghost predicate OutsideHeaders(bs: seq<Block>, k: int) {
    forall i :: 0 <= i < |bs| ==> !InHeader(bs, i, k)
  }

  predicate InHeader(bs: seq<Block>, i: nat, k: int)
    requires i < |bs|
  {
    bs[i].addr <= k < bs[i].addr + HDR
  }

  lemma PayloadOutsideHeaders(bs: seq<Block>, end: int, j: int, k: int)
    requires Tiled(bs, HDR, end) && InPayload(bs, j, k, HDR)
    ensures OutsideHeaders(bs, k)
  {
    forall i | 0 <= i < |bs| ensures !InHeader(bs, i, k) {
      if i < j { Ordered(bs, HDR, end, i, j); }
      if j + 1 < i { Ordered(bs, HDR, end, j + 1, i); }
    }
  }

  /** The pools agree outside the headers of the list and outside lo..hi. */
  ghost predicate SameOutside(m: seq<int>, m': seq<int>, bs: seq<Block>, lo: int, hi: int) {
    |m| == |m'| && forall k :: 0 <= k < |m| && OutsideHeaders(bs, k) && !(lo <= k < hi) ==> m'[k] == m[k]
  }

  lemma SplitMemFrame(m: seq<int>, bs: seq<Block>, i: nat, at: int, end: int)
    requires i + 1 < |bs| && HeaderOk(m, bs, i) && HeaderOk(m, bs, i + 1) && 0 <= at && at + HDR <= |m|
    ensures SameOutside(m, SplitMem(m, bs[i].addr, at, bs[i + 1].addr, end), bs, at, at + HDR)
  {
    var m' := SplitMem(m, bs[i].addr, at, bs[i + 1].addr, end);
    forall k | 0 <= k < |m| && OutsideHeaders(bs, k) && !(at <= k < at + HDR) ensures m'[k] == m[k] {
      assert !InHeader(bs, i, k) && !InHeader(bs, i + 1, k);
    }
  }

  ghost predicate Live(bs: seq<Block>, k: int) {
    exists j :: InPayload(bs, j, k, HDR)
  }

  // ----- the code

  class SmallMemory {
    const memSize: nat
    const heap: array<int>
    var lfree: int
    var usedMem: int
    var maxMem: int
    ghost var bs: seq<Block>

    ghost function View(): Heap
      reads this
    {
      Heap(bs, lfree, usedMem, maxMem)
    }

    ghost predicate Valid()
      reads this, heap
    {
      heap.Length == memSize + 2 * HDR && Inv(View(), memSize) && Rep(heap[..], bs)
    }

    /** rt_system_heap_init, for a region whose aligned size is `size` plus two headers. */
    constructor (size: nat)
      requires MIN_SIZE_ALIGNED <= size && size % 4 == 0
      ensures Valid() && View() == Init(size) && memSize == size && fresh(heap)
    {
      memSize := size;
      heap := new int[size + 2 * HDR];
      lfree, usedMem, maxMem := 0, 0, 0;
      bs := Init(size).bs;
      new;
      heap[0], heap[4], heap[8], heap[2] := HEAP_MAGIC, memSize + HDR, 0, 0;
      var end := heap[4];
      heap[end], heap[end + 2], heap[end + 4], heap[end + 8] := HEAP_MAGIC, 1, end, end;
      InitInv(size);
      assert HeaderOk(heap[..], bs, 0) && HeaderOk(heap[..], bs, 1);
    }

    /** The lists are linked in the pool; the rest of `Valid` may be broken for a while. */
    ghost predicate Linked()
      reads this, heap
    {
      heap.Length == memSize + 2 * HDR && Tiled(bs, HDR, memSize + HDR) && Rep(heap[..], bs)
    }

    method Malloc(n: nat) returns (r: int)
      requires Valid()
      modifies this, heap
      ensures Valid()
      ensures (View(), r) == SmallHeap.Malloc(old(View()), memSize, n)
      ensures forall k :: 0 <= k < heap.Length && Live(old(bs), k) ==> Live(bs, k) && heap[k] == old(heap[k])
      ensures r == NULL ==> heap[..] == old(heap[..])
    {
      if n == 0 { return NULL; }
      var size: nat := RoundUp(n);
      if size > memSize { return NULL; }
      if size < MIN_SIZE_ALIGNED { size := MIN_SIZE_ALIGNED; }
      r := Allocate(size);
    }

    method Allocate(size: nat) returns (r: int)
      requires Valid() && 0 < size && size % 4 == 0
      modifies this, heap
      ensures Valid()
      ensures (View(), r) == SmallHeap.Allocate(old(View()), memSize, size)
      ensures forall k :: 0 <= k < heap.Length && Live(old(bs), k) ==> Live(bs, k) && heap[k] == old(heap[k])
      ensures r == NULL ==> heap[..] == old(heap[..])
    {
      hide Rep, Tiled, Live, Commit, IndexOf, FirstFit, Weigh;
      var ptr := Search(size);
      if ptr == NULL { return NULL; }
      ghost var i := FirstFit(bs, IndexOf(bs, lfree), size, memSize - size);
      CommitInv(View(), memSize, i, size);
      Grant(ptr, size, i);
      return ptr + HDR;
    }

    /** rt_malloc's search: the first block from `lfree` on that is free and large enough. */
    method Search(size: nat) returns (ptr: int)
      requires Linked() && FreeOrEnd(bs, lfree)
      ensures var i := FirstFit(bs, IndexOf(bs, lfree), size, memSize - size);
              if i == |bs| then ptr == NULL else ptr == bs[i].addr >= 0
    {
      ghost var start := IndexOf(bs, lfree);
      ghost var i := start;
      ptr := lfree;
      while ptr < memSize - size
        invariant start <= i < |bs| && bs[i].addr == ptr
        invariant i <= FirstFit(bs, start, size, memSize - size)
        decreases |bs| - i
      {
        assert HeaderOk(heap[..], bs, i);
        assert i + 1 < |bs| && Payload(bs, i, HDR) > 0;
        if heap[ptr + 2] == 0 && heap[ptr + 4] - (ptr + HDR) >= size {
          assert Fits(bs, i, size, memSize - size);
          return;
        }
        ptr, i := heap[ptr + 4], i + 1;
      }
      NothingBeyondLimit(bs, memSize + HDR, start, i, size, memSize - size);
      return NULL;
    }

    /** The body of rt_malloc's loop once a block was found. */
    method Grant(ptr: int, size: nat, ghost i: nat)
      requires Linked()
      requires i + 1 < |bs| && bs[i].addr == ptr && !bs[i].used && 0 < size <= Payload(bs, i, HDR)
      modifies this, heap
      ensures Linked() && View() == Commit(old(View()), i, size)
      ensures forall k :: 0 <= k < heap.Length && Live(old(bs), k) ==> Live(bs, k) && heap[k] == old(heap[k])
    {
      hide Rep, Tiled, Take, Live, NextFree, IndexOf;
      TakeStays(bs, i, size);
      Carve(ptr, size, i);
      if maxMem < usedMem {
        maxMem := usedMem;
      }
      if ptr == lfree {
        AdvanceLfree(i);
      }
    }

    method Carve(ptr: int, size: nat, ghost i: nat)
      requires Linked()
      requires i + 1 < |bs| && bs[i].addr == ptr && !bs[i].used && 0 < size <= Payload(bs, i, HDR)
      modifies heap, `bs, `usedMem
      ensures Linked()
      ensures bs == Take(old(bs), i, size, HDR, MIN_SIZE_ALIGNED)
      ensures usedMem == old(usedMem) + (if |bs| > |old(bs)| then size + HDR else Payload(old(bs), i, 0))
      ensures forall k :: 0 <= k < heap.Length && Live(old(bs), k) ==> Live(bs, k) && heap[k] == old(heap[k])
    {
      ghost var was, m := bs, heap[..];
      assert HeaderOk(heap[..], bs, i) && HeaderOk(heap[..], bs, i + 1);
      if heap[ptr + 4] - (ptr + HDR) >= size + HDR + MIN_SIZE_ALIGNED {
        InsertHeader(ptr, ptr + HDR + size, i);
        SplitThenMark(was, i, ptr + HDR + size);
        usedMem := usedMem + size + HDR;
      } else {
        usedMem := usedMem + heap[ptr + 4] - ptr;
      }
      SetUsed(ptr, true, i);
      assert SameOutside(m, heap[..], was, was[i].addr, was[i + 1].addr);
      GrantFrame(m, heap[..], was, memSize + HDR, i, size);
    }

    /** Write a free header at `at`, and link it between the block at `ptr` and its successor. */
    method InsertHeader(ptr: int, at: int, ghost i: nat)
      requires Linked()
      requires i + 1 < |bs| && bs[i].addr == ptr && ptr + HDR < at && at + HDR < bs[i + 1].addr
      modifies heap, `bs
      ensures bs == SplitAt(old(bs), i, at) && Linked()
      ensures SameOutside(old(heap[..]), heap[..], old(bs), at, at + HDR)
    {
      hide SplitAt, OutsideHeaders, Rep, Tiled;
      ghost var m, next := heap[..], bs[i + 1].addr;
      assert HeaderOk(m, bs, i) && HeaderOk(m, bs, i + 1) by { UseRep(m, bs, i); UseRep(m, bs, i + 1); }
      heap[at] := HEAP_MAGIC;
      heap[at + 2] := 0;
      heap[at + 4] := heap[ptr + 4];
      heap[at + 8] := ptr;
      heap[ptr + 4] := at;
      if heap[at + 4] != memSize + HDR {
        heap[heap[at + 4] + 8] := at;
      }
      assert heap[..] == SplitMem(m, ptr, at, next, memSize + HDR);
      RepSplit(m, bs, memSize + HDR, i, at);
      SplitMemFrame(m, bs, i, at, memSize + HDR);
      SplitTiled(bs, i, at, HDR, memSize + HDR);
      bs := SplitAt(bs, i, at);
    }

    method SetUsed(ptr: int, used: bool, ghost i: nat)
      requires Linked()
      requires i + 1 < |bs| && bs[i].addr == ptr
      modifies heap, `bs
      ensures bs == Mark(old(bs), i, used) && Linked()
      ensures forall k :: 0 <= k < heap.Length && !InHeader(old(bs), i, k) ==> heap[k] == old(heap[k])
      ensures SameOutside(old(heap[..]), heap[..], old(bs), 0, 0)
    {
      ghost var m := heap[..];
      assert HeaderOk(m, bs, i);
      heap[ptr + 2] := if used then 1 else 0;
      heap[ptr] := HEAP_MAGIC;
      assert heap[..] == m[ptr + 2 := if used then 1 else 0];
      RepMark(m, bs, memSize + HDR, i, used);
      MarkTiled(bs, i, used, HDR, memSize + HDR);
      bs := Mark(bs, i, used);
    }

    /** Find the next free block at or after block `i`, where `lfree` points. */
    method AdvanceLfree(ghost i: nat)
      requires Linked()
      requires i + 1 < |bs| && bs[i].addr == lfree
      modifies `lfree
      ensures lfree == bs[NextFree(bs, i)].addr
    {
      ghost var k := i;
      assert HeaderOk(heap[..], bs, k);
      while heap[lfree + 2] != 0 && lfree != memSize + HDR
        invariant i <= k < |bs| && bs[k].addr == lfree && HeaderOk(heap[..], bs, k)
        invariant NextFree(bs, k) == NextFree(bs, i)
        decreases |bs| - k
      {
        assert k + 1 < |bs| && HeaderOk(heap[..], bs, k + 1);
        lfree, k := heap[lfree + 4], k + 1;
      }
      if k + 1 < |bs| {
        Ordered(bs, HDR, memSize + HDR, k, |bs| - 1);
      }
    }

    /** Link the block at `a` to the successor of its successor, the block at `b`. */
    method Swallow(a: int, b: int, ghost j: nat)
      requires Linked() && j + 2 < |bs| && bs[j].addr == a && bs[j + 1].addr == b
      modifies heap, `bs
      ensures bs == Merge(old(bs), j) && Linked()
      ensures SameOutside(old(heap[..]), heap[..], old(bs), 0, 0)
    {
      ghost var m := heap[..];
      assert HeaderOk(m, bs, j) && HeaderOk(m, bs, j + 1) && HeaderOk(m, bs, j + 2);
      assert Payload(bs, j, HDR) > 0 && Payload(bs, j + 1, HDR) > 0;
      heap[a + 4] := heap[b + 4];
      heap[heap[b + 4] + 8] := a;
      assert heap[..] == MergeMem(m, a, bs[j + 2].addr);
      RepMerge(m, bs, memSize + HDR, j);
      MergeTiled(bs, j, HDR, memSize + HDR);
      forall k | 0 <= k < |m| && OutsideHeaders(bs, k) ensures heap[..][k] == m[k] {
        assert !InHeader(bs, j, k) && !InHeader(bs, j + 2, k);
      }
      bs := Merge(bs, j);
    }

    method PlugForward(mem: int, ghost i: nat)
      requires Linked() && i + 1 < |bs| && bs[i].addr == mem && !bs[i].used
      modifies heap, `bs, `lfree
      ensures Linked() && bs == if !old(bs)[i + 1].used then Merge(old(bs), i) else old(bs)
      ensures lfree == if !old(bs)[i + 1].used && old(lfree) == old(bs)[i + 1].addr then mem else old(lfree)
      ensures SameOutside(old(heap[..]), heap[..], old(bs), 0, 0)
    {
      assert HeaderOk(heap[..], bs, i) && HeaderOk(heap[..], bs, i + 1) && Payload(bs, i, HDR) > 0;
      if i + 2 < |bs| { Ordered(bs, HDR, memSize + HDR, i + 1, |bs| - 1); }
      var nmem := heap[mem + 4];
      if mem != nmem && heap[nmem + 2] == 0 && nmem != memSize + HDR {
        if lfree == nmem {
          lfree := mem;
        }
        Swallow(mem, nmem, i);
      }
    }

    method PlugBackward(mem: int, ghost i: nat)
      requires Linked() && i + 1 < |bs| && bs[i].addr == mem && !bs[i].used
      modifies heap, `bs, `lfree
      ensures Linked() && bs == if i > 0 && !old(bs)[i - 1].used then Merge(old(bs), i - 1) else old(bs)
      ensures lfree == if i > 0 && !old(bs)[i - 1].used && old(lfree) == mem then old(bs)[i - 1].addr else old(lfree)
      ensures SameOutside(old(heap[..]), heap[..], old(bs), 0, 0)
    {
      assert HeaderOk(heap[..], bs, i);
      assert i > 0 ==> HeaderOk(heap[..], bs, i - 1) && Payload(bs, i - 1, HDR) > 0;
      var pmem := heap[mem + 8];
      if pmem != mem && heap[pmem + 2] == 0 {
        if lfree == mem {
          lfree := pmem;
        }
        Swallow(pmem, mem, i - 1);
      }
    }

    method PlugHoles(mem: int, ghost i: nat)
      requires Linked() && i + 1 < |bs| && bs[i].addr == mem && !bs[i].used
      modifies heap, `bs, `lfree
      ensures Linked() && bs == Coalesce(old(bs), i) && lfree == PlugLfree(old(bs), i, old(lfree))
      ensures SameOutside(old(heap[..]), heap[..], old(bs), 0, 0)
    {
      OutsideAfterMerge(bs, i);
      PlugForward(mem, i);
      PlugBackward(mem, i);
    }

    method Free(rmem: int)
      requires Valid() && (0 <= rmem < memSize + HDR ==> IsLive(bs, rmem))
      modifies this, heap
      ensures Valid() && View() == SmallHeap.Free(old(View()), rmem)
      ensures forall j, k :: 0 <= k < heap.Length && InPayload(old(bs), j, k, HDR) && old(bs)[j].addr != rmem - HDR
                ==> Live(bs, k) && heap[k] == old(heap[k])
    {
      LiveRange(bs, memSize + HDR, rmem);
      ghost var was, m := bs, heap[..];
      if rmem < 0 || rmem >= memSize + HDR {
        forall j, k | InPayload(was, j, k, HDR) ensures Live(bs, k) {
        }
        return;
      }
      var mem := rmem - HDR;
      ghost var i := IndexOf(bs, mem);
      FreeInv(View(), memSize, i);
      Discard(mem, i);
      FreeFrame(m, heap[..], was, memSize + HDR, i);
    }

    method Discard(mem: int, ghost i: nat)
      requires Linked() && i + 1 < |bs| && bs[i].addr == mem && bs[i].used
      modifies this, heap
      ensures Linked() && View() == FreeBlock(old(View()), i)
      ensures SameOutside(old(heap[..]), heap[..], old(bs), 0, 0)
    {
      MarkOutside(bs, i, false);
      ghost var lowest := if mem < lfree then mem else lfree;
      MarkFree(mem, i);
      assert lfree == lowest;
      PlugHoles(mem, i);
    }

    method MarkFree(mem: int, ghost i: nat)
      requires Linked() && i + 1 < |bs| && bs[i].addr == mem
      modifies this, heap
      ensures Linked() && bs == Mark(old(bs), i, false) && maxMem == old(maxMem)
      ensures usedMem == old(usedMem) - Payload(old(bs), i, 0)
      ensures lfree == if mem < old(lfree) then mem else old(lfree)
      ensures SameOutside(old(heap[..]), heap[..], old(bs), 0, 0)
    {
      assert HeaderOk(heap[..], bs, i);
      usedMem := usedMem - (heap[mem + 4] - mem);
      SetUsed(mem, false, i);
      if mem < lfree {
        lfree := mem;
      }
    }

    method Realloc(rmem: int, n: nat) returns (r: int)
      requires Valid() && (0 <= rmem < memSize + HDR ==> IsLive(bs, rmem))
      modifies this, heap
      ensures Valid() && (View(), r) == SmallHeap.Realloc(old(View()), memSize, rmem, n)
      ensures RoundUp(n) != 0 && r == NULL ==> heap[..] == old(heap[..])
      ensures Untouched(old(heap[..]), heap[..], old(bs), bs, rmem)
      ensures IsLive(old(bs), rmem) && r != NULL ==> Moved(old(heap[..]), heap[..], old(bs), bs, rmem, r, RoundUp(n))
    {
      LiveRange(bs, memSize + HDR, rmem);
      var size := RoundUp(n);
      if size > memSize {
        return NULL;
      } else if size == 0 {
        Free(rmem);
        return NULL;
      }
      if rmem == NULL {
        r := Malloc(size);
        return;
      }
      if rmem < 0 || rmem >= memSize + HDR {
        return rmem;
      }
      r := Resize(rmem, size);
    }

    method Resize(rmem: int, size: nat) returns (r: int)
      requires Valid() && IsLive(bs, rmem) && 0 < size && size % 4 == 0
      modifies this, heap
      ensures Valid() && (View(), r) == SmallHeap.Resize(old(View()), memSize, rmem, size)
      ensures r == NULL ==> heap[..] == old(heap[..])
      ensures Untouched(old(heap[..]), heap[..], old(bs), bs, rmem)
      ensures r != NULL ==> Moved(old(heap[..]), heap[..], old(bs), bs, rmem, r, size)
    {
      hide SmallHeap.Allocate, FreeBlock, ShrinkBlock, NoAdjacentFree, Aligned, Weigh;
      var ptr := rmem - HDR;
      ghost var i := IndexOf(bs, ptr);
      assert HeaderOk(heap[..], bs, i) && Payload(bs, i, HDR) > 0;
      var have := heap[ptr + 4] - ptr - HDR;
      if have == size {
        BlockRange(bs, memSize + HDR, i);
        forall j, k | InPayload(bs, j, k, HDR) ensures Live(bs, k) {
        }
        return rmem;
      }
      if size + HDR + MIN_SIZE < have {
        ShrinkInPlace(ptr, size, have, i);
        return rmem;
      }
      r := Move(rmem, size, have);
    }

    method ShrinkInPlace(ptr: int, size: nat, have: int, ghost i: nat)
      requires Valid() && i == IndexOf(bs, ptr) && i + 1 < |bs| && bs[i].used && have == Payload(bs, i, HDR)
      requires 0 < size && size % 4 == 0 && size + HDR + MIN_SIZE < have
      modifies this, heap
      ensures Valid() && View() == ShrinkBlock(old(View()), i, size)
      ensures Untouched(old(heap[..]), heap[..], old(bs), bs, ptr + HDR)
      ensures Moved(old(heap[..]), heap[..], old(bs), bs, ptr + HDR, ptr + HDR, size)
    {
      hide Shrink, Inv;
      ghost var m, was := heap[..], bs;
      assert WellFormed(bs, HDR, memSize + HDR) by { UseInv(View(), memSize); }
      ShrinkInv(View(), memSize, i, size);
      Cut(ptr, size, have, i);
      CutFrame(m, heap[..], was, memSize + HDR, i, size);
    }

    /** The in-place branch of rt_realloc. */
    method Cut(ptr: int, size: nat, have: int, ghost i: nat)
      requires Linked() && i + 1 < |bs| && bs[i].addr == ptr && have == Payload(bs, i, HDR) && 0 < size
      requires size + HDR < have
      modifies this, heap
      ensures Linked() && bs == Shrink(old(bs), i, size, HDR)
      ensures lfree == PlugLfree(SplitAt(old(bs), i, ptr + HDR + size), i + 1, old(lfree))
      ensures usedMem == old(usedMem) - (have - size) && maxMem == old(maxMem)
      ensures SameOutside(old(heap[..]), heap[..], old(bs), ptr + HDR + size, ptr + HDR + size + HDR)
    {
      hide Coalesce;
      usedMem := usedMem - (have - size);
      var ptr2 := ptr + HDR + size;
      SplitOutside(bs, i, ptr2);
      InsertHeader(ptr, ptr2, i);
      PlugHoles(ptr2, i + 1);
    }

    /** The branch of rt_realloc that takes a new block, copies, and frees the old one. */
    method Move(rmem: int, size: nat, have: int) returns (r: int)
      requires Valid() && IsLive(bs, rmem) && have == Payload(bs, IndexOf(bs, rmem - HDR), HDR) && 0 < size
      requires size % 4 == 0 && 0 < have
      modifies this, heap
      ensures Valid()
      ensures var (h1, p) := SmallHeap.Malloc(old(View()), memSize, size);
              r == p && View() == if p == NULL then h1 else SmallHeap.Free(h1, rmem)
      ensures r == NULL ==> heap[..] == old(heap[..])
      ensures Untouched(old(heap[..]), heap[..], old(bs), bs, rmem)
      ensures r != NULL ==> Moved(old(heap[..]), heap[..], old(bs), bs, rmem, r, size)
    {
      hide Inv, Rep, SmallHeap.Allocate, FreeBlock;
      ghost var h, m := View(), heap[..];
      MallocInv(h, memSize, size);
      r := Malloc(size);
      if r != NULL {
        MoveApart(h, memSize, size, rmem);
        ghost var h1, m1 := View(), heap[..];
        var len: nat := if have < size then have else size;
        LiveContents(m, m1, h.bs, rmem, len);
        assert len == Min(size, Payload(h.bs, IndexOf(h.bs, rmem - HDR), HDR));
        assert Payload(bs, IndexOf(bs, r - HDR), HDR) >= size;
        CopyAndFree(rmem, r, len);
        assert heap[..][r..r + len] == heap[r..r + len];
        MovedIntro(m, heap[..], h.bs, bs, rmem, r, size, len);
        MoveUntouched(h, memSize, size, rmem, bs, m, m1, heap[..]);
      }
    }

    method CopyAndFree(rmem: int, r: int, len: nat)
      requires Valid() && IsLive(bs, rmem) && IsLive(bs, r) && r != rmem
      requires len <= Payload(bs, IndexOf(bs, rmem - HDR), HDR) && len <= Payload(bs, IndexOf(bs, r - HDR), HDR)
      modifies this, heap
      ensures Valid() && View() == SmallHeap.Free(old(View()), rmem)
      ensures IsLive(bs, r)
      ensures Payload(bs, IndexOf(bs, r - HDR), HDR) == Payload(old(bs), IndexOf(old(bs), r - HDR), HDR)
      ensures 0 <= r && r + len <= heap.Length && 0 <= rmem && rmem + len <= heap.Length
      ensures heap[r..r + len] == old(heap[rmem..rmem + len])
      ensures Spared(old(heap[..]), heap[..], old(bs), bs, rmem, r)
    {
      ghost var m, was := heap[..], bs;
      BlocksApart(bs, memSize + HDR, r, rmem);
      Copy(r, rmem, len);
      ghost var m2 := heap[..];
      CopyRep(m, m2, bs, memSize + HDR, r, len);
      StaysLive(bs, memSize + HDR, rmem, r);
      Free(rmem);
      ContentsKept(m2, heap[..], was, bs, rmem, r, len);
      CopySpares(m, m2, heap[..], was, bs, memSize + HDR, rmem, r, len);
    }

    method Copy(dst: int, src: int, len: nat)
      requires 0 <= dst && dst + len <= heap.Length && 0 <= src && src + len <= heap.Length
      requires dst + len <= src || src + len <= dst
      modifies heap
      ensures heap[dst..dst + len] == old(heap[src..src + len])
      ensures forall k :: 0 <= k < heap.Length && !(dst <= k < dst + len) ==> heap[k] == old(heap[k])
    {
      for c := 0 to len
        invariant heap[dst..dst + c] == old(heap[src..src + c])
        invariant forall k :: 0 <= k < heap.Length && !(dst <= k < dst + c) ==> heap[k] == old(heap[k])
      {
        heap[dst + c] := heap[src + c];
      }
    }
  }

  // ----- what a realloc promises about memory

  /** Every live cell outside the block at `rmem` is still live and holds what it held. */
  ghost predicate Untouched(m: seq<int>, m': seq<int>, bs: seq<Block>, bs': seq<Block>, rmem: int) {
    && |m| == |m'|
    && forall j, k :: 0 <= k < |m| && InPayload(bs, j, k, HDR) && bs[j].addr != rmem - HDR ==>
         Live(bs', k) && m'[k] == m[k]
  }

  /** The block at `rmem` now lives at `r`, holds at least `size` bytes, and its first min(old, size) bytes are the old
      ones. */
  ghost predicate Moved(m: seq<int>, m': seq<int>, bs: seq<Block>, bs': seq<Block>, rmem: int, r: int, size: nat)
    requires IsLive(bs, rmem)
  {
    && IsLive(bs', r) && Payload(bs', IndexOf(bs', r - HDR), HDR) >= size
    && var len := Min(size, Payload(bs, IndexOf(bs, rmem - HDR), HDR));
       && 0 <= len && 0 <= rmem && rmem + len <= |m| && 0 <= r && r + len <= |m'|
       && m'[r..r + len] == m[rmem..rmem + len]
  }

  lemma MovedIntro(m: seq<int>, m': seq<int>, bs: seq<Block>, bs': seq<Block>, rmem: int, r: int, size: nat, len: nat)
    requires IsLive(bs, rmem) && len == Min(size, Payload(bs, IndexOf(bs, rmem - HDR), HDR))
    requires IsLive(bs', r) && Payload(bs', IndexOf(bs', r - HDR), HDR) >= size
    requires 0 <= rmem && rmem + len <= |m| && 0 <= r && r + len <= |m'|
    requires m'[r..r + len] == m[rmem..rmem + len]
    ensures Moved(m, m', bs, bs', rmem, r, size)
  {
  }

  lemma UseInv(h: Heap, memSize: nat)
    requires Inv(h, memSize)
    ensures WellFormed(h.bs, HDR, memSize + HDR)
  {
  }

  function Min(a: int, b: int): int { if a < b then a else b }

  lemma SplitOutside(bs: seq<Block>, i: nat, at: int)
    requires i < |bs|
    ensures forall k :: OutsideHeaders(bs, k) && !(at <= k < at + HDR) ==> OutsideHeaders(SplitAt(bs, i, at), k)
  {
    var cs := SplitAt(bs, i, at);
    forall k | OutsideHeaders(bs, k) && !(at <= k < at + HDR) ensures OutsideHeaders(cs, k) {
      forall p | 0 <= p < |cs| ensures !InHeader(cs, p, k) {
        assert p <= i ==> !InHeader(bs, p, k);
        assert p > i + 1 ==> !InHeader(bs, p - 1, k);
      }
    }
  }

  lemma LiveRange(bs: seq<Block>, end: int, rmem: int)
    requires Tiled(bs, HDR, end)
    ensures IsLive(bs, rmem) ==> 0 <= rmem < end
  {
    var i := IndexOf(bs, rmem - HDR);
    if i + 1 < |bs| {
      Ordered(bs, HDR, end, i, |bs| - 1);
      if i > 0 { Ordered(bs, HDR, end, 0, i); }
    }
  }

  /** Merging and marking move no header outward. */
  lemma OutsideAfterMerge(bs: seq<Block>, j: nat)
    requires j + 1 < |bs|
    ensures forall k :: OutsideHeaders(bs, k) ==> OutsideHeaders(Merge(bs, j), k)
  {
    var cs := Merge(bs, j);
    forall k | OutsideHeaders(bs, k) ensures OutsideHeaders(cs, k) {
      forall i | 0 <= i < |cs| ensures !InHeader(cs, i, k) {
        assert !InHeader(bs, if i <= j then i else i + 1, k);
      }
    }
  }

  lemma MarkOutside(bs: seq<Block>, i: nat, used: bool)
    requires i < |bs|
    ensures forall k :: OutsideHeaders(bs, k) ==> OutsideHeaders(Mark(bs, i, used), k)
  {
    var cs := Mark(bs, i, used);
    forall k | OutsideHeaders(bs, k) ensures OutsideHeaders(cs, k) {
      forall j | 0 <= j < |cs| ensures !InHeader(cs, j, k) {
        assert !InHeader(bs, j, k);
      }
    }
  }

  lemma FreeFrame(m: seq<int>, m': seq<int>, bs: seq<Block>, end: int, i: nat)
    requires Tiled(bs, HDR, end) && i + 1 < |bs| && SameOutside(m, m', bs, 0, 0)
    ensures forall j, k :: 0 <= k < |m| && InPayload(bs, j, k, HDR) && bs[j].addr != bs[i].addr
              ==> Live(Release(bs, i), k) && m'[k] == m[k]
  {
    forall j, k | 0 <= k < |m| && InPayload(bs, j, k, HDR) && bs[j].addr != bs[i].addr
      ensures Live(Release(bs, i), k) && m'[k] == m[k]
    {
      PayloadOutsideHeaders(bs, end, j, k);
      ReleaseKeepsPayload(bs, i, HDR, j, k);
    }
  }

  lemma NothingBeyondLimit(bs: seq<Block>, end: int, start: nat, i: nat, size: int, limit: int)
    requires Tiled(bs, HDR, end) && start <= i < |bs| && bs[i].addr >= limit && i <= FirstFit(bs, start, size, limit)
    ensures FirstFit(bs, start, size, limit) == |bs|
  {
    var j := FirstFit(bs, start, size, limit);
    if i < j < |bs| {
      Ordered(bs, HDR, end, i, j);
    }
  }

  /** What handing out block `i` may touch leaves every live cell alone. */
  lemma GrantFrame(m: seq<int>, m': seq<int>, bs: seq<Block>, end: int, i: nat, size: nat)
    requires Tiled(bs, HDR, end) && i + 1 < |bs| && !bs[i].used
    requires SameOutside(m, m', bs, bs[i].addr, bs[i + 1].addr)
    ensures forall k :: 0 <= k < |m| && Live(bs, k) ==>
            Live(Take(bs, i, size, HDR, MIN_SIZE_ALIGNED), k) && m'[k] == m[k]
  {
    forall k | 0 <= k < |m| && Live(bs, k) ensures Live(Take(bs, i, size, HDR, MIN_SIZE_ALIGNED), k) && m'[k] == m[k] {
      var j :| InPayload(bs, j, k, HDR);
      TakeKeepsPayload(bs, i, size, HDR, MIN_SIZE_ALIGNED, j, k);
      PayloadOutsideHeaders(bs, end, j, k);
      OtherPayload(bs, end, i, j, k);
    }
  }

  /** A cell of a used block is not a payload cell of a block that is free. */
  lemma OtherPayload(bs: seq<Block>, end: int, i: nat, j: int, k: int)
    requires Tiled(bs, HDR, end) && i + 1 < |bs| && InPayload(bs, j, k, HDR) && j != i
    ensures !(bs[i].addr <= k < bs[i + 1].addr)
  {
    if i + 1 < j { Ordered(bs, HDR, end, i + 1, j); }
    if j + 1 < i { Ordered(bs, HDR, end, j + 1, i); }
  }

  lemma CutFrame(m: seq<int>, m': seq<int>, bs: seq<Block>, end: int, i: nat, size: nat)
    requires WellFormed(bs, HDR, end) && i + 1 < |bs| && bs[i].used && |m| == end + HDR
    requires 0 < size && size + HDR < Payload(bs, i, HDR)
    requires var at := bs[i].addr + HDR + size; SameOutside(m, m', bs, at, at + HDR)
    ensures var rmem, cs := bs[i].addr + HDR, Shrink(bs, i, size, HDR);
            IsLive(bs, rmem) && Untouched(m, m', bs, cs, rmem) && Moved(m, m', bs, cs, rmem, rmem, size)
  {
    var rmem, cs := bs[i].addr + HDR, Shrink(bs, i, size, HDR);
    IndexUnique(bs, HDR, end, i);
    ShrinkKeeps(bs, i, size, HDR, end);
    ShrinkClosed(bs, i, size, HDR);
    IndexUnique(cs, HDR, end, i);
    forall j, k | 0 <= k < |m| && InPayload(bs, j, k, HDR) && bs[j].addr != rmem - HDR
      ensures Live(cs, k) && m'[k] == m[k]
    {
      PayloadOutsideHeaders(bs, end, j, k);
      ShrinkKeepsPayload(bs, i, size, HDR, j, k);
      OtherPayload(bs, end, i, j, k);
    }
    BlockRange(bs, end, i);
    forall k | rmem <= k < rmem + size ensures m'[k] == m[k] {
      assert InPayload(bs, i, k, HDR);
      PayloadOutsideHeaders(bs, end, i, k);
    }
  }

  lemma TakeStays(bs: seq<Block>, i: nat, size: nat)
    requires i + 1 < |bs|
    ensures var cs := Take(bs, i, size, HDR, MIN_SIZE_ALIGNED); i + 1 < |cs| && cs[i].addr == bs[i].addr
  {
  }

  /** The new block and the block to be freed are different blocks of the heap. */
  lemma MoveApart(h: Heap, memSize: nat, size: nat, rmem: int)
    requires Inv(h, memSize) && IsLive(h.bs, rmem) && SmallHeap.Malloc(h, memSize, size).1 != NULL
    ensures var (h1, r) := SmallHeap.Malloc(h, memSize, size);
            && IsLive(h1.bs, rmem) && IsLive(h1.bs, r) && r != rmem
            && LiveSize(h1.bs, rmem) == LiveSize(h.bs, rmem) && LiveSize(h1.bs, r) >= size
    ensures 0 <= rmem && rmem + LiveSize(h.bs, rmem) <= memSize + HDR
  {
    hide IndexOf, FirstFit, Weigh, Take;
    var end := memSize + HDR;
    var i := FirstFit(h.bs, IndexOf(h.bs, h.lfree), Want(size), memSize - Want(size));
    var h1 := Commit(h, i, Want(size));
    var j := IndexOf(h.bs, rmem - HDR);
    MallocFinds(h, memSize, size, i);
    TakeKeepsBlock(h.bs, i, Want(size), HDR, MIN_SIZE_ALIGNED, j);
    IndexUnique(h1.bs, HDR, end, TakeIndex(h.bs, i, j, Want(size), HDR, MIN_SIZE_ALIGNED));
    BlockRange(h.bs, end, j);
  }

  lemma BlocksApart(bs: seq<Block>, end: int, r: int, rmem: int)
    requires Tiled(bs, HDR, end) && IsLive(bs, r) && IsLive(bs, rmem) && r != rmem
    ensures var p, q := Payload(bs, IndexOf(bs, r - HDR), HDR), Payload(bs, IndexOf(bs, rmem - HDR), HDR);
            0 <= r && r + p <= end && 0 <= rmem && rmem + q <= end && (r + p <= rmem || rmem + q <= r)
  {
    var i, j := IndexOf(bs, r - HDR), IndexOf(bs, rmem - HDR);
    BlockRange(bs, end, i);
    BlockRange(bs, end, j);
    if i + 1 < j { Ordered(bs, HDR, end, i + 1, j); }
    if j + 1 < i { Ordered(bs, HDR, end, j + 1, i); }
  }

  /** Every live cell outside the blocks at `rmem` and `r` is still live and holds what it held. */
  ghost predicate Spared(m: seq<int>, m': seq<int>, bs: seq<Block>, bs': seq<Block>, rmem: int, r: int) {
    && |m| == |m'|
    && forall j, k :: 0 <= k < |m| && InPayload(bs, j, k, HDR) && bs[j].addr != rmem - HDR && bs[j].addr != r - HDR
         ==> Live(bs', k) && m'[k] == m[k]
  }

  lemma CopySpares(m: seq<int>, m2: seq<int>, m3: seq<int>, bs: seq<Block>, bs': seq<Block>, end: int, rmem: int,
                   r: int, len: nat)
    requires Tiled(bs, HDR, end) && IsLive(bs, r) && len <= Payload(bs, IndexOf(bs, r - HDR), HDR) && |m| == |m2|
    requires forall k :: 0 <= k < |m| && !(r <= k < r + len) ==> m2[k] == m[k]
    requires Untouched(m2, m3, bs, bs', rmem)
    ensures Spared(m, m3, bs, bs', rmem, r)
  {
    forall j, k | 0 <= k < |m| && InPayload(bs, j, k, HDR) && bs[j].addr != rmem - HDR && bs[j].addr != r - HDR
      ensures Live(bs', k) && m3[k] == m[k]
    {
      OtherPayload(bs, end, IndexOf(bs, r - HDR), j, k);
    }
  }

  lemma BlockRange(bs: seq<Block>, end: int, j: nat)
    requires Tiled(bs, HDR, end) && j + 1 < |bs|
    ensures 0 <= bs[j].addr && bs[j + 1].addr <= end
  {
    if 0 < j { Ordered(bs, HDR, end, 0, j); }
    if j + 1 < |bs| - 1 { Ordered(bs, HDR, end, j + 1, |bs| - 1); }
  }

  /** Writing into a payload leaves the links alone. */
  lemma CopyRep(m: seq<int>, m': seq<int>, bs: seq<Block>, end: int, r: int, len: int)
    requires Tiled(bs, HDR, end) && Rep(m, bs) && |m| == |m'| && IsLive(bs, r)
    requires len <= Payload(bs, IndexOf(bs, r - HDR), HDR)
    requires forall k :: 0 <= k < |m| && !(r <= k < r + len) ==> m'[k] == m[k]
    ensures Rep(m', bs)
  {
    var i := IndexOf(bs, r - HDR);
    forall p | 0 <= p < |bs| ensures HeaderOk(m', bs, p) {
      assert HeaderOk(m, bs, p);
      if p < i { Ordered(bs, HDR, end, p, i); }
      if i + 1 < p { Ordered(bs, HDR, end, i + 1, p); }
    }
  }

  /** A move leaves the other live blocks alone: none of them is the new block, which was free. */
  lemma MoveUntouched(h: Heap, memSize: nat, size: nat, rmem: int, bs2: seq<Block>, m: seq<int>, m1: seq<int>,
                      m3: seq<int>)
    requires Inv(h, memSize) && SmallHeap.Malloc(h, memSize, size).1 != NULL && |m| == |m1|
    requires forall k :: 0 <= k < |m| && Live(h.bs, k) ==> m1[k] == m[k]
    requires var (h1, r) := SmallHeap.Malloc(h, memSize, size); Spared(m1, m3, h1.bs, bs2, rmem, r)
    ensures Untouched(m, m3, h.bs, bs2, rmem)
  {
    hide IndexOf, FirstFit, Weigh, Take;
    var i := FirstFit(h.bs, IndexOf(h.bs, h.lfree), Want(size), memSize - Want(size));
    var bs1 := Take(h.bs, i, Want(size), HDR, MIN_SIZE_ALIGNED);
    forall p, k | 0 <= k < |m| && InPayload(h.bs, p, k, HDR) && h.bs[p].addr != rmem - HDR
      ensures Live(bs2, k) && m3[k] == m[k]
    {
      TakeKeepsBlock(h.bs, i, Want(size), HDR, MIN_SIZE_ALIGNED, p);
      assert InPayload(bs1, TakeIndex(h.bs, i, p, Want(size), HDR, MIN_SIZE_ALIGNED), k, HDR);
      if p < i { Ordered(h.bs, HDR, memSize + HDR, p, i); }
      if i < p { Ordered(h.bs, HDR, memSize + HDR, i, p); }
    }
  }

  /** Freeing another block leaves the block at `r` in place. */
  lemma StaysLive(bs: seq<Block>, end: int, rmem: int, r: int)
    requires WellFormed(bs, HDR, end) && IsLive(bs, rmem) && IsLive(bs, r) && r != rmem
    ensures var cs := Release(bs, IndexOf(bs, rmem - HDR));
            IsLive(cs, r) && Payload(cs, IndexOf(cs, r - HDR), HDR) == Payload(bs, IndexOf(bs, r - HDR), HDR)
  {
    var i, j := IndexOf(bs, r - HDR), IndexOf(bs, rmem - HDR);
    ReleaseKeeps(bs, j, HDR, end);
    ReleaseKeepsBlock(bs, j, i);
    IndexUnique(Release(bs, j), HDR, end, ReleaseIndex(bs, j, i));
  }

  lemma ContentsKept(m: seq<int>, m': seq<int>, bs: seq<Block>, bs': seq<Block>, rmem: int, r: int, len: nat)
    requires Untouched(m, m', bs, bs', rmem) && IsLive(bs, r) && r != rmem
    requires len <= Payload(bs, IndexOf(bs, r - HDR), HDR)
    requires 0 <= r && r + len <= |m|
    ensures m'[r..r + len] == m[r..r + len]
  {
    forall k | r <= k < r + len ensures m'[k] == m[k] {
      assert InPayload(bs, IndexOf(bs, r - HDR), k, HDR);
    }
  }

  lemma LiveContents(m: seq<int>, m': seq<int>, bs: seq<Block>, r: int, len: nat)
    requires |m| == |m'| && IsLive(bs, r) && len <= Payload(bs, IndexOf(bs, r - HDR), HDR)
    requires forall k :: 0 <= k < |m| && Live(bs, k) ==> m'[k] == m[k]
    requires 0 <= r && r + len <= |m|
    ensures m'[r..r + len] == m[r..r + len]
  {
    forall k | r <= k < r + len ensures m'[k] == m[k] {
      assert InPayload(bs, IndexOf(bs, r - HDR), k, HDR);
    }
  }
}
