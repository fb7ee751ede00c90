/** The block list that both first-fit heaps of the kernel keep inside one pool of memory.

    A block is a header at offset `addr` followed by a payload that reaches up to the next
    header.  The last block of a list is a sentinel that is always used and has no payload.
    The concrete heaps (mem.c, memheap.c) keep this list as links written inside the pool;
    here it is a sequence of values, together with the three ways the heaps rearrange it. */
module HeapBlocks {

  datatype Block = Block(addr: int, used: bool)

  // ----- what a heap keeps true of its block list

  /** Bytes behind block `i`'s header. */
  function Payload(bs: seq<Block>, i: nat, hdr: int): int
    requires i + 1 < |bs|
  {
    bs[i + 1].addr - bs[i].addr - hdr
  }

  predicate BothFree(bs: seq<Block>, i: nat)
    requires i + 1 < |bs|
  {
    !bs[i].used && !bs[i + 1].used
  }

  /** Headers start at 0, end with the used sentinel at `end`, and every payload is non-empty. */
  ghost predicate Tiled(bs: seq<Block>, hdr: nat, end: int) {
    && |bs| >= 2
    && bs[0].addr == 0
    && bs[|bs| - 1] == Block(end, true)
    && forall i :: 0 <= i < |bs| - 1 ==> Payload(bs, i, hdr) > 0
  }

  ghost predicate NoAdjacentFree(bs: seq<Block>) {
    forall i :: 0 <= i < |bs| - 1 ==> !BothFree(bs, i)
  }

  predicate OnBoundary(bs: seq<Block>, i: nat)
    requires i < |bs|
  {
    bs[i].addr % 4 == 0
  }

  ghost predicate Aligned(bs: seq<Block>) {
    forall i :: 0 <= i < |bs| ==> OnBoundary(bs, i)
  }

  ghost predicate WellFormed(bs: seq<Block>, hdr: nat, end: int) {
    Tiled(bs, hdr, end) && NoAdjacentFree(bs)
  }

  /** The sum of (extent - hdr) over the blocks whose flag is `used`; the sentinel has no extent. */
  function Weigh(bs: seq<Block>, used: bool, hdr: int): int {
    if |bs| < 2 then 0
    else (if bs[0].used == used then Payload(bs, 0, hdr) else 0) + Weigh(bs[1..], used, hdr)
  }

  /** Does offset `k` lie in the payload of the used block `j`? */
  ghost predicate InPayload(bs: seq<Block>, j: int, k: int, hdr: nat) {
    0 <= j < |bs| - 1 && bs[j].used && bs[j].addr + hdr <= k < bs[j + 1].addr
  }

  function RoundUp(n: nat): (r: nat)
    ensures r % 4 == 0 && n <= r < n + 4
  {
    if n % 4 == 0 then n else n + 4 - n % 4
  }

  /** The block whose header is at `addr`, or |bs|. */
  function IndexOf(bs: seq<Block>, addr: int): (r: nat)
    ensures r <= |bs|
    ensures r < |bs| ==> bs[r].addr == addr
  {
    if bs == [] || bs[0].addr == addr then 0 else 1 + IndexOf(bs[1..], addr)
  }

  lemma {:induction false} IndexIs(bs: seq<Block>, i: nat)
    requires i < |bs| && forall j :: 0 <= j < i ==> bs[j].addr != bs[i].addr
    ensures IndexOf(bs, bs[i].addr) == i
  {
    if i > 0 {
      assert bs[0].addr != bs[i].addr;
      forall j | 0 <= j < i - 1 ensures bs[1..][j].addr != bs[i].addr { assert bs[1..][j] == bs[j + 1]; }
      IndexIs(bs[1..], i - 1);
    }
  }

  // ----- how a heap rearranges its block list

  /** Insert a free block at `addr` behind block `i`. */
  function SplitAt(bs: seq<Block>, i: nat, addr: int): (r: seq<Block>)
    requires i < |bs|
  {
    bs[..i + 1] + [Block(addr, false)] + bs[i + 1..]
  }

  /** Block `i` swallows block `i + 1`. */
  function Merge(bs: seq<Block>, i: nat): (r: seq<Block>)
    requires i + 1 < |bs|
  {
    bs[..i + 1] + bs[i + 2..]
  }

  function Mark(bs: seq<Block>, i: nat, used: bool): (r: seq<Block>)
    requires i < |bs|
  {
    bs[i := bs[i].(used := used)]
  }

  /** Hand out block `i` for `size` bytes; what is left becomes a free block if it is large enough. */
  function Take(bs: seq<Block>, i: nat, size: nat, hdr: nat, min: nat): (r: seq<Block>)
    requires i + 1 < |bs|
  {
    var used := Mark(bs, i, true);
    if Payload(bs, i, hdr) >= size + hdr + min then SplitAt(used, i, bs[i].addr + hdr + size) else used
  }

  /** Merge the free block `i` with a free right and then a free left neighbour. */
  function Coalesce(bs: seq<Block>, i: nat): (r: seq<Block>)
    requires i + 1 < |bs|
  {
    var right := if !bs[i + 1].used then Merge(bs, i) else bs;
    if i > 0 && !bs[i - 1].used then Merge(right, i - 1) else right
  }

  function Release(bs: seq<Block>, i: nat): (r: seq<Block>)
    requires i + 1 < |bs|
  {
    Coalesce(Mark(bs, i, false), i)
  }

  /** Cut the used block `i` down to `size` bytes and give the rest back. */
  function Shrink(bs: seq<Block>, i: nat, size: nat, hdr: nat): (r: seq<Block>)
    requires i + 1 < |bs|
  {
    Coalesce(SplitAt(bs, i, bs[i].addr + hdr + size), i + 1)
  }

  lemma SplitThenMark(bs: seq<Block>, i: nat, at: int)
    requires i + 1 < |bs|
    ensures Mark(SplitAt(bs, i, at), i, true) == SplitAt(Mark(bs, i, true), i, at)
  {
  }

  // ----- sums

  lemma {:induction false} WeighJoin(a: seq<Block>, x: Block, b: seq<Block>, used: bool, hdr: int)
    ensures Weigh(a + [x] + b, used, hdr) == Weigh(a + [x], used, hdr) + Weigh([x] + b, used, hdr)
    decreases |a|
  {
    if a == [] {
      assert a + [x] + b == [x] + b;
    } else {
      var s, t := a + [x] + b, a + [x];
      assert s[1..] == a[1..] + [x] + b && t[1..] == a[1..] + [x];
      WeighJoin(a[1..], x, b, used, hdr);
    }
  }

  /** Cutting a list at block `i`. */
  lemma WeighCut(bs: seq<Block>, i: nat, used: bool, hdr: int)
    requires i < |bs|
    ensures Weigh(bs, used, hdr) == Weigh(bs[..i + 1], used, hdr) + Weigh(bs[i..], used, hdr)
  {
    WeighJoin(bs[..i], bs[i], bs[i + 1..], used, hdr);
    assert bs[..i] + [bs[i]] + bs[i + 1..] == bs;
    assert bs[..i] + [bs[i]] == bs[..i + 1];
    assert [bs[i]] + bs[i + 1..] == bs[i..];
  }

  /** The flag of a list's last block weighs nothing. */
  lemma {:induction false} WeighLastFlag(bs: seq<Block>, x: Block, y: Block, used: bool, hdr: int)
    requires x.addr == y.addr
    ensures Weigh(bs + [x], used, hdr) == Weigh(bs + [y], used, hdr)
    decreases |bs|
  {
    if bs != [] {
      assert (bs + [x])[1..] == bs[1..] + [x] && (bs + [y])[1..] == bs[1..] + [y];
      WeighLastFlag(bs[1..], x, y, used, hdr);
    }
  }

  /** Used and free extents together are the whole pool: nothing is lost between blocks. */
  lemma {:induction false} WeighTotal(bs: seq<Block>)
    requires |bs| >= 1
    ensures Weigh(bs, true, 0) + Weigh(bs, false, 0) == bs[|bs| - 1].addr - bs[0].addr
  {
    if |bs| > 1 {
      WeighTotal(bs[1..]);
    }
  }

  lemma WeighMark(bs: seq<Block>, i: nat, used: bool, flag: bool, hdr: int)
    requires i + 1 < |bs| && bs[i].used != used
    ensures Weigh(Mark(bs, i, used), flag, hdr)
         == Weigh(bs, flag, hdr) + (if used == flag then Payload(bs, i, hdr) else -Payload(bs, i, hdr))
  {
    var cs := Mark(bs, i, used);
    WeighCut(bs, i, flag, hdr);
    WeighCut(cs, i, flag, hdr);
    WeighLastFlag(bs[..i], bs[i], cs[i], flag, hdr);
    assert bs[..i + 1] == bs[..i] + [bs[i]] && cs[..i + 1] == bs[..i] + [cs[i]];
    assert bs[i..][1..] == cs[i..][1..];
  }

  lemma WeighSplit(bs: seq<Block>, i: nat, addr: int, flag: bool, hdr: int)
    requires i + 1 < |bs|
    ensures Weigh(SplitAt(bs, i, addr), flag, hdr)
         == Weigh(bs, flag, hdr)
            + (if bs[i].used == flag then addr - bs[i + 1].addr else 0)
            + (if !flag then bs[i + 1].addr - addr - hdr else 0)
  {
    var cs := SplitAt(bs, i, addr);
    WeighCut(bs, i, flag, hdr);
    WeighCut(cs, i, flag, hdr);
    assert cs[..i + 1] == bs[..i + 1];
    assert cs[i..][1..] == [Block(addr, false)] + bs[i + 1..];
    assert cs[i..][1..][1..] == bs[i + 1..] == bs[i..][1..];
  }

  lemma WeighMerge(bs: seq<Block>, i: nat, flag: bool, hdr: int)
    requires i + 2 < |bs| && bs[i].used == bs[i + 1].used
    ensures Weigh(Merge(bs, i), flag, hdr) == Weigh(bs, flag, hdr) + (if bs[i].used == flag then hdr else 0)
  {
    var cs := Merge(bs, i);
    WeighCut(bs, i, flag, hdr);
    WeighCut(cs, i, flag, hdr);
    assert cs[..i + 1] == bs[..i + 1];
    assert cs[i..][1..] == bs[i + 2..] == bs[i..][1..][1..];
  }

  // ----- the rearrangements keep the list well formed

  lemma {:induction false} Ordered(bs: seq<Block>, hdr: nat, end: int, i: nat, j: nat)
    requires Tiled(bs, hdr, end) && i < j < |bs|
    ensures bs[i].addr + hdr < bs[j].addr
    decreases j - i
  {
    assert Payload(bs, j - 1, hdr) > 0;
    if i < j - 1 {
      Ordered(bs, hdr, end, i, j - 1);
    }
  }

  lemma IndexUnique(bs: seq<Block>, hdr: nat, end: int, j: nat)
    requires Tiled(bs, hdr, end) && j < |bs|
    ensures IndexOf(bs, bs[j].addr) == j
  {
    IndexAtMost(bs, bs[j].addr, j);
    var k := IndexOf(bs, bs[j].addr);
    if k < j {
      Ordered(bs, hdr, end, k, j);
    }
  }

  lemma {:induction false} IndexAtMost(bs: seq<Block>, addr: int, j: nat)
    requires j < |bs| && bs[j].addr == addr
    ensures IndexOf(bs, addr) <= j
  {
    if 0 < j && bs[0].addr != addr {
      IndexAtMost(bs[1..], addr, j - 1);
    }
  }

  /** A free block put strictly between blocks `i` and `i + 1`. */
  lemma SplitTiled(bs: seq<Block>, i: nat, addr: int, hdr: nat, end: int)
    requires Tiled(bs, hdr, end) && i + 1 < |bs|
    requires bs[i].addr + hdr < addr && addr + hdr < bs[i + 1].addr
    ensures Tiled(SplitAt(bs, i, addr), hdr, end)
  {
    var cs := SplitAt(bs, i, addr);
    forall p | 0 <= p < |cs| - 1 ensures Payload(cs, p, hdr) > 0 {
      if p < i {
        assert Payload(bs, p, hdr) > 0;
      } else if p > i + 1 {
        assert Payload(bs, p - 1, hdr) > 0;
      }
    }
  }

  lemma MarkTiled(bs: seq<Block>, i: nat, used: bool, hdr: nat, end: int)
    requires Tiled(bs, hdr, end) && i + 1 < |bs|
    ensures Tiled(Mark(bs, i, used), hdr, end)
  {
    var cs := Mark(bs, i, used);
    forall p | 0 <= p < |cs| - 1 ensures Payload(cs, p, hdr) > 0 {
      assert Payload(bs, p, hdr) > 0;
    }
  }

  lemma MergeTiled(bs: seq<Block>, i: nat, hdr: nat, end: int)
    requires Tiled(bs, hdr, end) && i + 2 < |bs|
    ensures Tiled(Merge(bs, i), hdr, end)
  {
    var cs := Merge(bs, i);
    forall p | 0 <= p < |cs| - 1 ensures Payload(cs, p, hdr) > 0 {
      if p <= i {
        assert Payload(bs, p, hdr) > 0;
      }
      if p >= i {
        assert Payload(bs, p + 1, hdr) > 0;
      }
    }
  }

  lemma TakeKeeps(bs: seq<Block>, i: nat, size: nat, hdr: nat, min: nat, end: int)
    requires WellFormed(bs, hdr, end) && i + 1 < |bs| && !bs[i].used
    requires 0 < size <= Payload(bs, i, hdr) && 0 < min
    ensures WellFormed(Take(bs, i, size, hdr, min), hdr, end)
    ensures i + 1 < |Take(bs, i, size, hdr, min)| && size <= Payload(Take(bs, i, size, hdr, min), i, hdr)
    ensures Take(bs, i, size, hdr, min)[i] == Block(bs[i].addr, true)
  {
    hide NoAdjacentFree;
    MarkTiled(bs, i, true, hdr, end);
    if Payload(bs, i, hdr) >= size + hdr + min {
      SplitTiled(Mark(bs, i, true), i, bs[i].addr + hdr + size, hdr, end);
    }
    TakeApart(bs, i, size, hdr, min);
  }

  lemma TakeApart(bs: seq<Block>, i: nat, size: nat, hdr: nat, min: nat)
    requires NoAdjacentFree(bs) && i + 1 < |bs| && !bs[i].used
    ensures NoAdjacentFree(Take(bs, i, size, hdr, min))
  {
    var cs := Take(bs, i, size, hdr, min);
    assert !BothFree(bs, i);
    forall p | 0 <= p < |cs| - 1 ensures !BothFree(cs, p) {
      assert p < |bs| - 1 ==> !BothFree(bs, p);
      assert p > 0 ==> !BothFree(bs, p - 1);
    }
  }

  /** Two free blocks may meet at the pairs lo..hi and nowhere else. */
  ghost predicate FreeMeetOnlyIn(bs: seq<Block>, lo: int, hi: int) {
    forall j :: 0 <= j < |bs| - 1 && !(lo <= j < hi) ==> !BothFree(bs, j)
  }

  lemma MergeMeets(bs: seq<Block>, lo: int, hi: nat)
    requires FreeMeetOnlyIn(bs, lo, hi) && lo < hi && 0 < hi && hi + 1 < |bs| && !bs[hi].used
    ensures FreeMeetOnlyIn(Merge(bs, hi - 1), lo, hi - 1)
  {
    var cs := Merge(bs, hi - 1);
    forall p | 0 <= p < |cs| - 1 && !(lo <= p < hi - 1) ensures !BothFree(cs, p) {
      assert p < hi - 1 ==> !BothFree(bs, p);
      assert p >= hi - 1 ==> !BothFree(bs, p + 1);
    }
  }

  /** Coalescing around the one block where free blocks may meet restores the list. */
  lemma CoalesceKeeps(bs: seq<Block>, i: nat, hdr: nat, end: int)
    requires Tiled(bs, hdr, end) && i + 1 < |bs| && !bs[i].used && FreeMeetOnlyIn(bs, i - 1, i + 1)
    ensures WellFormed(Coalesce(bs, i), hdr, end)
  {
    var right := bs;
    if !bs[i + 1].used {
      right := Merge(bs, i);
      MergeTiled(bs, i, hdr, end);
      MergeMeets(bs, i - 1, i + 1);
    }
    assert FreeMeetOnlyIn(right, i - 1, i);
    if i > 0 && !bs[i - 1].used {
      MergeTiled(right, i - 1, hdr, end);
      MergeMeets(right, i - 1, i);
    }
  }

  lemma ReleaseKeeps(bs: seq<Block>, i: nat, hdr: nat, end: int)
    requires WellFormed(bs, hdr, end) && i + 1 < |bs| && bs[i].used
    ensures WellFormed(Release(bs, i), hdr, end)
  {
    MarkTiled(bs, i, false, hdr, end);
    var freed := Mark(bs, i, false);
    forall p | 0 <= p < |freed| - 1 && p != i && p != i - 1 ensures !BothFree(freed, p) {
      assert !BothFree(bs, p);
    }
    CoalesceKeeps(freed, i, hdr, end);
  }

  lemma ShrinkKeeps(bs: seq<Block>, i: nat, size: nat, hdr: nat, end: int)
    requires WellFormed(bs, hdr, end) && i + 1 < |bs| && bs[i].used
    requires 0 < size && size + hdr < Payload(bs, i, hdr)
    ensures WellFormed(Shrink(bs, i, size, hdr), hdr, end)
  {
    var at := bs[i].addr + hdr + size;
    var cut := SplitAt(bs, i, at);
    SplitTiled(bs, i, at, hdr, end);
    forall p | 0 <= p < |cut| - 1 && p != i + 1 && p != i ensures !BothFree(cut, p) {
      assert p < i ==> !BothFree(bs, p);
      assert p > i + 1 ==> !BothFree(bs, p - 1);
    }
    CoalesceKeeps(cut, i + 1, hdr, end);
  }

  lemma KeepAligned(bs: seq<Block>, i: nat, size: nat, hdr: nat, min: nat)
    requires Aligned(bs) && i + 1 < |bs| && size % 4 == 0 && hdr % 4 == 0
    ensures Aligned(Take(bs, i, size, hdr, min)) && Aligned(Release(bs, i)) && Aligned(Shrink(bs, i, size, hdr))
  {
    assert OnBoundary(bs, i);
    MarkAligned(bs, i, true);
    MarkAligned(bs, i, false);
    SplitAligned(Mark(bs, i, true), i, bs[i].addr + hdr + size);
    CoalesceAligned(Mark(bs, i, false), i);
    SplitAligned(bs, i, bs[i].addr + hdr + size);
    CoalesceAligned(SplitAt(bs, i, bs[i].addr + hdr + size), i + 1);
  }

  lemma MarkAligned(bs: seq<Block>, i: nat, used: bool)
    requires Aligned(bs) && i < |bs|
    ensures Aligned(Mark(bs, i, used))
  {
    var cs := Mark(bs, i, used);
    forall p | 0 <= p < |cs| ensures OnBoundary(cs, p) {
      assert OnBoundary(bs, p);
    }
  }

  lemma SplitAligned(bs: seq<Block>, i: nat, addr: int)
    requires Aligned(bs) && i < |bs| && addr % 4 == 0
    ensures Aligned(SplitAt(bs, i, addr))
  {
    var cs := SplitAt(bs, i, addr);
    forall p | 0 <= p < |cs| ensures OnBoundary(cs, p) {
      assert p <= i ==> OnBoundary(bs, p);
      assert p > i + 1 ==> OnBoundary(bs, p - 1);
    }
  }

  lemma CoalesceAligned(bs: seq<Block>, i: nat)
    requires Aligned(bs) && i + 1 < |bs|
    ensures Aligned(Coalesce(bs, i))
  {
    hide Coalesce;
    CoalesceClosed(bs, i);
    var cs := Coalesce(bs, i);
    var lo := if i > 0 && !bs[i - 1].used then i - 1 else i;
    forall p | 0 <= p < |cs| ensures OnBoundary(cs, p) {
      assert OnBoundary(bs, if p <= lo then p else p + |bs| - |cs|);
    }
  }

  lemma CoalesceClosed(bs: seq<Block>, i: nat)
    requires i + 1 < |bs|
    ensures var lo := if i > 0 && !bs[i - 1].used then i - 1 else i;
            var hi := if !bs[i + 1].used then i + 2 else i + 1;
            Coalesce(bs, i) == bs[..lo + 1] + bs[hi..]
  {
  }

  lemma ShrinkClosed(bs: seq<Block>, i: nat, size: nat, hdr: nat)
    requires i + 1 < |bs| && bs[i].used
    ensures Shrink(bs, i, size, hdr)
         == bs[..i + 1] + [Block(bs[i].addr + hdr + size, false)] + bs[if bs[i + 1].used then i + 1 else i + 2..]
  {
    var cut := SplitAt(bs, i, bs[i].addr + hdr + size);
    assert cut[i].used && cut[i + 2] == bs[i + 1];
  }

  /** Freeing a block that was just handed out gives back the list it was taken from. */
  lemma ReleaseUndoesTake(bs: seq<Block>, i: nat, size: nat, hdr: nat, min: nat)
    requires NoAdjacentFree(bs) && i + 1 < |bs| && !bs[i].used
    ensures Release(Take(bs, i, size, hdr, min), i) == bs
  {
    var taken := Take(bs, i, size, hdr, min);
    CoalesceClosed(Mark(taken, i, false), i);
    assert i > 0 ==> !BothFree(bs, i - 1);
    assert !BothFree(bs, i);
  }

  lemma ReleaseWeighs(bs: seq<Block>, i: nat, flag: bool, hdr: nat, end: int)
    requires Tiled(bs, hdr, end) && i + 1 < |bs| && bs[i].used
    ensures Weigh(Release(bs, i), flag, hdr) == Weigh(bs, flag, hdr)
         + (if flag then -Payload(bs, i, hdr)
            else Payload(bs, i, hdr)
                 + (if i > 0 && !bs[i - 1].used then hdr else 0) + (if !bs[i + 1].used then hdr else 0))
    ensures Weigh(Release(bs, i), true, 0) == Weigh(bs, true, 0) - Payload(bs, i, 0)
  {
    var freed := Mark(bs, i, false);
    var right := if !freed[i + 1].used then Merge(freed, i) else freed;
    WeighMark(bs, i, false, flag, hdr);
    WeighMark(bs, i, false, true, 0);
    if !freed[i + 1].used {
      WeighMerge(freed, i, flag, hdr);
      WeighMerge(freed, i, true, 0);
    }
    if i > 0 && !freed[i - 1].used {
      WeighMerge(right, i - 1, flag, hdr);
      WeighMerge(right, i - 1, true, 0);
    }
  }

  lemma TakeWeighs(bs: seq<Block>, i: nat, size: nat, hdr: nat, min: nat)
    requires i + 1 < |bs| && !bs[i].used
    ensures var split := Payload(bs, i, hdr) >= size + hdr + min;
            && Weigh(Take(bs, i, size, hdr, min), false, hdr)
               == Weigh(bs, false, hdr) - (if split then size + hdr else Payload(bs, i, hdr))
            && Weigh(Take(bs, i, size, hdr, min), true, 0)
               == Weigh(bs, true, 0) + (if split then size + hdr else Payload(bs, i, 0))
  {
    var used := Mark(bs, i, true);
    WeighMark(bs, i, true, false, hdr);
    WeighMark(bs, i, true, true, 0);
    WeighSplit(used, i, bs[i].addr + hdr + size, false, hdr);
    WeighSplit(used, i, bs[i].addr + hdr + size, true, 0);
  }

  lemma ShrinkWeighs(bs: seq<Block>, i: nat, size: nat, hdr: nat, end: int)
    requires Tiled(bs, hdr, end) && i + 1 < |bs| && bs[i].used
    ensures Weigh(Shrink(bs, i, size, hdr), true, 0) == Weigh(bs, true, 0) - (Payload(bs, i, hdr) - size)
    ensures Weigh(Shrink(bs, i, size, hdr), false, hdr)
         == Weigh(bs, false, hdr) + Payload(bs, i, hdr) - size - hdr + (if !bs[i + 1].used then hdr else 0)
  {
    var at := bs[i].addr + hdr + size;
    var cut := SplitAt(bs, i, at);
    WeighSplit(bs, i, at, true, 0);
    WeighSplit(bs, i, at, false, hdr);
    if !bs[i + 1].used {
      WeighMerge(cut, i + 1, true, 0);
      WeighMerge(cut, i + 1, false, hdr);
    }
  }

  // ----- live payloads survive

  /** Where block `j` of a list is found after block `i` was handed out, given back or cut. */
  function TakeIndex(bs: seq<Block>, i: nat, j: nat, size: nat, hdr: nat, min: nat): (r: nat)
    requires i + 1 < |bs|
  {
    if j > i && Payload(bs, i, hdr) >= size + hdr + min then j + 1 else j
  }

  function ReleaseIndex(bs: seq<Block>, i: nat, j: nat): (r: nat)
    requires i + 1 < |bs| && j != i
    requires j == i + 1 ==> bs[j].used
    requires j == i - 1 ==> bs[j].used
  {
    if j < i then j
    else var right := if !bs[i + 1].used then j - 1 else j;
         if i > 0 && !bs[i - 1].used then right - 1 else right
  }

  /** The other used blocks keep their address and extent. */
  lemma TakeKeepsBlock(bs: seq<Block>, i: nat, size: nat, hdr: nat, min: nat, j: nat)
    requires i + 1 < |bs| && j + 1 < |bs| && j != i
    ensures var cs, j' := Take(bs, i, size, hdr, min), TakeIndex(bs, i, j, size, hdr, min);
            j' + 1 < |cs| && cs[j'] == bs[j] && cs[j' + 1].addr == bs[j + 1].addr
  {
  }

  lemma ReleaseKeepsBlock(bs: seq<Block>, i: nat, j: nat)
    requires i + 1 < |bs| && j + 1 < |bs| && j != i && bs[j].used && bs[|bs| - 1].used
    ensures var cs, j' := Release(bs, i), ReleaseIndex(bs, i, j);
            j' + 1 < |cs| && cs[j'] == bs[j] && cs[j' + 1].addr == bs[j + 1].addr
  {
    hide Coalesce;
    CoalesceClosed(Mark(bs, i, false), i);
  }

  lemma TakeKeepsPayload(bs: seq<Block>, i: nat, size: nat, hdr: nat, min: nat, j: nat, k: int)
    requires i + 1 < |bs| && !bs[i].used && InPayload(bs, j, k, hdr)
    ensures InPayload(Take(bs, i, size, hdr, min), TakeIndex(bs, i, j, size, hdr, min), k, hdr)
  {
  }

  lemma ReleaseKeepsPayload(bs: seq<Block>, i: nat, hdr: nat, j: nat, k: int)
    requires i + 1 < |bs| && j != i && InPayload(bs, j, k, hdr)
    requires bs[|bs| - 1].used
    ensures InPayload(Release(bs, i), ReleaseIndex(bs, i, j), k, hdr)
  {
    ReleaseKeepsBlock(bs, i, j);
  }

  lemma ShrinkKeepsPayload(bs: seq<Block>, i: nat, size: nat, hdr: nat, j: nat, k: int)
    requires i + 1 < |bs| && bs[i].used && InPayload(bs, j, k, hdr)
    requires j == i ==> k < bs[i].addr + hdr + size
    ensures InPayload(Shrink(bs, i, size, hdr), if j <= i then j else if bs[i + 1].used then j + 1 else j, k, hdr)
  {
    ShrinkClosed(bs, i, size, hdr);
  }

  lemma PayloadsDisjoint(bs: seq<Block>, hdr: nat, end: int, j: int, j': int, k: int)
    requires Tiled(bs, hdr, end) && InPayload(bs, j, k, hdr) && InPayload(bs, j', k, hdr)
    ensures j == j'
  {
    if j + 1 < j' { Ordered(bs, hdr, end, j + 1, j'); }
    if j' + 1 < j { Ordered(bs, hdr, end, j' + 1, j); }
  }

  // ----- what is in use, as a caller sees it

  /** There is a block in use at `addr` with `len` bytes. */
  ghost predicate Used(bs: seq<Block>, hdr: int, addr: int, len: int) {
    exists j :: UsedAt(bs, hdr, addr, len, j)
  }

  ghost predicate UsedAt(bs: seq<Block>, hdr: int, addr: int, len: int, j: int) {
    0 <= j < |bs| - 1 && bs[j] == Block(addr, true) && Payload(bs, j, hdr) == len
  }

  lemma UsedOnce(bs: seq<Block>, hdr: nat, end: int, i: nat, j: nat)
    requires Tiled(bs, hdr, end) && i < |bs| && j < |bs| && bs[i].addr == bs[j].addr
    ensures i == j
  {
    if i < j { Ordered(bs, hdr, end, i, j); }
    if j < i { Ordered(bs, hdr, end, j, i); }
  }

  /** Handing out block i adds one block in use and changes no other. */
  lemma TakeUses(bs: seq<Block>, i: nat, size: nat, hdr: nat, min: nat, addr: int, len: int)
    requires i + 1 < |bs| && !bs[i].used
    ensures var cs := Take(bs, i, size, hdr, min);
            && i + 1 < |cs| && cs[i] == Block(bs[i].addr, true)
            && (Used(cs, hdr, addr, len) <==>
                Used(bs, hdr, addr, len) || (addr == bs[i].addr && len == Payload(cs, i, hdr)))
  {
    var cs := Take(bs, i, size, hdr, min);
    if j :| UsedAt(bs, hdr, addr, len, j) {
      assert UsedAt(cs, hdr, addr, len, TakeIndex(bs, i, j, size, hdr, min));
    }
    if j :| UsedAt(cs, hdr, addr, len, j) && j != i {
      assert UsedAt(bs, hdr, addr, len, if j > i && |cs| > |bs| then j - 1 else j);
    }
    if addr == bs[i].addr && len == Payload(cs, i, hdr) { assert UsedAt(cs, hdr, addr, len, i); }
  }

  /** Giving block i back takes it away and changes no other. */
  lemma ReleaseUses(bs: seq<Block>, i: nat, hdr: nat, end: int, addr: int, len: int)
    requires Tiled(bs, hdr, end) && i + 1 < |bs| && bs[i].used
    ensures Used(Release(bs, i), hdr, addr, len) <==> Used(bs, hdr, addr, len) && addr != bs[i].addr
  {
    hide Release, Tiled;
    var cs := Release(bs, i);
    assert bs[|bs| - 1].used by { LastUsed(bs, hdr, end); }
    if j :| UsedAt(bs, hdr, addr, len, j) && addr != bs[i].addr {
      ReleaseKeepsBlock(bs, i, j);
      assert UsedAt(cs, hdr, addr, len, ReleaseIndex(bs, i, j));
    }
    if j :| UsedAt(cs, hdr, addr, len, j) {
      var j' := ReleasedFrom(bs, i, j);
      assert UsedAt(bs, hdr, addr, len, j');
      if addr == bs[i].addr { UsedOnce(bs, hdr, end, i, j'); }
    }
  }

  lemma LastUsed(bs: seq<Block>, hdr: nat, end: int)
    requires Tiled(bs, hdr, end)
    ensures bs[|bs| - 1].used
  {
  }

  /** Where a used block of the list after a release was before. */
  lemma ReleasedFrom(bs: seq<Block>, i: nat, j: nat) returns (j': nat)
    requires i + 1 < |bs| && bs[|bs| - 1].used && j + 1 < |Release(bs, i)| && Release(bs, i)[j].used
    ensures j' + 1 < |bs| && j' != i && bs[j'] == Release(bs, i)[j] && bs[j' + 1].addr == Release(bs, i)[j + 1].addr
  {
    hide Coalesce;
    var freed := Mark(bs, i, false);
    var lo := if i > 0 && !bs[i - 1].used then i - 1 else i;
    var hi := if !bs[i + 1].used then i + 2 else i + 1;
    CoalesceClosed(freed, i);
    j' := BeforeCut(freed, Release(bs, i), lo, hi, j);
  }

  lemma BeforeCut(bs: seq<Block>, cs: seq<Block>, lo: nat, hi: nat, j: nat) returns (j': nat)
    requires lo < hi < |bs| && cs == bs[..lo + 1] + bs[hi..] && j + 1 < |cs| && cs[j].used && !bs[lo].used
    ensures j' + 1 < |bs| && (j' < lo || hi <= j') && bs[j'] == cs[j] && bs[j' + 1] == cs[j + 1]
  {
    CutOut(bs, lo, hi, j);
    CutOut(bs, lo, hi, j + 1);
    j' := if j < lo then j else j - lo - 1 + hi;
  }

  lemma CutOut(bs: seq<Block>, lo: nat, hi: nat, j: nat)
    requires lo < hi <= |bs| && j < lo + 1 + |bs| - hi
    ensures (bs[..lo + 1] + bs[hi..])[j] == bs[if j <= lo then j else j - lo - 1 + hi]
  {
  }

  /** Cutting block i down changes its length and no other block. */
  lemma ShrinkUses(bs: seq<Block>, i: nat, size: nat, hdr: nat, end: int, addr: int, len: int)
    requires Tiled(bs, hdr, end) && i + 1 < |bs| && bs[i].used
    ensures Used(Shrink(bs, i, size, hdr), hdr, addr, len) <==>
            (Used(bs, hdr, addr, len) && addr != bs[i].addr) || (addr == bs[i].addr && len == size)
  {
    hide Shrink, Tiled;
    var cs := Shrink(bs, i, size, hdr);
    ShrinkClosed(bs, i, size, hdr);
    LastUsed(bs, hdr, end);
    var skip := if bs[i + 1].used then 1 else 0;
    if j :| UsedAt(bs, hdr, addr, len, j) && addr != bs[i].addr {
      assert UsedAt(cs, hdr, addr, len, if j < i then j else j + skip);
    }
    if addr == bs[i].addr && len == size { assert UsedAt(cs, hdr, addr, len, i); }
    if j :| UsedAt(cs, hdr, addr, len, j) && j != i {
      var j' := if j < i then j else j - skip;
      assert UsedAt(bs, hdr, addr, len, j');
      if addr == bs[i].addr { UsedOnce(bs, hdr, end, i, j'); }
    }
  }

  /** Lengthening block i into its free successor, whose header moves up to `at`, changes its length and no other. */
  lemma GrowUses(bs: seq<Block>, i: nat, at: int, hdr: nat, end: int, addr: int, len: int)
    requires Tiled(bs, hdr, end) && i + 2 < |bs| && bs[i].used && !bs[i + 1].used
    ensures Used(bs[i + 1 := Block(at, false)], hdr, addr, len) <==>
            (Used(bs, hdr, addr, len) && addr != bs[i].addr) || (addr == bs[i].addr && len == at - bs[i].addr - hdr)
  {
    hide Tiled;
    var cs := bs[i + 1 := Block(at, false)];
    if j :| UsedAt(bs, hdr, addr, len, j) && addr != bs[i].addr { assert UsedAt(cs, hdr, addr, len, j); }
    if addr == bs[i].addr && len == at - bs[i].addr - hdr { assert UsedAt(cs, hdr, addr, len, i); }
    if j :| UsedAt(cs, hdr, addr, len, j) && j != i {
      assert UsedAt(bs, hdr, addr, len, j);
      if addr == bs[i].addr { UsedOnce(bs, hdr, end, i, j); }
    }
  }

  /** A block list is determined by what is in use: the free blocks are the gaps, each in one piece. */
  lemma UsedDetermines(cs: seq<Block>, bs: seq<Block>, hdr: nat, end: int)
    requires WellFormed(cs, hdr, end) && WellFormed(bs, hdr, end) && SameUsed(cs, bs, hdr)
    ensures cs == bs
  {
    SameFrom(cs, bs, hdr, end, 0);
  }

  ghost predicate SameUsed(cs: seq<Block>, bs: seq<Block>, hdr: int) {
    forall addr, len :: Used(cs, hdr, addr, len) <==> Used(bs, hdr, addr, len)
  }

  lemma {:induction false} SameFrom(cs: seq<Block>, bs: seq<Block>, hdr: nat, end: int, k: nat)
    requires WellFormed(cs, hdr, end) && WellFormed(bs, hdr, end) && SameUsed(cs, bs, hdr)
    requires k < |cs| && k < |bs| && cs[..k] == bs[..k] && cs[k].addr == bs[k].addr
    ensures cs == bs
    decreases |cs| - k
  {
    hide WellFormed, SameUsed;
    var last := NextSame(cs, bs, hdr, end, k);
    if last {
      assert cs[..k] + [cs[k]] == cs && bs[..k] + [bs[k]] == bs;
    } else {
      assert cs[..k + 1] == cs[..k] + [cs[k]] && bs[..k + 1] == bs[..k] + [bs[k]];
      SameFrom(cs, bs, hdr, end, k + 1);
    }
  }

  lemma NextSame(cs: seq<Block>, bs: seq<Block>, hdr: nat, end: int, k: nat) returns (last: bool)
    requires WellFormed(cs, hdr, end) && WellFormed(bs, hdr, end) && SameUsed(cs, bs, hdr)
    requires k < |cs| && k < |bs| && cs[k].addr == bs[k].addr
    ensures cs[k] == bs[k]
    ensures if last then k + 1 == |cs| == |bs|
            else k + 1 < |cs| && k + 1 < |bs| && cs[k + 1].addr == bs[k + 1].addr
  {
    last := k + 1 == |cs|;
    if last {
      UsedOnce(bs, hdr, end, k, |bs| - 1);
    } else {
      if k + 1 == |bs| { UsedOnce(cs, hdr, end, k, |cs| - 1); }
      if cs[k].used {
        SameNext(cs, bs, hdr, end, k);
      } else if bs[k].used {
        SameNext(bs, cs, hdr, end, k);
      } else {
        NoLater(cs, bs, hdr, end, k);
        NoLater(bs, cs, hdr, end, k);
      }
    }
  }

  lemma SameNext(cs: seq<Block>, bs: seq<Block>, hdr: nat, end: int, k: nat)
    requires Tiled(bs, hdr, end) && SameUsed(cs, bs, hdr)
    requires k + 1 < |cs| && k + 1 < |bs| && cs[k].addr == bs[k].addr && cs[k].used
    ensures bs[k].used && bs[k + 1].addr == cs[k + 1].addr
  {
    hide Tiled;
    var addr, len := cs[k].addr, Payload(cs, k, hdr);
    assert UsedAt(cs, hdr, addr, len, k) && Used(cs, hdr, addr, len) && Used(bs, hdr, addr, len);
    var j :| UsedAt(bs, hdr, addr, len, j);
    UsedOnce(bs, hdr, end, k, j);
  }

  /** The used block behind a gap does not come earlier in one list than in the other. */
  lemma NoLater(cs: seq<Block>, bs: seq<Block>, hdr: nat, end: int, k: nat)
    requires WellFormed(cs, hdr, end) && WellFormed(bs, hdr, end) && SameUsed(cs, bs, hdr)
    requires k + 1 < |cs| && k + 1 < |bs| && cs[k].addr == bs[k].addr && !cs[k].used
    ensures bs[k + 1].addr <= cs[k + 1].addr
  {
    assert !BothFree(cs, k);
    var addr := cs[k + 1].addr;
    if k + 2 < |cs| {
      var len := Payload(cs, k + 1, hdr);
      assert UsedAt(cs, hdr, addr, len, k + 1) && Used(cs, hdr, addr, len) && Used(bs, hdr, addr, len);
      var j :| UsedAt(bs, hdr, addr, len, j);
      assert Payload(cs, k, hdr) > 0;
      if j < k { Ordered(bs, hdr, end, j, k); }
      if k + 1 < j { Ordered(bs, hdr, end, k + 1, j); }
    } else if k + 2 < |bs| {
      Ordered(bs, hdr, end, k + 1, |bs| - 1);
    }
  }
}
