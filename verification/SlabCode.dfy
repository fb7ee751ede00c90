/** The code of slab.c above its page allocator: zone headers, zone_array and zone_free linked by z_next, and the free
    chunks of a zone linked by c_next. */
module SlabCode {
  import opened Ring
  import opened Chains
  import opened PageList
  import opened ZoneSize
  import opened Slab

  /** A zone header as it lies in memory, but for its z_next. */
  datatype Header = Header(index: int, chunk: int, base: int, nmax: int, nfree: int, uindex: int, freechunk: int)

  function HeaderFor(zn: Zone, freechunk: int): Header {
    Header(zn.index, zn.chunk, zn.base, zn.nmax, zn.nfree, zn.uindex, freechunk)
  }

  // ----- headers and chunks

  ghost predicate HeaderOk(headers: map<int, Header>, cNext: map<int, int>, zn: Zone, z: int) {
    z in headers && headers[z] == HeaderFor(zn, headers[z].freechunk) && Chained(cNext, headers[z].freechunk, zn.freed)
  }

  /** Every zone in use has its header, whose chunk list runs through its free chunks. */
  ghost predicate HeadersOk(headers: map<int, Header>, cNext: map<int, int>, zones: map<int, Zone>, spare: seq<int>) {
    forall z :: z in zones && z !in spare ==> HeaderOk(headers, cNext, zones[z], z)
  }

  /** An address belongs to one zone. */
  lemma IssuedOnce(s: State, z: int, y: int, a: int)
    requires Inv(s) && z in s.zones && z !in s.spare && y in s.zones && y !in s.spare
    requires Issued(s.zones[z], a) && Issued(s.zones[y], a)
    ensures z == y
  {
    hide Inv, ZoneOk;
    var i :| IsChunk(s.zones[z], a, i);
    var j :| IsChunk(s.zones[y], a, j);
    ZoneAt(s, z);
    ZoneAt(s, y);
    InvPages(s);
    ChunkInZone(s.zones[z], z, s.zonePages, a, i);
    ChunkInZone(s.zones[y], y, s.zonePages, a, j);
    ZonePages(s, z);
    ZonePages(s, y);
    if z != y { BlocksApart(s, z, y); }
  }

  lemma ZonePages(s: State, z: int)
    requires Inv(s) && z in s.zones
    ensures z in s.blocks && s.blocks[z] == s.zonePages && 0 <= z
  {
    ZonesInBlocks(s);
    BlocksPositive(s);
  }

  /** Writing c_next in a chunk of zone z leaves the chunk lists of the other zones alone. */
  lemma GiveHeaders(s: State, headers: map<int, Header>, cNext: map<int, int>, z: int, a: int)
    requires Inv(s) && HeadersOk(headers, cNext, s.zones, s.spare) && SmallLive(s, z, a)
    ensures z in headers
    ensures var h := headers[z].(nfree := headers[z].nfree + 1, freechunk := a);
            HeadersOk(headers[z := h], cNext[a := headers[z].freechunk], s.zones[z := GiveChunk(s.zones[z], a)],
                      s.spare)
  {
    hide Inv, Chained;
    assert HeaderOk(headers, cNext, s.zones[z], z);
    var h := headers[z].(nfree := headers[z].nfree + 1, freechunk := a);
    var headers', cNext', zones' := headers[z := h], cNext[a := headers[z].freechunk],
      s.zones[z := GiveChunk(s.zones[z], a)];
    PushChain(cNext, headers[z].freechunk, s.zones[z].freed, a);
    forall y | y in zones' && y !in s.spare ensures HeaderOk(headers', cNext', zones'[y], y) {
      assert HeaderOk(headers, cNext, s.zones[y], y);
      if y != z {
        FreedElsewhere(s, z, y, a);
        FrameChain(cNext, headers[y].freechunk, s.zones[y].freed, a, headers[z].freechunk);
      }
    }
  }

  lemma FreedElsewhere(s: State, z: int, y: int, a: int)
    requires Inv(s) && SmallLive(s, z, a) && y in s.zones && y !in s.spare && y != z
    ensures a !in s.zones[y].freed
  {
    hide Inv;
    ZoneAt(s, y);
    if Issued(s.zones[y], a) { IssuedOnce(s, z, y, a); }
  }

  /** A new header for one zone. */
  lemma PutHeader(headers: map<int, Header>, cNext: map<int, int>, zones: map<int, Zone>, spare: seq<int>,
                  spare': seq<int>, z: int, h: Header, zn: Zone)
    requires HeadersOk(headers, cNext, zones, spare) && h == HeaderFor(zn, h.freechunk)
    requires Chained(cNext, h.freechunk, zn.freed)
    requires forall y :: y != z && y in spare ==> y in spare'
    ensures HeadersOk(headers[z := h], cNext, zones[z := zn], spare')
  {
    var headers', zones' := headers[z := h], zones[z := zn];
    forall y | y in zones' && y !in spare' ensures HeaderOk(headers', cNext, zones'[y], y) {
      if y != z { assert HeaderOk(headers, cNext, zones[y], y); }
    }
  }

  // ----- lists of zones

  ghost predicate Linked(zNext: map<int, int>, heads: seq<int>, free: int, partial: seq<seq<int>>, spare: seq<int>) {
    && |heads| == |partial| && Chained(zNext, free, spare)
    && forall i :: 0 <= i < |heads| ==> Chained(zNext, heads[i], partial[i])
  }

  ghost predicate InList(partial: seq<seq<int>>, i: int, z: int) { 0 <= i < |partial| && z in partial[i] }

  /** No zone is in two lists, or twice in one. */
  ghost predicate ListsApart(partial: seq<seq<int>>, spare: seq<int>) {
    && Distinct(spare) && (forall z :: z in spare ==> 0 <= z)
    && (forall i :: 0 <= i < |partial| ==> Distinct(partial[i]))
    && (forall i, z :: InList(partial, i, z) ==> 0 <= z && z !in spare)
    && (forall i, j, z :: InList(partial, i, z) && InList(partial, j, z) ==> i == j)
  }

  lemma InvApart(s: State)
    requires Inv(s)
    ensures ListsApart(s.partial, s.spare)
  {
    forall i, z | InList(s.partial, i, z) ensures Listed(s.zones, s.spare, z, i) {
      assert ListOk(s.zones, s.partial, s.spare, i);
    }
    forall i | 0 <= i < |s.partial| ensures Distinct(s.partial[i]) { assert ListOk(s.zones, s.partial, s.spare, i); }
    forall z | z in s.zones ensures 0 <= z { ZonePages(s, z); }
  }

  ghost predicate Unlisted(partial: seq<seq<int>>, spare: seq<int>, z: int) {
    z !in spare && forall i :: !InList(partial, i, z)
  }

  /** Writing z_next of a zone that is at most in list i leaves the other lists alone. */
  lemma OthersKept(zNext: map<int, int>, heads: seq<int>, free: int, partial: seq<seq<int>>, spare: seq<int>, i: int,
                   z: int, v: int)
    requires Linked(zNext, heads, free, partial, spare) && z !in spare
    requires forall j :: InList(partial, j, z) ==> j == i
    ensures Chained(zNext[z := v], free, spare)
    ensures forall j :: 0 <= j < |heads| && j != i ==> Chained(zNext[z := v], heads[j], partial[j])
  {
    hide Chained;
    FrameChain(zNext, free, spare, z, v);
    forall j | 0 <= j < |heads| && j != i ensures Chained(zNext[z := v], heads[j], partial[j]) {
      assert !InList(partial, j, z);
      FrameChain(zNext, heads[j], partial[j], z, v);
    }
  }

  class SlabHeap {
    const pages: PageAllocator
    const zonePages: nat
    var usage: map<int, Usage>
    var headers: map<int, Header>
    var cNext: map<int, int>
    var zNext: map<int, int>
    var zoneArray: seq<int>
    var zoneFree: int
    var zoneFreeCnt: nat
    ghost var blocks: map<int, nat>
    ghost var zones: map<int, Zone>
    ghost var partial: seq<seq<int>>
    ghost var spare: seq<int>

    ghost function View(): State
      reads this, pages
    {
      State(zonePages, pages.list, blocks, usage, zones, partial, spare)
    }

    ghost predicate Lists()
      reads this
    {
      zoneFreeCnt == |spare| && Linked(zNext, zoneArray, zoneFree, partial, spare)
    }

    ghost predicate Stored()
      reads this
    {
      Lists() && HeadersOk(headers, cNext, zones, spare)
    }

    ghost predicate Valid()
      reads this, pages
    {
      pages.Valid() && Stored() && Inv(View())
    }

    constructor (p: PageAllocator, n: nat)
      requires p.Valid() && n >= 8
      ensures Valid() && pages == p && View() == Init(n, p.list)
    {
      pages, zonePages := p, n;
      usage, headers, cNext, zNext := map[], map[], map[], map[];
      zoneArray, zoneFree, zoneFreeCnt := seq(NZONES, _ => NIL), NIL, 0;
      blocks, zones, partial, spare := map[], map[], seq(NZONES, _ => []), [];
      new;
      InitOk(n, p.list);
    }

    // ----- rt_malloc

    method Malloc(size: nat) returns (a: int)
      requires Valid()
      modifies this, pages
      ensures Valid() && (View(), a) == Slab.Malloc(old(View()), size)
    {
      hide Inv, MallocLarge, MallocZone, MallocChunk, ZoneIndex, Linked, HeadersOk;
      if size == 0 {
        return NULL;
      }
      MallocOk(View(), size);
      InvPages(View());
      if size >= Limit(zonePages) {
        a := LargeBlock(size);
        return;
      }
      ZoneIndexFits(size);
      var (i, chunk) := ZoneIndex(size);
      HeadIs(View(), zNext, zoneArray, zoneFree, i);
      if zoneArray[i] != NIL {
        FirstListed(View(), i);
        a := ChunkOf(i);
      } else {
        a := ZoneFor(i, chunk);
      }
    }

    method LargeBlock(size: nat) returns (a: int)
      requires pages.Valid() && size > 0
      modifies `usage, `blocks, pages
      ensures pages.Valid() && (View(), a) == MallocLarge(old(View()), size)
    {
      var n := RoundTo(size, PAGE) / PAGE;
      AllocTakes(pages.list, 0, n);
      var b := pages.AllocPages(n);
      if b == NULL {
        return NULL;
      }
      blocks := blocks[b := n];
      usage := usage[b := Large(n)];
      return b * PAGE;
    }

    /** A chunk of the first zone in the list, which is taken off the list when it was the last. */
    method ChunkOf(i: nat) returns (a: int)
      requires Valid() && i < |partial| && partial[i] != [] && Listed(zones, spare, partial[i][0], i)
      modifies `headers, `zNext, `zoneArray, `zones, `partial
      ensures Stored() && (View(), a) == MallocChunk(old(View()), i)
    {
      hide Inv, Linked, HeadersOk, Chained;
      InvApart(View());
      HeadIs(View(), zNext, zoneArray, zoneFree, i);
      var z := zoneArray[i];
      a := TakeFrom(z);
      if headers[z].nfree == 0 {
        PopPartial(i);
      }
    }

    /** A chunk never used before, or the first of the chunk list. */
    method TakeFrom(z: int) returns (a: int)
      requires Stored() && Inv(View()) && z in zones && z !in spare && zones[z].nfree > 0
      modifies `headers, `zones
      ensures Stored() && z in zones && zones == old(zones)[z := TakeChunk(old(zones)[z]).0]
      ensures a == TakeChunk(old(zones)[z]).1
      ensures z in headers && headers[z].nfree == zones[z].nfree
    {
      hide Inv, Linked, HeadersOk, Chained;
      HasChunk(View(), z);
      HeaderAt(headers, cNext, zones, spare, z);
      var h := headers[z];
      h := h.(nfree := h.nfree - 1);
      ghost var zn := TakeChunk(zones[z]).0;
      if h.uindex + 1 != h.nmax {
        h := h.(uindex := h.uindex + 1);
        a := h.base + h.uindex * h.chunk;
      } else {
        PopChain(cNext, h.freechunk, zones[z].freed);
        a := h.freechunk;
        h := h.(freechunk := cNext[h.freechunk]);
      }
      PutHeader(headers, cNext, zones, spare, spare, z, h, zn);
      headers := headers[z := h];
      zones := zones[z := zn];
    }

    /** A new zone from zone_free or from the page allocator. */
    method ZoneFor(i: nat, chunk: nat) returns (a: int)
      requires Valid() && i < |partial| && chunk > 0
      modifies this, pages
      ensures pages.Valid() && Stored() && (View(), a) == MallocZone(old(View()), i, chunk)
    {
      hide Inv, Linked, HeadersOk, Chained, SetPages, NewZone, Alloc, OkFrom, PageList.Chain, PageList.Free, Unlisted;
      InvApart(View());
      SpareHead(View(), zNext, zoneArray, zoneFree);
      var z;
      if zoneFree != NIL {
        SpareUnlisted(View());
        z := PopSpare();
      } else {
        z := NewPages();
        if z == NULL {
          return NULL;
        }
      }
      a := OpenAt(z, i, chunk);
      Overwrites(old(zones), z, NewZone(z, i, chunk, zonePages));
    }

    /** Pages for a zone from the page allocator. */
    method NewPages() returns (z: int)
      requires Valid()
      modifies `blocks, `usage, pages
      ensures pages.Valid() && (pages.list, z) == Alloc(old(pages.list), zonePages)
      ensures z == NULL ==> pages.list == old(pages.list) && blocks == old(blocks) && usage == old(usage)
      ensures z != NULL ==> blocks == old(blocks)[z := zonePages] && usage == SetPages(old(usage), z, zonePages, true)
      ensures z != NULL ==> Unlisted(partial, spare, z) && HeadersOk(headers, cNext, zones, [z] + spare)
    {
      hide Inv, Linked, HeadersOk, SetPages, Alloc, OkFrom, PageList.Chain, PageList.Free;
      AllocTakes(pages.list, 0, zonePages);
      NewUnlisted(View());
      z := pages.AllocPages(zonePages);
      if z != NULL {
        blocks := blocks[z := zonePages];
        MarkPages(z, true);
        FewerHeaders(headers, cNext, zones, spare, [z] + spare);
      }
    }

    method OpenAt(z: int, i: nat, chunk: nat) returns (a: int)
      requires Lists() && i < |partial| && chunk > 0 && Unlisted(partial, spare, z)
      requires HeadersOk(headers, cNext, zones, [z] + spare)
      modifies `headers, `zNext, `zoneArray, `zones, `partial
      ensures Stored() && a == NewZone(z, i, chunk, zonePages).base
      ensures zones == old(zones)[z := NewZone(z, i, chunk, zonePages)]
      ensures partial == old(partial)[i := [z] + old(partial)[i]]
    {
      hide Linked, HeadersOk, Chained;
      ghost var zn := NewZone(z, i, chunk, zonePages);
      var off := Offset(chunk);
      var nmax := Chunks(ZoneBytes(zonePages), chunk);
      var h := Header(i, chunk, z * PAGE + off, nmax, nmax - 1, 0, NIL);
      NoChunks(cNext);
      PutHeader(headers, cNext, zones, [z] + spare, spare, z, h, zn);
      headers := headers[z := h];
      zones := zones[z := zn];
      PushPartial(i, z);
      return h.base;
    }

    /** Note in memusage what the pages of a zone are used for. */
    method MarkPages(z: int, small: bool)
      modifies `usage
      ensures usage == SetPages(old(usage), z, zonePages, small)
    {
      var off := 0;
      while off < zonePages
        invariant 0 <= off <= zonePages && usage == SetPages(old(usage), z, off, small)
      {
        usage := usage[z + off := if small then Small(off) else Unused];
        off := off + 1;
      }
    }

    // ----- rt_free

    method Free(a: int)
      requires Valid() && exists n :: Live(View(), a, n)
      modifies this, pages
      ensures Valid() && View() == FreeAt(old(View()), a)
    {
      hide Inv, FreeLarge, FreeSmall, Live, Linked, HeadersOk;
      FreeOk(View(), a);
      UsageFinds(View(), a);
      var p := a / PAGE;
      if usage[p].Large? {
        LargeNotFree(View(), p);
        FreePages(p);
      } else {
        FreeToZone(p - usage[p].off, a);
      }
    }

    method FreePages(b: int)
      requires pages.Valid() && b in usage && usage[b].Large? && usage[b].count > 0 && 0 <= b
      requires forall p :: Within(p, b, usage[b].count) ==> !PageList.Free(pages.list, p)
      modifies `usage, `blocks, pages
      ensures pages.Valid() && View() == FreeLarge(old(View()), b)
    {
      var n := usage[b].count;
      usage := usage[b := Large(0)];
      pages.ReleasePages(b, n);
      blocks := blocks - {b};
    }

    /** Back to the zone, which may then be put aside, and one zone too many goes back to the page allocator. */
    method FreeToZone(z: int, a: int)
      requires Valid() && SmallLive(View(), z, a) && 0 <= zones[z].index < |partial|
      modifies this, pages
      ensures pages.Valid() && Stored() && View() == FreeSmall(old(View()), z, a)
    {
      hide Inv, Linked, HeadersOk, LiveIn, FreeChunk, Retire, Trim;
      FreeChunkOk(View(), z, a);
      GiveBack(z, a);
      InvPages(View());
      ZoneListed(View(), z);
      var i := headers[z].index;
      var only := OnlyZone(z, i);
      if headers[z].nfree == headers[z].nmax && !only {
        AllFreeMeansNoneLive(zones[z], z, zonePages);
        PutAside(z, i);
      }
    }

    /** The chunk goes to the head of its zone's list, and a full zone is listed again. */
    method GiveBack(z: int, a: int)
      requires Valid() && SmallLive(View(), z, a) && 0 <= zones[z].index < |partial|
      modifies `headers, `cNext, `zNext, `zoneArray, `zones, `partial
      ensures Stored() && View() == FreeChunk(old(View()), z, a)
      ensures z in zones && z in headers && headers[z] == HeaderFor(zones[z], headers[z].freechunk)
    {
      hide Inv, Linked, HeadersOk, LiveIn, Chained, OkFrom, PageList.Chain;
      ghost var s := View();
      GiveHeaders(s, headers, cNext, z, a);
      HeaderAt(headers, cNext, zones, spare, z);
      FullUnlisted(s, z);
      var h := headers[z];
      cNext := cNext[a := h.freechunk];
      h := h.(freechunk := a);
      if h.nfree == 0 {
        PushPartial(h.index, z);
      }
      h := h.(nfree := h.nfree + 1);
      headers := headers[z := h];
      zones := zones[z := GiveChunk(zones[z], a)];
    }

    /** Whether z is the only zone in its list: it has no z_next and is the first. */
    method OnlyZone(z: int, i: int) returns (only: bool)
      requires Lists() && Inv(View()) && 0 <= i < |partial| && z in partial[i]
      ensures only <==> partial[i] == [z]
    {
      hide Inv, Chained;
      InvApart(View());
      MemberLink(zNext, zoneArray[i], partial[i], z);
      only := zNext[z] == NIL && zoneArray[i] == z;
      OnlyIs(partial, spare, i, z, zNext[z], zoneArray[i]);
    }

    method PutAside(z: int, i: int)
      requires Valid() && Idle(View(), z) && i == zones[z].index
      modifies this, pages
      ensures pages.Valid() && Stored() && View() == Trim(Retire(old(View()), z))
    {
      hide Inv, Linked, HeadersOk, LiveIn, Chained, Drop, Trim, PageList.Free;
      ghost var s := View();
      InvApart(s);
      ZoneListed(s, z);
      InvPages(s);
      ZonePages(s, z);
      LargeNotFree(s, z);
      CutPartial(i, z);
      CutUnlisted(s, z);
      PushSpare(z);
      TrimSpare(z);
    }

    /** One spare zone too many goes back to the page allocator. */
    method TrimSpare(z: int)
      requires pages.Valid() && Lists() && spare != [] && spare[0] == z && HeadersOk(headers, cNext, zones, spare[1..])
      requires 0 <= z && zonePages > 0 && forall p :: Within(p, z, zonePages) ==> !PageList.Free(pages.list, p)
      modifies this, pages
      ensures pages.Valid() && Stored() && View() == Trim(old(View()))
    {
      hide Linked, HeadersOk, SetPages, PageList.Free, OkFrom, PageList.Chain, Release;
      FewerHeaders(headers, cNext, zones, spare[1..], spare);
      if zoneFreeCnt > THRESHOLD {
        var y := PopSpare();
        MarkPages(y, false);
        pages.ReleasePages(y, zonePages);
        blocks := blocks - {y};
        NoHeader(headers, cNext, zones, spare, y);
        zones := zones - {y};
      }
    }

    // ----- the lists

    /** The first zone of a list is taken off. */
    method PopPartial(i: nat)
      requires Lists() && ListsApart(partial, spare) && i < |partial| && partial[i] != []
      modifies `zNext, `zoneArray, `partial
      ensures Lists() && partial == old(partial)[i := old(partial)[i][1..]]
    {
      hide Chained;
      var z := zoneArray[i];
      PopChain(zNext, z, partial[i]);
      assert InList(partial, i, z);
      DistinctTail(partial[i]);
      OthersKept(zNext, zoneArray, zoneFree, partial, spare, i, z, NIL);
      zoneArray := zoneArray[i := zNext[z]];
      FrameChain(zNext, zoneArray[i], partial[i][1..], z, NIL);
      zNext := zNext[z := NIL];
      partial := partial[i := partial[i][1..]];
    }

    method PushPartial(i: nat, z: int)
      requires Lists() && i < |partial| && Unlisted(partial, spare, z)
      modifies `zNext, `zoneArray, `partial
      ensures Lists() && partial == old(partial)[i := [z] + old(partial)[i]]
    {
      hide Chained;
      assert !InList(partial, i, z);
      PushChain(zNext, zoneArray[i], partial[i], z);
      OthersKept(zNext, zoneArray, zoneFree, partial, spare, i, z, zoneArray[i]);
      zNext := zNext[z := zoneArray[i]];
      zoneArray := zoneArray[i := z];
      partial := partial[i := [z] + partial[i]];
    }

    /** Walk to the link that leads to z: it is in zone_array, or in the zone before. */
    method FindLink(i: nat, z: int) returns (pz: int, ghost k: nat)
      requires Lists() && ListsApart(partial, spare) && i < |partial| && z in partial[i]
      ensures k < |partial[i]| && partial[i][k] == z && k == PosOf(partial[i], z)
      ensures pz == (if k == 0 then NIL else partial[i][k - 1]) && (pz == NIL <==> k == 0)
    {
      hide Chained, Distinct;
      ghost var list := partial[i];
      k := 0;
      pz := NIL;
      var at := zoneArray[i];
      ChainStarts(zNext, zoneArray[i], list);
      assert list[0..] == list;
      while at != z
        invariant 0 <= k < |list| && at == list[k] && z in list[k..] && PosOf(list, z) == k + PosOf(list[k..], z)
        invariant pz == if k == 0 then NIL else list[k - 1]
        decreases |list| - k
      {
        assert list[k..][1..] == list[k + 1..];
        NextOf(zNext, zoneArray[i], list, k);
        pz := at;
        at := zNext[at];
        k := k + 1;
      }
      NonNegative(partial, spare, i, k);
    }

    /** Lead the link that leads to z on to the zone behind it. */
    method CutPartial(i: nat, z: int)
      requires Lists() && ListsApart(partial, spare) && i < |partial| && z in partial[i]
      modifies `zNext, `zoneArray, `partial
      ensures Lists() && partial == old(partial)[i := Drop(old(partial)[i], z)]
    {
      hide Chained, Distinct, PosOf;
      var pz;
      ghost var list, k := partial[i], 0;
      pz, k := FindLink(i, z);
      CutChain(zNext, zoneArray[i], list, k);
      var v := zNext[z];
      if pz == NIL {
        zoneArray := zoneArray[i := v];
      } else {
        assert InList(partial, i, pz);
        OthersKept(zNext, zoneArray, zoneFree, partial, spare, i, pz, v);
        zNext := zNext[pz := v];
      }
      partial := partial[i := Without(list, k)];
    }

    method PushSpare(z: int)
      requires Lists() && Unlisted(partial, spare, z)
      modifies `zNext, `zoneFree, `zoneFreeCnt, `spare
      ensures Lists() && spare == [z] + old(spare)
    {
      hide Chained;
      PushChain(zNext, zoneFree, spare, z);
      OthersKept(zNext, zoneArray, zoneFree, partial, spare, -1, z, zoneFree);
      zNext := zNext[z := zoneFree];
      zoneFree := z;
      zoneFreeCnt := zoneFreeCnt + 1;
      spare := [z] + spare;
    }

    method PopSpare() returns (z: int)
      requires Lists() && spare != []
      modifies `zoneFree, `zoneFreeCnt, `spare
      ensures Lists() && z == old(spare)[0] && spare == old(spare)[1..]
    {
      hide Chained;
      PopChain(zNext, zoneFree, spare);
      z := zoneFree;
      zoneFree := zNext[z];
      zoneFreeCnt := zoneFreeCnt - 1;
      spare := spare[1..];
    }
  }

  lemma HeadIs(s: State, zNext: map<int, int>, heads: seq<int>, free: int, i: int)
    requires Inv(s) && Linked(zNext, heads, free, s.partial, s.spare) && 0 <= i < |s.partial|
    ensures |heads| == |s.partial|
    ensures (heads[i] == NIL <==> s.partial[i] == []) && (s.partial[i] != [] ==> heads[i] == s.partial[i][0])
  {
    InvApart(s);
    assert Chained(zNext, heads[i], s.partial[i]);
    if s.partial[i] != [] { assert InList(s.partial, i, s.partial[i][0]); }
  }

  lemma SpareHead(s: State, zNext: map<int, int>, heads: seq<int>, free: int)
    requires Inv(s) && Linked(zNext, heads, free, s.partial, s.spare)
    ensures free == NIL <==> s.spare == []
  {
    InvApart(s);
    FirstNil(zNext, free, s.spare);
  }

  lemma HeaderAt(headers: map<int, Header>, cNext: map<int, int>, zones: map<int, Zone>, spare: seq<int>, z: int)
    requires HeadersOk(headers, cNext, zones, spare) && z in zones && z !in spare
    ensures HeaderOk(headers, cNext, zones[z], z)
  {
  }

  lemma FewerHeaders(headers: map<int, Header>, cNext: map<int, int>, zones: map<int, Zone>, spare: seq<int>,
                     spare': seq<int>)
    requires HeadersOk(headers, cNext, zones, spare) && forall y :: y in spare ==> y in spare'
    ensures HeadersOk(headers, cNext, zones, spare')
  {
  }

  /** A zone that says it has a free chunk has one. */
  lemma HasChunk(s: State, z: int)
    requires Inv(s) && z in s.zones && z !in s.spare && s.zones[z].nfree > 0
    ensures s.zones[z].uindex + 1 != s.zones[z].nmax || s.zones[z].freed != []
  {
    ZoneAt(s, z);
  }

  lemma Overwrites(zones: map<int, Zone>, z: int, zn: Zone)
    ensures (zones - {z})[z := zn] == zones[z := zn]
  {
  }

  lemma NoChunks(cNext: map<int, int>)
    ensures Chained(cNext, NIL, [])
  {
  }

  lemma SpareUnlisted(s: State)
    requires Inv(s) && s.spare != []
    ensures Unlisted(s.partial, s.spare[1..], s.spare[0]) && [s.spare[0]] + s.spare[1..] == s.spare
  {
    InvApart(s);
    DistinctTail(s.spare);
    forall i ensures !InList(s.partial, i, s.spare[0]) { }
  }

  /** A zone that comes from the page allocator is in no list. */
  lemma NewUnlisted(s: State)
    requires Inv(s)
    ensures var z := Alloc(s.pages, s.zonePages).1; z != NULL ==> z !in s.zones && Unlisted(s.partial, s.spare, z)
  {
    var z := Alloc(s.pages, s.zonePages).1;
    if z != NULL {
      GetBlock(s.pages, s.blocks, s.zonePages);
      ZonesInBlocks(s);
      forall i ensures !InList(s.partial, i, z) {
        if 0 <= i < |s.partial| {
          assert ListOk(s.zones, s.partial, s.spare, i);
          assert !Listed(s.zones, s.spare, z, i);
        }
      }
    }
  }

  lemma LargeNotFree(s: State, b: int)
    requires Inv(s) && b in s.blocks
    ensures 0 <= b && forall p :: Within(p, b, s.blocks[b]) ==> !PageList.Free(s.pages, p)
  {
    assert BlockOk(s.pages, b, s.blocks[b]);
  }

  /** A zone in use is in the list of its class exactly if it has a free chunk. */
  lemma FullUnlisted(s: State, z: int)
    requires Inv(s) && z in s.zones && z !in s.spare
    ensures s.zones[z].nfree == 0 ==> Unlisted(s.partial, s.spare, z)
  {
    forall i | 0 <= i < |s.partial| ensures InList(s.partial, i, z) <==> Listed(s.zones, s.spare, z, i) {
      assert ListOk(s.zones, s.partial, s.spare, i);
    }
  }

  lemma ZoneListed(s: State, z: int)
    requires Inv(s) && z in s.zones && z !in s.spare && s.zones[z].nfree > 0
    ensures ZoneOk(s.zones[z], z, s.zonePages) && 0 <= s.zones[z].index < |s.partial|
    ensures z in s.partial[s.zones[z].index]
  {
    ZoneAt(s, z);
    var i := s.zones[z].index;
    assert ListOk(s.zones, s.partial, s.spare, i) && Listed(s.zones, s.spare, z, i);
  }

  lemma CutUnlisted(s: State, z: int)
    requires Inv(s) && Idle(s, z)
    ensures var i := s.zones[z].index; Unlisted(s.partial[i := Drop(s.partial[i], z)], s.spare, z)
  {
    hide Drop, Distinct;
    InvApart(s);
    ZoneListed(s, z);
    var i := s.zones[z].index;
    DropKeeps(s.partial[i], z);
    assert InList(s.partial, i, z);
    var partial' := s.partial[i := Drop(s.partial[i], z)];
    forall j ensures !InList(partial', j, z) {
      assert j != i && InList(partial', j, z) ==> InList(s.partial, j, z);
    }
  }

  lemma NoHeader(headers: map<int, Header>, cNext: map<int, int>, zones: map<int, Zone>, spare: seq<int>, z: int)
    requires HeadersOk(headers, cNext, zones, spare)
    ensures HeadersOk(headers, cNext, zones - {z}, spare)
  {
    var zones' := zones - {z};
    forall y | y in zones' && y !in spare ensures HeaderOk(headers, cNext, zones'[y], y) {
      assert HeaderOk(headers, cNext, zones[y], y);
    }
  }

  lemma MemberLink(next: map<int, int>, first: int, list: seq<int>, z: int)
    requires Chained(next, first, list) && z in list
    ensures z in next && next[z] == NodeAt(list, PosOf(list, z) + 1) && first == list[0]
  {
    NextOf(next, first, list, PosOf(list, z));
  }

  lemma OnlyIs(partial: seq<seq<int>>, spare: seq<int>, i: int, z: int, v: int, first: int)
    requires ListsApart(partial, spare) && 0 <= i < |partial| && z in partial[i]
    requires v == NodeAt(partial[i], PosOf(partial[i], z) + 1) && first == partial[i][0]
    ensures v == NIL && first == z <==> partial[i] == [z]
  {
    var list, k := partial[i], PosOf(partial[i], z);
    forall j | 0 <= j < |list| ensures list[j] != NIL { assert InList(partial, i, list[j]); }
    if first == z { assert k == 0; }
  }

  lemma ChainStarts(next: map<int, int>, first: int, list: seq<int>)
    requires Chained(next, first, list) && list != []
    ensures first == list[0]
  {
  }

  lemma NonNegative(partial: seq<seq<int>>, spare: seq<int>, i: int, k: nat)
    requires ListsApart(partial, spare) && 0 <= i < |partial| && k < |partial[i]|
    ensures k > 0 ==> partial[i][k - 1] != NIL
  {
    if k > 0 { assert InList(partial, i, partial[i][k - 1]); }
  }
}
