/** Where the pages of the slab allocator go (slab.c): none is lost or made up, and what nobody uses any more goes
    back to where others can get it. */
module SlabPages {
  import opened Ring
  import opened PageList
  import opened ZoneSize
  import opened Slab

  // ----- no page is lost

  /** Page p belongs to a zone or a large block. */
  ghost predicate InUse(s: State, p: int) { exists b :: PageOf(s, p, b) }

  ghost predicate PageOf(s: State, p: int, b: int) { b in s.blocks && Within(p, b, s.blocks[b]) }

  /** Page p is the allocator's, free or in use. */
  ghost predicate Owned(s: State, p: int) { PageList.Free(s.pages, p) || InUse(s, p) }

  lemma TakeConserves(s: State, s': State, n: nat, p: int)
    requires Inv(s) && Alloc(s.pages, n).1 != NULL
    requires var (rest, b) := Alloc(s.pages, n); s'.pages == rest && s'.blocks == s.blocks[b := n]
    ensures Owned(s', p) <==> Owned(s, p)
  {
    hide Alloc, UsageOk, ZonesOk, ListsOk, PageList.Free;
    var (rest, b) := Alloc(s.pages, n);
    AllocTakes(s.pages, 0, n);
    GetBlock(s.pages, s.blocks, n);
    if c :| PageOf(s, p, c) { assert PageOf(s', p, c); }
    if c :| PageOf(s', p, c) { assert c != b ==> PageOf(s, p, c); }
    if Within(p, b, n) { assert PageOf(s', p, b); }
  }

  lemma GiveConserves(s: State, s': State, b: int, p: int)
    requires Inv(s) && b in s.blocks && s'.pages == Release(s.pages, b, s.blocks[b]) && s'.blocks == s.blocks - {b}
    ensures Owned(s', p) <==> Owned(s, p)
    ensures PageList.Free(s'.pages, p) <==> PageList.Free(s.pages, p) || Within(p, b, s.blocks[b])
  {
    hide Release, UsageOk, ZonesOk, ListsOk, PageList.Free;
    assert BlockOk(s.pages, b, s.blocks[b]);
    ReleaseAdds(s.pages, 0, b, s.blocks[b]);
    if c :| PageOf(s, p, c) { assert c != b ==> PageOf(s', p, c); }
    if c :| PageOf(s', p, c) { assert PageOf(s, p, c); }
    if Within(p, b, s.blocks[b]) { assert PageOf(s, p, b); }
  }

  lemma SameConserves(s: State, s': State, p: int)
    requires s'.pages == s.pages && s'.blocks == s.blocks
    ensures Owned(s', p) <==> Owned(s, p)
  {
    if c :| PageOf(s, p, c) { assert PageOf(s', p, c); }
    if c :| PageOf(s', p, c) { assert PageOf(s, p, c); }
  }

  lemma MallocConserves(s: State, size: nat, p: int)
    requires Inv(s)
    ensures Owned(Malloc(s, size).0, p) <==> Owned(s, p)
  {
    hide Inv, Owned, Alloc, SetPages, ZoneIndex, RoundTo, TakeChunk, NewZone;
    var s' := Malloc(s, size).0;
    InvPages(s);
    if s'.pages == s.pages && s'.blocks == s.blocks {
      SameConserves(s, s', p);
    } else if size >= Limit(s.zonePages) {
      TakeConserves(s, s', RoundTo(size, PAGE) / PAGE, p);
    } else {
      ZoneIndexFits(size);
      TakeConserves(s, s', s.zonePages, p);
    }
  }

  lemma FreeConserves(s: State, a: int, p: int)
    requires Inv(s) && exists n :: Live(s, a, n)
    ensures Owned(FreeAt(s, a), p) <==> Owned(s, p)
  {
    hide Inv, Owned, Release, SetPages, GiveChunk, Live, Drop, LiveIn;
    UsageFinds(s, a);
    var s' := FreeAt(s, a);
    if s'.pages == s.pages && s'.blocks == s.blocks {
      SameConserves(s, s', p);
    } else if s.usage[a / PAGE].Large? {
      GiveConserves(s, s', a / PAGE, p);
    } else {
      var z := a / PAGE - s.usage[a / PAGE].off;
      ZoneBlock(s, z);
      TrimsZone(s, z, a);
      GiveConserves(s, s', z, p);
    }
  }

  lemma ZoneBlock(s: State, z: int)
    requires Inv(s) && z in s.zones
    ensures z in s.blocks && s.blocks[z] == s.zonePages
  {
    ZonesInBlocks(s);
  }

  lemma TrimsZone(s: State, z: int, a: int)
    requires z in s.zones && 0 <= s.zones[z].index < |s.partial|
    ensures var s' := FreeSmall(s, z, a);
            (s'.pages == s.pages && s'.blocks == s.blocks)
            || (s'.pages == Release(s.pages, z, s.zonePages) && s'.blocks == s.blocks - {z})
  {
  }

  /** Over every run: a page is free or in use, never both, exactly if it was free at the start. */
  lemma {:induction false} PagesConserved(run: seq<State>, steps: seq<Step>, zonePages: nat, pages: seq<Run>, i: nat,
                                          p: int)
    requires IsRun(run, steps) && i < |run| && run[0] == Init(zonePages, pages) && zonePages >= 8 && Ok(pages)
    ensures Owned(run[i], p) <==> PageList.Free(pages, p)
    ensures !(PageList.Free(run[i].pages, p) && InUse(run[i], p))
    decreases i
  {
    hide Inv, Malloc, FreeAt, Live, Owned, InUse;
    RunInv(run, steps, zonePages, pages, i);
    NotBothWays(run[i], p);
    if i == 0 {
      AllFreeAtStart(run[0], p);
    } else {
      PagesConserved(run, steps, zonePages, pages, i - 1, p);
      RunInv(run, steps, zonePages, pages, i - 1);
      assert Takes(run[i - 1], run[i], steps[i - 1]);
      match steps[i - 1]
      case DoMalloc(size) => MallocConserves(run[i - 1], size, p);
      case DoFree(a) => FreeConserves(run[i - 1], a, p);
    }
  }

  lemma NotBothWays(s: State, p: int)
    requires Inv(s)
    ensures !(PageList.Free(s.pages, p) && InUse(s, p))
  {
    if b :| PageOf(s, p, b) { assert BlockOk(s.pages, b, s.blocks[b]); }
  }

  lemma AllFreeAtStart(s: State, p: int)
    requires s.blocks == map[]
    ensures Owned(s, p) <==> PageList.Free(s.pages, p)
  {
  }

  // ----- what goes back

  /** Freeing a large block makes its pages free, and no others. */
  lemma LargeReturns(s: State, b: int, p: int)
    requires Inv(s) && LargeLive(s, b, b * PAGE)
    ensures Live(s, b * PAGE, s.blocks[b] * PAGE)
    ensures PageList.Free(FreeAt(s, b * PAGE).pages, p) <==> PageList.Free(s.pages, p) || Within(p, b, s.blocks[b])
  {
    hide Inv, Release, LiveIn;
    assert Live(s, b * PAGE, s.blocks[b] * PAGE);
    UsageFinds(s, b * PAGE);
    assert b * PAGE / PAGE == b;
    LargeUsage(s, b);
    GiveConserves(s, FreeLarge(s, b), b, p);
  }

  lemma LargeUsage(s: State, b: int)
    requires Inv(s) && LargeLive(s, b, b * PAGE)
    ensures b in s.usage && s.usage[b] == Large(s.blocks[b])
  {
    assert LargePage(s.usage, b, s.blocks[b]);
  }

  /** The count says that all chunks are free exactly if none is in use. */
  lemma AllFreeIff(zn: Zone, z: int, zonePages: nat)
    requires ZoneOk(zn, z, zonePages)
    ensures zn.nfree == zn.nmax <==> forall a :: !LiveIn(zn, a)
  {
    hide ChunkSize, Chunks, Offset;
    if zn.nfree == zn.nmax {
      AllFreeMeansNoneLive(zn, z, zonePages);
    } else if forall a :: !LiveIn(zn, a) {
      var chunks := seq(zn.uindex + 1, i requires 0 <= i <= zn.uindex => zn.base + i * zn.chunk);
      forall i, j | 0 <= i < j < |chunks| ensures chunks[i] != chunks[j] {
        if chunks[i] == chunks[j] { ChunkInjective(zn, i, j); }
      }
      forall a | a in chunks ensures a in Members(zn.freed) {
        var i :| 0 <= i < |chunks| && chunks[i] == a;
        assert IsChunk(zn, a, i) && Issued(zn, a) && !LiveIn(zn, a);
      }
      DistinctCard(chunks, Members(zn.freed));
      PigeonHole(zn.freed, zn);
      assert false;
    }
  }

  ghost function Members(list: seq<int>): (r: set<int>)
    ensures |r| <= |list| && forall a :: a in r <==> a in list
  {
    if list == [] then {} else {list[0]} + Members(list[1..])
  }

  /** a is the only chunk of zone z in use, and another zone of its class has a free chunk. */
  ghost predicate LastOfZone(s: State, z: int, a: int)
    requires z in s.zones
  {
    && (forall x :: LiveIn(s.zones[z], x) ==> x == a)
    && exists y :: y != z && Listed(s.zones, s.spare, y, s.zones[z].index)
  }

  /** Freeing the last chunk of a zone whose class has another one takes the zone out of use: it is kept as a spare one,
      or, if there are enough of those, its pages are free.  Any other free of a chunk leaves zones and pages. */
  lemma ZoneReturns(s: State, z: int, a: int)
    requires Inv(s) && SmallLive(s, z, a) && 0 <= s.zones[z].index < |s.partial|
    ensures var s' := FreeSmall(s, z, a);
            if !LastOfZone(s, z, a) then s'.pages == s.pages && z in s'.zones && s'.spare == s.spare
            else if |s.spare| < THRESHOLD then s'.pages == s.pages && s'.spare == [z] + s.spare
            else z !in s'.zones && s'.spare == s.spare
                 && forall p :: PageList.Free(s'.pages, p) <==> PageList.Free(s.pages, p) || Within(p, z, s.zonePages)
  {
    hide PagesOk, UsageOk, Release, SetPages, LiveIn, Drop, ZoneOk;
    var s1, s', i := FreeChunk(s, z, a), FreeSmall(s, z, a), s.zones[z].index;
    assert ZoneOk(s.zones[z], z, s.zonePages) by { ZoneAt(s, z); }
    GiveChunkOk(s.zones[z], z, s.zonePages, a);
    AllFreeIff(s1.zones[z], z, s.zonePages);
    OthersListed(s, z, a);
    ZoneAt(s, z);
    if LastOfZone(s, z, a) && |s.spare| >= THRESHOLD {
      assert ([z] + s.spare)[1..] == s.spare;
      ZoneBlock(s, z);
      forall p
        ensures PageList.Free(s'.pages, p) <==> PageList.Free(s.pages, p) || Within(p, z, s.zonePages)
      {
        GiveConserves(s, s', z, p);
      }
    }
  }

  lemma OthersListed(s: State, z: int, a: int)
    requires Inv(s) && SmallLive(s, z, a) && 0 <= s.zones[z].index < |s.partial|
    ensures var s1, i := FreeChunk(s, z, a), s.zones[z].index;
            s1.partial[i] != [z] <==> exists y :: y != z && Listed(s.zones, s.spare, y, i)
  {
    hide PagesOk, UsageOk, ZonesOk, LiveIn, GiveChunk;
    var s1, i := FreeChunk(s, z, a), s.zones[z].index;
    assert ListOk(s.zones, s.partial, s.spare, i);
    FreeChunkOk(s, z, a);
    var list := s1.partial[i];
    assert Distinct(list) && z in list by { StillListed(s1, z); }
    forall y | y != z ensures y in list <==> Listed(s.zones, s.spare, y, i) { }
    OtherMember(list, z);
  }

  lemma StillListed(s: State, z: int)
    requires Inv(s) && z in s.zones && z !in s.spare && s.zones[z].nfree > 0 && 0 <= s.zones[z].index < |s.partial|
    ensures z in s.partial[s.zones[z].index] && Distinct(s.partial[s.zones[z].index])
  {
    assert ListOk(s.zones, s.partial, s.spare, s.zones[z].index);
    assert Listed(s.zones, s.spare, z, s.zones[z].index);
  }

  lemma OtherMember(list: seq<int>, z: int)
    requires Distinct(list) && z in list
    ensures list == [z] || exists y :: y != z && y in list
  {
    var k :| 0 <= k < |list| && list[k] == z;
    if k > 0 {
      assert list[0] != z && list[0] in list;
    } else if |list| > 1 {
      assert list[1] != z && list[1] in list;
    } else {
      assert list == [z];
    }
  }
}
