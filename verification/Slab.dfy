/** The slab allocator (slab.c) on top of the page allocator.

    Addresses are bytes from the start of the heap.  A zone is named by its first page.  `blocks` are the
    runs of pages that were taken from the page allocator and not given back; it is not part of the
    allocator's own data.  Each call is one step. */
module Slab {
  import opened Ring
  import opened PageList
  import opened ZoneSize

  const THRESHOLD: int := 2

  /** memusage: what a page is used for. */
  datatype Usage = Unused | Small(off: int) | Large(count: int)

  /** A zone header; `freed` is the list of free chunks. */
  datatype Zone = Zone(index: int, chunk: int, base: int, nmax: int, nfree: int, uindex: int, freed: seq<int>)

  /** `partial` is zone_array and `spare` zone_free. */
  datatype State = State(zonePages: nat, pages: seq<Run>, blocks: map<int, nat>, usage: map<int, Usage>,
                         zones: map<int, Zone>, partial: seq<seq<int>>, spare: seq<int>)

  function ZoneBytes(zonePages: nat): int { zonePages * PAGE }

  /** Requests from here on get pages of their own. */
  function Limit(zonePages: nat): int {
    if ZoneBytes(zonePages) / 4 > MAX_SIZE then MAX_SIZE else ZoneBytes(zonePages) / 4
  }

  // ----- one zone

  function NewZone(z: int, index: int, chunk: nat, zonePages: nat): Zone
    requires chunk > 0
  {
    var n := Chunks(ZoneBytes(zonePages), chunk);
    Zone(index, chunk, z * PAGE + Offset(chunk), n, n - 1, 0, [])
  }

  /** A chunk never used before if there is one, else the first free one. */
  function TakeChunk(zn: Zone): (Zone, int) {
    if zn.uindex + 1 != zn.nmax then
      (zn.(nfree := zn.nfree - 1, uindex := zn.uindex + 1), zn.base + (zn.uindex + 1) * zn.chunk)
    else if zn.freed == [] then (zn, NULL)
    else (zn.(nfree := zn.nfree - 1, freed := zn.freed[1..]), zn.freed[0])
  }

  function GiveChunk(zn: Zone, a: int): Zone { zn.(nfree := zn.nfree + 1, freed := [a] + zn.freed) }

  /** `a` is the i-th chunk, and it was used. */
  ghost predicate IsChunk(zn: Zone, a: int, i: int) { 0 <= i <= zn.uindex && a == zn.base + i * zn.chunk }
  ghost predicate Issued(zn: Zone, a: int) { exists i :: IsChunk(zn, a, i) }

  ghost predicate FreedOk(zn: Zone) { Distinct(zn.freed) && forall a :: a in zn.freed ==> Issued(zn, a) }

  /** The counts and the free list agree: nfree is the chunks never used and those in the list. */
  ghost predicate ZoneOk(zn: Zone, z: int, zonePages: nat) {
    && 0 <= zn.index < NZONES && zn.chunk == ChunkSize(zn.index) && 8 <= zn.chunk
    && 4 * zn.chunk <= ZoneBytes(zonePages)
    && zn.base == z * PAGE + Offset(zn.chunk) && zn.nmax == Chunks(ZoneBytes(zonePages), zn.chunk)
    && 0 <= zn.uindex < zn.nmax
    && FreedOk(zn)
    && zn.nfree == zn.nmax - 1 - zn.uindex + |zn.freed|
  }

  /** Handed out and not given back. */
  ghost predicate LiveIn(zn: Zone, a: int) { Issued(zn, a) && a !in zn.freed }

  lemma TimesOrder(i: int, j: int, c: int)
    requires c > 0
    ensures i < j ==> i * c + c <= j * c
  {
    if i < j {
      var d := j - i - 1;
      assert j * c == i * c + c + d * c;
      assert d * c >= 0;
    }
  }

  lemma ChunkInjective(zn: Zone, i: int, j: int)
    requires zn.chunk > 0 && zn.base + i * zn.chunk == zn.base + j * zn.chunk
    ensures i == j
  {
    TimesOrder(i, j, zn.chunk);
    TimesOrder(j, i, zn.chunk);
  }

  lemma TakeChunkOk(zn: Zone, z: int, zonePages: nat)
    requires ZoneOk(zn, z, zonePages) && zn.nfree > 0
    ensures var (zn', a) := TakeChunk(zn);
            && ZoneOk(zn', z, zonePages) && zn'.nfree == zn.nfree - 1 && zn'.index == zn.index && zn'.chunk == zn.chunk
            && !LiveIn(zn, a) && forall x :: LiveIn(zn', x) <==> LiveIn(zn, x) || x == a
  {
    hide Distinct, Chunks, Offset, ChunkSize;
    var (zn', a) := TakeChunk(zn);
    if zn.uindex + 1 != zn.nmax {
      assert IsChunk(zn', a, zn'.uindex);
      assert !Issued(zn, a) by {
        if i :| IsChunk(zn, a, i) { ChunkInjective(zn, i, zn.uindex + 1); }
      }
      forall x ensures Issued(zn', x) <==> Issued(zn, x) || x == a {
        if i :| IsChunk(zn', x, i) { assert i <= zn.uindex ==> IsChunk(zn, x, i); }
        if i :| IsChunk(zn, x, i) { assert IsChunk(zn', x, i); }
      }
    } else {
      DistinctTail(zn.freed);
      assert a in zn.freed;
      SameIssued(zn, zn');
    }
  }

  lemma SameIssued(zn: Zone, zn': Zone)
    requires zn'.base == zn.base && zn'.chunk == zn.chunk && zn'.uindex == zn.uindex
    ensures forall x :: Issued(zn', x) <==> Issued(zn, x)
  {
    forall x ensures Issued(zn', x) <==> Issued(zn, x) {
      if i :| IsChunk(zn', x, i) { assert IsChunk(zn, x, i); }
      if i :| IsChunk(zn, x, i) { assert IsChunk(zn', x, i); }
    }
  }

  lemma GiveChunkOk(zn: Zone, z: int, zonePages: nat, a: int)
    requires ZoneOk(zn, z, zonePages) && LiveIn(zn, a)
    ensures var zn' := GiveChunk(zn, a);
            ZoneOk(zn', z, zonePages) && forall x :: LiveIn(zn', x) <==> LiveIn(zn, x) && x != a
  {
    var zn' := GiveChunk(zn, a);
    SameIssued(zn, zn');
    assert forall x :: x in zn'.freed <==> x == a || x in zn.freed;
  }

  /** When the count says so, no chunk of the zone is in use. */
  lemma AllFreeMeansNoneLive(zn: Zone, z: int, zonePages: nat)
    requires ZoneOk(zn, z, zonePages) && zn.nfree == zn.nmax
    ensures forall a :: !LiveIn(zn, a)
  {
    forall a ensures !LiveIn(zn, a) {
      if LiveIn(zn, a) {
        PigeonHole([a] + zn.freed, zn);
      }
    }
  }

  /** No more distinct chunks than were issued. */
  lemma PigeonHole(list: seq<int>, zn: Zone)
    requires Distinct(list) && zn.chunk > 0 && zn.uindex >= 0 && forall a :: a in list ==> Issued(zn, a)
    ensures |list| <= zn.uindex + 1
  {
    var all := IssuedSet(zn, zn.uindex + 1);
    forall a | a in list ensures a in all {
      var i :| IsChunk(zn, a, i);
      IssuedSetHas(zn, zn.uindex + 1, i);
    }
    DistinctCard(list, all);
  }

  ghost function IssuedSet(zn: Zone, n: nat): (r: set<int>)
    ensures |r| <= n
  {
    if n == 0 then {} else IssuedSet(zn, n - 1) + {zn.base + (n - 1) * zn.chunk}
  }

  lemma {:induction false} IssuedSetHas(zn: Zone, n: nat, i: int)
    requires 0 <= i < n
    ensures zn.base + i * zn.chunk in IssuedSet(zn, n)
  {
    if i < n - 1 { IssuedSetHas(zn, n - 1, i); }
  }

  lemma {:induction false} DistinctCard(list: seq<int>, all: set<int>)
    requires Distinct(list) && forall a :: a in list ==> a in all
    ensures |list| <= |all|
  {
    if list != [] {
      DistinctTail(list);
      forall a | a in list[1..] ensures a in all - {list[0]} { assert a in list; }
      assert list[0] in list;
      DistinctCard(list[1..], all - {list[0]});
    }
  }

  // ----- pages

  ghost predicate BlockOk(pages: seq<Run>, b: int, n: int) {
    0 <= b && n > 0 && forall p :: Within(p, b, n) ==> !Free(pages, p)
  }

  predicate Apart(a: int, n: int, b: int, m: int) { a + n <= b || b + m <= a }

  /** Free pages and blocks are apart from each other. */
  ghost predicate PagesOk(pages: seq<Run>, blocks: map<int, nat>) {
    && Ok(pages)
    && (forall b :: b in blocks ==> BlockOk(pages, b, blocks[b]))
    && (forall a, b :: a in blocks && b in blocks && a != b ==> Apart(a, blocks[a], b, blocks[b]))
  }

  lemma GetBlock(pages: seq<Run>, blocks: map<int, nat>, n: nat)
    requires PagesOk(pages, blocks) && Alloc(pages, n).1 != NULL
    ensures var (rest, b) := Alloc(pages, n);
            && 0 <= b && b !in blocks && n > 0 && PagesOk(rest, blocks[b := n])
            && forall a :: a in blocks ==> Apart(a, blocks[a], b, n)
  {
    AllocTakes(pages, 0, n);
    var (rest, b) := Alloc(pages, n);
    var blocks' := blocks[b := n];
    forall a | a in blocks ensures a != b && Apart(a, blocks[a], b, n) && BlockOk(rest, a, blocks[a]) {
      assert BlockOk(pages, a, blocks[a]);
      var p := if a < b then b else a;
      if !Apart(a, blocks[a], b, n) { assert Within(p, a, blocks[a]) && Within(p, b, n); }
    }
    forall a | a in blocks' ensures BlockOk(rest, a, blocks'[a]) { }
  }

  lemma PutBlock(pages: seq<Run>, blocks: map<int, nat>, b: int)
    requires PagesOk(pages, blocks) && b in blocks
    ensures PagesOk(Release(pages, b, blocks[b]), blocks - {b})
  {
    var n := blocks[b];
    assert BlockOk(pages, b, n);
    ReleaseAdds(pages, 0, b, n);
    var rest, blocks' := Release(pages, b, n), blocks - {b};
    forall a | a in blocks' ensures BlockOk(rest, a, blocks'[a]) {
      assert BlockOk(pages, a, blocks[a]) && Apart(a, blocks[a], b, n);
    }
  }

  // ----- what pages are used for

  function SetPages(usage: map<int, Usage>, z: int, n: nat, small: bool): map<int, Usage> {
    if n == 0 then usage
    else SetPages(usage, z, n - 1, small)[z + n - 1 := if small then Small(n - 1) else Unused]
  }

  lemma {:induction false} SetPagesAt(usage: map<int, Usage>, z: int, n: nat, small: bool, p: int)
    ensures var u := SetPages(usage, z, n, small);
            if Within(p, z, n) then p in u && u[p] == (if small then Small(p - z) else Unused)
            else (p in u <==> p in usage) && (p in usage ==> u[p] == usage[p])
  {
    if n > 0 { SetPagesAt(usage, z, n - 1, small, p); }
  }

  ghost predicate SmallPages(usage: map<int, Usage>, z: int, n: nat) {
    forall p :: Within(p, z, n) ==> p in usage && usage[p] == Small(p - z)
  }

  ghost predicate LargePage(usage: map<int, Usage>, b: int, n: nat) { b in usage && usage[b] == Large(n) }

  /** A zone's pages lead back to it, and a large block's first page has its length. */
  ghost predicate UsageOk(usage: map<int, Usage>, blocks: map<int, nat>, zones: set<int>, zonePages: nat) {
    && (forall z :: z in zones ==> z in blocks && blocks[z] == zonePages && SmallPages(usage, z, zonePages))
    && (forall b :: b in blocks && b !in zones ==> LargePage(usage, b, blocks[b]))
  }

  lemma UsageNewZone(usage: map<int, Usage>, blocks: map<int, nat>, zones: set<int>, zonePages: nat, z: int)
    requires UsageOk(usage, blocks, zones, zonePages) && z !in blocks && zonePages > 0
    requires forall a :: a in blocks ==> blocks[a] > 0 && Apart(a, blocks[a], z, zonePages)
    ensures UsageOk(SetPages(usage, z, zonePages, true), blocks[z := zonePages], zones + {z}, zonePages)
  {
    var u, b' := SetPages(usage, z, zonePages, true), blocks[z := zonePages];
    forall x | x in zones + {z} ensures x in b' && b'[x] == zonePages && SmallPages(u, x, zonePages) {
      forall p | Within(p, x, zonePages) ensures p in u && u[p] == Small(p - x) {
        SetPagesAt(usage, z, zonePages, true, p);
        if x != z { assert Apart(x, blocks[x], z, zonePages) && SmallPages(usage, x, zonePages); }
      }
    }
    forall b | b in b' && b !in zones + {z} ensures LargePage(u, b, b'[b]) {
      assert LargePage(usage, b, blocks[b]) && Apart(b, blocks[b], z, zonePages);
      SetPagesAt(usage, z, zonePages, true, b);
    }
  }

  lemma UsageDropZone(usage: map<int, Usage>, pages: seq<Run>, blocks: map<int, nat>, zones: set<int>, zonePages: nat,
                      z: int)
    requires UsageOk(usage, blocks, zones, zonePages) && PagesOk(pages, blocks) && z in zones
    ensures UsageOk(SetPages(usage, z, zonePages, false), blocks - {z}, zones - {z}, zonePages)
  {
    var u, b' := SetPages(usage, z, zonePages, false), blocks - {z};
    forall x | x in zones - {z} ensures x in b' && b'[x] == zonePages && SmallPages(u, x, zonePages) {
      assert SmallPages(usage, x, zonePages) && Apart(x, blocks[x], z, blocks[z]);
      forall p | Within(p, x, zonePages) ensures p in u && u[p] == Small(p - x) {
        SetPagesAt(usage, z, zonePages, false, p);
      }
    }
    forall b | b in b' && b !in zones - {z} ensures LargePage(u, b, b'[b]) {
      assert LargePage(usage, b, blocks[b]) && Apart(b, blocks[b], z, blocks[z]) && BlockOk(pages, b, blocks[b]);
      SetPagesAt(usage, z, zonePages, false, b);
    }
  }

  lemma UsageNewLarge(usage: map<int, Usage>, blocks: map<int, nat>, zones: set<int>, zonePages: nat, b: int, n: nat)
    requires UsageOk(usage, blocks, zones, zonePages) && b !in blocks && n > 0
    requires forall a :: a in blocks ==> blocks[a] > 0 && Apart(a, blocks[a], b, n)
    ensures UsageOk(usage[b := Large(n)], blocks[b := n], zones, zonePages)
  {
    var u, b' := usage[b := Large(n)], blocks[b := n];
    forall x | x in zones ensures x in b' && b'[x] == zonePages && SmallPages(u, x, zonePages) {
      assert SmallPages(usage, x, zonePages) && Apart(x, blocks[x], b, n);
    }
    forall x | x in b' && x !in zones ensures LargePage(u, x, b'[x]) {
      if x != b { assert LargePage(usage, x, blocks[x]); }
    }
  }

  lemma UsageDropLarge(usage: map<int, Usage>, pages: seq<Run>, blocks: map<int, nat>, zones: set<int>, zonePages: nat,
                       b: int)
    requires UsageOk(usage, blocks, zones, zonePages) && PagesOk(pages, blocks) && b in blocks && b !in zones
    ensures UsageOk(usage[b := Large(0)], blocks - {b}, zones, zonePages)
  {
    var u, b' := usage[b := Large(0)], blocks - {b};
    forall x | x in zones ensures x in b' && b'[x] == zonePages && SmallPages(u, x, zonePages) {
      assert SmallPages(usage, x, zonePages) && Apart(x, blocks[x], b, blocks[b]) && BlockOk(pages, b, blocks[b]);
    }
    forall x | x in b' && x !in zones ensures LargePage(u, x, b'[x]) {
      assert LargePage(usage, x, blocks[x]);
    }
  }

  // ----- the lists of zones

  ghost predicate Listed(zones: map<int, Zone>, spare: seq<int>, z: int, i: int) {
    z in zones && z !in spare && zones[z].index == i && zones[z].nfree > 0
  }

  /** Each list holds the zones of its class that have a free chunk, and up to two whole zones are spare. */
  ghost predicate ListOk(zones: map<int, Zone>, partial: seq<seq<int>>, spare: seq<int>, i: int)
    requires 0 <= i < |partial|
  {
    Distinct(partial[i]) && forall z :: z in partial[i] <==> Listed(zones, spare, z, i)
  }

  ghost predicate ListsOk(zones: map<int, Zone>, partial: seq<seq<int>>, spare: seq<int>) {
    && |partial| == NZONES && |spare| <= THRESHOLD && Distinct(spare)
    && (forall z :: z in spare ==> z in zones)
    && (forall i :: 0 <= i < |partial| ==> ListOk(zones, partial, spare, i))
  }

  ghost predicate ZonesOk(zones: map<int, Zone>, spare: seq<int>, zonePages: nat) {
    forall z :: z in zones && z !in spare ==> ZoneOk(zones[z], z, zonePages)
  }

  ghost predicate Inv(s: State) {
    && s.zonePages >= 8
    && PagesOk(s.pages, s.blocks)
    && UsageOk(s.usage, s.blocks, s.zones.Keys, s.zonePages)
    && ZonesOk(s.zones, s.spare, s.zonePages)
    && ListsOk(s.zones, s.partial, s.spare)
  }

  // ----- the operations

  /** A block of its own. */
  function MallocLarge(s: State, size: nat): (State, int) {
    var n := RoundTo(size, PAGE) / PAGE;
    var (rest, b) := Alloc(s.pages, n);
    if b == NULL then (s, NULL)
    else (s.(pages := rest, blocks := s.blocks[b := n], usage := s.usage[b := Large(n)]), b * PAGE)
  }

  /** A chunk of the first zone in the list of class i. */
  function MallocChunk(s: State, i: nat): (State, int)
    requires i < |s.partial| && s.partial[i] != [] && s.partial[i][0] in s.zones
  {
    var z := s.partial[i][0];
    var (zn, a) := TakeChunk(s.zones[z]);
    (s.(zones := s.zones[z := zn],
        partial := if zn.nfree == 0 then s.partial[i := s.partial[i][1..]] else s.partial), a)
  }

  /** The first chunk of a new zone. */
  function OpenZone(s: State, z: int, i: nat, chunk: nat): (State, int)
    requires i < |s.partial| && chunk > 0
  {
    var zn := NewZone(z, i, chunk, s.zonePages);
    (s.(zones := s.zones[z := zn], partial := s.partial[i := [z] + s.partial[i]]), zn.base)
  }

  /** A new zone is a spare one, or comes from the page allocator. */
  function MallocZone(s: State, i: nat, chunk: nat): (State, int)
    requires i < |s.partial| && chunk > 0
  {
    if s.spare != [] then OpenZone(s.(spare := s.spare[1..], zones := s.zones - {s.spare[0]}), s.spare[0], i, chunk)
    else
      var (rest, z) := Alloc(s.pages, s.zonePages);
      if z == NULL then (s, NULL)
      else OpenZone(s.(pages := rest, blocks := s.blocks[z := s.zonePages],
                       usage := SetPages(s.usage, z, s.zonePages, true)), z, i, chunk)
  }

  /** rt_malloc. */
  ghost function Malloc(s: State, size: nat): (State, int)
    requires Inv(s)
  {
    if size == 0 then (s, NULL)
    else if size >= Limit(s.zonePages) then MallocLarge(s, size)
    else
      var (i, c) := ZoneIndex(size);
      ZoneIndexFits(size);
      assert ListOk(s.zones, s.partial, s.spare, i);
      if s.partial[i] != [] then FirstListed(s, i); MallocChunk(s, i) else MallocZone(s, i, c)
  }

  lemma FirstListed(s: State, i: int)
    requires Inv(s) && 0 <= i < NZONES && s.partial[i] != []
    ensures Listed(s.zones, s.spare, s.partial[i][0], i)
  {
    assert ListOk(s.zones, s.partial, s.spare, i);
    assert s.partial[i][0] in s.partial[i];
  }

  function FreeLarge(s: State, b: int): State
    requires b in s.usage && s.usage[b].Large? && s.usage[b].count >= 0
  {
    s.(usage := s.usage[b := Large(0)], pages := Release(s.pages, b, s.usage[b].count), blocks := s.blocks - {b})
  }

  /** The chunk goes back to its zone, which is listed again if it was full. */
  function FreeChunk(s: State, z: int, a: int): State
    requires z in s.zones && 0 <= s.zones[z].index < |s.partial|
  {
    var zn, i := s.zones[z], s.zones[z].index;
    s.(zones := s.zones[z := GiveChunk(zn, a)],
       partial := if zn.nfree == 0 then s.partial[i := [z] + s.partial[i]] else s.partial)
  }

  /** A zone without used chunks is put aside when its class has another one. */
  function Retire(s: State, z: int): State
    requires z in s.zones && 0 <= s.zones[z].index < |s.partial|
  {
    var i := s.zones[z].index;
    s.(partial := s.partial[i := Drop(s.partial[i], z)], spare := [z] + s.spare)
  }

  /** One spare zone too many goes back to the page allocator. */
  function Trim(s: State): State {
    if |s.spare| <= THRESHOLD then s
    else
      var z := s.spare[0];
      s.(spare := s.spare[1..], usage := SetPages(s.usage, z, s.zonePages, false),
         pages := Release(s.pages, z, s.zonePages), blocks := s.blocks - {z}, zones := s.zones - {z})
  }

  function FreeSmall(s: State, z: int, a: int): State
    requires z in s.zones && 0 <= s.zones[z].index < |s.partial|
  {
    var s1 := FreeChunk(s, z, a);
    var i := s.zones[z].index;
    if s1.zones[z].nfree == s1.zones[z].nmax && s1.partial[i] != [z] then Trim(Retire(s1, z)) else s1
  }

  // ----- what is in use

  ghost predicate SmallLive(s: State, z: int, a: int) { z in s.zones && z !in s.spare && LiveIn(s.zones[z], a) }
  ghost predicate LargeLive(s: State, b: int, a: int) { b in s.blocks && b !in s.zones && a == b * PAGE }

  /** `a` was returned by rt_malloc, with n bytes, and not freed. */
  ghost predicate Live(s: State, a: int, n: int) {
    || (exists z :: SmallLive(s, z, a) && n == s.zones[z].chunk)
    || (exists b :: LargeLive(s, b, a) && n == s.blocks[b] * PAGE)
  }

  /** rt_free of an address in use. */
  ghost function FreeAt(s: State, a: int): State
    requires Inv(s) && exists n :: Live(s, a, n)
  {
    UsageFinds(s, a);
    var p := a / PAGE;
    match s.usage[p]
    case Large(_) => FreeLarge(s, p)
    case Small(off) => FreeSmall(s, p - off, a)
    case Unused => s
  }

  /** From the page of an address in use, memusage tells which zone it is in, or that it is a large block. */
  lemma UsageFinds(s: State, a: int)
    requires Inv(s) && exists n :: Live(s, a, n)
    ensures a / PAGE in s.usage && !s.usage[a / PAGE].Unused?
    ensures var p := a / PAGE; s.usage[p].Large? ==> LargeLive(s, p, a) && s.blocks[p] == s.usage[p].count > 0
    ensures var p := a / PAGE;
            s.usage[p].Small? ==>
              var z := p - s.usage[p].off;
              SmallLive(s, z, a) && 0 <= s.zones[z].index < |s.partial|
  {
    var n :| Live(s, a, n);
    if z :| SmallLive(s, z, a) {
      SmallFinds(s, z, a);
    } else {
      var b :| LargeLive(s, b, a);
      assert a / PAGE == b;
      assert LargePage(s.usage, b, s.blocks[b]) && BlockOk(s.pages, b, s.blocks[b]);
    }
  }

  /** A chunk lies in its zone's pages, behind the header. */
  lemma ChunkInZone(zn: Zone, z: int, zonePages: nat, a: int, i: int)
    requires ZoneOk(zn, z, zonePages) && zonePages >= 8 && IsChunk(zn, a, i)
    ensures z * PAGE + HEADER <= a && a + zn.chunk <= (z + zonePages) * PAGE
  {
    ZoneHolds(ZoneBytes(zonePages), zn.chunk);
    TimesOrder(i, zn.nmax, zn.chunk);
    TimesOrder(-1, i, zn.chunk);
  }

  lemma SmallFinds(s: State, z: int, a: int)
    requires Inv(s) && SmallLive(s, z, a)
    ensures var p := a / PAGE;
            Within(p, z, s.zonePages) && p in s.usage && s.usage[p] == Small(p - z)
              && 0 <= s.zones[z].index < |s.partial|
  {
    var i :| IsChunk(s.zones[z], a, i);
    assert ZoneOk(s.zones[z], z, s.zonePages);
    ChunkInZone(s.zones[z], z, s.zonePages, a, i);
    assert SmallPages(s.usage, z, s.zonePages);
    assert Within(a / PAGE, z, s.zonePages);
  }

  // ----- rt_malloc

  ghost predicate Gains(s: State, s': State, a: int, n: int) {
    && (forall m :: !Live(s, a, m))
    && (forall x, m :: Live(s', x, m) <==> Live(s, x, m) || (x == a && m == n))
  }

  lemma MallocLargeOk(s: State, size: nat)
    requires Inv(s) && size > 0
    ensures var (s', a) := MallocLarge(s, size);
            Inv(s') && (a == NULL ==> s' == s) && (a != NULL ==> a >= 0 && Gains(s, s', a, RoundTo(size, PAGE)))
  {
    hide ZonesOk, ListsOk, Alloc, PagesOk, UsageOk;
    var n := RoundTo(size, PAGE) / PAGE;
    assert n * PAGE == RoundTo(size, PAGE);
    var (rest, b) := Alloc(s.pages, n);
    if b != NULL {
      var s' := MallocLarge(s, size).0;
      GetBlock(s.pages, s.blocks, n);
      BlocksPositive(s);
      UsageNewLarge(s.usage, s.blocks, s.zones.Keys, s.zonePages, b, n);
      assert b !in s.zones by { ZonesInBlocks(s); }
      forall x, m ensures Live(s', x, m) <==> Live(s, x, m) || (x == b * PAGE && m == n * PAGE) {
        LargeGain(s, s', b, n, x, m);
      }
      forall m ensures !Live(s, b * PAGE, m) { NewBlockNotLive(s, b, n, m, b * PAGE); }
    }
  }

  lemma BlocksPositive(s: State)
    requires PagesOk(s.pages, s.blocks)
    ensures forall a :: a in s.blocks ==> s.blocks[a] > 0 && a >= 0
  {
    forall a | a in s.blocks ensures s.blocks[a] > 0 && a >= 0 { assert BlockOk(s.pages, a, s.blocks[a]); }
  }

  lemma ZonesInBlocks(s: State)
    requires UsageOk(s.usage, s.blocks, s.zones.Keys, s.zonePages)
    ensures forall z :: z in s.zones ==> z in s.blocks && s.blocks[z] == s.zonePages
  {
  }

  lemma LargeGain(s: State, s': State, b: int, n: nat, x: int, m: int)
    requires s' == s.(pages := s'.pages, usage := s'.usage, blocks := s.blocks[b := n]) && b !in s.blocks
    requires b !in s.zones
    ensures Live(s', x, m) <==> Live(s, x, m) || (x == b * PAGE && m == n * PAGE)
  {
    if z :| SmallLive(s, z, x) && m == s.zones[z].chunk { assert SmallLive(s', z, x); }
    if z :| SmallLive(s', z, x) && m == s'.zones[z].chunk { assert SmallLive(s, z, x); }
    if c :| LargeLive(s, c, x) && m == s.blocks[c] * PAGE { assert LargeLive(s', c, x) && s'.blocks[c] == s.blocks[c]; }
    if c :| LargeLive(s', c, x) && m == s'.blocks[c] * PAGE { assert c != b ==> LargeLive(s, c, x); }
    assert LargeLive(s', b, b * PAGE) && s'.blocks[b] == n;
  }

  /** What is in use lies in a block. */
  lemma LiveInBlock(s: State, a: int, m: int) returns (b: int)
    requires Inv(s) && Live(s, a, m)
    ensures b in s.blocks && b * PAGE <= a && a + m <= (b + s.blocks[b]) * PAGE && m > 0
  {
    if z :| SmallLive(s, z, a) && m == s.zones[z].chunk {
      b := z;
      var i :| IsChunk(s.zones[z], a, i);
      assert ZoneOk(s.zones[z], z, s.zonePages);
      ChunkInZone(s.zones[z], z, s.zonePages, a, i);
      ZonesInBlocks(s);
    } else {
      b :| LargeLive(s, b, a) && m == s.blocks[b] * PAGE;
      BlocksPositive(s);
    }
  }

  lemma NewBlockNotLive(s: State, b: int, n: nat, m: int, a: int)
    requires Inv(s) && n > 0 && (forall c :: c in s.blocks ==> Apart(c, s.blocks[c], b, n))
    requires b * PAGE <= a < (b + n) * PAGE
    ensures !Live(s, a, m)
  {
    if Live(s, a, m) {
      var c := LiveInBlock(s, a, m);
    }
  }

  lemma MallocChunkOk(s: State, i: nat)
    requires Inv(s) && i < NZONES && s.partial[i] != [] && Listed(s.zones, s.spare, s.partial[i][0], i)
    ensures var (s', a) := MallocChunk(s, i); Inv(s') && a >= 0 && Gains(s, s', a, ChunkSize(i))
  {
    hide PagesOk, UsageOk, ZoneOk, TakeChunk, LiveIn;
    var (s', a) := MallocChunk(s, i);
    var z := s.partial[i][0];
    assert ZoneOk(s.zones[z], z, s.zonePages);
    TakeChunkOk(s.zones[z], z, s.zonePages);
    ChunkOfClass(s.zones[z], z, s.zonePages);
    assert s'.zones.Keys == s.zones.Keys;
    MallocChunkLists(s, i);
    forall x, m ensures Live(s', x, m) <==> Live(s, x, m) || (x == a && m == ChunkSize(i)) {
      SmallGain(s, s', z, a, x, m);
    }
    assert SmallLive(s', z, a);
    SmallFinds(s', z, a);
    forall m ensures !Live(s, a, m) { NotLiveElsewhere(s, s', z, a, m); }
    BlocksPositive(s);
    ZonesInBlocks(s);
  }

  lemma ChunkOfClass(zn: Zone, z: int, zonePages: nat)
    requires ZoneOk(zn, z, zonePages)
    ensures zn.chunk == ChunkSize(zn.index)
  {
  }

  lemma MallocChunkLists(s: State, i: nat)
    requires Inv(s) && i < NZONES && s.partial[i] != [] && Listed(s.zones, s.spare, s.partial[i][0], i)
    requires var (zn, a) := TakeChunk(s.zones[s.partial[i][0]]);
             zn.index == i && zn.nfree == s.zones[s.partial[i][0]].nfree - 1
    ensures var s' := MallocChunk(s, i).0; ListsOk(s'.zones, s'.partial, s'.spare)
  {
    hide TakeChunk;
    var s' := MallocChunk(s, i).0;
    var z := s.partial[i][0];
    forall j | 0 <= j < |s'.partial| ensures ListOk(s'.zones, s'.partial, s'.spare, j) {
      assert ListOk(s.zones, s.partial, s.spare, j);
      if j == i { DistinctTail(s.partial[i]); }
      forall x ensures x in s'.partial[j] <==> Listed(s'.zones, s'.spare, x, j) {
        assert x in s.partial[j] <==> Listed(s.zones, s.spare, x, j);
      }
    }
  }

  lemma SmallGain(s: State, s': State, z: int, a: int, x: int, m: int)
    requires z in s.zones && z !in s.spare && z in s'.zones
    requires s' == s.(partial := s'.partial, zones := s.zones[z := s'.zones[z]])
    requires s'.zones[z].chunk == s.zones[z].chunk
    requires forall y :: LiveIn(s'.zones[z], y) <==> LiveIn(s.zones[z], y) || y == a
    ensures Live(s', x, m) <==> Live(s, x, m) || (x == a && m == s.zones[z].chunk)
  {
    hide LiveIn;
    if y :| SmallLive(s, y, x) && m == s.zones[y].chunk { assert SmallLive(s', y, x); }
    if y :| SmallLive(s', y, x) && m == s'.zones[y].chunk { assert y != z || x != a ==> SmallLive(s, y, x); }
    if c :| LargeLive(s, c, x) && m == s.blocks[c] * PAGE { assert LargeLive(s', c, x); }
    if c :| LargeLive(s', c, x) && m == s'.blocks[c] * PAGE { assert LargeLive(s, c, x); }
    assert SmallLive(s', z, a);
  }

  /** An address in use has one zone or block. */
  lemma NotLiveElsewhere(s: State, s': State, z: int, a: int, m: int)
    requires Inv(s) && Inv(s') && s'.blocks == s.blocks && s'.usage == s.usage && SmallLive(s', z, a)
    requires z in s.zones && z !in s.spare && !LiveIn(s.zones[z], a)
    ensures !Live(s, a, m)
  {
    SmallFinds(s', z, a);
    if Live(s, a, m) {
      UsageFinds(s, a);
    }
  }

  lemma NewZoneOk(z: int, i: int, chunk: nat, zonePages: nat)
    requires 0 <= i < NZONES && chunk == ChunkSize(i) && 8 <= chunk && 4 * chunk <= ZoneBytes(zonePages)
    requires zonePages >= 8
    ensures var zn := NewZone(z, i, chunk, zonePages);
            ZoneOk(zn, z, zonePages) && zn.nfree > 0 && forall a :: LiveIn(zn, a) <==> a == zn.base
  {
    ZoneHolds(ZoneBytes(zonePages), chunk);
    var zn := NewZone(z, i, chunk, zonePages);
    assert IsChunk(zn, zn.base, 0);
    forall a | Issued(zn, a) ensures a == zn.base { var k :| IsChunk(zn, a, k); assert k == 0; }
  }

  /** Everything is in order but that zone z, which has its pages, has no header yet. */
  ghost predicate ReadyFor(s: State, z: int) {
    && s.zonePages >= 8 && z !in s.zones && z !in s.spare
    && PagesOk(s.pages, s.blocks)
    && UsageOk(s.usage, s.blocks, s.zones.Keys + {z}, s.zonePages)
    && ZonesOk(s.zones, s.spare, s.zonePages)
    && ListsOk(s.zones, s.partial, s.spare)
  }

  lemma OpenZoneInv(s: State, z: int, i: nat, chunk: nat)
    requires ReadyFor(s, z) && i < NZONES && chunk == ChunkSize(i) && 8 <= chunk && 4 * chunk <= ZoneBytes(s.zonePages)
    ensures Inv(OpenZone(s, z, i, chunk).0)
  {
    hide PagesOk, UsageOk, ZoneOk, NewZone, LiveIn;
    var s' := OpenZone(s, z, i, chunk).0;
    NewZoneOk(z, i, chunk, s.zonePages);
    assert NewZone(z, i, chunk, s.zonePages).index == i by { NewZoneIndex(z, i, chunk, s.zonePages); }
    assert s'.zones.Keys == s.zones.Keys + {z};
    forall j | 0 <= j < |s'.partial| ensures ListOk(s'.zones, s'.partial, s'.spare, j) {
      assert ListOk(s.zones, s.partial, s.spare, j);
      assert z !in s.partial[j];
      forall x ensures x in s'.partial[j] <==> Listed(s'.zones, s'.spare, x, j) {
        assert x in s.partial[j] <==> Listed(s.zones, s.spare, x, j);
      }
    }
  }

  lemma NewZoneIndex(z: int, i: int, chunk: nat, zonePages: nat)
    requires chunk > 0
    ensures NewZone(z, i, chunk, zonePages).index == i && NewZone(z, i, chunk, zonePages).chunk == chunk
  {
  }

  lemma ZoneGain(s: State, s': State, z: int, a: int, x: int, m: int)
    requires z in s'.zones && s'.zones == s.zones[z := s'.zones[z]] && (z in s.zones ==> z in s.spare)
    requires z !in s'.spare && forall y :: y != z ==> (y in s.spare <==> y in s'.spare)
    requires if z in s.zones then s'.blocks == s.blocks
             else z !in s.blocks && z in s'.blocks && s'.blocks == s.blocks[z := s'.blocks[z]]
    requires forall y :: LiveIn(s'.zones[z], y) <==> y == a
    ensures Live(s', x, m) <==> Live(s, x, m) || (x == a && m == s'.zones[z].chunk)
  {
    hide LiveIn;
    if y :| SmallLive(s, y, x) && m == s.zones[y].chunk { assert SmallLive(s', y, x) && s'.zones[y] == s.zones[y]; }
    if y :| SmallLive(s', y, x) && m == s'.zones[y].chunk { assert y != z ==> SmallLive(s, y, x); }
    if c :| LargeLive(s, c, x) && m == s.blocks[c] * PAGE { assert LargeLive(s', c, x) && s'.blocks[c] == s.blocks[c]; }
    if c :| LargeLive(s', c, x) && m == s'.blocks[c] * PAGE { assert LargeLive(s, c, x); }
    assert SmallLive(s', z, a);
  }

  lemma MallocSpareOk(s: State, i: nat, chunk: nat)
    requires Inv(s) && s.spare != [] && i < NZONES && chunk == ChunkSize(i) && 8 <= chunk
    requires 4 * chunk <= ZoneBytes(s.zonePages)
    ensures var (s', a) := MallocZone(s, i, chunk); Inv(s') && a >= 0 && Gains(s, s', a, chunk)
  {
    hide PagesOk, UsageOk, ZoneOk, NewZone, LiveIn;
    var z := s.spare[0];
    DistinctTail(s.spare);
    var s1 := s.(spare := s.spare[1..], zones := s.zones - {z});
    assert s1.zones.Keys + {z} == s.zones.Keys;
    SpareReady(s);
    OpenZoneInv(s1, z, i, chunk);
    var (s', a) := MallocZone(s, i, chunk);
    NewZoneOk(z, i, chunk, s.zonePages);
    NewZoneIndex(z, i, chunk, s.zonePages);
    assert s'.zones == s.zones[z := s'.zones[z]];
    forall x, m ensures Live(s', x, m) <==> Live(s, x, m) || (x == a && m == chunk) { ZoneGain(s, s', z, a, x, m); }
    assert SmallLive(s', z, a);
    SmallFinds(s', z, a);
    forall m ensures !Live(s, a, m) { if Live(s, a, m) { UsageFinds(s, a); } }
    BlocksPositive(s);
    ZonesInBlocks(s);
  }

  lemma SpareReady(s: State)
    requires Inv(s) && s.spare != []
    ensures ReadyFor(s.(spare := s.spare[1..], zones := s.zones - {s.spare[0]}), s.spare[0])
  {
    hide PagesOk, UsageOk, ZoneOk;
    var z := s.spare[0];
    DistinctTail(s.spare);
    var s1 := s.(spare := s.spare[1..], zones := s.zones - {z});
    assert s1.zones.Keys + {z} == s.zones.Keys;
    forall j | 0 <= j < |s1.partial| ensures ListOk(s1.zones, s1.partial, s1.spare, j) {
      assert ListOk(s.zones, s.partial, s.spare, j);
      forall x ensures x in s1.partial[j] <==> Listed(s1.zones, s1.spare, x, j) {
        assert x in s.partial[j] <==> Listed(s.zones, s.spare, x, j);
      }
    }
  }

  lemma MallocPagesOk(s: State, i: nat, chunk: nat)
    requires Inv(s) && s.spare == [] && i < NZONES && chunk == ChunkSize(i) && 8 <= chunk
    requires 4 * chunk <= ZoneBytes(s.zonePages)
    ensures var (s', a) := MallocZone(s, i, chunk);
            Inv(s') && (a == NULL ==> s' == s) && (a != NULL ==> a >= 0 && Gains(s, s', a, chunk))
  {
    hide PagesOk, UsageOk, ZoneOk, NewZone, LiveIn, Alloc, SetPages, ListsOk, ZonesOk;
    InvPages(s);
    var (rest, z) := Alloc(s.pages, s.zonePages);
    NewZoneOk(z, i, chunk, s.zonePages);
    NewZoneIndex(z, i, chunk, s.zonePages);
    if z != NULL {
      GetBlock(s.pages, s.blocks, s.zonePages);
      BlocksPositive(s);
      ZonesInBlocks(s);
      UsageNewZone(s.usage, s.blocks, s.zones.Keys, s.zonePages, z);
      var s1 := s.(pages := rest, blocks := s.blocks[z := s.zonePages],
                   usage := SetPages(s.usage, z, s.zonePages, true));
      OpenZoneInv(s1, z, i, chunk);
      var (s', a) := MallocZone(s, i, chunk);
      forall x, m ensures Live(s', x, m) <==> Live(s, x, m) || (x == a && m == chunk) { ZoneGain(s, s', z, a, x, m); }
      NewZoneBase(z, i, chunk, s.zonePages);
      forall m ensures !Live(s, a, m) { NewBlockNotLive(s, z, s.zonePages, m, a); }
    } else {
      NewZoneBase(0, i, chunk, s.zonePages);
    }
  }

  lemma NewZoneBase(z: int, i: int, chunk: nat, zonePages: nat)
    requires 8 <= chunk && 4 * chunk <= ZoneBytes(zonePages) && zonePages >= 8
    ensures z * PAGE <= NewZone(z, i, chunk, zonePages).base < (z + zonePages) * PAGE
  {
    ZoneHolds(ZoneBytes(zonePages), chunk);
  }

  lemma ChunkUnder(n: nat, k: nat)
    requires 0 < n < 1024 * k && k >= 8 && n < MAX_SIZE
    ensures ZoneIndex(n).1 <= 1024 * k
  {
  }

  /** rt_malloc either changes nothing and returns NULL, or returns a block of at least the size asked for
      that nobody has, and every block in use stays so. */
  lemma MallocOk(s: State, size: nat)
    requires Inv(s)
    ensures var (s', a) := Malloc(s, size);
            Inv(s') && (a == NULL ==> s' == s) && (a != NULL ==> a >= 0 && exists n :: n >= size && Gains(s, s', a, n))
  {
    hide Inv, MallocLarge, MallocZone, MallocChunk, Gains, ZoneIndex, ChunkSize;
    InvPages(s);
    if 0 < size < Limit(s.zonePages) {
      var (i, c) := ZoneIndex(size);
      ZoneIndexFits(size);
      ChunkUnder(size, s.zonePages);
      SmallestClass(i);
      if s.partial[i] != [] {
        FirstListed(s, i);
        MallocChunkOk(s, i);
      } else if s.spare != [] {
        MallocSpareOk(s, i, c);
      } else {
        MallocPagesOk(s, i, c);
      }
    } else if size > 0 {
      MallocLargeOk(s, size);
    }
  }

  lemma InvPages(s: State)
    requires Inv(s)
    ensures s.zonePages >= 8 && |s.partial| == NZONES
  {
  }

  lemma SmallestClass(i: nat)
    requires i < NZONES
    ensures ChunkSize(i) >= 8
  {
    hide ChunkSize;
    if i + 1 < NZONES { ClassesGrow(i); } else { ClassesGrow(i - 1); }
  }

  // ----- rt_free

  ghost predicate Loses(s: State, s': State, a: int) {
    forall x, m :: Live(s', x, m) <==> Live(s, x, m) && x != a
  }

  ghost predicate SameLive(s: State, s': State) {
    forall x, m :: Live(s', x, m) <==> Live(s, x, m)
  }

  lemma FreeLargeOk(s: State, b: int)
    requires Inv(s) && LargeLive(s, b, b * PAGE)
    ensures b in s.usage && s.usage[b] == Large(s.blocks[b])
    ensures Inv(FreeLarge(s, b)) && Loses(s, FreeLarge(s, b), b * PAGE)
  {
    hide PagesOk, ZonesOk, ListsOk, Release;
    assert LargePage(s.usage, b, s.blocks[b]);
    var s' := FreeLarge(s, b);
    PutBlock(s.pages, s.blocks, b);
    UsageDropLarge(s.usage, s.pages, s.blocks, s.zones.Keys, s.zonePages, b);
    forall x, m ensures Live(s', x, m) <==> Live(s, x, m) && x != b * PAGE { LargeLose(s, s', b, x, m); }
  }

  lemma LargeLose(s: State, s': State, b: int, x: int, m: int)
    requires Inv(s) && s' == s.(pages := s'.pages, usage := s'.usage, blocks := s.blocks - {b})
    requires LargeLive(s, b, b * PAGE)
    ensures Live(s', x, m) <==> Live(s, x, m) && x != b * PAGE
  {
    hide Inv;
    if z :| SmallLive(s, z, x) && m == s.zones[z].chunk {
      assert SmallLive(s', z, x);
      NotBoth(s, z, b, x);
    }
    if z :| SmallLive(s', z, x) && m == s'.zones[z].chunk {
      assert SmallLive(s, z, x);
      NotBoth(s, z, b, x);
    }
    if c :| LargeLive(s, c, x) && m == s.blocks[c] * PAGE { assert c != b ==> LargeLive(s', c, x); }
    if c :| LargeLive(s', c, x) && m == s'.blocks[c] * PAGE { assert LargeLive(s, c, x) && c != b; }
  }

  /** A chunk is not the start of a large block. */
  lemma NotBoth(s: State, z: int, b: int, x: int)
    requires Inv(s) && SmallLive(s, z, x) && LargeLive(s, b, b * PAGE)
    ensures x != b * PAGE
  {
    SmallFinds(s, z, x);
    assert LargePage(s.usage, b, s.blocks[b]);
  }

  lemma FreeChunkOk(s: State, z: int, a: int)
    requires Inv(s) && SmallLive(s, z, a) && 0 <= s.zones[z].index < |s.partial|
    ensures Inv(FreeChunk(s, z, a)) && Loses(s, FreeChunk(s, z, a), a)
    ensures var s' := FreeChunk(s, z, a);
            z in s'.zones && z !in s'.spare && s'.zones[z].nfree > 0 && s'.zones[z].index == s.zones[z].index
  {
    hide PagesOk, UsageOk, LiveIn;
    var s' := FreeChunk(s, z, a);
    assert ZoneOk(s.zones[z], z, s.zonePages);
    GiveChunkOk(s.zones[z], z, s.zonePages, a);
    assert s'.zones.Keys == s.zones.Keys;
    FreeChunkLists(s, z, a);
    hide ZoneOk;
    forall x, m ensures Live(s', x, m) <==> Live(s, x, m) && x != a { SmallLose(s, s', z, a, x, m); }
  }

  lemma FreeChunkLists(s: State, z: int, a: int)
    requires Inv(s) && SmallLive(s, z, a) && 0 <= s.zones[z].index < |s.partial| && s.zones[z].nfree >= 0
    ensures var s' := FreeChunk(s, z, a); ListsOk(s'.zones, s'.partial, s'.spare)
  {
    hide PagesOk, UsageOk, ZonesOk;
    var s' := FreeChunk(s, z, a);
    forall j | 0 <= j < |s'.partial| ensures ListOk(s'.zones, s'.partial, s'.spare, j) {
      assert ListOk(s.zones, s.partial, s.spare, j);
      forall x ensures x in s'.partial[j] <==> Listed(s'.zones, s'.spare, x, j) {
        assert x in s.partial[j] <==> Listed(s.zones, s.spare, x, j);
      }
      assert z in s.partial[j] <==> Listed(s.zones, s.spare, z, j);
    }
  }

  lemma SmallLose(s: State, s': State, z: int, a: int, x: int, m: int)
    requires Inv(s) && SmallLive(s, z, a) && s' == s.(partial := s'.partial, zones := s'.zones)
    requires z in s'.zones && s'.zones == s.zones[z := s'.zones[z]] && s'.zones[z].chunk == s.zones[z].chunk
    requires forall y :: LiveIn(s'.zones[z], y) <==> LiveIn(s.zones[z], y) && y != a
    ensures Live(s', x, m) <==> Live(s, x, m) && x != a
  {
    hide Inv, LiveIn;
    SmallFinds(s, z, a);
    if y :| SmallLive(s, y, x) && m == s.zones[y].chunk {
      SmallFinds(s, y, x);
      assert x != a ==> SmallLive(s', y, x);
    }
    if y :| SmallLive(s', y, x) && m == s'.zones[y].chunk {
      assert SmallLive(s, y, x);
      SmallFinds(s, y, x);
    }
    if c :| LargeLive(s, c, x) && m == s.blocks[c] * PAGE {
      assert LargeLive(s', c, x);
      NotBoth(s, z, c, a);
    }
    if c :| LargeLive(s', c, x) && m == s'.blocks[c] * PAGE {
      assert LargeLive(s, c, x);
      NotBoth(s, z, c, a);
    }
  }

  /** A zone in use, listed, of which no chunk is. */
  ghost predicate Idle(s: State, z: int) {
    && z in s.zones && z !in s.spare && s.zones[z].nfree > 0 && 0 <= s.zones[z].index < |s.partial|
    && forall a :: !LiveIn(s.zones[z], a)
  }

  lemma RetireOk(s: State, z: int)
    requires Inv(s) && Idle(s, z) && |s.spare| < THRESHOLD
    ensures Inv(Retire(s, z)) && SameLive(s, Retire(s, z))
  {
    hide PagesOk, UsageOk, ZoneOk, LiveIn, Drop;
    var s' := Retire(s, z);
    RetireLists(s, z, s');
    forall x, m ensures Live(s', x, m) <==> Live(s, x, m) {
      if y :| SmallLive(s, y, x) && m == s.zones[y].chunk { assert SmallLive(s', y, x); }
      if y :| SmallLive(s', y, x) && m == s'.zones[y].chunk { assert SmallLive(s, y, x); }
      if c :| LargeLive(s, c, x) && m == s.blocks[c] * PAGE { assert LargeLive(s', c, x); }
      if c :| LargeLive(s', c, x) && m == s'.blocks[c] * PAGE { assert LargeLive(s, c, x); }
    }
  }

  /** Zone z leaves its list, for the spare ones or altogether. */
  lemma RetireLists(s: State, z: int, s': State)
    requires Inv(s) && Idle(s, z) && s'.partial == s.partial[s.zones[z].index := Drop(s.partial[s.zones[z].index], z)]
    requires || (s'.zones == s.zones && s'.spare == [z] + s.spare && |s.spare| < THRESHOLD)
             || (s'.zones == s.zones - {z} && s'.spare == s.spare)
    ensures ListsOk(s'.zones, s'.partial, s'.spare)
  {
    hide PagesOk, UsageOk, ZonesOk, LiveIn, Drop;
    forall j | 0 <= j < |s'.partial| ensures ListOk(s'.zones, s'.partial, s'.spare, j) {
      assert ListOk(s.zones, s.partial, s.spare, j);
      DropKeeps(s.partial[j], z);
      forall x ensures x in s'.partial[j] <==> Listed(s'.zones, s'.spare, x, j) {
        assert x in s.partial[j] <==> Listed(s.zones, s.spare, x, j);
      }
    }
  }

  lemma TrimOk(s: State, z: int)
    requires Inv(s) && Idle(s, z) && |s.spare| == THRESHOLD
    ensures Inv(Trim(Retire(s, z))) && SameLive(s, Trim(Retire(s, z)))
  {
    hide PagesOk, UsageOk, ZoneOk, LiveIn, Drop, Release, SetPages;
    var s' := Trim(Retire(s, z));
    ZonesInBlocks(s);
    assert ([z] + s.spare)[1..] == s.spare;
    PutBlock(s.pages, s.blocks, z);
    UsageDropZone(s.usage, s.pages, s.blocks, s.zones.Keys, s.zonePages, z);
    assert s'.zones.Keys == s.zones.Keys - {z};
    RetireLists(s, z, s');
    forall x, m ensures Live(s', x, m) <==> Live(s, x, m) {
      if y :| SmallLive(s, y, x) && m == s.zones[y].chunk { assert SmallLive(s', y, x); }
      if y :| SmallLive(s', y, x) && m == s'.zones[y].chunk { assert SmallLive(s, y, x); }
      if c :| LargeLive(s, c, x) && m == s.blocks[c] * PAGE { assert LargeLive(s', c, x); }
      if c :| LargeLive(s', c, x) && m == s'.blocks[c] * PAGE { assert LargeLive(s, c, x); }
    }
  }

  lemma FreeSmallOk(s: State, z: int, a: int)
    requires Inv(s) && SmallLive(s, z, a) && 0 <= s.zones[z].index < |s.partial|
    ensures Inv(FreeSmall(s, z, a)) && Loses(s, FreeSmall(s, z, a), a)
  {
    hide Inv, LiveIn, Live;
    FreeChunkOk(s, z, a);
    var s1, s' := FreeChunk(s, z, a), FreeSmall(s, z, a);
    if s1.zones[z].nfree == s1.zones[z].nmax && s1.partial[s.zones[z].index] != [z] {
      ZoneAt(s1, z);
      AllFreeMeansNoneLive(s1.zones[z], z, s1.zonePages);
      if |s1.spare| < THRESHOLD { RetireOk(s1, z); } else { TrimOk(s1, z); }
    }
  }

  lemma ZoneAt(s: State, z: int)
    requires Inv(s) && z in s.zones && z !in s.spare
    ensures ZoneOk(s.zones[z], z, s.zonePages) && |s.spare| <= THRESHOLD
  {
  }

  /** rt_free of a block in use ends its use and nobody else's. */
  lemma FreeOk(s: State, a: int)
    requires Inv(s) && exists n :: Live(s, a, n)
    ensures Inv(FreeAt(s, a)) && Loses(s, FreeAt(s, a), a)
  {
    hide Inv, Live, FreeSmall, FreeLarge, Loses;
    UsageFinds(s, a);
    var p := a / PAGE;
    match s.usage[p] {
      case Large(_) => FreeLargeOk(s, p);
      case Small(off) => FreeSmallOk(s, p - off, a);
      case Unused =>
    }
  }

  // ----- blocks in use

  /** Blocks in use do not overlap. */
  lemma LiveApart(s: State, a: int, n: int, b: int, m: int)
    requires Inv(s) && Live(s, a, n) && Live(s, b, m) && a != b
    ensures a + n <= b || b + m <= a
  {
    hide Inv, ZoneOk, PagesOk;
    if z :| SmallLive(s, z, a) && n == s.zones[z].chunk {
      if y :| SmallLive(s, y, b) && m == s.zones[y].chunk {
        if y == z { ZoneAt(s, z); ChunksApart(s.zones[z], z, s.zonePages, a, b); }
        else { InDifferentBlocks(s, z, y, a, n, b, m); }
      } else {
        var c :| LargeLive(s, c, b) && m == s.blocks[c] * PAGE;
        InDifferentBlocks(s, z, c, a, n, b, m);
      }
    } else {
      var c :| LargeLive(s, c, a) && n == s.blocks[c] * PAGE;
      if y :| SmallLive(s, y, b) && m == s.zones[y].chunk {
        InDifferentBlocks(s, c, y, a, n, b, m);
      } else {
        var d :| LargeLive(s, d, b) && m == s.blocks[d] * PAGE;
        InDifferentBlocks(s, c, d, a, n, b, m);
      }
    }
  }

  lemma ChunksApart(zn: Zone, z: int, zonePages: nat, a: int, b: int)
    requires ZoneOk(zn, z, zonePages) && Issued(zn, a) && Issued(zn, b) && a != b
    ensures a + zn.chunk <= b || b + zn.chunk <= a
  {
    var i :| IsChunk(zn, a, i);
    var j :| IsChunk(zn, b, j);
    TimesOrder(i, j, zn.chunk);
    TimesOrder(j, i, zn.chunk);
  }

  ghost predicate InBlock(s: State, b: int, a: int, n: int) {
    (SmallLive(s, b, a) && n == s.zones[b].chunk) || (LargeLive(s, b, a) && n == s.blocks[b] * PAGE)
  }

  lemma InDifferentBlocks(s: State, z: int, y: int, a: int, n: int, b: int, m: int)
    requires Inv(s) && z != y && InBlock(s, z, a, n) && InBlock(s, y, b, m)
    ensures a + n <= b || b + m <= a
  {
    hide Inv, ZoneOk, PagesOk;
    BlockHolds(s, z, a, n);
    BlockHolds(s, y, b, m);
    assert Apart(z, s.blocks[z], y, s.blocks[y]) by { BlocksApart(s, z, y); }
  }

  lemma BlocksApart(s: State, z: int, y: int)
    requires Inv(s) && z in s.blocks && y in s.blocks && z != y
    ensures Apart(z, s.blocks[z], y, s.blocks[y])
  {
  }

  lemma BlockHolds(s: State, z: int, a: int, n: int)
    requires Inv(s) && InBlock(s, z, a, n)
    ensures z in s.blocks && z * PAGE <= a && a + n <= (z + s.blocks[z]) * PAGE
  {
    if SmallLive(s, z, a) && n == s.zones[z].chunk {
      ZonesInBlocks(s);
      ZoneAt(s, z);
      var i :| IsChunk(s.zones[z], a, i);
      ChunkInZone(s.zones[z], z, s.zonePages, a, i);
    }
  }

  // ----- alignment

  lemma ModUnique(a: int, c: int, q: int, r: int)
    requires 0 <= r < c && a == q * c + r
    ensures a % c == r
  {
    TimesOrder(q, a / c, c);
    TimesOrder(a / c, q, c);
  }

  lemma ModShift(x: int, k: int, c: int)
    requires c > 0
    ensures (x + k * c) % c == x % c
  {
    var q := x / c;
    assert x + k * c == (q + k) * c + x % c;
    ModUnique(x + k * c, c, q + k, x % c);
  }

  lemma {:induction false} Pow2Divides(c: nat, p: nat)
    requires IsPow2(c) && IsPow2(p) && c <= p
    ensures c > 0 && p % c == 0
  {
    if c == 1 {
    } else {
      Pow2Divides(c / 2, p / 2);
      var m := (p / 2) / (c / 2);
      assert p / 2 == m * (c / 2);
      assert p == m * c;
      ModUnique(p, c, m, 0);
    }
  }

  /** Chunks whose size is a power of two lie at multiples of it exactly if their zone does.  Up to a page
      that is always so. */
  lemma PowerOfTwoAligned(z: int, chunk: nat, i: int)
    requires IsPow2(chunk)
    ensures chunk > 0 && ((z * PAGE + Offset(chunk) + i * chunk) % chunk == 0 <==> z * PAGE % chunk == 0)
    ensures chunk <= PAGE ==> z * PAGE % chunk == 0
  {
    hide IsPow2, Offset;
    Pow2Positive(chunk);
    var k := if HEADER % chunk == 0 then HEADER / chunk else HEADER / chunk + 1;
    OffsetMultiple(chunk, k);
    SumMultiple(z * PAGE, k, i, chunk);
    if chunk <= PAGE { PageMultiple(z, chunk); }
  }

  lemma Pow2Positive(chunk: nat)
    requires IsPow2(chunk)
    ensures chunk > 0
  {
  }

  lemma SumMultiple(x: int, k: int, i: int, c: int)
    requires c > 0
    ensures (x + k * c + i * c) % c == x % c
  {
    ModShift(x, k, c);
    ModShift(x + k * c, i, c);
  }

  lemma PageMultiple(z: int, chunk: nat)
    requires IsPow2(chunk) && 0 < chunk <= PAGE
    ensures z * PAGE % chunk == 0
  {
    assert IsPow2(4096);
    hide IsPow2;
    Pow2Divides(chunk, 4096);
    MultipleOf(z, 4096 / chunk, chunk);
  }

  lemma MultipleOf(z: int, m: int, c: int)
    requires c > 0 && m * c == PAGE
    ensures z * PAGE % c == 0
  {
    assert z * PAGE == z * (m * c) == (z * m) * c;
    ModUnique(z * PAGE, c, z * m, 0);
  }

  lemma OffsetMultiple(chunk: nat, k: int)
    requires IsPow2(chunk) && chunk > 0 && k == if HEADER % chunk == 0 then HEADER / chunk else HEADER / chunk + 1
    ensures Offset(chunk) == k * chunk
  {
    assert HEADER == (HEADER / chunk) * chunk + HEADER % chunk;
  }

  // ----- every run

  datatype Step = DoMalloc(size: nat) | DoFree(a: int)

  ghost predicate Takes(s: State, s': State, step: Step) {
    match step
    case DoMalloc(size) => Inv(s) ==> s' == Malloc(s, size).0
    case DoFree(a) => (exists n :: Live(s, a, n)) && (Inv(s) ==> s' == FreeAt(s, a))
  }

  ghost predicate IsRun(run: seq<State>, steps: seq<Step>) {
    |run| == |steps| + 1 && forall i :: 0 <= i < |steps| ==> Takes(run[i], run[i + 1], steps[i])
  }

  /** What rt_system_heap_init leaves: free pages, and no zone. */
  function Init(zonePages: nat, pages: seq<Run>): State {
    State(zonePages, pages, map[], map[], map[], seq(NZONES, _ => []), [])
  }

  lemma InitOk(zonePages: nat, pages: seq<Run>)
    requires zonePages >= 8 && Ok(pages)
    ensures Inv(Init(zonePages, pages))
  {
    var s := Init(zonePages, pages);
    forall i | 0 <= i < |s.partial| ensures ListOk(s.zones, s.partial, s.spare, i) { }
  }

  /** A heap whose first page is in use, as after the memusage table was put there: a block of 8192 bytes is not at a
      multiple of 8192. */
  lemma BigChunkMisaligned()
    ensures var s := Init(32, [Run(1, 64)]);
            Inv(s) && Malloc(s, 8192).1 == 12288 && 12288 % 8192 != 0
  {
    hide Inv, Chunks, SetPages;
    var pages := [Run(1, 64)];
    assert pages[1..] == [];
    InitOk(32, pages);
    assert Offset(8192) == 8192 by { assert IsPow2(2048) by { assert IsPow2(64); } }
    assert Alloc(pages, 32) == ([Run(33, 32)] + pages[1..], 1);
  }

  /** In every state of every run: the page list is in order and joined up, zone counts and lists agree,
      pages lead to their zones, at most two zones are spare, and blocks in use do not overlap. */
  lemma {:induction false} RunInv(run: seq<State>, steps: seq<Step>, zonePages: nat, pages: seq<Run>, i: nat)
    requires IsRun(run, steps) && i < |run| && zonePages >= 8 && Ok(pages) && run[0] == Init(zonePages, pages)
    ensures Inv(run[i]) && |run[i].spare| <= THRESHOLD && Ok(run[i].pages)
    ensures forall a, n, b, m :: Live(run[i], a, n) && Live(run[i], b, m) && a != b ==> a + n <= b || b + m <= a
    decreases i
  {
    hide Inv, Malloc, FreeAt, Live;
    if i == 0 {
      InitOk(zonePages, pages);
    } else {
      RunInv(run, steps, zonePages, pages, i - 1);
      assert Takes(run[i - 1], run[i], steps[i - 1]);
      match steps[i - 1] {
        case DoMalloc(size) => MallocOk(run[i - 1], size);
        case DoFree(a) => FreeOk(run[i - 1], a);
      }
    }
    InvMeans(run[i]);
    forall a, n, b, m | Live(run[i], a, n) && Live(run[i], b, m) && a != b ensures a + n <= b || b + m <= a {
      LiveApart(run[i], a, n, b, m);
    }
  }

  lemma InvMeans(s: State)
    requires Inv(s)
    ensures |s.spare| <= THRESHOLD && Ok(s.pages)
  {
  }

  /** NULL comes exactly when the pages that are needed are not there in a row. */
  lemma MallocFailsIff(s: State, size: nat)
    requires Inv(s) && size > 0
    ensures Malloc(s, size).1 == NULL <==>
            if size >= Limit(s.zonePages) then forall p :: !AllFree(s.pages, p, RoundTo(size, PAGE) / PAGE)
            else s.partial[ZoneIndex(size).0] == [] && s.spare == [] && forall p :: !AllFree(s.pages, p, s.zonePages)
  {
    hide ZoneIndex, ChunkSize, RoundTo, TakeChunk, Inv;
    InvPages(s);
    InvMeans(s);
    if size >= Limit(s.zonePages) {
      assert RoundTo(size, PAGE) / PAGE > 0;
      AllocFailsIff(s.pages, 0, RoundTo(size, PAGE) / PAGE);
    } else {
      AllocFailsIff(s.pages, 0, s.zonePages);
      var (i, c) := ZoneIndex(size);
      ZoneIndexFits(size);
      ChunkUnder(size, s.zonePages);
      SmallestClass(i);
      if s.partial[i] != [] {
        FirstListed(s, i);
        MallocChunkOk(s, i);
      } else if s.spare != [] {
        MallocSpareOk(s, i, c);
      } else {
        MallocPagesOk(s, i, c);
        var z := Alloc(s.pages, s.zonePages).1;
        AllocTakes(s.pages, 0, s.zonePages);
        NewZoneBase(z, i, c, s.zonePages);
      }
    }
  }
}
