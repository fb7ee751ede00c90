/** The page allocator under the slab allocator (slab.c): a list of runs of free pages in order of address.

    Pages are numbered from the start of the heap. */
module PageList {

  datatype Run = Run(start: int, count: int)

  const NULL: int := -1

  function End(r: Run): int { r.start + r.count }

  /** In order, apart from each other, none empty, none touching the next, none below `lo`. */
  ghost predicate OkFrom(list: seq<Run>, lo: int) {
    list == [] || (lo <= list[0].start && list[0].count > 0 && OkFrom(list[1..], End(list[0]) + 1))
  }

  ghost predicate Ok(list: seq<Run>) { OkFrom(list, 0) }

  /** Page p is free. */
  ghost predicate Free(list: seq<Run>, p: int) {
    list != [] && (list[0].start <= p < End(list[0]) || Free(list[1..], p))
  }

  // ----- the operations

  /** rt_page_alloc: the front of the first run that is long enough. */
  function Alloc(list: seq<Run>, n: nat): (r: (seq<Run>, int)) {
    if n == 0 || list == [] then (list, NULL)
    else if list[0].count > n then ([Run(list[0].start + n, list[0].count - n)] + list[1..], list[0].start)
    else if list[0].count == n then (list[1..], list[0].start)
    else var (rest, b) := Alloc(list[1..], n); ([list[0]] + rest, b)
  }

  /** rt_page_free: joined to the run before it, the run behind it, or both. */
  function Release(list: seq<Run>, s: int, n: nat): seq<Run> {
    if list == [] then [Run(s, n)]
    else if End(list[0]) == s then
      if |list| > 1 && s + n == list[1].start then [Run(list[0].start, list[0].count + n + list[1].count)] + list[2..]
      else [Run(list[0].start, list[0].count + n)] + list[1..]
    else if list[0].start == s + n then [Run(s, list[0].count + n)] + list[1..]
    else if list[0].start > s + n then [Run(s, n)] + list
    else [list[0]] + Release(list[1..], s, n)
  }

  // ----- what they do to the set of free pages

  lemma {:induction false} FreeAbove(list: seq<Run>, lo: int, p: int)
    requires OkFrom(list, lo) && Free(list, p)
    ensures lo <= p
  {
    if !(list[0].start <= p < End(list[0])) { FreeAbove(list[1..], End(list[0]) + 1, p); }
  }

  lemma {:induction false} OkLower(list: seq<Run>, lo: int, lo': int)
    requires OkFrom(list, lo) && lo' <= lo
    ensures OkFrom(list, lo')
  {
  }

  /** The pages from s on, n of them. */
  predicate Within(p: int, s: int, n: int) { s <= p < s + n }

  ghost predicate AllFree(list: seq<Run>, s: int, n: int) { forall p :: Within(p, s, n) ==> Free(list, p) }

  lemma {:induction false} AllocTakes(list: seq<Run>, lo: int, n: nat)
    requires OkFrom(list, lo) && lo >= 0
    ensures var (rest, b) := Alloc(list, n);
            && OkFrom(rest, lo)
            && (b == NULL ==> rest == list)
            && (b != NULL ==> lo <= b && n > 0 && forall p :: Free(list, p) <==> Free(rest, p) || Within(p, b, n))
            && (b != NULL ==> forall p :: Within(p, b, n) ==> !Free(rest, p))
  {
    if n == 0 || list == [] {
    } else if list[0].count > n {
      var first := Run(list[0].start + n, list[0].count - n);
      var rest := [first] + list[1..];
      assert rest[1..] == list[1..];
      forall p | Within(p, list[0].start, n) ensures !Free(rest, p) {
        if Free(list[1..], p) { FreeAbove(list[1..], End(list[0]) + 1, p); }
      }
    } else if list[0].count == n {
      OkLower(list[1..], End(list[0]) + 1, lo);
      forall p | Within(p, list[0].start, n) ensures !Free(list[1..], p) {
        if Free(list[1..], p) { FreeAbove(list[1..], End(list[0]) + 1, p); }
      }
    } else {
      AllocTakes(list[1..], End(list[0]) + 1, n);
      var (rest, b) := Alloc(list[1..], n);
      assert ([list[0]] + rest)[1..] == rest;
      if b == NULL { assert [list[0]] + rest == list; }
    }
  }

  /** Nothing is found exactly if no n pages in a row are free. */
  lemma {:induction false} AllocFailsIff(list: seq<Run>, lo: int, n: nat)
    requires OkFrom(list, lo) && lo >= 0 && n > 0
    ensures Alloc(list, n).1 == NULL <==> forall s :: !AllFree(list, s, n)
  {
    AllocTakes(list, lo, n);
    var (rest, b) := Alloc(list, n);
    if b == NULL {
      forall s ensures !AllFree(list, s, n) {
        var p := Hole(list, lo, n, s);
      }
    } else {
      assert AllFree(list, b, n);
    }
  }

  /** If every run is too short, any n pages in a row include one that is not free. */
  lemma {:induction false} Hole(list: seq<Run>, lo: int, n: nat, s: int) returns (p: int)
    requires OkFrom(list, lo) && lo >= 0 && n > 0 && Alloc(list, n).1 == NULL
    ensures Within(p, s, n) && !Free(list, p)
    decreases |list|
  {
    if list == [] {
      p := s;
    } else if s < list[0].start {
      p := s;
      if Free(list[1..], p) { FreeAbove(list[1..], End(list[0]) + 1, p); }
    } else if s < End(list[0]) {
      p := End(list[0]);
      if Free(list[1..], p) { FreeAbove(list[1..], End(list[0]) + 1, p); }
    } else {
      p := Hole(list[1..], End(list[0]) + 1, n, s);
    }
  }

  lemma {:induction false} ReleaseAdds(list: seq<Run>, lo: int, s: int, n: nat)
    requires OkFrom(list, lo) && lo <= s && n > 0 && forall p :: Within(p, s, n) ==> !Free(list, p)
    ensures OkFrom(Release(list, s, n), lo)
    ensures forall p :: Free(Release(list, s, n), p) <==> Free(list, p) || Within(p, s, n)
  {
    if list != [] {
      var b, rest := list[0], list[1..];
      if End(b) == s {
        if |list| > 1 && s + n == list[1].start {
          assert rest[0] == list[1] && rest[1..] == list[2..];
          assert ([Run(b.start, b.count + n + list[1].count)] + list[2..])[1..] == list[2..];
        } else {
          assert ([Run(b.start, b.count + n)] + rest)[1..] == rest;
          Beyond(rest, End(b) + 1, s, n);
        }
      } else if b.start == s + n {
        assert ([Run(s, b.count + n)] + rest)[1..] == rest;
      } else if b.start > s + n {
        assert ([Run(s, n)] + list)[1..] == list;
      } else {
        assert ([b] + Release(rest, s, n))[1..] == Release(rest, s, n);
        assert Within(s, s, n);
        if s <= b.start { assert Within(b.start, s, n); }
        ReleaseAdds(rest, End(b) + 1, s, n);
      }
    }
  }

  /** A run cannot start inside pages that are not free. */
  lemma Beyond(rest: seq<Run>, lo: int, s: int, n: nat)
    requires OkFrom(rest, lo) && s < lo && n > 0
    requires forall p :: Within(p, s, n) ==> !Free(rest, p)
    requires rest != [] ==> rest[0].start != s + n
    ensures OkFrom(rest, s + n + 1)
  {
    assert rest != [] ==> Free(rest, rest[0].start);
  }

  // ----- a list is determined by its pages

  lemma {:induction false} Canonical(a: seq<Run>, b: seq<Run>, lo: int, lo': int)
    requires OkFrom(a, lo) && OkFrom(b, lo') && forall p :: Free(a, p) <==> Free(b, p)
    ensures a == b
  {
    if a == [] || b == [] {
      assert a != [] ==> Free(a, a[0].start);
      assert b != [] ==> Free(b, b[0].start);
    } else {
      FirstStart(a, b, lo, lo');
      FirstStart(b, a, lo', lo);
      FirstEnd(a, b, lo, lo');
      FirstEnd(b, a, lo', lo);
      forall p ensures Free(a[1..], p) <==> Free(b[1..], p) {
        assert Free(a, p) <==> Free(b, p);
        if Free(a[1..], p) { FreeAbove(a[1..], End(a[0]) + 1, p); }
        if Free(b[1..], p) { FreeAbove(b[1..], End(b[0]) + 1, p); }
      }
      Canonical(a[1..], b[1..], End(a[0]) + 1, End(b[0]) + 1);
      assert a == [a[0]] + a[1..] && b == [b[0]] + b[1..];
    }
  }

  lemma FirstStart(a: seq<Run>, b: seq<Run>, lo: int, lo': int)
    requires OkFrom(a, lo) && OkFrom(b, lo') && a != [] && b != [] && forall p :: Free(a, p) ==> Free(b, p)
    ensures b[0].start <= a[0].start
  {
    assert Free(a, a[0].start);
    FreeAbove(b, b[0].start, a[0].start);
  }

  lemma FirstEnd(a: seq<Run>, b: seq<Run>, lo: int, lo': int)
    requires OkFrom(a, lo) && OkFrom(b, lo') && a != [] && b != [] && a[0].start == b[0].start
    requires forall p :: Free(a, p) ==> Free(b, p)
    ensures End(a[0]) <= End(b[0])
  {
    if End(a[0]) > End(b[0]) {
      assert Free(a, End(b[0]));
      FreeAbove(b[1..], End(b[0]) + 1, End(b[0]));
    }
  }

  /** Giving pages back restores the list itself. */
  lemma ReleaseUndoesAlloc(list: seq<Run>, n: nat)
    requires Ok(list) && Alloc(list, n).1 != NULL
    ensures var (rest, b) := Alloc(list, n); Release(rest, b, n) == list
  {
    var (rest, b) := Alloc(list, n);
    AllocTakes(list, 0, n);
    ReleaseAdds(rest, 0, b, n);
    Canonical(Release(rest, b, n), list, 0, 0);
  }

  /** The order in which pages are given back does not matter. */
  lemma ReleasesCommute(list: seq<Run>, s: int, n: nat, s': int, n': nat)
    requires Ok(list) && 0 <= s && 0 <= s' && n > 0 && n' > 0 && (s + n <= s' || s' + n' <= s)
    requires forall p :: Within(p, s, n) || Within(p, s', n') ==> !Free(list, p)
    ensures Release(Release(list, s, n), s', n') == Release(Release(list, s', n'), s, n)
  {
    ReleaseAdds(list, 0, s, n);
    ReleaseAdds(list, 0, s', n');
    ReleaseAdds(Release(list, s, n), 0, s', n');
    ReleaseAdds(Release(list, s', n'), 0, s, n);
    Canonical(Release(Release(list, s, n), s', n'), Release(Release(list, s', n'), s, n), 0, 0);
  }

  // ----- the code

  /** The headers in the free pages hold the list. */
  ghost predicate LinkOk(next: map<int, int>, page: map<int, int>, list: seq<Run>, k: int)
    requires 0 <= k < |list|
  {
    var b := list[k].start;
    b in next && b in page && page[b] == list[k].count && next[b] == StartOf(list, k + 1)
  }

  function StartOf(list: seq<Run>, k: nat): int { if k < |list| then list[k].start else NULL }

  ghost predicate Chain(next: map<int, int>, page: map<int, int>, head: int, list: seq<Run>) {
    head == StartOf(list, 0) && forall k :: 0 <= k < |list| ==> LinkOk(next, page, list, k)
  }

  lemma {:induction false} StartsApart(list: seq<Run>, lo: int, i: nat, j: nat)
    requires OkFrom(list, lo) && i < j < |list|
    ensures lo <= list[i].start && End(list[i]) < list[j].start
    decreases i, j
  {
    if i > 0 {
      StartsApart(list[1..], End(list[0]) + 1, i - 1, j - 1);
    } else if j > 1 {
      StartsApart(list[1..], End(list[0]) + 1, 0, j - 1);
    }
  }

  /** The list with the runs from k to m replaced. */
  function Spliced(list: seq<Run>, k: nat, m: nat, mid: seq<Run>): seq<Run>
    requires k <= m <= |list|
  {
    list[..k] + mid + list[m..]
  }

  /** Header b is as it was. */
  ghost predicate Same(map0: map<int, int>, map1: map<int, int>, b: int) {
    b in map0 ==> b in map1 && map1[b] == map0[b]
  }

  lemma SpliceChain(next: map<int, int>, page: map<int, int>, head: int, list: seq<Run>, k: nat, m: nat, mid: seq<Run>,
                    next': map<int, int>, page': map<int, int>, head': int)
    requires Chain(next, page, head, list) && k <= m <= |list| && |mid| <= 1
    requires forall i :: 0 <= i < k || m <= i < |list| ==> Same(page, page', list[i].start)
    requires forall i :: 0 <= i < k - 1 || m <= i < |list| ==> Same(next, next', list[i].start)
    requires var first := if mid == [] then StartOf(list, m) else mid[0].start;
             if k == 0 then head' == first
             else head' == head && list[k - 1].start in next' && next'[list[k - 1].start] == first
    requires mid != [] ==>
             var n := mid[0].start;
             n in next' && n in page' && page'[n] == mid[0].count && next'[n] == StartOf(list, m)
    ensures Chain(next', page', head', Spliced(list, k, m, mid))
  {
    var l := Spliced(list, k, m, mid);
    forall i | 0 <= i < |l| ensures LinkOk(next', page', l, i) {
      if i < k {
        assert LinkOk(next, page, list, i) && l[i] == list[i];
        assert Same(page, page', list[i].start);
        if i < k - 1 { assert Same(next, next', list[i].start) && l[i + 1] == list[i + 1]; }
      } else if i >= k + |mid| {
        var j := i - k - |mid| + m;
        assert LinkOk(next, page, list, j) && l[i] == list[j];
        assert Same(page, page', list[j].start) && Same(next, next', list[j].start);
      }
    }
  }

  lemma {:induction false} StartsFree(list: seq<Run>, lo: int, i: nat)
    requires OkFrom(list, lo) && i < |list|
    ensures lo <= list[i].start && list[i].count > 0 && Free(list, list[i].start)
  {
    if i > 0 { StartsFree(list[1..], End(list[0]) + 1, i - 1); }
  }

  lemma AllocStep(list: seq<Run>, k: nat, n: nat)
    requires k < |list| && 0 < n && list[k].count < n
    ensures list[..k] + Alloc(list[k..], n).0 == list[..k + 1] + Alloc(list[k + 1..], n).0
    ensures Alloc(list[k..], n).1 == Alloc(list[k + 1..], n).1
  {
    assert list[k..][0] == list[k] && list[k..][1..] == list[k + 1..];
  }

  /** What is left of the run `r` when its first n pages are taken. */
  function Remainder(r: Run, n: nat): seq<Run> { if r.count > n then [Run(r.start + n, r.count - n)] else [] }

  lemma AllocHere(list: seq<Run>, k: nat, n: nat)
    requires k < |list| && 0 < n <= list[k].count
    ensures Alloc(list[k..], n).1 == list[k].start
    ensures list[..k] + Alloc(list[k..], n).0 == Spliced(list, k, k + 1, Remainder(list[k], n))
  {
    assert list[k..][0] == list[k] && list[k..][1..] == list[k + 1..];
  }

  lemma ReleaseStep(list: seq<Run>, k: nat, s: int, n: nat)
    requires k < |list| && End(list[k]) != s && list[k].start < s + n
    ensures list[..k] + Release(list[k..], s, n) == list[..k + 1] + Release(list[k + 1..], s, n)
  {
    assert list[k..][0] == list[k] && list[k..][1..] == list[k + 1..];
  }

  /** The list with the pages s..s + n put in at run k. */
  function Joined(list: seq<Run>, k: nat, s: int, n: nat): seq<Run>
    requires k <= |list|
  {
    if k < |list| && End(list[k]) == s then
      if k + 1 < |list| && s + n == list[k + 1].start then
        Spliced(list, k, k + 2, [Run(list[k].start, list[k].count + n + list[k + 1].count)])
      else Spliced(list, k, k + 1, [Run(list[k].start, list[k].count + n)])
    else if k < |list| && list[k].start == s + n then Spliced(list, k, k + 1, [Run(s, list[k].count + n)])
    else Spliced(list, k, k, [Run(s, n)])
  }

  lemma ReleaseHere(list: seq<Run>, k: nat, s: int, n: nat)
    requires k <= |list| && n > 0
    requires k < |list| ==> list[k].count > 0 && (End(list[k]) == s || list[k].start >= s + n)
    ensures list[..k] + Release(list[k..], s, n) == Joined(list, k, s, n)
  {
    var l := list[k..];
    if k < |list| { assert l[0] == list[k] && l[1..] == list[k + 1..]; }
    if k + 1 < |list| { assert l[1] == list[k + 1] && l[2..] == list[k + 2..]; }
  }

  class PageAllocator {
    var head: int
    var next: map<int, int>
    var page: map<int, int>
    ghost var list: seq<Run>

    ghost predicate Valid()
      reads this
    {
      Ok(list) && Chain(next, page, head, list)
    }

    constructor ()
      ensures Valid() && list == []
    {
      head, next, page, list := NULL, map[], map[], [];
    }

    /** *prev = x, where prev is the header of a run or the list itself. */
    method SetLink(prev: int, x: int)
      modifies `head, `next
      ensures if prev == NULL then head == x && next == old(next) else head == old(head) && next == old(next)[prev := x]
    {
      if prev == NULL {
        head := x;
      } else {
        next := next[prev := x];
      }
    }

    /** b is the k-th run and prev the link to it. */
    ghost predicate At(prev: int, b: int, k: nat)
      reads this
    {
      k <= |list| && b == StartOf(list, k) && prev == if k == 0 then NULL else StartOf(list, k - 1)
    }

    /** The loop of rt_page_alloc. */
    method FindFit(n: nat) returns (prev: int, b: int, ghost k: nat)
      requires Valid() && n > 0
      ensures At(prev, b, k) && (b == NULL <==> k == |list|) && (k < |list| ==> list[k].count >= n)
      ensures k == |list| ==> Alloc(list, n) == (list, NULL)
      ensures k < |list| ==> Alloc(list, n) == (Spliced(list, k, k + 1, Remainder(list[k], n)), b)
    {
      hide Spliced, OkFrom;
      prev, b, k := NULL, head, 0;
      assert list[0..] == list;
      while b != NULL
        invariant At(prev, b, k)
        invariant Alloc(list, n).0 == list[..k] + Alloc(list[k..], n).0 && Alloc(list, n).1 == Alloc(list[k..], n).1
        decreases |list| - k
      {
        assert LinkOk(next, page, list, k);
        if page[b] >= n {
          StartsFree(list, 0, k);
          AllocHere(list, k, n);
          return;
        }
        AllocStep(list, k, n);
        prev := b;
        b := next[b];
        k := k + 1;
      }
      if k < |list| { StartsFree(list, 0, k); }
      assert list[..k] == list && list[k..] == [] && list + [] == list;
    }

    /** rt_page_alloc. */
    method AllocPages(n: nat) returns (b: int)
      requires Valid()
      modifies this
      ensures Valid() && (list, b) == Alloc(old(list), n)
    {
      if n == 0 {
        return NULL;
      }
      hide Chain, OkFrom, Alloc, Free, Spliced;
      AllocTakes(list, 0, n);
      var prev;
      ghost var k;
      prev, b, k := FindFit(n);
      if b != NULL {
        ChainAt(next, page, head, list, k);
        if page[b] > n {
          Split(prev, b, k, n);
        } else {
          Cut(prev, b, k);
        }
      }
    }

    /** Keep the back part of run k. */
    method Split(prev: int, b: int, ghost k: nat, n: nat)
      requires Valid() && k < |list| && At(prev, b, k) && 0 < n < list[k].count
      modifies this
      ensures Chain(next, page, head, list)
      ensures list == Spliced(old(list), k, k + 1, [Run(b + n, old(list)[k].count - n)])
    {
      assert LinkOk(next, page, list, k);
      ghost var next0, page0, head0 := next, page, head;
      var x := b + n;
      next := next[x := next[b]];
      page := page[x := page[b] - n];
      SetLink(prev, x);
      forall i | 0 <= i < |list| ensures i != k ==> list[i].start != x && list[i].start != b {
        if i < k { StartsApart(list, 0, i, k); StartsFree(list, 0, i); }
        if i > k { StartsApart(list, 0, k, i); }
      }
      if k > 0 { StartsFree(list, 0, k - 1); ApartAll(list, k - 1); }
      SpliceChain(next0, page0, head0, list, k, k + 1, [Run(x, list[k].count - n)], next, page, head);
      list := Spliced(list, k, k + 1, [Run(x, list[k].count - n)]);
    }

    /** Take run k out. */
    method Cut(prev: int, b: int, ghost k: nat)
      requires Valid() && k < |list| && At(prev, b, k)
      modifies this
      ensures Chain(next, page, head, list) && list == Spliced(old(list), k, k + 1, [])
    {
      assert LinkOk(next, page, list, k);
      ghost var next0, page0, head0 := next, page, head;
      SetLink(prev, next[b]);
      if k > 0 { StartsFree(list, 0, k - 1); ApartAll(list, k - 1); }
      SpliceChain(next0, page0, head0, list, k, k + 1, [], next, page, head);
      list := Spliced(list, k, k + 1, []);
    }

    /** The loop of rt_page_free: the first run that the pages touch or come before. */
    method FindSpot(s: int, n: nat) returns (prev: int, b: int, ghost k: nat)
      requires Valid() && 0 <= s && n > 0
      ensures At(prev, b, k) && (b == NULL <==> k == |list|)
      ensures k < |list| ==> End(list[k]) == s || list[k].start >= s + n
      ensures Release(list, s, n) == Joined(list, k, s, n)
    {
      hide Joined, OkFrom, Release;
      prev, b, k := NULL, head, 0;
      assert list[0..] == list;
      while b != NULL
        invariant At(prev, b, k)
        invariant Release(list, s, n) == list[..k] + Release(list[k..], s, n)
        decreases |list| - k
      {
        assert LinkOk(next, page, list, k);
        if b + page[b] == s || b >= s + n {
          StartsFree(list, 0, k);
          ReleaseHere(list, k, s, n);
          return;
        }
        ReleaseStep(list, k, s, n);
        prev := b;
        b := next[b];
        k := k + 1;
      }
      if k < |list| { StartsFree(list, 0, k); }
      ReleaseHere(list, k, s, n);
    }

    /** rt_page_free. */
    method ReleasePages(s: int, n: nat)
      requires Valid() && 0 <= s && n > 0 && forall p :: Within(p, s, n) ==> !Free(list, p)
      modifies this
      ensures Valid() && list == Release(old(list), s, n)
    {
      hide Chain, OkFrom, Release, Free, Spliced;
      ReleaseAdds(list, 0, s, n);
      assert Within(s, s, n);
      var prev, b;
      ghost var k;
      prev, b, k := FindSpot(s, n);
      if b != NULL {
        ChainAt(next, page, head, list, k);
        if b + page[b] == s {
          Grow(prev, b, k, s, n);
          return;
        }
        if b == s + n {
          Insert(prev, next[b], k, k + 1, s, page[b] + n);
          return;
        }
      }
      Insert(prev, b, k, k, s, n);
    }

    /** A new header at s, before run m and in place of run k if that is not m. */
    method Insert(prev: int, b: int, ghost k: nat, ghost m: nat, s: int, count: int)
      requires Valid() && k <= m <= |list| && m <= k + 1 && At(prev, StartOf(list, k), k) && b == StartOf(list, m)
      requires 0 <= s && !Free(list, s)
      modifies this
      ensures Chain(next, page, head, list) && list == Spliced(old(list), k, m, [Run(s, count)])
    {
      ghost var next0, page0, head0 := next, page, head;
      page := page[s := count];
      next := next[s := b];
      SetLink(prev, s);
      forall i | 0 <= i < |list| ensures list[i].start != s { StartsFree(list, 0, i); }
      if k > 0 { StartsFree(list, 0, k - 1); ApartAll(list, k - 1); }
      SpliceChain(next0, page0, head0, list, k, m, [Run(s, count)], next, page, head);
      list := Spliced(list, k, m, [Run(s, count)]);
    }

    /** Run k grows at its end, and takes in the next run if it reaches it. */
    method Grow(prev: int, b: int, ghost k: nat, s: int, n: nat)
      requires Valid() && k < |list| && At(prev, b, k) && End(list[k]) == s && n > 0
      modifies this
      ensures Chain(next, page, head, list)
      ensures var l := old(list);
              if k + 1 < |l| && s + n == l[k + 1].start then
                list == Spliced(l, k, k + 2, [Run(b, l[k].count + n + l[k + 1].count)])
              else list == Spliced(l, k, k + 1, [Run(b, l[k].count + n)])
    {
      hide OkFrom;
      assert LinkOk(next, page, list, k);
      StartsFree(list, 0, k);
      ApartAll(list, k);
      ghost var next0, page0, head0, m := next, page, head, k + 1;
      page := page[b := page[b] + n];
      if b + page[b] == next[b] {
        assert LinkOk(next0, page0, list, k + 1);
        page := page[b := page[b] + page[next[b]]];
        next := next[b := next[next[b]]];
        m := k + 2;
      }
      ghost var mid := [Run(b, page[b])];
      if k > 0 { assert LinkOk(next0, page0, list, k - 1); }
      SpliceChain(next0, page0, head0, list, k, m, mid, next, page, head);
      list := Spliced(list, k, m, mid);
    }
  }

  lemma ChainAt(next: map<int, int>, page: map<int, int>, head: int, list: seq<Run>, k: nat)
    requires Chain(next, page, head, list) && k < |list|
    ensures LinkOk(next, page, list, k)
  {
  }

  lemma ApartAll(list: seq<Run>, k: nat)
    requires Ok(list) && k < |list|
    ensures forall i :: 0 <= i < |list| && i != k ==> list[i].start != list[k].start
  {
    forall i | 0 <= i < |list| && i != k ensures list[i].start != list[k].start {
      var a, b := if i < k then i else k, if i < k then k else i;
      StartsApart(list, 0, a, b);
      StartsFree(list, 0, a);
    }
  }
}
