/** The doubly linked lists of the kernel (rtservice.h): a list is the ring of nodes that starts at its head,
    and a node in no list is linked to itself.  Nodes are numbers; the links are two maps. */
module Nodes {
  import opened Ring

  /** The ring from head `h` through `list`. */
  ghost predicate IsList(next: map<int, int>, prev: map<int, int>, h: int, list: seq<int>) {
    IsRing(next, prev, [h] + list) && Distinct([h] + list)
  }

  ghost predicate Lone(next: map<int, int>, prev: map<int, int>, t: int) {
    t in next && t in prev && next[t] == t && prev[t] == t
  }

  /** Node x is linked as it was. */
  ghost predicate Same(next: map<int, int>, prev: map<int, int>, next': map<int, int>, prev': map<int, int>, x: int) {
    x in next && x in prev ==> x in next' && x in prev' && next'[x] == next[x] && prev'[x] == prev[x]
  }

  // ----- rt_list_remove, rt_list_insert_after, rt_list_insert_before

  function RemoveNode(next: map<int, int>, prev: map<int, int>, t: int): (map<int, int>, map<int, int>)
    requires t in next && t in prev
  {
    (next[prev[t] := next[t]][t := t], prev[next[t] := prev[t]][t := t])
  }

  function InsertAfter(next: map<int, int>, prev: map<int, int>, l: int, t: int): (map<int, int>, map<int, int>)
    requires l in next
  {
    (next[t := next[l]][l := t], prev[next[l] := t][t := l])
  }

  function InsertBefore(next: map<int, int>, prev: map<int, int>, l: int, t: int): (map<int, int>, map<int, int>)
    requires l in prev
  {
    (next[prev[l] := t][t := l], prev[t := prev[l]][l := t])
  }

  // ----- what they do to a list

  lemma RingAt(next: map<int, int>, prev: map<int, int>, ring: seq<int>, k: nat)
    requires IsRing(next, prev, ring) && k < |ring|
    ensures LinkedAt(next, prev, ring, k)
  {
  }

  /** A ring depends on the links of its own nodes. */
  lemma RingSame(next: map<int, int>, prev: map<int, int>, next': map<int, int>, prev': map<int, int>, ring: seq<int>)
    requires IsRing(next, prev, ring) && forall x :: x in ring ==> Same(next, prev, next', prev', x)
    ensures IsRing(next', prev', ring)
  {
    forall k | 0 <= k < |ring| ensures LinkedAt(next', prev', ring, k) {
      assert LinkedAt(next, prev, ring, k) && ring[k] in ring;
      assert Same(next, prev, next', prev', ring[k]);
    }
  }

  lemma ListSame(next: map<int, int>, prev: map<int, int>, next': map<int, int>, prev': map<int, int>, h: int,
                 list: seq<int>)
    requires IsList(next, prev, h, list) && Same(next, prev, next', prev', h)
    requires forall x :: x in list ==> Same(next, prev, next', prev', x)
    ensures IsList(next', prev', h, list)
  {
    hide IsRing, Distinct;
    forall x | x in [h] + list ensures Same(next, prev, next', prev', x) { }
    RingSame(next, prev, next', prev', [h] + list);
  }

  /** The first and last nodes of a list, as its head sees them. */
  lemma Ends(next: map<int, int>, prev: map<int, int>, h: int, list: seq<int>)
    requires IsList(next, prev, h, list)
    ensures h in next && h in prev && h !in list
    ensures next[h] == if list == [] then h else list[0]
    ensures prev[h] == if list == [] then h else list[|list| - 1]
  {
    RingAt(next, prev, [h] + list, 0);
    forall k | 0 <= k < |list| ensures list[k] != h { assert ([h] + list)[k + 1] == list[k]; }
  }

  lemma MemberLinks(next: map<int, int>, prev: map<int, int>, h: int, list: seq<int>, t: int)
    requires IsList(next, prev, h, list) && t in list
    ensures t in next && t in prev && (next[t] == h || next[t] in list) && (prev[t] == h || prev[t] in list)
  {
    var k := PosOf(list, t);
    assert ([h] + list)[k + 1] == t;
    RingAt(next, prev, [h] + list, k + 1);
  }

  lemma DropInRing(h: int, list: seq<int>, t: int)
    requires t in list
    ensures var k := PosOf(list, t); ([h] + list)[k + 1] == t && Without([h] + list, k + 1) == [h] + Drop(list, t)
  {
    hide PosOf;
    WithoutBehindHead(h, list, PosOf(list, t));
  }

  /** Removing a member: the list goes on without it, the node is alone, and other nodes are not touched. */
  lemma RemoveMember(next: map<int, int>, prev: map<int, int>, h: int, list: seq<int>, t: int)
    requires IsList(next, prev, h, list) && t in list
    ensures t in next && t in prev
    ensures var (next', prev') := RemoveNode(next, prev, t);
            && IsList(next', prev', h, Drop(list, t)) && Lone(next', prev', t)
            && forall x :: x != h && x !in list ==> Same(next, prev, next', prev', x)
  {
    hide Distinct, IsRing, Drop, Without;
    var k, ring := PosOf(list, t), [h] + list;
    DropInRing(h, list, t);
    RingAt(next, prev, ring, k + 1);
    MemberLinks(next, prev, h, list, t);
    Unlink(next, prev, ring, k + 1);
    DistinctWithout(ring, k + 1);
    var next1, prev1 := next[prev[t] := next[t]], prev[next[t] := prev[t]];
    RingSame(next1, prev1, next1[t := t], prev1[t := t], [h] + Drop(list, t));
  }

  /** Removing a node that is in no list changes nothing. */
  lemma RemoveLone(next: map<int, int>, prev: map<int, int>, t: int)
    requires Lone(next, prev, t)
    ensures RemoveNode(next, prev, t) == (next, prev)
  {
    assert next[t := t] == next && prev[t := t] == prev;
  }

  /** The list with t behind its first p members. */
  function PutAt(list: seq<int>, p: nat, t: int): seq<int>
    requires p <= |list|
  {
    list[..p] + [t] + list[p..]
  }

  lemma PutInRing(h: int, list: seq<int>, p: nat, t: int)
    requires p <= |list|
    ensures With([h] + list, p, t) == [h] + PutAt(list, p, t)
  {
    assert ([h] + list)[..p + 1] == [h] + list[..p];
    assert ([h] + list)[p + 1..] == list[p..];
  }

  /** Linking a node that is in no list behind the p-th node of a list. */
  lemma InsertAfterMember(next: map<int, int>, prev: map<int, int>, h: int, list: seq<int>, p: nat, t: int)
    requires IsList(next, prev, h, list) && t != h && t !in list && p <= |list|
    ensures ([h] + list)[p] in next
    ensures var (next', prev') := InsertAfter(next, prev, ([h] + list)[p], t);
            && IsList(next', prev', h, PutAt(list, p, t))
            && forall x :: x != h && x !in list && x != t ==> Same(next, prev, next', prev', x)
  {
    hide Distinct, IsRing, PutAt, With;
    var ring := [h] + list;
    RingAt(next, prev, ring, p);
    Link(next, prev, ring, p, t);
    PutInRing(h, list, p, t);
    var l, n := ring[p], next[ring[p]];
    assert l == h || l in list;
    assert n == h || n in list;
    assert prev[t := l][n := t] == prev[n := t][t := l];
  }

  /** Linking a node that is in no list before the head makes it the last. */
  lemma InsertLast(next: map<int, int>, prev: map<int, int>, h: int, list: seq<int>, t: int)
    requires IsList(next, prev, h, list) && t != h && t !in list
    ensures h in prev
    ensures var (next', prev') := InsertBefore(next, prev, h, t);
            && IsList(next', prev', h, list + [t])
            && forall x :: x != h && x !in list && x != t ==> Same(next, prev, next', prev', x)
  {
    hide Distinct, IsRing;
    Ends(next, prev, h, list);
    InsertAfterMember(next, prev, h, list, |list|, t);
    BeforeIsAfter(next, prev, h, list, t);
    assert PutAt(list, |list|, t) == list + [t];
  }

  lemma BeforeIsAfter(next: map<int, int>, prev: map<int, int>, h: int, list: seq<int>, t: int)
    requires IsList(next, prev, h, list) && t != h && t !in list && h in prev && ([h] + list)[|list|] in next
    ensures InsertBefore(next, prev, h, t) == InsertAfter(next, prev, ([h] + list)[|list|], t)
  {
    BeforeNode(next, prev, h, list, |list|, t);
  }

  /** Before a node is behind the one before it. */
  lemma BeforeNode(next: map<int, int>, prev: map<int, int>, h: int, list: seq<int>, p: nat, t: int)
    requires IsList(next, prev, h, list) && t != h && t !in list && p <= |list|
    ensures var l, n := ([h] + list)[p], if p < |list| then list[p] else h;
            l in next && n in prev && InsertBefore(next, prev, n, t) == InsertAfter(next, prev, l, t)
  {
    var ring := [h] + list;
    var l, n := ring[p], if p < |list| then list[p] else h;
    RingAt(next, prev, ring, p);
    if p < |list| { assert ring[p + 1] == n; RingAt(next, prev, ring, p + 1); } else { RingAt(next, prev, ring, 0); }
    assert next[l] == n && prev[n] == l;
    assert l != t && n != t;
    assert next[l := t][t := n] == next[t := n][l := t];
    assert prev[t := l][n := t] == prev[n := t][t := l];
  }

  // ----- inserting a node that is in the list already

  /** The nodes found by following `next` from x, at most n of them, up to the head. */
  function Forward(next: map<int, int>, h: int, x: int, n: nat): seq<int>
    decreases n
  {
    if n == 0 || x == h || x !in next then [] else [x] + Forward(next, h, next[x], n - 1)
  }

  lemma {:induction false} ForwardList(next: map<int, int>, prev: map<int, int>, h: int, list: seq<int>, k: nat, n: nat)
    requires IsList(next, prev, h, list) && k <= |list| && n >= |list| - k
    ensures Forward(next, h, if k < |list| then list[k] else h, n) == list[k..]
    decreases n
  {
    if k < |list| {
      assert ([h] + list)[k + 1] == list[k];
      RingAt(next, prev, [h] + list, k + 1);
      assert list[k] != h by { assert ([h] + list)[0] == h; }
      ForwardList(next, prev, h, list, k + 1, n - 1);
      assert list[k..] == [list[k]] + list[k + 1..];
    }
  }

  /** What rt_list_insert_before does to a node that is in the list already: following the links forward from
      the head, the list now ends with that node, and whoever was behind it is lost.  The result is not a
      doubly linked list of anything. */
  lemma InsertTwice(next: map<int, int>, prev: map<int, int>, h: int, list: seq<int>, t: int, n: nat)
    requires IsList(next, prev, h, list) && t in list && n >= |list|
    ensures h in prev
    ensures var (next', prev') := InsertBefore(next, prev, h, t);
            && h in next' && Forward(next', h, next'[h], n) == list[..PosOf(list, t) + 1]
            && forall r :: !IsList(next', prev', h, r)
  {
    hide IsList, Forward;
    Ends(next, prev, h, list);
    var (next', prev') := InsertBefore(next, prev, h, t);
    var j := PosOf(list, t);
    TwiceForward(next, prev, h, list, j, 0, n);
    TwiceFirst(next, prev, h, list, j);
    TwiceBroken(next, prev, h, list, j);
    forall r ensures !IsList(next', prev', h, r) {
      if IsList(next', prev', h, r) { TwiceIs(next, prev, h, list, j, r); }
    }
  }

  lemma TwiceFirst(next: map<int, int>, prev: map<int, int>, h: int, list: seq<int>, j: nat)
    requires IsList(next, prev, h, list) && j < |list|
    ensures h in prev && var next' := InsertBefore(next, prev, h, list[j]).0; h in next' && next'[h] == list[0]
  {
    Ends(next, prev, h, list);
    LastNotHead(h, list);
  }

  lemma LastNotHead(h: int, list: seq<int>)
    requires Distinct([h] + list)
    ensures forall k :: 0 <= k < |list| ==> list[k] != h
    ensures forall k, l :: 0 <= k < l < |list| ==> list[k] != list[l]
  {
    forall k | 0 <= k < |list| ensures list[k] != h {
      assert ([h] + list)[0] == h && ([h] + list)[k + 1] == list[k];
    }
    forall k, l | 0 <= k < l < |list| ensures list[k] != list[l] {
      assert ([h] + list)[k + 1] == list[k] && ([h] + list)[l + 1] == list[l];
    }
  }

  lemma {:induction false} TwiceForward(next: map<int, int>, prev: map<int, int>, h: int, list: seq<int>, j: nat,
                                        k: nat, n: nat)
    requires IsList(next, prev, h, list) && k <= j < |list| && n >= |list| - k
    ensures h in prev && Forward(InsertBefore(next, prev, h, list[j]).0, h, list[k], n) == list[k..j + 1]
    decreases n
  {
    hide IsRing;
    Ends(next, prev, h, list);
    LastNotHead(h, list);
    var next' := InsertBefore(next, prev, h, list[j]).0;
    assert ([h] + list)[k + 1] == list[k];
    RingAt(next, prev, [h] + list, k + 1);
    if k < j {
      TwiceForward(next, prev, h, list, j, k + 1, n - 1);
      assert next'[list[k]] == list[k + 1];
      assert list[k..j + 1] == [list[k]] + list[k + 1..j + 1];
    } else {
      assert next'[list[j]] == h;
      assert list[k..j + 1] == [list[j]];
    }
  }

  lemma TwiceIs(next: map<int, int>, prev: map<int, int>, h: int, list: seq<int>, j: nat, r: seq<int>)
    requires IsList(next, prev, h, list) && j < |list| && h in prev
    requires var (next', prev') := InsertBefore(next, prev, h, list[j]); IsList(next', prev', h, r)
    ensures r == list[..j + 1]
  {
    hide IsList, InsertBefore, Forward;
    var (next', prev') := InsertBefore(next, prev, h, list[j]);
    var n := |list| + |r|;
    TwiceForward(next, prev, h, list, j, 0, n);
    TwiceFirst(next, prev, h, list, j);
    Ends(next', prev', h, r);
    ForwardList(next', prev', h, r, 0, n);
    assert r[0..] == r;
  }

  lemma TwiceBroken(next: map<int, int>, prev: map<int, int>, h: int, list: seq<int>, j: nat)
    requires IsList(next, prev, h, list) && j < |list| && h in prev
    ensures var (next', prev') := InsertBefore(next, prev, h, list[j]); !IsList(next', prev', h, list[..j + 1])
  {
    var (next', prev') := InsertBefore(next, prev, h, list[j]);
    var ring := [h] + list[..j + 1];
    Ends(next, prev, h, list);
    LastNotHead(h, list);
    assert ring[j + 1] == list[j] && prev'[list[j]] == list[|list| - 1];
    assert Pred(ring, j + 1) == if j == 0 then h else list[j - 1];
    assert !LinkedAt(next', prev', ring, j + 1);
  }

  /** A member that is put behind the head once more: whoever follows the links forward never comes back to the
      head.  They lead round from the old first member to this one. */
  lemma InsertFirstTwice(next: map<int, int>, prev: map<int, int>, h: int, list: seq<int>, t: int, n: nat)
    requires IsList(next, prev, h, list) && t in list
    ensures h in next && |Forward(next[t := next[h]][h := t], h, t, n)| == n
  {
    hide IsList, Forward;
    Ends(next, prev, h, list);
    RoundAndRound(next, prev, h, list, PosOf(list, t), PosOf(list, t), n);
  }

  lemma {:induction false} RoundAndRound(next: map<int, int>, prev: map<int, int>, h: int, list: seq<int>, k: nat,
                                         j: nat, n: nat)
    requires IsList(next, prev, h, list) && j <= k < |list| && h in next
    ensures |Forward(next[list[k] := next[h]][h := list[k]], h, list[j], n)| == n
    decreases n
  {
    if n > 0 {
      Ends(next, prev, h, list);
      assert ([h] + list)[j + 1] == list[j] && ([h] + list)[k + 1] == list[k];
      RingAt(next, prev, [h] + list, j + 1);
      assert list[j] in list;
      RoundAndRound(next, prev, h, list, k, if j < k then j + 1 else 0, n - 1);
    }
  }
}
