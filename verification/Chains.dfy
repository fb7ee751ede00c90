/** Singly linked lists: a first node, and for each node the next one, up to NULL. */
module Chains {
  import opened Ring

  const NIL: int := -1

  function NodeAt(list: seq<int>, k: nat): int { if k < |list| then list[k] else NIL }

  ghost predicate LinkAt(next: map<int, int>, list: seq<int>, k: int)
    requires 0 <= k < |list|
  {
    list[k] in next && next[list[k]] == NodeAt(list, k + 1)
  }

  ghost predicate Chained(next: map<int, int>, first: int, list: seq<int>) {
    first == NodeAt(list, 0) && forall k :: 0 <= k < |list| ==> LinkAt(next, list, k)
  }

  lemma FrameChain(next: map<int, int>, first: int, list: seq<int>, x: int, v: int)
    requires Chained(next, first, list) && x !in list
    ensures Chained(next[x := v], first, list)
  {
    var next' := next[x := v];
    forall k | 0 <= k < |list| ensures LinkAt(next', list, k) { assert LinkAt(next, list, k); }
  }

  lemma PushChain(next: map<int, int>, first: int, list: seq<int>, x: int)
    requires Chained(next, first, list) && x !in list
    ensures Chained(next[x := first], x, [x] + list)
  {
    var next', list' := next[x := first], [x] + list;
    forall k | 0 <= k < |list'| ensures LinkAt(next', list', k) {
      if k > 0 { assert LinkAt(next, list, k - 1); }
    }
  }

  lemma PopChain(next: map<int, int>, first: int, list: seq<int>)
    requires Chained(next, first, list) && list != []
    ensures first == list[0] && first in next && Chained(next, next[first], list[1..])
  {
    var rest := list[1..];
    assert LinkAt(next, list, 0);
    forall k | 0 <= k < |rest| ensures LinkAt(next, rest, k) { assert LinkAt(next, list, k + 1); }
  }

  /** Leading the link before the k-th node on to the node behind it. */
  lemma CutChain(next: map<int, int>, first: int, list: seq<int>, k: nat)
    requires Chained(next, first, list) && k < |list| && Distinct(list)
    ensures list[k] in next
    ensures if k == 0 then Chained(next, next[list[0]], Without(list, 0))
            else Chained(next[list[k - 1] := next[list[k]]], first, Without(list, k))
  {
    assert LinkAt(next, list, k);
    var l, v := Without(list, k), next[list[k]];
    if k == 0 {
      PopChain(next, first, list);
      assert l == list[1..];
    } else {
      var next' := next[list[k - 1] := v];
      forall j | 0 <= j < |l| ensures LinkAt(next', l, j) {
        assert LinkAt(next, list, if j < k then j else j + 1);
      }
    }
  }

  lemma FirstNil(next: map<int, int>, first: int, list: seq<int>)
    requires Chained(next, first, list) && forall x :: x in list ==> x != NIL
    ensures first == NIL <==> list == []
  {
    if list != [] { assert list[0] in list; }
  }

  lemma NextOf(next: map<int, int>, first: int, list: seq<int>, k: nat)
    requires Chained(next, first, list) && k < |list|
    ensures list[k] in next && next[list[k]] == NodeAt(list, k + 1)
  {
    assert LinkAt(next, list, k);
  }
}
