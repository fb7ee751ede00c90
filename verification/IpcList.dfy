/** The suspend lists of the IPC objects (ipc.c): threads wait in order of arrival or of urgency. */
module IpcList {
  import opened Ring

  datatype Flag = Fifo | Prio

  /** The list after thread `t` was put on it by rt_ipc_list_suspend. */
  function Enlist(list: seq<int>, prio: int -> int, t: int, flag: Flag): (r: seq<int>) {
    if flag == Fifo then list + [t] else InsertByPrio(list, prio, t)
  }

  /** Before the first thread that is less urgent, behind all that are as urgent. */
  function InsertByPrio(list: seq<int>, prio: int -> int, t: int): (r: seq<int>)
    ensures |r| == |list| + 1
  {
    if list == [] then [t]
    else if prio(t) < prio(list[0]) then [t] + list
    else [list[0]] + InsertByPrio(list[1..], prio, t)
  }

  ghost predicate Sorted(list: seq<int>, prio: int -> int) {
    forall i, j :: 0 <= i < j < |list| ==> prio(list[i]) <= prio(list[j])
  }

  lemma {:induction false} InsertMembers(list: seq<int>, prio: int -> int, t: int)
    ensures multiset(InsertByPrio(list, prio, t)) == multiset(list) + multiset{t}
  {
    if list != [] {
      assert list == [list[0]] + list[1..];
      if prio(t) >= prio(list[0]) {
        InsertMembers(list[1..], prio, t);
      }
    }
  }

  /** Nobody is lost, added or queued twice by joining a list. */
  lemma EnlistMembers(list: seq<int>, prio: int -> int, t: int, flag: Flag)
    ensures |Enlist(list, prio, t, flag)| == |list| + 1
    ensures forall x :: x in Enlist(list, prio, t, flag) <==> x in list || x == t
    ensures Distinct(list) && t !in list ==> Distinct(Enlist(list, prio, t, flag))
  {
    if flag == Prio {
      InsertMembers(list, prio, t);
      var r := InsertByPrio(list, prio, t);
      assert forall x :: x in r <==> x in multiset(r);
      if Distinct(list) && t !in list {
        DistinctCounts(list);
        CountsDistinct(r);
      }
    }
  }

  lemma {:induction false} DistinctCounts(r: seq<int>)
    requires Distinct(r)
    ensures forall x :: multiset(r)[x] <= 1
  {
    if r != [] {
      assert r == [r[0]] + r[1..];
      DistinctCounts(r[1..]);
      assert r[0] !in r[1..];
    }
  }

  lemma {:induction false} CountsDistinct(r: seq<int>)
    requires forall x :: multiset(r)[x] <= 1
    ensures Distinct(r)
  {
    if r != [] {
      assert r == [r[0]] + r[1..];
      forall x ensures multiset(r[1..])[x] <= 1 {
        assert multiset(r)[x] <= 1;
      }
      CountsDistinct(r[1..]);
      assert multiset(r)[r[0]] <= 1;
      assert r[0] !in r[1..];
      forall i, j | 0 <= i < j < |r| ensures r[i] != r[j] {
        assert r[j] == r[1..][j - 1];
        if i > 0 { assert r[i] == r[1..][i - 1]; }
      }
    }
  }

  /** A list kept by urgency stays sorted, and its head is a most urgent waiter. */
  lemma {:induction false} InsertSorted(list: seq<int>, prio: int -> int, t: int)
    requires Sorted(list, prio)
    ensures Sorted(InsertByPrio(list, prio, t), prio)
  {
    if list == [] {
    } else if prio(t) < prio(list[0]) {
      forall i, j | 0 <= i < j < |list| + 1 ensures prio(([t] + list)[i]) <= prio(([t] + list)[j]) {
        assert prio(list[0]) <= prio(list[j - 1]);
      }
    } else {
      var tail, rest := list[1..], InsertByPrio(list[1..], prio, t);
      forall i, j | 0 <= i < j < |tail| ensures prio(tail[i]) <= prio(tail[j]) {
        assert tail[i] == list[i + 1] && tail[j] == list[j + 1];
      }
      InsertSorted(tail, prio, t);
      InsertMembers(tail, prio, t);
      forall j | 0 <= j < |rest| ensures prio(list[0]) <= prio(rest[j]) {
        assert rest[j] in multiset(rest);
        if rest[j] in tail {
          var k :| 0 <= k < |tail| && tail[k] == rest[j];
          assert prio(list[0]) <= prio(list[k + 1]);
        }
      }
      ConsSorted(list[0], rest, prio);
    }
  }

  lemma ConsSorted(x: int, rest: seq<int>, prio: int -> int)
    requires Sorted(rest, prio) && forall j :: 0 <= j < |rest| ==> prio(x) <= prio(rest[j])
    ensures Sorted([x] + rest, prio)
  {
  }

  /** Where a thread joins: in a list kept by urgency exactly the threads at least as urgent stay before it, so it
      comes behind its equals; in the other kind it is the last.  The others keep their order. */
  lemma EnlistPlace(list: seq<int>, prio: int -> int, t: int, flag: Flag) returns (p: nat)
    requires flag == Prio ==> Sorted(list, prio)
    ensures p <= |list| && Enlist(list, prio, t, flag) == list[..p] + [t] + list[p..]
    ensures if flag == Fifo then p == |list| else forall k :: 0 <= k < |list| ==> (k < p <==> prio(list[k]) <= prio(t))
  {
    hide InsertByPrio, Sorted;
    p := |list|;
    if flag == Prio {
      p := 0;
      assert list[0..] == list;
      while p < |list| && prio(t) >= prio(list[p])
        invariant p <= |list| && InsertByPrio(list, prio, t) == list[..p] + InsertByPrio(list[p..], prio, t)
        invariant forall k :: 0 <= k < p ==> prio(list[k]) <= prio(t)
      {
        InsertPast(list, prio, t, p);
        p := p + 1;
      }
      InsertHere(list, prio, t, p);
      LessUrgentBehind(list, prio, t, p);
    }
  }

  lemma LessUrgentBehind(list: seq<int>, prio: int -> int, t: int, p: nat)
    requires Sorted(list, prio) && p <= |list| && (p < |list| ==> prio(t) < prio(list[p]))
    ensures forall k :: p <= k < |list| ==> prio(t) < prio(list[k])
  {
    forall k | p <= k < |list| ensures prio(t) < prio(list[k]) {
      if p < k { assert prio(list[p]) <= prio(list[k]); }
    }
  }

  lemma InsertPast(list: seq<int>, prio: int -> int, t: int, p: nat)
    requires p < |list| && prio(t) >= prio(list[p])
    ensures list[..p] + InsertByPrio(list[p..], prio, t) == list[..p + 1] + InsertByPrio(list[p + 1..], prio, t)
  {
    assert list[p..][0] == list[p] && list[p..][1..] == list[p + 1..];
    assert list[..p + 1] == list[..p] + [list[p]];
  }

  lemma InsertHere(list: seq<int>, prio: int -> int, t: int, p: nat)
    requires p <= |list| && (p < |list| ==> prio(t) < prio(list[p]))
    ensures list[..p] + InsertByPrio(list[p..], prio, t) == list[..p] + [t] + list[p..]
  {
    if p < |list| { assert list[p..][0] == list[p]; }
  }
}

/** A suspend list as the code has it: a ring through a head and the list nodes of the waiting threads. */
module WaitRing {
  import opened Ring
  import opened Nodes
  import opened IpcList

  const HEAD: int := -1

  class WaitList {
    var next: map<int, int>
    var prev: map<int, int>
    ghost var list: seq<int>

    ghost predicate Valid()
      reads this
    {
      IsList(next, prev, HEAD, list) && forall t :: t in list ==> 0 <= t
    }

    constructor ()
      ensures Valid() && list == []
    {
      next, prev, list := map[HEAD := HEAD], map[HEAD := HEAD], [];
    }

    method IsEmpty() returns (r: bool)
      requires Valid()
      ensures r <==> list == []
    {
      Ends(next, prev, HEAD, list);
      r := next[HEAD] == HEAD;
      if list != [] { assert list[0] in list; }
    }

    /** The node behind the head. */
    method First() returns (n: int)
      requires Valid()
      ensures n == NodeAt(list, 0)
    {
      hide IsList;
      Ends(next, prev, HEAD, list);
      n := next[HEAD];
    }

    /** The node behind the p-th. */
    method Next(n: int, ghost p: nat) returns (r: int)
      requires Valid() && p < |list| && n == list[p]
      ensures r == NodeAt(list, p + 1)
    {
      hide IsList;
      Following(next, prev, HEAD, list, p);
      r := next[n];
    }

    /** rt_list_remove, as rt_thread_resume does it. */
    method Unlink(t: int, ghost p: nat)
      requires Valid() && p < |list| && t == list[p]
      modifies this
      ensures Valid() && list == Without(old(list), p)
    {
      hide IsList, Drop;
      RemoveMember(next, prev, HEAD, list, t);
      DropAt(next, prev, list, p);
      var (next', prev') := RemoveNode(next, prev, t);
      next, prev := next', prev';
      assert forall x :: x in Without(list, p) ==> x in list;
      list := Without(list, p);
    }

    /** The walk of rt_ipc_list_suspend to the first less urgent thread. */
    method Find(prio: int -> int, t: int) returns (n: int, ghost p: nat)
      requires Valid()
      ensures p <= |list| && n == (if p < |list| then list[p] else HEAD)
      ensures InsertByPrio(list, prio, t) == PutAt(list, p, t)
    {
      hide IsList, InsertByPrio;
      Ends(next, prev, HEAD, list);
      NotHead(list);
      n, p := next[HEAD], 0;
      assert list[0..] == list;
      while n != HEAD
        invariant p <= |list| && n == (if p < |list| then list[p] else HEAD)
        invariant InsertByPrio(list, prio, t) == list[..p] + InsertByPrio(list[p..], prio, t)
        decreases |list| - p
      {
        if prio(t) < prio(n) {
          InsertHere(list, prio, t, p);
          return;
        }
        InsertPast(list, prio, t, p);
        Following(next, prev, HEAD, list, p);
        n := next[n];
        p := p + 1;
      }
      InsertHere(list, prio, t, p);
    }

    /** rt_ipc_list_suspend. */
    method Suspend(prio: int -> int, t: int, flag: Flag)
      requires Valid() && 0 <= t && t !in list
      modifies this
      ensures Valid() && list == Enlist(old(list), prio, t, flag)
    {
      hide IsList, InsertByPrio;
      var n := HEAD;
      ghost var p := |list|;
      if flag == Prio {
        n, p := Find(prio, t);
      }
      InsertAfterMember(next, prev, HEAD, list, p, t);
      BeforeNode(next, prev, HEAD, list, p, t);
      var (next', prev') := InsertBefore(next, prev, n, t);
      next, prev := next', prev';
      assert forall x :: x in PutAt(list, p, t) ==> x in list || x == t;
      list := PutAt(list, p, t);
    }

    /** rt_ipc_list_resume: the first thread leaves the list. */
    method Resume() returns (t: int)
      requires Valid() && list != []
      modifies this
      ensures Valid() && old(list) == [t] + list
    {
      hide IsList, Drop;
      Ends(next, prev, HEAD, list);
      t := next[HEAD];
      RemoveMember(next, prev, HEAD, list, t);
      DropFirst(list);
      var (next', prev') := RemoveNode(next, prev, t);
      next, prev := next', prev';
      assert forall x :: x in list[1..] ==> x in list;
      list := list[1..];
    }

    /** rt_ipc_list_resume_all. */
    method ResumeAll()
      requires Valid()
      modifies this
      ensures Valid() && list == []
    {
      hide IsList;
      var empty := IsEmpty();
      while !empty
        invariant Valid() && (empty <==> list == [])
        decreases |list|
      {
        var t := Resume();
        empty := IsEmpty();
      }
    }
  }

  /** The p-th node of the ring behind its head. */
  function NodeAt(list: seq<int>, p: nat): int { if p < |list| then list[p] else HEAD }

  lemma DropAt(next: map<int, int>, prev: map<int, int>, list: seq<int>, p: nat)
    requires IsList(next, prev, HEAD, list) && p < |list|
    ensures Drop(list, list[p]) == Without(list, p)
  {
    var k := PosOf(list, list[p]);
    assert ([HEAD] + list)[k + 1] == ([HEAD] + list)[p + 1];
  }

  lemma NotHead(list: seq<int>)
    requires forall t :: t in list ==> 0 <= t
    ensures forall k :: 0 <= k < |list| ==> list[k] != HEAD
  {
    forall k | 0 <= k < |list| ensures list[k] != HEAD { assert list[k] in list; }
  }

  lemma Following(next: map<int, int>, prev: map<int, int>, h: int, list: seq<int>, p: nat)
    requires IsList(next, prev, h, list) && p < |list|
    ensures list[p] in next && next[list[p]] == if p + 1 < |list| then list[p + 1] else h
  {
    assert ([h] + list)[p + 1] == list[p];
    RingAt(next, prev, [h] + list, p + 1);
  }

  lemma DropFirst(list: seq<int>)
    requires list != []
    ensures Drop(list, list[0]) == list[1..]
  {
    assert PosOf(list, list[0]) == 0;
  }
}
