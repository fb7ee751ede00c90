/** The code of the SMP scheduler (scheduler.c, cpu.c, thread.c).  Each ready list is a ring through its head and the
    list nodes of its threads, and the methods relink nodes, set group bits and change thread fields in place.
    Every method computes what module Scheduler says, so the theorems there are about this code. */
module SchedulerCode {
  import opened Bits
  import opened Ring
  import opened Nodes
  import opened Scheduler

  // ----- ready lists as rings

  /** The list head of priority p in queue w; threads are nodes 0, 1, ... */
  function HeadOf(w: int, p: int): int { -1 - (32 * w + p) }

  lemma HeadsDiffer(w: int, p: int, v: int, q: int)
    requires 0 <= p < 32 && 0 <= q < 32 && (w != v || p != q)
    ensures HeadOf(w, p) != HeadOf(v, q)
  {
  }

  ghost predicate InQueue(qs: seq<Queue>, w: int, p: int, t: int) {
    0 <= w < |qs| && 0 <= p < |qs[w].table| && t in qs[w].table[p]
  }

  ghost predicate Nowhere(qs: seq<Queue>, t: int) { forall w, p :: !InQueue(qs, w, p, t) }

  ghost predicate ListAt(next: map<int, int>, prev: map<int, int>, qs: seq<Queue>, w: int, p: int)
    requires 0 <= w < |qs| && 0 <= p < |qs[w].table|
  {
    IsList(next, prev, HeadOf(w, p), qs[w].table[p])
  }

  ghost predicate Tables(qs: seq<Queue>, n: nat) {
    && (forall w :: 0 <= w < |qs| ==> |qs[w].table| == 32)
    && (forall w, p, t :: InQueue(qs, w, p, t) ==> 0 <= t < n)
    && (forall w, p, v, q, t :: InQueue(qs, w, p, t) && InQueue(qs, v, q, t) ==> w == v && p == q)
  }

  /** Every ready list is a ring, no thread is in two of them, and the other threads' nodes are alone. */
  ghost predicate Threaded(next: map<int, int>, prev: map<int, int>, qs: seq<Queue>, n: nat) {
    && Tables(qs, n)
    && (forall w, p :: 0 <= w < |qs| && 0 <= p < 32 ==> ListAt(next, prev, qs, w, p))
    && (forall t :: 0 <= t < n && Nowhere(qs, t) ==> Lone(next, prev, t))
  }

  lemma AppendTables(qs: seq<Queue>, n: nat, w: int, p: int, t: int, q: Queue)
    requires Tables(qs, n) && 0 <= w < |qs| && 0 <= p < 32 && 0 <= t < n && Nowhere(qs, t)
    requires q.table == qs[w].table[p := qs[w].table[p] + [t]]
    ensures Tables(qs[w := q], n)
    ensures forall v, r, x :: InQueue(qs[w := q], v, r, x) <==> InQueue(qs, v, r, x) || (v == w && r == p && x == t)
  {
    var qs' := qs[w := q];
    forall v, r, x ensures InQueue(qs', v, r, x) <==> InQueue(qs, v, r, x) || (v == w && r == p && x == t) {
    }
    assert forall v, r :: !InQueue(qs, v, r, t);
  }

  lemma DropTables(qs: seq<Queue>, n: nat, w: int, p: int, t: int, q: Queue)
    requires Tables(qs, n) && 0 <= w < |qs| && 0 <= p < 32 && Distinct(qs[w].table[p])
    requires q.table == qs[w].table[p := Drop(qs[w].table[p], t)]
    ensures Tables(qs[w := q], n)
    ensures forall v, r, x :: InQueue(qs[w := q], v, r, x) <==> InQueue(qs, v, r, x) && !(v == w && r == p && x == t)
  {
    hide Distinct, Drop;
    DropKeeps(qs[w].table[p], t);
    var qs' := qs[w := q];
    forall v, r, x ensures InQueue(qs', v, r, x) <==> InQueue(qs, v, r, x) && !(v == w && r == p && x == t) {
    }
  }

  /** A list whose nodes were not touched. */
  lemma ListKept(next: map<int, int>, prev: map<int, int>, next': map<int, int>, prev': map<int, int>, qs: seq<Queue>,
                 n: nat, w: int, p: int, t: int, v: int, q: int)
    requires Threaded(next, prev, qs, n) && 0 <= w < |qs| && 0 <= p < 32 && 0 <= v < |qs| && 0 <= q < 32
    requires v != w || q != p
    requires 0 <= t < n && !InQueue(qs, v, q, t)
    requires forall x :: x != HeadOf(w, p) && x !in qs[w].table[p] && x != t ==> Same(next, prev, next', prev', x)
    ensures IsList(next', prev', HeadOf(v, q), qs[v].table[q])
  {
    hide IsList, Same;
    HeadsDiffer(w, p, v, q);
    assert ListAt(next, prev, qs, v, q);
    var list := qs[v].table[q];
    forall x | x in list ensures Same(next, prev, next', prev', x) {
      assert InQueue(qs, v, q, x);
      assert !InQueue(qs, w, p, x);
    }
    assert HeadOf(v, q) in qs[w].table[p] <==> InQueue(qs, w, p, HeadOf(v, q));
    ListSame(next, prev, next', prev', HeadOf(v, q), list);
  }

  /** rt_list_insert_before on a node in no list. */
  lemma AppendThreaded(next: map<int, int>, prev: map<int, int>, qs: seq<Queue>, n: nat, w: int, p: int, t: int,
                       q: Queue)
    requires Threaded(next, prev, qs, n) && 0 <= w < |qs| && 0 <= p < 32 && 0 <= t < n && Nowhere(qs, t)
    requires q.table == qs[w].table[p := qs[w].table[p] + [t]]
    ensures HeadOf(w, p) in prev
    ensures var (next', prev') := InsertBefore(next, prev, HeadOf(w, p), t); Threaded(next', prev', qs[w := q], n)
  {
    hide IsList, Same, InsertBefore, Tables;
    var qs', h := qs[w := q], HeadOf(w, p);
    TablesSize(qs, n, w, p);
    assert ListAt(next, prev, qs, w, p) && !InQueue(qs, w, p, t);
    InsertLast(next, prev, h, qs[w].table[p], t);
    var (next', prev') := InsertBefore(next, prev, h, t);
    AppendTables(qs, n, w, p, t, q);
    forall v, r | 0 <= v < |qs'| && 0 <= r < 32 ensures 0 <= r < |qs'[v].table| && ListAt(next', prev', qs', v, r) {
      TablesSize(qs', n, v, r);
      if v != w || r != p {
        assert !InQueue(qs, v, r, t);
        ListKept(next, prev, next', prev', qs, n, w, p, t, v, r);
      }
    }
    forall x | 0 <= x < n && Nowhere(qs', x) ensures Lone(next', prev', x) {
      assert InQueue(qs', w, p, t) && !InQueue(qs', w, p, x);
      assert forall v, r :: InQueue(qs, v, r, x) ==> InQueue(qs', v, r, x);
      assert !InQueue(qs, w, p, x);
      SameLone(next, prev, next', prev', x);
    }
  }

  lemma TablesSize(qs: seq<Queue>, n: nat, w: int, p: int)
    requires Tables(qs, n) && 0 <= w < |qs|
    ensures |qs[w].table| == 32
  {
  }

  lemma SameLone(next: map<int, int>, prev: map<int, int>, next': map<int, int>, prev': map<int, int>, x: int)
    requires Lone(next, prev, x) && Same(next, prev, next', prev', x)
    ensures Lone(next', prev', x)
  {
  }

  /** rt_list_remove on a member of list (w, p). */
  lemma RemoveThreaded(next: map<int, int>, prev: map<int, int>, qs: seq<Queue>, n: nat, w: int, p: int, t: int,
                       q: Queue)
    requires Threaded(next, prev, qs, n) && InQueue(qs, w, p, t) && 0 <= p < 32
    requires q.table == qs[w].table[p := Drop(qs[w].table[p], t)]
    ensures t in next && t in prev && 0 <= t < n
    ensures var (next', prev') := RemoveNode(next, prev, t); Threaded(next', prev', qs[w := q], n)
  {
    hide IsList, Same, RemoveNode, Tables, Drop;
    var qs', h := qs[w := q], HeadOf(w, p);
    assert ListAt(next, prev, qs, w, p);
    TablesSize(qs, n, w, p);
    TablesKnow(qs, n, w, p, t);
    RemoveMember(next, prev, h, qs[w].table[p], t);
    var (next', prev') := RemoveNode(next, prev, t);
    ListDistinct(next, prev, h, qs[w].table[p]);
    DropTables(qs, n, w, p, t, q);
    forall v, r | 0 <= v < |qs'| && 0 <= r < 32 ensures 0 <= r < |qs'[v].table| && ListAt(next', prev', qs', v, r) {
      TablesSize(qs', n, v, r);
      if v != w || r != p {
        assert !InQueue(qs, v, r, t) by { TablesOnce(qs, n, w, p, v, r, t); }
        ListKept(next, prev, next', prev', qs, n, w, p, t, v, r);
      }
    }
    forall x | 0 <= x < n && Nowhere(qs', x) ensures Lone(next', prev', x) {
      if x != t {
        assert forall v, r :: InQueue(qs, v, r, x) ==> InQueue(qs', v, r, x);
        assert !InQueue(qs, w, p, x);
        SameLone(next, prev, next', prev', x);
      }
    }
  }

  lemma ListDistinct(next: map<int, int>, prev: map<int, int>, h: int, list: seq<int>)
    requires IsList(next, prev, h, list)
    ensures Distinct(list)
  {
    forall i, j | 0 <= i < j < |list| ensures list[i] != list[j] {
      assert ([h] + list)[i + 1] == list[i] && ([h] + list)[j + 1] == list[j];
    }
  }

  lemma TablesKnow(qs: seq<Queue>, n: nat, w: int, p: int, t: int)
    requires Tables(qs, n) && InQueue(qs, w, p, t)
    ensures 0 <= t < n
  {
  }

  lemma TablesOnce(qs: seq<Queue>, n: nat, w: int, p: int, v: int, r: int, t: int)
    requires Tables(qs, n) && InQueue(qs, w, p, t) && (v != w || r != p)
    ensures !InQueue(qs, v, r, t)
  {
  }

  /** Queues whose lists are the same are linked the same. */
  lemma SameTables(next: map<int, int>, prev: map<int, int>, qs: seq<Queue>, qs': seq<Queue>, n: nat)
    requires Threaded(next, prev, qs, n) && |qs'| == |qs| && forall w :: 0 <= w < |qs| ==> qs'[w].table == qs[w].table
    ensures Threaded(next, prev, qs', n)
  {
    assert forall w, p, t :: InQueue(qs', w, p, t) <==> InQueue(qs, w, p, t);
    forall w, p | 0 <= w < |qs'| && 0 <= p < 32 ensures 0 <= p < |qs'[w].table| && ListAt(next, prev, qs', w, p) {
      assert ListAt(next, prev, qs, w, p);
    }
    forall t | 0 <= t < n && Nowhere(qs', t) ensures Lone(next, prev, t) {
      assert forall w, p :: !InQueue(qs', w, p, t);
      assert Nowhere(qs, t);
    }
  }

  // ----- where the invariant says a thread is

  lemma ReadyIsHome(k: Kernel, t: int)
    requires Inv(k) && 0 <= t < |k.threads|
    ensures var th := k.threads[t];
            if th.stat == Ready then forall w, p :: InQueue(k.queues, w, p, t) <==> w == th.bind && p == th.prio
            else Nowhere(k.queues, t)
  {
    forall w, p ensures InQueue(k.queues, w, p, t) <==> ReadyAt(k, w, p, t) {
      assert InQueue(k.queues, w, p, t) ==> 0 <= w < |k.queues| && |k.queues[w].table| == 32;
      assert In(k, w, p, t) <==> ReadyAt(k, w, p, t);
    }
  }

  /** rt_schedule_insert_thread checks nothing itself.  On a thread that is not ready it appends its node; on a ready
      one it breaks the list: followed forward it ends with that thread, and those behind it are lost.  When two
      calls of rt_thread_resume do that is the subject of module Resume. */
  lemma InsertIsSafeIff(next: map<int, int>, prev: map<int, int>, k: Kernel, t: int)
    requires Inv(k) && Threaded(next, prev, k.queues, |k.threads|) && 0 <= t < |k.threads| && k.threads[t].stat != Init
    ensures var th := k.threads[t];
            && HeadOf(th.bind, th.prio) in prev
            && var (next', prev') := InsertBefore(next, prev, HeadOf(th.bind, th.prio), t);
               (exists list :: IsList(next', prev', HeadOf(th.bind, th.prio), list)) <==> th.stat != Ready
    ensures var th, h := k.threads[t], HeadOf(k.threads[t].bind, k.threads[t].prio);
            th.stat == Ready ==>
              var next' := InsertBefore(next, prev, h, t).0;
              var list := k.queues[th.bind].table[th.prio];
              h in next' && t in list && Forward(next', h, next'[h], |list|) == list[..PosOf(list, t) + 1]
  {
    hide IsList, InsertBefore, Forward, Inv;
    UseInv(k);
    ReadyIsHome(k, t);
    var th := k.threads[t];
    var h, list := HeadOf(th.bind, th.prio), k.queues[th.bind].table[th.prio];
    assert ListAt(next, prev, k.queues, th.bind, th.prio);
    Ends(next, prev, h, list);
    assert t in list <==> InQueue(k.queues, th.bind, th.prio, t);
    if th.stat == Ready {
      InsertTwice(next, prev, h, list, t, |list|);
    } else {
      InsertLast(next, prev, h, list, t);
    }
  }

  /** The first node of a list that is not empty. */
  lemma FirstOf(next: map<int, int>, prev: map<int, int>, qs: seq<Queue>, n: nat, w: int, p: int)
    requires Threaded(next, prev, qs, n) && 0 <= w < |qs| && 0 <= p < 32
    ensures |qs[w].table| == 32 && HeadOf(w, p) in next
    ensures next[HeadOf(w, p)] == if qs[w].table[p] == [] then HeadOf(w, p) else qs[w].table[p][0]
  {
    hide IsList;
    assert ListAt(next, prev, qs, w, p);
    Ends(next, prev, HeadOf(w, p), qs[w].table[p]);
  }

  /** rt_list_remove on a thread that is in list (w, p) or in none. */
  lemma Unlinks(next: map<int, int>, prev: map<int, int>, qs: seq<Queue>, n: nat, w: int, p: int, t: int, q: Queue)
    requires Threaded(next, prev, qs, n) && 0 <= w < |qs| && 0 <= p < 32 && |qs[w].table| == 32 && 0 <= t < n
    requires Nowhere(qs, t) || InQueue(qs, w, p, t)
    requires q.table == qs[w].table[p := Drop(qs[w].table[p], t)]
    ensures t in next && t in prev && Nowhere(qs[w := q], t)
    ensures var (next', prev') := RemoveNode(next, prev, t);
            && Threaded(next', prev', qs[w := q], n) && HeadOf(w, p) in next'
            && (next'[HeadOf(w, p)] == HeadOf(w, p) <==> q.table[p] == [])
  {
    hide Threaded, RemoveNode, Drop;
    var qs' := qs[w := q];
    if InQueue(qs, w, p, t) {
      RemoveThreaded(next, prev, qs, n, w, p, t, q);
      NowNowhere(next, prev, qs, n, w, p, t, q);
    } else {
      assert !InQueue(qs, w, p, t);
      NotThere(qs[w].table[p], t);
      IsLone(next, prev, qs, n, t);
      RemoveLone(next, prev, t);
      assert q.table == qs[w].table;
      SameTables(next, prev, qs, qs', n);
      assert forall v, r :: InQueue(qs', v, r, t) ==> InQueue(qs, v, r, t);
    }
    var (next', prev') := RemoveNode(next, prev, t);
    FirstOf(next', prev', qs', n, w, p);
    HeadNotIn(qs', n, next', prev', w, p);
  }

  lemma NotThere(list: seq<int>, t: int)
    requires t !in list
    ensures Drop(list, t) == list
  {
  }

  lemma IsLone(next: map<int, int>, prev: map<int, int>, qs: seq<Queue>, n: nat, t: int)
    requires Threaded(next, prev, qs, n) && 0 <= t < n && Nowhere(qs, t)
    ensures Lone(next, prev, t)
  {
  }

  lemma NowNowhere(next: map<int, int>, prev: map<int, int>, qs: seq<Queue>, n: nat, w: int, p: int, t: int, q: Queue)
    requires Threaded(next, prev, qs, n) && InQueue(qs, w, p, t) && 0 <= p < 32
    requires q.table == qs[w].table[p := Drop(qs[w].table[p], t)]
    ensures Nowhere(qs[w := q], t)
  {
    hide Drop, IsList, Distinct;
    assert ListAt(next, prev, qs, w, p);
    ListDistinct(next, prev, HeadOf(w, p), qs[w].table[p]);
    DropTables(qs, n, w, p, t, q);
    var qs' := qs[w := q];
    forall v, r ensures !InQueue(qs', v, r, t) {
      if InQueue(qs, v, r, t) { assert v == w && r == p; }
    }
  }

  lemma HeadNotIn(qs: seq<Queue>, n: nat, next: map<int, int>, prev: map<int, int>, w: int, p: int)
    requires Threaded(next, prev, qs, n) && 0 <= w < |qs| && 0 <= p < 32 && |qs[w].table| == 32
    ensures qs[w].table[p] != [] ==> qs[w].table[p][0] != HeadOf(w, p)
  {
    if qs[w].table[p] != [] { assert InQueue(qs, w, p, qs[w].table[p][0]); }
  }

  lemma InvQueues(k: Kernel)
    requires Inv(k)
    ensures QueuesOk(k)
  {
  }

  class Smp {
    var threads: seq<Thread>
    var cpus: seq<Cpu>
    var groups: seq<Word>
    var next: map<int, int>
    var prev: map<int, int>
    var cpusLock: bool
    var criticalLock: bool
    ghost var queues: seq<Queue>

    ghost function View(): Kernel
      reads this
    {
      Kernel(threads, cpus, queues, cpusLock, criticalLock)
    }

    /** The group words and the list nodes hold the ready queues. */
    ghost predicate Linked()
      reads this
    {
      && |groups| == |queues| && (forall w :: 0 <= w < |groups| ==> groups[w] == queues[w].group)
      && Threaded(next, prev, queues, |threads|)
    }

    ghost predicate Valid()
      reads this
    {
      Inv(View()) && Linked()
    }

    // ----- cpu.c

    method CpusLock(c: int)
      requires Shape(View()) && 0 <= c < |cpus|
      modifies `threads, `cpus, `cpusLock, `criticalLock
      ensures View() == Scheduler.CpusLock(old(View()), c)
    {
      var t := cpus[c].current;
      var nest := threads[t].cpusNest;
      threads := threads[t := threads[t].(cpusNest := nest + 1)];
      if nest == 0 {
        threads := threads[t := threads[t].(schedNest := threads[t].schedNest + 1)];
        cpusLock := true;
      }
    }

    method CpusUnlock(c: int)
      requires Shape(View()) && 0 <= c < |cpus|
      modifies `threads, `cpus, `cpusLock, `criticalLock
      ensures View() == Scheduler.CpusUnlock(old(View()), c)
    {
      var t := cpus[c].current;
      threads := threads[t := threads[t].(cpusNest := threads[t].cpusNest - 1)];
      if threads[t].cpusNest == 0 {
        threads := threads[t := threads[t].(schedNest := threads[t].schedNest - 1)];
        cpusLock := false;
      }
    }

    method LockStatusRestore(c: int, to: int)
      requires 0 <= c < |cpus| && 0 <= to < |threads| && cpusLock
      modifies `threads, `cpus, `cpusLock, `criticalLock
      ensures View() == HandOver(old(View()), c, to)
    {
      cpus := cpus[c := cpus[c].(current := to)];
      if threads[to].cpusNest == 0 {
        cpusLock := false;
      }
    }

    // ----- scheduler.c

    method EnterCritical(c: int)
      requires Inv(View()) && 0 <= c < |cpus|
      modifies `threads, `cpus, `cpusLock, `criticalLock
      ensures View() == Scheduler.EnterCritical(old(View()), c)
    {
      CurrentOk(View(), c);
      var t := cpus[c].current;
      assert threads[t].critNest > 0 ==> InCritical(View(), c);
      if threads[t].critNest == 0 {
        criticalLock := true;
      }
      threads := threads[t := threads[t].(critNest := threads[t].critNest + 1)];
      threads := threads[t := threads[t].(schedNest := threads[t].schedNest + 1)];
    }

    method ExitCritical(c: int)
      requires Shape(View()) && 0 <= c < |cpus|
      modifies `threads, `cpus, `cpusLock, `criticalLock
      ensures View() == Scheduler.ExitCritical(old(View()), c)
    {
      var t := cpus[c].current;
      threads := threads[t := threads[t].(schedNest := threads[t].schedNest - 1)];
      threads := threads[t := threads[t].(critNest := threads[t].critNest - 1)];
      if threads[t].critNest == 0 {
        criticalLock := false;
      }
      if threads[t].schedNest <= 0 {
        threads := threads[t := threads[t].(schedNest := 0)];
      }
    }

    /** For a thread in no list; one that is on a CPU goes on running. */
    method InsertThread(t: int)
      requires Shape(View()) && Linked() && 0 <= t < |threads| && (threads[t].oncpu == |cpus| ==> Nowhere(queues, t))
      modifies `threads, `groups, `next, `prev, `queues
      ensures Linked() && View() == Scheduler.InsertThread(old(View()), t)
    {
      hide Threaded, Nowhere, Or;
      if threads[t].oncpu != |cpus| {
        threads := threads[t := threads[t].(stat := Running)];
        return;
      }
      threads := threads[t := threads[t].(stat := Ready)];
      var w, p := threads[t].bind, threads[t].prio;
      groups := groups[w := Or(groups[w], threads[t].mask)];
      ghost var q := Enqueue(queues[w], p, threads[t].mask, t);
      AppendThreaded(next, prev, queues, |threads|, w, p, t, q);
      var (n, r) := InsertBefore(next, prev, HeadOf(w, p), t);
      next, prev := n, r;
      queues := queues[w := q];
    }

    /** For a thread that is in the list of its priority, or in none. */
    method RemoveThread(t: int)
      requires Shape(View()) && Linked() && 0 <= t < |threads|
      requires Nowhere(queues, t) || InQueue(queues, threads[t].bind, threads[t].prio, t)
      modifies `groups, `next, `prev, `queues
      ensures Linked() && View() == Scheduler.RemoveThread(old(View()), t)
      ensures Nowhere(queues, t)
    {
      hide Threaded, AndNot;
      var w, p := threads[t].bind, threads[t].prio;
      ghost var q := Dequeue(queues[w], p, threads[t].mask, t);
      Unlinks(next, prev, queues, |threads|, w, p, t, q);
      var (n, r) := RemoveNode(next, prev, t);
      next, prev := n, r;
      if next[HeadOf(w, p)] == HeadOf(w, p) {
        groups := groups[w := AndNot(groups[w], threads[t].mask)];
      }
      queues := queues[w := q];
    }

    method GetHighestPriorityThread(c: int) returns (t: int, highest: int)
      requires Valid() && 0 <= c < |cpus| && !NothingReady(View(), c)
      ensures t == Chosen(View(), c) && highest == Pick(View(), c).0
    {
      hide Inv, Ffs, Threaded;
      UseInv(View());
      PickFinds(View(), c) by { InvQueues(View()); }
      var global := if Ffs(groups[|cpus|]) == 0 then UBASE_MAX else Ffs(groups[|cpus|]) - 1;
      var local := if Ffs(groups[c]) == 0 then UBASE_MAX else Ffs(groups[c]) - 1;
      if global < local {
        highest := global;
        FirstOf(next, prev, queues, |threads|, |cpus|, global);
        t := next[HeadOf(|cpus|, global)];
      } else {
        highest := local;
        FirstOf(next, prev, queues, |threads|, c, local);
        t := next[HeadOf(c, local)];
      }
    }

    method Schedule(c: int)
      requires Valid() && 0 <= c < |cpus| && Holds(View(), c)
      modifies this
      ensures Linked() && View() == ScheduleBody(old(View()), c)
    {
      hide Threaded, Reschedule, QueuesOk, ListsOk, LockOk, CritOk;
      if cpus[c].irqNest > 0 {
        cpus := cpus[c := cpus[c].(irqSwitch := true)];
        return;
      }
      CurrentOk(View(), c);
      if threads[cpus[c].current].schedNest == 1 {
        var switched := Switch(c, false);
      }
    }

    /** What rt_schedule and rt_scheduler_do_irq_switch have in common. */
    method Switch(c: int, release: bool) returns (switched: bool)
      requires Valid() && 0 <= c < |cpus| && Holds(View(), c)
      modifies this
      ensures Linked() && View() == Reschedule(old(View()), c, release) && switched == Switches(old(View()), c)
    {
      hide Inv, Pick, PutBack, SwitchTo, Threaded, Nowhere;
      UseInv(View());
      switched := false;
      if IsZero(groups[|cpus|]) && IsZero(groups[c]) {
        return;
      }
      var current := cpus[c].current;
      var to, highest := GetHighestPriorityThread(c);
      if threads[current].stat == Running &&
         (threads[current].prio < highest || (threads[current].prio == highest && !threads[current].yielding)) {
        return;
      }
      switched := true;
      Replace(c, release, to, highest);
    }

    /** One thread leaves the CPU, and the chosen one arrives. */
    method Replace(c: int, release: bool, to: int, highest: int)
      requires Valid() && 0 <= c < |cpus| && Holds(View(), c) && !NothingReady(View(), c) && to == Chosen(View(), c)
      modifies this
      ensures 0 <= to < |old(threads)|
      ensures Linked() && View() == SwitchTo(PutBack(old(View()), c, release), c, to, highest)
    {
      hide Inv, Pick, PutBack, SwitchTo, Threaded, Nowhere, InQueue, Chosen;
      ghost var k := View();
      UseInv(k);
      Chooses(k, c);
      Leave(c, release);
      PutBackFields(k, c, release);
      StillThere(k, c, release, to);
      Arrive(c, to, highest);
    }

    /** The incoming thread leaves its ready queue and takes over the CPU and, if it was inside it, the lock. */
    method Arrive(c: int, to: int, highest: int)
      requires Shape(View()) && Linked() && 0 <= c < |cpus| && 0 <= to < |threads| && cpusLock
      requires Nowhere(queues, to) || InQueue(queues, threads[to].bind, threads[to].prio, to)
      modifies this
      ensures Linked() && View() == SwitchTo(old(View()), c, to, highest)
    {
      hide Threaded, Nowhere, Dequeue;
      threads := threads[to := threads[to].(oncpu := c)];
      cpus := cpus[c := cpus[c].(prio := highest)];
      RemoveThread(to);
      threads := threads[to := threads[to].(stat := Running)];
      LockStatusRestore(c, to);
    }

    /** The outgoing thread detaches from the CPU and goes back to a ready queue if it can still run. */
    method Leave(c: int, release: bool)
      requires Shape(View()) && Linked() && 0 <= c < |cpus| && Nowhere(queues, cpus[c].current)
      modifies this
      ensures Linked() && View() == PutBack(old(View()), c, release)
    {
      hide Threaded, Nowhere, Enqueue;
      var current := cpus[c].current;
      var th := threads[current];
      th := th.(oncpu := |cpus|);
      if release {
        th := th.(cpusNest := th.cpusNest - 1);
        th := th.(schedNest := th.schedNest - 1);
      }
      if th.stat == Running {
        th := th.(yielding := false);
        threads := threads[current := th];
        InsertThread(current);
      } else {
        threads := threads[current := th];
      }
    }

    method DoIrqSwitch(c: int)
      requires Valid() && 0 <= c < |cpus| && !Holds(View(), c) && !cpusLock
      modifies this
      ensures Linked() && View() == IrqSwitchBody(old(View()), c)
    {
      hide Threaded, Reschedule, QueuesOk, ListsOk, LockOk, CritOk, ThreadOk, CpuOk, Pick, NothingReady, KeepsRunning;
      CurrentOk(View(), c);
      LockInv(View(), c);
      CpusLock(c);
      var current := cpus[c].current;
      if cpus[c].irqSwitch && threads[current].schedNest == 1 && cpus[c].irqNest == 0 {
        CpuFieldsInv(View(), c, cpus[c].(irqSwitch := false));
        cpus := cpus[c := cpus[c].(irqSwitch := false)];
        ghost var k := View();
        var switched := Switch(c, true);
        if switched {
          return;
        }
        StaysPut(k, c, true);
      }
      CpusUnlock(c);
    }

    // ----- thread.c

    method Suspend(t: int)
      requires Valid() && 0 <= t < |threads|
      modifies `threads, `groups, `next, `prev, `queues
      ensures Linked() && View() == SuspendThread(old(View()), t)
    {
      hide Threaded, Inv, Dequeue;
      UseInv(View());
      ReadyIsHome(View(), t);
      if threads[t].stat != Ready && threads[t].stat != Running {
        return;
      }
      RemoveThread(t);
      threads := threads[t := threads[t].(stat := Stat.Suspend)];
    }

    /** The node leaves the list the thread waited in, which is not part of the kernel's ready lists. */
    method Resume(t: int)
      requires Shape(View()) && Linked() && 0 <= t < |threads|
      requires threads[t].stat == Stat.Suspend ==> Nowhere(queues, t)
      modifies `threads, `groups, `next, `prev, `queues
      ensures Linked() && View() == ResumeThread(old(View()), t)
    {
      hide Threaded, Nowhere, Enqueue;
      if threads[t].stat != Stat.Suspend {
        return;
      }
      IsLone(next, prev, queues, |threads|, t);
      RemoveLone(next, prev, t);
      var (n, r) := RemoveNode(next, prev, t);
      next, prev := n, r;
      InsertThread(t);
    }

    method Startup(t: int)
      requires Valid() && 0 <= t < |threads| && threads[t].stat == Init && 0 <= threads[t].initPrio < 32
      modifies `threads, `groups, `next, `prev, `queues
      ensures Linked() && View() == StartThread(old(View()), t)
    {
      hide Threaded, Nowhere, Inv, Enqueue;
      UseInv(View());
      ReadyIsHome(View(), t);
      var th := threads[t];
      th := th.(prio := th.initPrio);
      th := th.(mask := OneHot(th.prio));
      th := th.(stat := Stat.Suspend, yielding := false);
      threads := threads[t := th];
      Resume(t);
    }

    method ChangePriority(t: int, p: int)
      requires Valid() && 0 <= t < |threads| && 0 <= p < 32
      modifies `threads, `groups, `next, `prev, `queues
      ensures Linked() && View() == Scheduler.ChangePriority(old(View()), t, p)
    {
      hide Threaded, Inv, Dequeue, Enqueue, Nowhere, InQueue, OneHot;
      UseInv(View());
      ReadyIsHome(View(), t);
      if threads[t].stat == Ready {
        ReadyQueued(View(), t);
        RemoveThread(t);
        threads := threads[t := threads[t].(prio := p, mask := OneHot(p))];
        InsertThread(t);
      } else {
        threads := threads[t := threads[t].(prio := p, mask := OneHot(p))];
      }
    }

    method BindCpu(t: int, cpu: nat)
      requires 0 <= t < |threads|
      modifies `threads
      ensures View() == Scheduler.BindCpu(old(View()), t, cpu)
    {
      if threads[t].stat != Init {
        return;
      }
      threads := threads[t := threads[t].(bind := if cpu > |cpus| then |cpus| else cpu)];
    }
  }

  lemma CurrentNotReady(k: Kernel, c: int)
    requires Inv(k) && 0 <= c < |k.cpus|
    ensures k.threads[k.cpus[c].current].stat != Ready
  {
    CurrentOk(k, c);
  }

  /** The chosen thread is ready, the running one is in no list, and the lock is held. */
  lemma Chooses(k: Kernel, c: int)
    requires Inv(k) && 0 <= c < |k.cpus| && Holds(k, c) && !NothingReady(k, c)
    ensures var to := Chosen(k, c);
            && 0 <= to < |k.threads| && to != k.cpus[c].current && k.threads[to].stat == Ready
            && Nowhere(k.queues, k.cpus[c].current) && k.lock
  {
    hide QueuesOk, ListsOk, CritOk, ThreadOk, CpuOk, Pick, Chosen, NothingReady;
    ChosenOk(k, c);
    CurrentNotReady(k, c);
    ReadyIsHome(k, k.cpus[c].current);
  }

  lemma ReadyQueued(k: Kernel, t: int)
    requires Inv(k) && 0 <= t < |k.threads| && k.threads[t].stat == Ready
    ensures InQueue(k.queues, k.threads[t].bind, k.threads[t].prio, t)
  {
    ReadyIsHome(k, t);
  }

  /** The thread that comes in is still in its list when the other one has left. */
  lemma StillThere(k: Kernel, c: int, release: bool, to: int)
    requires Inv(k) && 0 <= c < |k.cpus| && 0 <= to < |k.threads| && to != k.cpus[c].current
    requires k.threads[to].stat == Ready
    ensures var k1 := PutBack(k, c, release);
            |k1.threads| == |k.threads| && InQueue(k1.queues, k1.threads[to].bind, k1.threads[to].prio, to)
  {
    hide Inv, PutBack, Enqueue;
    UseInv(k);
    ReadyQueued(k, to);
    PutBackFields(k, c, release);
    EnqueueKeeps(k.queues[Current(k, c).bind], Current(k, c).prio, Current(k, c).mask, k.cpus[c].current, to);
  }

  lemma EnqueueKeeps(q: Queue, p: int, mask: Word, t: int, x: int)
    requires |q.table| == 32 && 0 <= p < 32
    ensures |Enqueue(q, p, mask, t).table| == 32
    ensures forall r :: 0 <= r < 32 && x in q.table[r] ==> x in Enqueue(q, p, mask, t).table[r]
  {
  }
}
