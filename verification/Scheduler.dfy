/** The SMP scheduler and its locks (scheduler.c, cpu.c and the scheduling part of thread.c), with 32
    priorities and any number of CPUs and threads.

    A kernel state is a value; every function below is what one CPU does in one critical section,
    and the theorems are about every sequence of such steps by any of the CPUs.  As in the code, the
    number of CPUs stands for "no CPU": `oncpu` is then RT_CPU_DETACHED, and `bind` means not bound.
    Queue `w` is CPU w's own ready queue, and the last queue is the global one. */
module Scheduler {
  import opened Bits
  import opened Ring

  datatype Stat = Init | Ready | Suspend | Running

  datatype Thread = Thread(stat: Stat, yielding: bool, oncpu: int, bind: int, prio: int, initPrio: int, mask: Word,
                           cpusNest: int, schedNest: int, critNest: int)
  datatype Cpu = Cpu(current: int, irqNest: nat, irqSwitch: bool, prio: int)
  datatype Queue = Queue(table: seq<seq<int>>, group: Word)
  datatype Kernel = Kernel(threads: seq<Thread>, cpus: seq<Cpu>, queues: seq<Queue>, lock: bool, critLock: bool)

  const UBASE_MAX := 0xffff_ffff     // __rt_ffs(0) - 1 as an rt_ubase_t

  // ----- ready queues

  ghost predicate QueueOk(q: Queue) {
    |q.table| == 32 && forall p :: 0 <= p < 32 ==> SlotOk(q, p)
  }

  ghost predicate SlotOk(q: Queue, p: int)
    requires |q.table| == 32 && 0 <= p < 32
  {
    Distinct(q.table[p]) && (q.group[p] <==> q.table[p] != [])
  }

  function Enqueue(q: Queue, p: int, mask: Word, t: int): Queue
    requires |q.table| == 32 && 0 <= p < 32
  {
    Queue(q.table[p := q.table[p] + [t]], Or(q.group, mask))
  }

  function Dequeue(q: Queue, p: int, mask: Word, t: int): Queue
    requires |q.table| == 32 && 0 <= p < 32
  {
    var rest := Drop(q.table[p], t);
    Queue(q.table[p := rest], if rest == [] then AndNot(q.group, mask) else q.group)
  }

  lemma EnqueueOk(q: Queue, p: int, t: int)
    requires QueueOk(q) && 0 <= p < 32 && t !in q.table[p]
    ensures QueueOk(Enqueue(q, p, OneHot(p), t))
  {
    var q' := Enqueue(q, p, OneHot(p), t);
    forall r | 0 <= r < 32 ensures SlotOk(q', r) {
      assert SlotOk(q, r);
    }
  }

  lemma DequeueOk(q: Queue, p: int, t: int)
    requires QueueOk(q) && 0 <= p < 32
    ensures QueueOk(Dequeue(q, p, OneHot(p), t))
    ensures forall x :: x in Dequeue(q, p, OneHot(p), t).table[p] <==> x in q.table[p] && x != t
  {
    var q' := Dequeue(q, p, OneHot(p), t);
    assert SlotOk(q, p);
    DropKeeps(q.table[p], t);
    forall r | 0 <= r < 32 ensures SlotOk(q', r) {
      assert SlotOk(q, r);
    }
  }

  /** __rt_ffs(group) - 1: the most urgent priority with a waiting thread. */
  function Highest(q: Queue): int { if Ffs(q.group) == 0 then UBASE_MAX else Ffs(q.group) - 1 }

  lemma HighestIsLeast(q: Queue)
    requires QueueOk(q)
    ensures Highest(q) == UBASE_MAX <==> forall p :: 0 <= p < 32 ==> q.table[p] == []
    ensures Highest(q) != UBASE_MAX ==> 0 <= Highest(q) < 32 && q.table[Highest(q)] != []
    ensures forall p :: 0 <= p < 32 && q.table[p] != [] ==> Highest(q) <= p
  {
    FfsFindsLowest(q.group);
    forall p | 0 <= p < 32 ensures q.group[p] <==> q.table[p] != [] {
      assert SlotOk(q, p);
    }
  }

  // ----- shapes

  ghost predicate Shape(k: Kernel) {
    && |k.queues| == |k.cpus| + 1
    && (forall w :: 0 <= w < |k.queues| ==> |k.queues[w].table| == 32)
    && (forall c :: 0 <= c < |k.cpus| ==> 0 <= k.cpus[c].current < |k.threads|)
    && (forall t :: 0 <= t < |k.threads| ==> 0 <= k.threads[t].prio < 32 && 0 <= k.threads[t].bind <= |k.cpus|)
  }

  function Current(k: Kernel, c: int): Thread
    requires 0 <= c < |k.cpus| && 0 <= k.cpus[c].current < |k.threads|
  {
    k.threads[k.cpus[c].current]
  }

  function Put(k: Kernel, t: int, th: Thread): Kernel
    requires 0 <= t < |k.threads|
  {
    k.(threads := k.threads[t := th])
  }

  // ----- scheduler.c: rt_schedule_insert_thread, rt_schedule_remove_thread

  function InsertThread(k: Kernel, t: int): (k': Kernel)
    requires Shape(k) && 0 <= t < |k.threads|
    ensures Shape(k') && |k'.threads| == |k.threads| && k'.cpus == k.cpus
  {
    var th := k.threads[t];
    if th.oncpu != |k.cpus| then Put(k, t, th.(stat := Running))
    else Put(k, t, th.(stat := Ready)).(queues := k.queues[th.bind := Enqueue(k.queues[th.bind], th.prio, th.mask, t)])
  }

  function RemoveThread(k: Kernel, t: int): (k': Kernel)
    requires Shape(k) && 0 <= t < |k.threads|
    ensures Shape(k') && |k'.threads| == |k.threads| && k'.cpus == k.cpus
  {
    var th := k.threads[t];
    k.(queues := k.queues[th.bind := Dequeue(k.queues[th.bind], th.prio, th.mask, t)])
  }

  // ----- the invariant

  /** Thread `x` is in the list of priority `p` of queue `w`. */
  ghost predicate In(k: Kernel, w: int, p: int, x: int)
    requires Shape(k)
  {
    0 <= w < |k.queues| && 0 <= p < 32 && x in k.queues[w].table[p]
  }

  ghost predicate ReadyAt(k: Kernel, w: int, p: int, x: int) {
    0 <= x < |k.threads| && k.threads[x].stat == Ready && k.threads[x].bind == w && k.threads[x].prio == p
  }

  ghost predicate ThreadOk(k: Kernel, t: int)
    requires 0 <= t < |k.threads|
  {
    var th, n := k.threads[t], |k.cpus|;
    && 0 <= th.oncpu <= n
    && (th.oncpu < n ==> k.cpus[th.oncpu].current == t && (th.bind == th.oncpu || th.bind == n))
    && (th.stat == Running ==> th.oncpu < n)
    && (th.stat == Ready || th.stat == Init ==> th.oncpu == n)
    && (th.stat != Init ==> th.mask == OneHot(th.prio))
    && 0 <= th.initPrio < 32
    && 0 <= th.cpusNest && 0 <= th.critNest
    && th.schedNest == th.critNest + (if th.cpusNest > 0 then 1 else 0)
    && (th.oncpu == n ==> th.critNest == 0)
  }

  ghost predicate CpuOk(k: Kernel, c: int)
    requires 0 <= c < |k.cpus| && 0 <= k.cpus[c].current < |k.threads|
  {
    Current(k, c).oncpu == c
  }

  /** CPU `c`'s current thread is inside rt_cpus_lock .. rt_cpus_unlock. */
  predicate Holds(k: Kernel, c: int)
    requires 0 <= c < |k.cpus| && 0 <= k.cpus[c].current < |k.threads|
  {
    Current(k, c).cpusNest > 0
  }

  predicate InCritical(k: Kernel, c: int)
    requires 0 <= c < |k.cpus| && 0 <= k.cpus[c].current < |k.threads|
  {
    Current(k, c).critNest > 0
  }

  /** The spin lock is held exactly when one CPU's current thread is inside, and only one is. */
  ghost predicate LockOk(k: Kernel)
    requires Shape(k)
  {
    && (k.lock <==> exists c :: 0 <= c < |k.cpus| && Holds(k, c))
    && (forall c, d :: 0 <= c < |k.cpus| && 0 <= d < |k.cpus| && Holds(k, c) && Holds(k, d) ==> c == d)
  }

  ghost predicate CritOk(k: Kernel)
    requires Shape(k)
  {
    && (k.critLock <==> exists c :: 0 <= c < |k.cpus| && InCritical(k, c))
    && (forall c, d :: 0 <= c < |k.cpus| && 0 <= d < |k.cpus| && InCritical(k, c) && InCritical(k, d) ==> c == d)
  }

  /** Every list holds exactly the ready threads that belong there. */
  ghost predicate ListsOk(k: Kernel)
    requires Shape(k)
  {
    forall w, p, x :: In(k, w, p, x) <==> ReadyAt(k, w, p, x)
  }

  /** Every list holds a thread at most once, and every group bit says whether its list is empty. */
  ghost predicate QueuesOk(k: Kernel) {
    forall w :: 0 <= w < |k.queues| ==> QueueOk(k.queues[w])
  }

  ghost predicate Inv(k: Kernel) {
    && Shape(k)
    && QueuesOk(k)
    && ListsOk(k)
    && (forall t :: 0 <= t < |k.threads| ==> ThreadOk(k, t))
    && (forall c :: 0 <= c < |k.cpus| ==> CpuOk(k, c))
    && LockOk(k) && CritOk(k)
  }

  // ----- lemmas about the two queue operations

  lemma InsertLists(k: Kernel, t: int)
    requires Shape(k) && QueuesOk(k) && 0 <= t < |k.threads|
    requires var th := k.threads[t]; th.oncpu == |k.cpus| && th.mask == OneHot(th.prio) && !In(k, th.bind, th.prio, t)
    ensures QueuesOk(InsertThread(k, t))
    ensures var th := k.threads[t];
            forall w, p, x :: In(InsertThread(k, t), w, p, x)
              <==> In(k, w, p, x) || (w == th.bind && p == th.prio && x == t)
  {
    var th := k.threads[t];
    EnqueueOk(k.queues[th.bind], th.prio, t);
  }

  lemma RemoveLists(k: Kernel, t: int)
    requires Shape(k) && QueuesOk(k) && 0 <= t < |k.threads| && k.threads[t].mask == OneHot(k.threads[t].prio)
    ensures QueuesOk(RemoveThread(k, t))
    ensures var th := k.threads[t];
            forall w, p, x :: In(RemoveThread(k, t), w, p, x)
              <==> In(k, w, p, x) && !(w == th.bind && p == th.prio && x == t)
  {
    var th := k.threads[t];
    DequeueOk(k.queues[th.bind], th.prio, t);
  }

  // ----- cpu.c: the lock that all CPUs share

  /** rt_cpus_lock; a CPU whose thread is not inside spins until the lock is free. */
  function CpusLock(k: Kernel, c: int): Kernel
    requires Shape(k) && 0 <= c < |k.cpus|
  {
    var t, th := k.cpus[c].current, Current(k, c);
    if th.cpusNest == 0 then Put(k, t, th.(cpusNest := 1, schedNest := th.schedNest + 1)).(lock := true)
    else Put(k, t, th.(cpusNest := th.cpusNest + 1))
  }

  function CpusUnlock(k: Kernel, c: int): Kernel
    requires Shape(k) && 0 <= c < |k.cpus|
  {
    var t, th := k.cpus[c].current, Current(k, c);
    if th.cpusNest == 1 then Put(k, t, th.(cpusNest := 0, schedNest := th.schedNest - 1)).(lock := false)
    else Put(k, t, th.(cpusNest := th.cpusNest - 1))
  }

  /** rt_cpus_lock_status_restore, run by the context switch. */
  function HandOver(k: Kernel, c: int, to: int): Kernel
    requires 0 <= c < |k.cpus| && 0 <= to < |k.threads|
  {
    k.(cpus := k.cpus[c := k.cpus[c].(current := to)], lock := k.lock && k.threads[to].cpusNest != 0)
  }

  // ----- scheduler.c: critical sections

  function EnterCritical(k: Kernel, c: int): Kernel
    requires Shape(k) && 0 <= c < |k.cpus|
  {
    var t, th := k.cpus[c].current, Current(k, c);
    Put(k, t, th.(critNest := th.critNest + 1, schedNest := th.schedNest + 1)).(critLock := true)
  }

  /** rt_exit_critical, up to the rt_schedule that it ends with when nothing is locked any more. */
  function ExitCritical(k: Kernel, c: int): Kernel
    requires Shape(k) && 0 <= c < |k.cpus|
  {
    var t, th := k.cpus[c].current, Current(k, c);
    var sched := if th.schedNest - 1 <= 0 then 0 else th.schedNest - 1;
    Put(k, t, th.(critNest := th.critNest - 1, schedNest := sched)).(critLock := k.critLock && th.critNest != 1)
  }

  // ----- scheduler.c: choosing and switching

  /** _get_highest_priority_thread: priority and queue of the thread to run. */
  function Pick(k: Kernel, c: int): (int, int)
    requires Shape(k) && 0 <= c < |k.cpus|
  {
    var n := |k.cpus|;
    if Highest(k.queues[n]) < Highest(k.queues[c]) then (Highest(k.queues[n]), n) else (Highest(k.queues[c]), c)
  }

  predicate NothingReady(k: Kernel, c: int)
    requires Shape(k) && 0 <= c < |k.cpus|
  {
    IsZero(k.queues[|k.cpus|].group) && IsZero(k.queues[c].group)
  }

  predicate KeepsRunning(th: Thread, highest: int) {
    th.stat == Running && (th.prio < highest || (th.prio == highest && !th.yielding))
  }

  lemma PickFinds(k: Kernel, c: int)
    requires Shape(k) && QueuesOk(k) && 0 <= c < |k.cpus| && !NothingReady(k, c)
    ensures Pick(k, c).1 == c || Pick(k, c).1 == |k.cpus|
    ensures 0 <= Pick(k, c).0 < 32 && k.queues[Pick(k, c).1].table[Pick(k, c).0] != []
  {
    HighestIsLeast(k.queues[|k.cpus|]);
    HighestIsLeast(k.queues[c]);
    FfsFindsLowest(k.queues[|k.cpus|].group);
    FfsFindsLowest(k.queues[c].group);
  }

  /** No thread that CPU `c` may run is more urgent than the one picked. */
  lemma PickIsUrgent(k: Kernel, c: int, w: int, p: int, x: int)
    requires Shape(k) && QueuesOk(k) && 0 <= c < |k.cpus| && In(k, w, p, x) && (w == c || w == |k.cpus|)
    ensures Pick(k, c).0 <= p && !NothingReady(k, c)
  {
    HighestIsLeast(k.queues[|k.cpus|]);
    HighestIsLeast(k.queues[c]);
    assert SlotOk(k.queues[w], p);
  }

  function Chosen(k: Kernel, c: int): int
    requires Shape(k) && QueuesOk(k) && 0 <= c < |k.cpus| && !NothingReady(k, c)
  {
    PickFinds(k, c);
    k.queues[Pick(k, c).1].table[Pick(k, c).0][0]
  }

  /** The outgoing thread, back in a ready queue if it could still run; `release` is the interrupt path,
      which also undoes the lock count that the interrupted code does not know about. */
  function PutBack(k: Kernel, c: int, release: bool): (k': Kernel)
    requires Shape(k) && 0 <= c < |k.cpus|
    ensures Shape(k') && |k'.threads| == |k.threads| && k'.cpus == k.cpus
  {
    var cur := k.cpus[c].current;
    var th := k.threads[cur].(oncpu := |k.cpus|);
    var th1 := if release then th.(cpusNest := th.cpusNest - 1, schedNest := th.schedNest - 1) else th;
    if th.stat == Running then InsertThread(Put(k, cur, th1.(yielding := false)), cur) else Put(k, cur, th1)
  }

  /** The rest of the switch: `to` leaves its list and runs on CPU `c`. */
  function SwitchTo(k: Kernel, c: int, to: int, highest: int): Kernel
    requires Shape(k) && 0 <= c < |k.cpus| && 0 <= to < |k.threads|
  {
    var k1 := Put(k, to, k.threads[to].(oncpu := c));
    var k2 := RemoveThread(k1.(cpus := k1.cpus[c := k1.cpus[c].(prio := highest)]), to);
    HandOver(Put(k2, to, k2.threads[to].(stat := Running)), c, to)
  }

  /** The common part of rt_schedule and rt_scheduler_do_irq_switch, with the context switch. */
  function Reschedule(k: Kernel, c: int, release: bool): Kernel
    requires Inv(k) && 0 <= c < |k.cpus|
  {
    if NothingReady(k, c) || KeepsRunning(Current(k, c), Pick(k, c).0) then k
    else
      ChosenOk(k, c);
      SwitchTo(PutBack(k, c, release), c, Chosen(k, c), Pick(k, c).0)
  }

  lemma ChosenOk(k: Kernel, c: int)
    requires Inv(k) && 0 <= c < |k.cpus| && !NothingReady(k, c)
    ensures ReadyAt(k, Pick(k, c).1, Pick(k, c).0, Chosen(k, c)) && (Pick(k, c).1 == c || Pick(k, c).1 == |k.cpus|)
    ensures k.threads[Chosen(k, c)].oncpu == |k.cpus|
    ensures k.threads[Chosen(k, c)].mask == OneHot(k.threads[Chosen(k, c)].prio)
    ensures k.threads[Chosen(k, c)].critNest == 0
    ensures Chosen(k, c) != k.cpus[c].current
  {
    PickFinds(k, c);
    assert In(k, Pick(k, c).1, Pick(k, c).0, Chosen(k, c));
    assert ThreadOk(k, Chosen(k, c));
    assert CpuOk(k, c);
  }

  lemma PutBackLists(k: Kernel, c: int, release: bool)
    requires Inv(k) && 0 <= c < |k.cpus|
    ensures QueuesOk(PutBack(k, c, release))
    ensures var th := Current(k, c);
            forall w, p, x :: In(PutBack(k, c, release), w, p, x) <==>
              In(k, w, p, x) || (th.stat == Running && w == th.bind && p == th.prio && x == k.cpus[c].current)
  {
    hide QueueOk, LockOk, CritOk, Enqueue;
    var cur := k.cpus[c].current;
    var th := k.threads[cur].(oncpu := |k.cpus|);
    var th1 := if release then th.(cpusNest := th.cpusNest - 1, schedNest := th.schedNest - 1) else th;
    assert ThreadOk(k, cur) && CpuOk(k, c);
    if th.stat == Running {
      var k1 := Put(k, cur, th1.(yielding := false));
      PutLists(k, cur, th1.(yielding := false));
      assert !In(k, th.bind, th.prio, cur) by {
        assert !ReadyAt(k, th.bind, th.prio, cur);
      }
      InsertLists(k1, cur);
    } else {
      PutLists(k, cur, th1);
    }
  }

  /** A change of a thread's fields moves nobody between lists. */
  lemma PutLists(k: Kernel, t: int, th: Thread)
    requires Shape(k) && 0 <= t < |k.threads| && 0 <= th.prio < 32 && 0 <= th.bind <= |k.cpus|
    ensures Shape(Put(k, t, th)) && (QueuesOk(k) ==> QueuesOk(Put(k, t, th)))
    ensures forall w, p, x :: In(Put(k, t, th), w, p, x) <==> In(k, w, p, x)
  {
  }

  // ----- a context switch keeps the invariant

  /** What the outgoing and the incoming thread look like after a switch. */
  function Outgoing(k: Kernel, c: int, release: bool): Thread
    requires Shape(k) && 0 <= c < |k.cpus|
  {
    var th := Current(k, c).(oncpu := |k.cpus|);
    var th1 := if release then th.(cpusNest := th.cpusNest - 1, schedNest := th.schedNest - 1) else th;
    if th.stat == Running then th1.(yielding := false, stat := Ready) else th1
  }

  function Incoming(k: Kernel, c: int, to: int): Thread
    requires 0 <= to < |k.threads|
  {
    k.threads[to].(oncpu := c, stat := Running)
  }

  ghost predicate Switches(k: Kernel, c: int)
    requires Shape(k) && 0 <= c < |k.cpus|
  {
    !NothingReady(k, c) && !KeepsRunning(Current(k, c), Pick(k, c).0)
  }

  lemma PutBackFields(k: Kernel, c: int, release: bool)
    requires Shape(k) && 0 <= c < |k.cpus|
    ensures var k1, th := PutBack(k, c, release), Current(k, c);
            && k1.threads == k.threads[k.cpus[c].current := Outgoing(k, c, release)]
            && k1.lock == k.lock && k1.critLock == k.critLock
            && k1.queues == if th.stat == Running
                            then k.queues[th.bind := Enqueue(k.queues[th.bind], th.prio, th.mask, k.cpus[c].current)]
                            else k.queues
  {
    hide Enqueue;
  }

  lemma SwitchToFields(k: Kernel, c: int, to: int, highest: int)
    requires Shape(k) && 0 <= c < |k.cpus| && 0 <= to < |k.threads|
    ensures var k', th := SwitchTo(k, c, to, highest), k.threads[to];
            && Shape(k')
            && k'.threads == k.threads[to := th.(oncpu := c, stat := Running)]
            && k'.cpus == k.cpus[c := k.cpus[c].(prio := highest, current := to)]
            && k'.lock == (k.lock && th.cpusNest != 0) && k'.critLock == k.critLock
            && k'.queues == k.queues[th.bind := Dequeue(k.queues[th.bind], th.prio, th.mask, to)]
  {
    hide Dequeue;
  }

  lemma SwitchFields(k: Kernel, c: int, release: bool)
    requires Inv(k) && 0 <= c < |k.cpus| && Switches(k, c)
    ensures var k', cur, to := Reschedule(k, c, release), k.cpus[c].current, Chosen(k, c);
            && 0 <= to < |k.threads| && Shape(k') && QueuesOk(k')
            && k'.threads == k.threads[cur := Outgoing(k, c, release)][to := Incoming(k, c, to)]
            && k'.cpus == k.cpus[c := k.cpus[c].(prio := Pick(k, c).0, current := to)]
            && k'.lock == (k.lock && k.threads[to].cpusNest != 0) && k'.critLock == k.critLock
            && k'.queues == SwitchQueues(k, c, to)
  {
    hide QueueOk, ListsOk, LockOk, CritOk, Enqueue, Dequeue, Pick, PutBack, SwitchTo, ThreadOk, CpuOk;
    ChosenOk(k, c);
    PutBackLists(k, c, release);
    PutBackFields(k, c, release);
    var k1, to := PutBack(k, c, release), Chosen(k, c);
    SwitchToFields(k1, c, to, Pick(k, c).0);
    var th := k.threads[to];
    assert QueueOk(k1.queues[th.bind]);
    DequeueOk(k1.queues[th.bind], th.prio, to);
  }

  /** The ready queues after a switch to `to`. */
  function SwitchQueues(k: Kernel, c: int, to: int): seq<Queue>
    requires Shape(k) && 0 <= c < |k.cpus| && 0 <= to < |k.threads|
  {
    var th, th' := Current(k, c), k.threads[to];
    var qs := if th.stat == Running
              then k.queues[th.bind := Enqueue(k.queues[th.bind], th.prio, th.mask, k.cpus[c].current)]
              else k.queues;
    qs[th'.bind := Dequeue(qs[th'.bind], th'.prio, th'.mask, to)]
  }

  lemma SwitchLists(k: Kernel, c: int, release: bool, w: int, p: int, x: int)
    requires Inv(k) && 0 <= c < |k.cpus| && Switches(k, c) && Shape(Reschedule(k, c, release))
    ensures var th, to := Current(k, c), Chosen(k, c);
            0 <= to < |k.threads| &&
            (In(Reschedule(k, c, release), w, p, x) <==>
              (In(k, w, p, x) || (th.stat == Running && w == th.bind && p == th.prio && x == k.cpus[c].current))
              && !(w == k.threads[to].bind && p == k.threads[to].prio && x == to))
  {
    hide QueueOk, ListsOk, LockOk, CritOk, Enqueue, Dequeue, Pick, PutBack, SwitchTo, ThreadOk, CpuOk, Reschedule;
    ChosenOk(k, c);
    SwitchFields(k, c, release);
    PutBackLists(k, c, release);
    PutBackFields(k, c, release);
    var k1, to := PutBack(k, c, release), Chosen(k, c);
    var th, k' := k.threads[to], Reschedule(k, c, release);
    assert QueueOk(k1.queues[th.bind]);
    DequeueOk(k1.queues[th.bind], th.prio, to);
    DequeueOthers(k1.queues[th.bind], th.prio, to);
    assert In(k1, w, p, x) <==> (In(k, w, p, x)
      || (Current(k, c).stat == Running && w == Current(k, c).bind && p == Current(k, c).prio
          && x == k.cpus[c].current));
    assert k'.queues == k1.queues[th.bind := Dequeue(k1.queues[th.bind], th.prio, th.mask, to)];
  }

  lemma DequeueOthers(q: Queue, p: int, t: int)
    requires |q.table| == 32 && 0 <= p < 32
    ensures var q' := Dequeue(q, p, OneHot(p), t);
            |q'.table| == 32 && forall r :: 0 <= r < 32 && r != p ==> q'.table[r] == q.table[r]
  {
  }

  ghost predicate MaySwitch(k: Kernel, c: int, release: bool)
    requires Shape(k) && 0 <= c < |k.cpus|
  {
    Holds(k, c) && Current(k, c).schedNest == 1 && (release ==> Current(k, c).cpusNest == 1)
  }

  lemma SwitchListsOk(k: Kernel, c: int, release: bool)
    requires Inv(k) && 0 <= c < |k.cpus| && Switches(k, c) && Shape(Reschedule(k, c, release))
    requires QueuesOk(Reschedule(k, c, release))
    ensures ListsOk(Reschedule(k, c, release))
  {
    hide Reschedule, QueueOk, Pick, LockOk, CritOk;
    SwitchFields(k, c, release);
    ChosenOk(k, c);
    assert CpuOk(k, c) && ThreadOk(k, k.cpus[c].current);
    var k' := Reschedule(k, c, release);
    forall w, p, x ensures In(k', w, p, x) <==> ReadyAt(k', w, p, x) {
      SwitchLists(k, c, release, w, p, x);
      assert In(k, w, p, x) <==> ReadyAt(k, w, p, x);
    }
  }

  lemma SwitchThreadsOk(k: Kernel, c: int, release: bool)
    requires Inv(k) && 0 <= c < |k.cpus| && Switches(k, c) && MaySwitch(k, c, release)
    requires Shape(Reschedule(k, c, release))
    ensures var k' := Reschedule(k, c, release);
            && (forall t :: 0 <= t < |k'.threads| ==> ThreadOk(k', t))
            && (forall d :: 0 <= d < |k'.cpus| ==> CpuOk(k', d))
  {
    hide Reschedule, QueueOk, ListsOk, Pick, LockOk, CritOk;
    SwitchFields(k, c, release);
    ChosenOk(k, c);
    var k', cur, to := Reschedule(k, c, release), k.cpus[c].current, Chosen(k, c);
    assert CpuOk(k, c) && ThreadOk(k, cur) && ThreadOk(k, to);
    forall t | 0 <= t < |k'.threads| ensures ThreadOk(k', t) {
      assert ThreadOk(k, t);
    }
    forall d | 0 <= d < |k'.cpus| ensures CpuOk(k', d) {
      assert CpuOk(k, d);
    }
  }

  lemma SwitchLocksOk(k: Kernel, c: int, release: bool)
    requires Inv(k) && 0 <= c < |k.cpus| && Switches(k, c) && MaySwitch(k, c, release)
    requires Shape(Reschedule(k, c, release))
    ensures LockOk(Reschedule(k, c, release)) && CritOk(Reschedule(k, c, release))
  {
    hide Reschedule, QueueOk, ListsOk, Pick;
    SwitchFields(k, c, release);
    ChosenOk(k, c);
    var k', cur, to := Reschedule(k, c, release), k.cpus[c].current, Chosen(k, c);
    assert CpuOk(k, c) && ThreadOk(k, cur) && ThreadOk(k, to);
    forall d | 0 <= d < |k.cpus| && d != c ensures Current(k', d) == Current(k, d) && !Holds(k, d) {
      assert CpuOk(k, d);
    }
    assert Holds(k', c) <==> k'.lock;
    assert !InCritical(k', c) && !InCritical(k, c);
    assert forall d :: 0 <= d < |k.cpus| ==> (InCritical(k', d) <==> InCritical(k, d));
  }

  /** Whoever comes in takes over the lock or releases it; nobody is lost, queued twice or run twice. */
  lemma RescheduleInv(k: Kernel, c: int, release: bool)
    requires Inv(k) && 0 <= c < |k.cpus| && MaySwitch(k, c, release)
    ensures Inv(Reschedule(k, c, release))
  {
    hide QueueOk, ListsOk, Pick, LockOk, CritOk, ThreadOk, CpuOk;
    if Switches(k, c) {
      SwitchFields(k, c, release);
      SwitchListsOk(k, c, release);
      SwitchThreadsOk(k, c, release);
      SwitchLocksOk(k, c, release);
    }
  }

  // ----- thread.c

  function SuspendThread(k: Kernel, t: int): Kernel
    requires Shape(k) && 0 <= t < |k.threads|
  {
    if k.threads[t].stat != Ready && k.threads[t].stat != Running then k
    else var k1 := RemoveThread(k, t); Put(k1, t, k1.threads[t].(stat := Suspend))
  }

  /** rt_thread_resume; rt_thread_timeout does the same to the queues. */
  function ResumeThread(k: Kernel, t: int): Kernel
    requires Shape(k) && 0 <= t < |k.threads|
  {
    if k.threads[t].stat != Suspend then k else InsertThread(k, t)
  }

  function StartThread(k: Kernel, t: int): Kernel
    requires Shape(k) && 0 <= t < |k.threads| && 0 <= k.threads[t].initPrio < 32
  {
    var th := k.threads[t];
    ResumeThread(Put(k, t,
                     th.(prio := th.initPrio, mask := OneHot(th.initPrio), stat := Suspend, yielding := false)), t)
  }

  function ChangePriority(k: Kernel, t: int, p: int): Kernel
    requires Shape(k) && 0 <= t < |k.threads| && 0 <= p < 32
  {
    if k.threads[t].stat == Ready then
      var k1 := RemoveThread(k, t);
      InsertThread(Put(k1, t, k1.threads[t].(prio := p, mask := OneHot(p))), t)
    else Put(k, t, k.threads[t].(prio := p, mask := OneHot(p)))
  }

  function BindCpu(k: Kernel, t: int, cpu: nat): Kernel
    requires 0 <= t < |k.threads|
  {
    if k.threads[t].stat != Init then k
    else Put(k, t, k.threads[t].(bind := if cpu > |k.cpus| then |k.cpus| else cpu))
  }

  // ----- they keep the invariant

  ghost predicate SamePlace(a: Thread, b: Thread) {
    a.oncpu == b.oncpu && a.cpusNest == b.cpusNest && a.critNest == b.critNest
  }

  /** Steps that move nobody on or off a CPU and touch no lock. */
  lemma LocksFrame(k: Kernel, k': Kernel)
    requires Inv(k) && Shape(k') && k'.cpus == k.cpus && k'.lock == k.lock && k'.critLock == k.critLock
    requires |k'.threads| == |k.threads| && forall t :: 0 <= t < |k.threads| ==> SamePlace(k.threads[t], k'.threads[t])
    ensures LockOk(k') && CritOk(k') && forall d :: 0 <= d < |k'.cpus| ==> CpuOk(k', d)
  {
    hide QueuesOk, ListsOk, ThreadOk;
    forall d | 0 <= d < |k.cpus|
      ensures CpuOk(k', d) && (Holds(k', d) <==> Holds(k, d)) && (InCritical(k', d) <==> InCritical(k, d))
    {
      assert CpuOk(k, d) && SamePlace(k.threads[k.cpus[d].current], k'.threads[k.cpus[d].current]);
    }
  }

  /** A thread's stat and priority may change as long as it stays where it is. */
  lemma PutInv(k: Kernel, t: int, th: Thread)
    requires Inv(k) && 0 <= t < |k.threads| && 0 <= th.prio < 32 && 0 <= th.bind <= |k.cpus|
    requires var was := k.threads[t];
             && th.stat != Ready && was.stat != Ready && th.oncpu == was.oncpu
             && th.cpusNest == was.cpusNest && th.critNest == was.critNest
    requires ThreadOk(Put(k, t, th), t)
    ensures Inv(Put(k, t, th))
  {
    hide LockOk, CritOk, CpuOk, QueueOk;
    var k' := Put(k, t, th);
    PutLists(k, t, th);
    assert ListsOk(k') by {
      forall w, p, x ensures In(k', w, p, x) <==> ReadyAt(k', w, p, x) {
        assert In(k, w, p, x) <==> ReadyAt(k, w, p, x);
      }
    }
    forall u | 0 <= u < |k'.threads| ensures ThreadOk(k', u) {
      assert ThreadOk(k, u);
    }
    LocksFrame(k, k');
  }

  lemma InsertInv(k: Kernel, t: int)
    requires Inv(k) && 0 <= t < |k.threads| && k.threads[t].stat == Suspend
    ensures Inv(InsertThread(k, t))
  {
    hide LockOk, CritOk, CpuOk, QueueOk, Enqueue;
    var k', th := InsertThread(k, t), k.threads[t];
    assert ThreadOk(k, t);
    if th.oncpu != |k.cpus| {
      PutInv(k, t, th.(stat := Running));
    } else {
      assert !In(k, th.bind, th.prio, t) by { assert !ReadyAt(k, th.bind, th.prio, t); }
      InsertLists(k, t);
      assert ListsOk(k') by {
        forall w, p, x ensures In(k', w, p, x) <==> ReadyAt(k', w, p, x) {
          assert In(k, w, p, x) <==> ReadyAt(k, w, p, x);
        }
      }
      forall u | 0 <= u < |k'.threads| ensures ThreadOk(k', u) {
        assert ThreadOk(k, u);
      }
      LocksFrame(k, k');
    }
  }

  lemma SuspendInv(k: Kernel, t: int)
    requires Inv(k) && 0 <= t < |k.threads|
    ensures Inv(SuspendThread(k, t))
  {
    hide LockOk, CritOk, CpuOk, QueueOk, Dequeue, ListsOk;
    var k', th := SuspendThread(k, t), k.threads[t];
    assert ThreadOk(k, t);
    if th.stat == Ready || th.stat == Running {
      SuspendLists(k, t);
      forall u | 0 <= u < |k'.threads| ensures ThreadOk(k', u) {
        assert ThreadOk(k, u);
      }
      LocksFrame(k, k');
    }
  }

  lemma SuspendLists(k: Kernel, t: int)
    requires Inv(k) && 0 <= t < |k.threads| && (k.threads[t].stat == Ready || k.threads[t].stat == Running)
    ensures var k' := SuspendThread(k, t); Shape(k') && QueuesOk(k') && ListsOk(k')
  {
    hide LockOk, CritOk, CpuOk, QueueOk, Dequeue;
    var k', k1 := SuspendThread(k, t), RemoveThread(k, t);
    assert ThreadOk(k, t);
    RemoveLists(k, t);
    PutLists(k1, t, k1.threads[t].(stat := Suspend));
    forall w, p, x ensures In(k', w, p, x) <==> ReadyAt(k', w, p, x) {
      assert In(k, w, p, x) <==> ReadyAt(k, w, p, x);
    }
  }

  lemma StartInv(k: Kernel, t: int)
    requires Inv(k) && 0 <= t < |k.threads| && k.threads[t].stat == Init
    ensures 0 <= k.threads[t].initPrio < 32 && Inv(StartThread(k, t))
  {
    hide QueueOk;
    assert ThreadOk(k, t);
    var th := k.threads[t];
    var th' := th.(prio := th.initPrio, mask := OneHot(th.initPrio), stat := Suspend, yielding := false);
    PutInv(k, t, th');
    InsertInv(Put(k, t, th'), t);
  }

  /** Changing a ready thread's priority is suspending it, renumbering it and resuming it. */
  lemma ChangePriorityInv(k: Kernel, t: int, p: int)
    requires Inv(k) && 0 <= t < |k.threads| && 0 <= p < 32
    ensures Inv(ChangePriority(k, t, p))
  {
    hide QueueOk, QueuesOk, ListsOk, LockOk, CritOk, Dequeue, Enqueue;
    assert ThreadOk(k, t);
    var th := k.threads[t].(prio := p, mask := OneHot(p));
    if k.threads[t].stat == Ready {
      SuspendInv(k, t);
      var k1 := SuspendThread(k, t);
      var k2 := Put(k1, t, th.(stat := Suspend));
      PutInv(k1, t, th.(stat := Suspend));
      InsertInv(k2, t);
      assert InsertThread(k2, t) == ChangePriority(k, t, p);
    } else {
      PutInv(k, t, th);
    }
  }

  lemma BindInv(k: Kernel, t: int, cpu: nat)
    requires Inv(k) && 0 <= t < |k.threads|
    ensures Inv(BindCpu(k, t, cpu))
  {
    if k.threads[t].stat == Init {
      assert ThreadOk(k, t);
      PutInv(k, t, k.threads[t].(bind := if cpu > |k.cpus| then |k.cpus| else cpu));
    }
  }

  // ----- so do the locks

  /** The current thread of CPU `c` changes its lock counts, and with it the two locks. */
  lemma NestInv(k: Kernel, c: int, th: Thread, lock: bool, critLock: bool)
    requires Inv(k) && 0 <= c < |k.cpus|
    requires th == Current(k, c).(cpusNest := th.cpusNest, schedNest := th.schedNest, critNest := th.critNest)
    requires th.cpusNest >= 0 && th.critNest >= 0 && th.schedNest == th.critNest + (if th.cpusNest > 0 then 1 else 0)
    requires if th.cpusNest > 0 then lock && (Holds(k, c) || !k.lock) else lock == (k.lock && !Holds(k, c))
    requires if th.critNest > 0 then critLock && (InCritical(k, c) || !k.critLock)
             else critLock == (k.critLock && !InCritical(k, c))
    ensures Inv(Put(k, k.cpus[c].current, th).(lock := lock, critLock := critLock))
  {
    hide LockOk, CritOk, QueueOk;
    var k' := Put(k, k.cpus[c].current, th).(lock := lock, critLock := critLock);
    assert ThreadOk(k, k.cpus[c].current);
    assert ListsOk(k') by {
      forall w, p, x ensures In(k', w, p, x) <==> ReadyAt(k', w, p, x) {
        assert In(k, w, p, x) <==> ReadyAt(k, w, p, x);
      }
    }
    forall u | 0 <= u < |k'.threads| ensures ThreadOk(k', u) {
      assert ThreadOk(k, u);
    }
    forall d | 0 <= d < |k'.cpus| ensures CpuOk(k', d) && (d != c ==> Current(k', d) == Current(k, d)) {
      assert CpuOk(k, d) && CpuOk(k, c);
    }
    OneLock(k, k', c);
  }

  lemma OneLock(k: Kernel, k': Kernel, c: int)
    requires Shape(k) && Shape(k') && LockOk(k) && CritOk(k) && 0 <= c < |k.cpus| == |k'.cpus|
    requires forall d :: 0 <= d < |k.cpus| && d != c ==> Current(k', d) == Current(k, d)
    requires if Holds(k', c) then k'.lock && (Holds(k, c) || !k.lock) else k'.lock == (k.lock && !Holds(k, c))
    requires if InCritical(k', c) then k'.critLock && (InCritical(k, c) || !k.critLock)
             else k'.critLock == (k.critLock && !InCritical(k, c))
    ensures LockOk(k') && CritOk(k')
  {
    assert forall d :: 0 <= d < |k.cpus| && d != c ==> (Holds(k', d) <==> Holds(k, d));
    assert forall d :: 0 <= d < |k.cpus| && d != c ==> (InCritical(k', d) <==> InCritical(k, d));
  }

  // ----- what a CPU can do

  datatype Step =
    | Lock | Unlock | Enter | Exit                 // rt_cpus_lock, rt_cpus_unlock, rt_enter_critical, rt_exit_critical
    | Schedule | IrqSwitch                         // rt_schedule and rt_scheduler_do_irq_switch
    | IrqEnter | IrqLeave | Tick                   // interrupt nesting, and the end of a time slice
    | DoSuspend(t: int) | DoResume(t: int) | DoStart(t: int) | DoPriority(t: int, p: int) | DoBind(t: int, cpu: nat)

  function SetCpu(k: Kernel, c: int, cpu: Cpu): Kernel
    requires 0 <= c < |k.cpus|
  {
    k.(cpus := k.cpus[c := cpu])
  }

  /** The body of rt_schedule, between rt_cpus_lock and rt_cpus_unlock. */
  function ScheduleBody(k: Kernel, c: int): Kernel
    requires Inv(k) && 0 <= c < |k.cpus|
  {
    if k.cpus[c].irqNest > 0 then SetCpu(k, c, k.cpus[c].(irqSwitch := true))
    else if Current(k, c).schedNest == 1 then Reschedule(k, c, false)
    else k
  }

  /** rt_scheduler_do_irq_switch; it runs with interrupts off, so it is one step with its lock and unlock. */
  function IrqSwitchBody(k: Kernel, c: int): Kernel
    requires Inv(k) && 0 <= c < |k.cpus| && !Holds(k, c) && !k.lock
  {
    LockInv(k, c);
    var k1 := CpusLock(k, c);
    if !k1.cpus[c].irqSwitch || Current(k1, c).schedNest != 1 || k1.cpus[c].irqNest != 0 then CpusUnlock(k1, c)
    else
      var k2 := SetCpu(k1, c, k1.cpus[c].(irqSwitch := false));
      CpuFieldsInv(k1, c, k1.cpus[c].(irqSwitch := false));
      if NothingReady(k2, c) || KeepsRunning(Current(k2, c), Pick(k2, c).0) then CpusUnlock(k2, c)
      else Reschedule(k2, c, true)
  }

  /** A CPU takes a step only if it may: it spins while another CPU is inside a lock, it changes queues
      only under the lock, it suspends no thread that runs elsewhere, and interrupts come only while the
      lock is not held (rt_cpus_lock turns them off). */
  ghost predicate Enabled(k: Kernel, c: int, s: Step)
    requires Shape(k)
  {
    0 <= c < |k.cpus| &&
    match s
    case Lock => Holds(k, c) || !k.lock
    case Unlock => Holds(k, c)
    case Enter => InCritical(k, c) || !k.critLock
    case Exit => InCritical(k, c)
    case Schedule => Holds(k, c)
    case IrqSwitch => !Holds(k, c) && !k.lock
    case IrqEnter => true
    case IrqLeave => k.cpus[c].irqNest > 0
    case Tick => true
    case DoSuspend(t) =>
      Holds(k, c) && 0 <= t < |k.threads| && (k.threads[t].stat == Running ==> t == k.cpus[c].current)
    case DoResume(t) => Holds(k, c) && 0 <= t < |k.threads|
    case DoStart(t) =>
      Holds(k, c) && 0 <= t < |k.threads| && k.threads[t].stat == Init && 0 <= k.threads[t].initPrio < 32
    case DoPriority(t, p) => Holds(k, c) && 0 <= t < |k.threads| && 0 <= p < 32
    case DoBind(t, cpu) => 0 <= t < |k.threads|
  }

  ghost function Apply(k: Kernel, c: int, s: Step): Kernel
    requires Inv(k) && Enabled(k, c, s)
  {
    match s
    case Lock => CpusLock(k, c)
    case Unlock => CpusUnlock(k, c)
    case Enter => EnterCritical(k, c)
    case Exit => ExitCritical(k, c)
    case Schedule => ScheduleBody(k, c)
    case IrqSwitch => IrqSwitchBody(k, c)
    case IrqEnter => SetCpu(k, c, k.cpus[c].(irqNest := k.cpus[c].irqNest + 1))
    case IrqLeave => SetCpu(k, c, k.cpus[c].(irqNest := k.cpus[c].irqNest - 1))
    case Tick => Put(k, k.cpus[c].current, Current(k, c).(yielding := true))
    case DoSuspend(t) => SuspendThread(k, t)
    case DoResume(t) => ResumeThread(k, t)
    case DoStart(t) => StartThread(k, t)
    case DoPriority(t, p) => ChangePriority(k, t, p)
    case DoBind(t, cpu) => BindCpu(k, t, cpu)
  }

  lemma LockInv(k: Kernel, c: int)
    requires Inv(k) && 0 <= c < |k.cpus| && (Holds(k, c) || !k.lock)
    ensures Inv(CpusLock(k, c))
  {
    var th := Current(k, c);
    assert ThreadOk(k, k.cpus[c].current);
    var nest := th.cpusNest + 1;
    var th' := th.(cpusNest := nest, schedNest := th.critNest + 1);
    assert Holds(k, c) ==> k.lock;
    assert InCritical(k, c) ==> k.critLock;
    NestInv(k, c, th', true, k.critLock);
    assert CpusLock(k, c) == Put(k, k.cpus[c].current, th').(lock := true, critLock := k.critLock);
  }

  lemma UnlockInv(k: Kernel, c: int)
    requires Inv(k) && 0 <= c < |k.cpus| && Holds(k, c)
    ensures Inv(CpusUnlock(k, c))
  {
    var th := Current(k, c);
    assert ThreadOk(k, k.cpus[c].current);
    var th' := th.(cpusNest := th.cpusNest - 1, schedNest := if th.cpusNest == 1 then th.critNest else th.schedNest);
    assert k.lock;
    assert InCritical(k, c) ==> k.critLock;
    NestInv(k, c, th', th.cpusNest != 1, k.critLock);
    assert CpusUnlock(k, c) == Put(k, k.cpus[c].current, th').(lock := th.cpusNest != 1, critLock := k.critLock);
  }

  lemma EnterInv(k: Kernel, c: int)
    requires Inv(k) && 0 <= c < |k.cpus| && (InCritical(k, c) || !k.critLock)
    ensures Inv(EnterCritical(k, c))
  {
    var th := Current(k, c);
    assert ThreadOk(k, k.cpus[c].current);
    var th' := th.(critNest := th.critNest + 1, schedNest := th.schedNest + 1);
    assert Holds(k, c) ==> k.lock;
    NestInv(k, c, th', k.lock, true);
    assert EnterCritical(k, c) == Put(k, k.cpus[c].current, th').(lock := k.lock, critLock := true);
  }

  lemma ExitInv(k: Kernel, c: int)
    requires Inv(k) && 0 <= c < |k.cpus| && InCritical(k, c)
    ensures Inv(ExitCritical(k, c))
  {
    var th := Current(k, c);
    assert ThreadOk(k, k.cpus[c].current);
    var th' := th.(critNest := th.critNest - 1, schedNest := th.schedNest - 1);
    assert k.critLock;
    assert Holds(k, c) ==> k.lock;
    NestInv(k, c, th', k.lock, th.critNest != 1);
    assert ExitCritical(k, c) == Put(k, k.cpus[c].current, th').(lock := k.lock, critLock := th.critNest != 1);
  }

  lemma CpuFieldsInv(k: Kernel, c: int, cpu: Cpu)
    requires Inv(k) && 0 <= c < |k.cpus| && cpu.current == k.cpus[c].current
    ensures Inv(SetCpu(k, c, cpu))
  {
    hide QueueOk;
    var k' := SetCpu(k, c, cpu);
    assert ListsOk(k') by {
      forall w, p, x ensures In(k', w, p, x) <==> ReadyAt(k', w, p, x) {
        assert In(k, w, p, x) <==> ReadyAt(k, w, p, x);
      }
    }
    forall u | 0 <= u < |k'.threads| ensures ThreadOk(k', u) {
      assert ThreadOk(k, u);
    }
    forall d | 0 <= d < |k'.cpus| ensures CpuOk(k', d) && Current(k', d) == Current(k, d) {
      assert CpuOk(k, d);
    }
    assert forall d :: 0 <= d < |k.cpus| ==>
           (Holds(k', d) <==> Holds(k, d)) && (InCritical(k', d) <==> InCritical(k, d));
  }

  lemma TickInv(k: Kernel, c: int)
    requires Inv(k) && 0 <= c < |k.cpus|
    ensures Inv(Put(k, k.cpus[c].current, Current(k, c).(yielding := true)))
  {
    assert ThreadOk(k, k.cpus[c].current) && CpuOk(k, c);
    PutInv(k, k.cpus[c].current, Current(k, c).(yielding := true));
  }

  lemma IrqSwitchInv(k: Kernel, c: int)
    requires Inv(k) && 0 <= c < |k.cpus| && !Holds(k, c) && !k.lock
    ensures Inv(IrqSwitchBody(k, c))
  {
    hide Inv, Reschedule, Pick, NothingReady, KeepsRunning;
    CurrentOk(k, c);
    LockInv(k, c);
    var k1 := CpusLock(k, c);
    assert Holds(k1, c);
    if !k1.cpus[c].irqSwitch || Current(k1, c).schedNest != 1 || k1.cpus[c].irqNest != 0 {
      UnlockInv(k1, c);
    } else {
      var k2 := SetCpu(k1, c, k1.cpus[c].(irqSwitch := false));
      CpuFieldsInv(k1, c, k1.cpus[c].(irqSwitch := false));
      UnlockInv(k2, c);
      RescheduleInv(k2, c, true);
    }
  }

  lemma CurrentOk(k: Kernel, c: int)
    requires Inv(k) && 0 <= c < |k.cpus|
    ensures ThreadOk(k, k.cpus[c].current) && CpuOk(k, c) && Shape(k)
  {
  }

  lemma StepInv(k: Kernel, c: int, s: Step)
    requires Inv(k) && Enabled(k, c, s)
    ensures Inv(Apply(k, c, s))
  {
    hide Inv, Reschedule, SuspendThread, ChangePriority, InsertThread, IrqSwitchBody, CpusLock, CpusUnlock,
      EnterCritical, ExitCritical;
    match s
    case Lock => LockInv(k, c);
    case Unlock => UnlockInv(k, c);
    case Enter => EnterInv(k, c);
    case Exit => ExitInv(k, c);
    case Schedule =>
      CpuFieldsInv(k, c, k.cpus[c].(irqSwitch := true));
      CurrentOk(k, c);
      if Current(k, c).schedNest == 1 {
        RescheduleInv(k, c, false);
      }
    case IrqSwitch => IrqSwitchInv(k, c);
    case IrqEnter => CpuFieldsInv(k, c, k.cpus[c].(irqNest := k.cpus[c].irqNest + 1));
    case IrqLeave => CpuFieldsInv(k, c, k.cpus[c].(irqNest := k.cpus[c].irqNest - 1));
    case Tick => TickInv(k, c);
    case DoSuspend(t) => SuspendInv(k, t);
    case DoResume(t) =>
      if k.threads[t].stat == Suspend {
        InsertInv(k, t);
      }
    case DoStart(t) => StartInv(k, t);
    case DoPriority(t, p) => ChangePriorityInv(k, t, p);
    case DoBind(t, cpu) => BindInv(k, t, cpu);
  }

  // ----- every run of any number of CPUs

  ghost predicate IsRun(run: seq<Kernel>, who: seq<int>, what: seq<Step>) {
    && |run| == |who| + 1 && |who| == |what|
    && forall i :: 0 <= i < |who| ==> Takes(run[i], run[i + 1], who[i], what[i])
  }

  /** One step; a step that is not enabled is a CPU that spins. */
  ghost predicate Takes(k: Kernel, k': Kernel, c: int, s: Step) {
    Inv(k) ==> k' == if Enabled(k, c, s) then Apply(k, c, s) else k
  }

  lemma {:induction false} RunInv(run: seq<Kernel>, who: seq<int>, what: seq<Step>, i: nat)
    requires IsRun(run, who, what) && i < |run| && Inv(run[0])
    ensures Inv(run[i])
    decreases i
  {
    hide Inv, Enabled, Apply;
    if i > 0 {
      RunInv(run, who, what, i - 1);
      var k, c, s := run[i - 1], who[i - 1], what[i - 1];
      assert Takes(k, run[i], c, s);
      assert Shape(k) by { UseInv(k); }
      if Enabled(k, c, s) {
        StepInv(k, c, s);
      }
    }
  }

  lemma UseInv(k: Kernel)
    requires Inv(k)
    ensures Shape(k)
  {
  }

  /** A thread that nobody started yet, or that CPU c was started with. */
  ghost predicate NewThread(th: Thread, n: int) {
    && 0 <= th.prio < 32 && 0 <= th.initPrio < 32 && 0 <= th.bind <= n
    && th.cpusNest == 0 && th.schedNest == 0 && th.critNest == 0
  }

  /** The kernel once rt_system_scheduler_start has run on every CPU: CPU c runs thread c, and no other
      thread is started. */
  ghost predicate Booted(k: Kernel) {
    var n := |k.cpus|;
    && |k.queues| == n + 1 && n <= |k.threads| && !k.lock && !k.critLock
    && (forall w :: 0 <= w <= n ==> k.queues[w].table == seq(32, _ => []) && IsZero(k.queues[w].group))
    && (forall c :: 0 <= c < n ==> k.cpus[c].current == c)
    && (forall t :: 0 <= t < |k.threads| ==> NewThread(k.threads[t], n))
    && (forall t :: 0 <= t < n ==> k.threads[t].stat == Running && k.threads[t].oncpu == t)
    && (forall t :: 0 <= t < n ==>
        k.threads[t].mask == OneHot(k.threads[t].prio) && (k.threads[t].bind == t || k.threads[t].bind == n))
    && (forall t :: n <= t < |k.threads| ==> k.threads[t].stat == Init && k.threads[t].oncpu == n)
  }

  lemma BootedInv(k: Kernel)
    requires Booted(k)
    ensures Inv(k)
  {
    forall t | 0 <= t < |k.threads| ensures ThreadOk(k, t) { assert NewThread(k.threads[t], |k.cpus|); }
    forall w | 0 <= w < |k.queues| ensures QueueOk(k.queues[w]) {
      forall p | 0 <= p < 32 ensures SlotOk(k.queues[w], p) { }
    }
    forall c | 0 <= c < |k.cpus| ensures !Holds(k, c) && !InCritical(k, c) { assert NewThread(k.threads[c], |k.cpus|); }
  }

  // ----- what the invariant says

  ghost predicate Queued(k: Kernel, t: int)
    requires Shape(k) && 0 <= t < |k.threads|
  {
    var th := k.threads[t];
    && th.oncpu == |k.cpus| && (forall c :: 0 <= c < |k.cpus| ==> k.cpus[c].current != t)
    && forall w, p :: In(k, w, p, t) <==> w == th.bind && p == th.prio
  }

  ghost predicate OnCpu(k: Kernel, t: int)
    requires Shape(k) && 0 <= t < |k.threads|
  {
    var th := k.threads[t];
    && 0 <= th.oncpu < |k.cpus| && (forall c :: 0 <= c < |k.cpus| ==> (k.cpus[c].current == t <==> c == th.oncpu))
    && forall w, p :: !In(k, w, p, t)
  }

  ghost predicate Parked(k: Kernel, t: int)
    requires Shape(k) && 0 <= t < |k.threads|
  {
    var th := k.threads[t];
    && th.stat == Suspend && th.oncpu == |k.cpus| && (forall c :: 0 <= c < |k.cpus| ==> k.cpus[c].current != t)
    && forall w, p :: !In(k, w, p, t)
  }

  /** A started thread is in exactly one place: its one list, one CPU, or suspended. */
  lemma ExactlyOnePlace(k: Kernel, t: int)
    requires Inv(k) && 0 <= t < |k.threads| && k.threads[t].stat != Init
    ensures (Queued(k, t) && !OnCpu(k, t) && !Parked(k, t))
         || (!Queued(k, t) && OnCpu(k, t) && !Parked(k, t))
         || (!Queued(k, t) && !OnCpu(k, t) && Parked(k, t))
    ensures Queued(k, t) <==> k.threads[t].stat == Ready
  {
    hide QueuesOk, LockOk, CritOk;
    var th := k.threads[t];
    assert ThreadOk(k, t);
    forall c | 0 <= c < |k.cpus| ensures k.cpus[c].current == t ==> c == th.oncpu {
      assert CpuOk(k, c);
    }
    forall w, p ensures In(k, w, p, t) <==> th.stat == Ready && w == th.bind && p == th.prio {
      assert In(k, w, p, t) <==> ReadyAt(k, w, p, t);
    }
    assert In(k, th.bind, th.prio, t) <==> th.stat == Ready;
  }

  /** A thread that suspended itself and is resumed before it got to rt_schedule just goes on running. */
  lemma ResumedBeforeSchedule(k: Kernel, c: int)
    requires Inv(k) && 0 <= c < |k.cpus| && Current(k, c).stat == Suspend
    ensures var k', t := ResumeThread(k, k.cpus[c].current), k.cpus[c].current;
            Inv(k') && k'.threads[t].stat == Running && k'.cpus[c].current == t && OnCpu(k', t)
  {
    var t := k.cpus[c].current;
    assert ThreadOk(k, t) && CpuOk(k, c);
    InsertInv(k, t);
    ExactlyOnePlace(ResumeThread(k, t), t);
  }

  /** Thread `x` waits in CPU `c`'s queue or in the global one. */
  ghost predicate ReadyFor(k: Kernel, c: int, x: int) {
    0 <= x < |k.threads| && k.threads[x].stat == Ready && (k.threads[x].bind == c || k.threads[x].bind == |k.cpus|)
  }

  /** After rt_schedule, if any thread is ready for the CPU, a running one has it that is at least as urgent. */
  lemma RunsMostUrgent(k: Kernel, c: int, x: int)
    requires Inv(k) && 0 <= c < |k.cpus| && MaySwitch(k, c, false) && k.cpus[c].irqNest == 0
    ensures var k' := ScheduleBody(k, c);
            Shape(k') &&
            (ReadyFor(k', c, x) ==> Current(k', c).stat == Running && Current(k', c).prio <= k'.threads[x].prio)
  {
    hide QueueOk, Pick, Reschedule;
    var k' := ScheduleBody(k, c);
    RescheduleInv(k, c, false);
    if ReadyFor(k', c, x) {
      var w, p := k'.threads[x].bind, k'.threads[x].prio;
      assert ReadyAt(k', w, p, x);
      assert In(k', w, p, x);
      if Switches(k, c) {
        SwitchFields(k, c, false);
        ChosenOk(k, c);
        SwitchLists(k, c, false, w, p, x);
        if In(k, w, p, x) {
          PickIsUrgent(k, c, w, p, x);
        }
      } else {
        assert k' == k by { StaysPut(k, c, false); }
        PickIsUrgent(k, c, w, p, x);
      }
    }
  }

  lemma StaysPut(k: Kernel, c: int, release: bool)
    requires Inv(k) && 0 <= c < |k.cpus| && !Switches(k, c)
    ensures Reschedule(k, c, release) == k
  {
  }
}
