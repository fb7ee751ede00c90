/** What the calls of the scheduler do, as a thread or an observer sees it (thread.c, scheduler.c, cpu.c): who is in
    which list, who runs, who sleeps, and who holds the lock, before and after. */
module ThreadCalls {
  import opened Bits
  import opened Ring
  import opened Scheduler
  import opened Rotation

  // ----- rt_thread_suspend and rt_thread_resume

  /** A ready or running thread is suspended: it is in no list, and nothing else changes.  Others are left alone. */
  lemma SuspendTakesOut(k: Kernel, t: int)
    requires Inv(k) && 0 <= t < |k.threads|
    ensures var k' := SuspendThread(k, t);
            if k.threads[t].stat == Ready || k.threads[t].stat == Running then
              && k'.threads == k.threads[t := k.threads[t].(stat := Suspend)] && k'.cpus == k.cpus
              && k'.lock == k.lock && k'.critLock == k.critLock && Shape(k')
              && forall w, p, x :: In(k', w, p, x) <==> In(k, w, p, x) && x != t
            else k' == k
  {
    hide LockOk, CritOk, CpuOk, QueueOk, Dequeue;
    var th := k.threads[t];
    if th.stat == Ready || th.stat == Running {
      assert ThreadOk(k, t);
      RemoveLists(k, t);
      var k1 := RemoveThread(k, t);
      PutLists(k1, t, k1.threads[t].(stat := Suspend));
      forall w, p, x ensures In(SuspendThread(k, t), w, p, x) <==> In(k, w, p, x) && x != t {
        assert In(k, w, p, t) <==> ReadyAt(k, w, p, t);
      }
    }
  }

  /** A running thread that suspends itself sleeps once the next rt_schedule finds another one ready: it is on no CPU
      and in no list. */
  lemma SuspendedSleeps(k: Kernel, c: int, x: int)
    requires Inv(k) && 0 <= c < |k.cpus| && MaySwitch(k, c, false) && k.cpus[c].irqNest == 0
    requires Current(k, c).stat == Running && ReadyFor(k, c, x)
    ensures var t, k1 := k.cpus[c].current, SuspendThread(k, k.cpus[c].current);
            && Inv(k1) && |k1.cpus| == |k.cpus|
            && var k2 := ScheduleBody(k1, c);
               && Inv(k2) && |k2.threads| == |k.threads| && |k2.cpus| == |k.cpus|
               && k2.cpus[c].current != t && Parked(k2, t)
  {
    hide QueueOk, LockOk, CritOk, Pick, Reschedule, SuspendThread, NothingReady;
    var t := k.cpus[c].current;
    SuspendInv(k, t);
    SuspendTakesOut(k, t);
    var k1 := SuspendThread(k, t);
    var w, p := k.threads[x].bind, k.threads[x].prio;
    assert ReadyAt(k, w, p, x);
    assert In(k1, w, p, x);
    PickIsUrgent(k1, c, w, p, x);
    SwitchFields(k1, c, false);
    ChosenOk(k1, c);
    RescheduleInv(k1, c, false);
    ExactlyOnePlace(Reschedule(k1, c, false), t);
  }

  /** What appending t to list (v, q) does to list (w, p). */
  ghost predicate Appended(k: Kernel, k': Kernel, v: int, q: int, t: int) {
    && Shape(k) && Shape(k') && |k'.queues| == |k.queues| && k'.cpus == k.cpus && k'.lock == k.lock
    && k'.critLock == k.critLock
    && forall w, p :: 0 <= w < |k.queues| && 0 <= p < 32 ==>
         TableOf(k', w, p) == TableOf(k, w, p) + if w == v && p == q then [t] else []
  }

  /** A sleeping thread that is resumed is ready, the last of its list, and nothing else changes.  One that is not
      suspended is left alone. */
  lemma ResumeQueues(k: Kernel, t: int)
    requires Inv(k) && 0 <= t < |k.threads|
    ensures var k', th := ResumeThread(k, t), k.threads[t];
            && (th.stat != Suspend ==> k' == k)
            && (Parked(k, t) ==> k'.threads == k.threads[t := th.(stat := Ready)]
                                 && Appended(k, k', th.bind, th.prio, t) && Queued(k', t))
  {
    hide LockOk, CritOk, QueueOk;
    if Parked(k, t) {
      InsertInv(k, t);
      ExactlyOnePlace(ResumeThread(k, t), t);
    }
  }

  /** Suspending a ready thread and resuming it takes it to the tail of its list. */
  lemma ResumeAfterSuspend(k: Kernel, t: int)
    requires Inv(k) && 0 <= t < |k.threads| && k.threads[t].stat == Ready
    ensures var k', th := ResumeThread(SuspendThread(k, t), t), k.threads[t];
            && Shape(k') && k'.threads == k.threads
            && TableOf(k', th.bind, th.prio) == Drop(TableOf(k, th.bind, th.prio), t) + [t]
  {
    assert ThreadOk(k, t);
  }

  // ----- rt_thread_startup, rt_thread_control

  /** A thread that is started is ready at its first priority, the last of that list. */
  lemma StartQueues(k: Kernel, t: int)
    requires Inv(k) && 0 <= t < |k.threads| && k.threads[t].stat == Init
    ensures var th := k.threads[t];
            && 0 <= th.initPrio < 32
            && var k' := StartThread(k, t);
               && Appended(k, k', th.bind, th.initPrio, t) && Queued(k', t)
               && k'.threads == k.threads[t := th.(prio := th.initPrio, mask := OneHot(th.initPrio), stat := Ready,
                                                   yielding := false)]
  {
    hide LockOk, CritOk, QueueOk;
    assert ThreadOk(k, t);
    StartInv(k, t);
    ExactlyOnePlace(StartThread(k, t), t);
  }

  /** A ready thread leaves its list and becomes the last of the list of its new priority; for any other the lists
      stay.  Either way the thread has the new priority. */
  lemma PriorityMoves(k: Kernel, t: int, p: int)
    requires Inv(k) && 0 <= t < |k.threads| && 0 <= p < 32
    ensures var k', th := ChangePriority(k, t, p), k.threads[t];
            && Shape(k') && |k'.queues| == |k.queues| && k'.cpus == k.cpus
            && k'.threads == k.threads[t := th.(prio := p, mask := OneHot(p))]
            && forall w, q :: 0 <= w < |k.queues| && 0 <= q < 32 ==>
                 TableOf(k', w, q) ==
                 if th.stat != Ready || w != th.bind then TableOf(k, w, q)
                 else Drop(TableOf(k, w, q), t) + if q == p then [t] else []
  {
    hide LockOk, CritOk, QueueOk, Drop;
    var k', th := ChangePriority(k, t, p), k.threads[t];
    assert ThreadOk(k, t);
    if th.stat == Ready {
      forall q | 0 <= q < 32 && q != th.prio ensures Drop(TableOf(k, th.bind, q), t) == TableOf(k, th.bind, q) {
        assert !ReadyAt(k, th.bind, q, t) && !In(k, th.bind, q, t);
        NotIn(TableOf(k, th.bind, q), t);
      }
    }
  }

  lemma NotIn(list: seq<int>, t: int)
    requires t !in list
    ensures Drop(list, t) == list
  {
  }

  /** Only a thread that was not started can be bound; a number that is no CPU's means not bound. */
  lemma BindSets(k: Kernel, t: int, cpu: nat)
    requires Inv(k) && 0 <= t < |k.threads|
    ensures var k', th := BindCpu(k, t, cpu), k.threads[t];
            && k'.queues == k.queues && k'.cpus == k.cpus
            && if th.stat != Init then k' == k
               else k'.threads == k.threads[t := th.(bind := if cpu < |k.cpus| then cpu else |k.cpus|)]
  {
  }

  // ----- rt_cpus_lock, rt_enter_critical

  /** The lock is held after rt_cpus_lock, one level deeper, and rt_cpus_unlock undoes exactly that. */
  lemma LockNests(k: Kernel, c: int)
    requires Inv(k) && 0 <= c < |k.cpus| && (Holds(k, c) || !k.lock)
    ensures var k' := CpusLock(k, c);
            && Shape(k') && |k'.cpus| == |k.cpus| && k'.lock && Holds(k', c)
            && Current(k', c).cpusNest == Current(k, c).cpusNest + 1
            && (forall d :: 0 <= d < |k.cpus| && d != c ==> Holds(k', d) == Holds(k, d))
            && CpusUnlock(k', c) == k
  {
    hide QueuesOk, ListsOk, CritOk;
    CurrentOk(k, c);
    forall d | 0 <= d < |k.cpus| && d != c ensures k.cpus[d].current != k.cpus[c].current {
      assert CpuOk(k, d) && CpuOk(k, c);
    }
    var k' := CpusLock(k, c);
    assert Holds(k, c) ==> k.lock;
    assert CpusUnlock(k', c).threads == k.threads;
  }

  /** The lock is free after rt_cpus_unlock exactly if that was the outermost level. */
  lemma UnlockFrees(k: Kernel, c: int)
    requires Inv(k) && 0 <= c < |k.cpus| && Holds(k, c)
    ensures var k' := CpusUnlock(k, c);
            && Shape(k') && |k'.cpus| == |k.cpus| && (k'.lock <==> Current(k, c).cpusNest > 1)
            && (Holds(k', c) <==> Current(k, c).cpusNest > 1)
  {
    CurrentOk(k, c);
    UnlockInv(k, c);
  }

  lemma CriticalNests(k: Kernel, c: int)
    requires Inv(k) && 0 <= c < |k.cpus| && (InCritical(k, c) || !k.critLock)
    ensures var k' := EnterCritical(k, c);
            && Shape(k') && |k'.cpus| == |k.cpus| && k'.critLock && InCritical(k', c)
            && Current(k', c).critNest == Current(k, c).critNest + 1 && ExitCritical(k', c) == k
            && !MaySwitch(k', c, false)
  {
    hide QueuesOk, ListsOk, LockOk;
    CurrentOk(k, c);
    var k' := EnterCritical(k, c);
    assert InCritical(k, c) ==> k.critLock;
    assert ExitCritical(k', c).threads == k.threads;
  }

  // ----- rt_schedule

  /** A thread is ready for the CPU that should run instead: the current one cannot, or is less urgent, or is as urgent
      and marked as yielding. */
  ghost predicate Beaten(k: Kernel, c: int)
    requires Shape(k) && 0 <= c < |k.cpus|
  {
    exists x :: ReadyFor(k, c, x) && Beats(Current(k, c), k.threads[x])
  }

  ghost predicate Beats(cur: Thread, th: Thread) {
    cur.stat != Running || th.prio < cur.prio || (th.prio == cur.prio && cur.yielding)
  }

  lemma SwitchesIff(k: Kernel, c: int)
    requires Inv(k) && 0 <= c < |k.cpus|
    ensures Switches(k, c) <==> Beaten(k, c)
  {
    hide LockOk, CritOk, QueueOk, Pick, NothingReady;
    if x :| ReadyFor(k, c, x) && Beats(Current(k, c), k.threads[x]) {
      assert ReadyAt(k, k.threads[x].bind, k.threads[x].prio, x);
      assert In(k, k.threads[x].bind, k.threads[x].prio, x);
      PickIsUrgent(k, c, k.threads[x].bind, k.threads[x].prio, x);
    }
    if Switches(k, c) {
      ChosenOk(k, c);
      assert ReadyFor(k, c, Chosen(k, c)) && Beats(Current(k, c), k.threads[Chosen(k, c)]);
    }
  }

  /** Outside interrupts and critical sections rt_schedule changes the running thread exactly if it is beaten; inside
      an interrupt it only asks for a switch. */
  lemma ScheduleSwitchesIff(k: Kernel, c: int)
    requires Inv(k) && 0 <= c < |k.cpus| && Holds(k, c)
    ensures var k' := ScheduleBody(k, c);
            && |k'.cpus| == |k.cpus|
            && (k'.cpus[c].current != k.cpus[c].current <==>
                k.cpus[c].irqNest == 0 && !InCritical(k, c) && Beaten(k, c))
            && (k.cpus[c].irqNest > 0 ==> k' == SetCpu(k, c, k.cpus[c].(irqSwitch := true)))
            && (k.cpus[c].irqNest == 0 && k'.cpus[c].current == k.cpus[c].current ==> k' == k)
  {
    hide QueuesOk, ListsOk, LockOk, CritOk, Pick, Reschedule, NothingReady, Beaten;
    CurrentOk(k, c);
    SwitchesIff(k, c);
    if Switches(k, c) {
      SwitchFields(k, c, false);
      ChosenOk(k, c);
    } else {
      StaysPut(k, c, false);
    }
  }

  /** The switch at the end of an interrupt happens exactly if it was asked for, the interrupt is the last one, the
      thread is in no critical section, and it is beaten. */
  lemma IrqSwitchIff(k: Kernel, c: int)
    requires Inv(k) && 0 <= c < |k.cpus| && !Holds(k, c) && !k.lock
    ensures var k' := IrqSwitchBody(k, c);
            && |k'.cpus| == |k.cpus|
            && (k'.cpus[c].current != k.cpus[c].current <==>
                k.cpus[c].irqSwitch && k.cpus[c].irqNest == 0 && !InCritical(k, c) && Beaten(k, c))
  {
    hide Inv, Reschedule, Pick, NothingReady, KeepsRunning;
    CurrentOk(k, c);
    LockInv(k, c);
    var k1 := CpusLock(k, c);
    var k2 := SetCpu(k1, c, k1.cpus[c].(irqSwitch := false));
    CpuFieldsInv(k1, c, k1.cpus[c].(irqSwitch := false));
    CurrentOk(k2, c);
    SwitchesIff(k2, c);
    SameBeaten(k, k2, c);
    if Switches(k2, c) {
      SwitchFields(k2, c, true);
      ChosenOk(k2, c);
    } else {
      StaysPut(k2, c, true);
    }
  }

  lemma SameBeaten(k: Kernel, k2: Kernel, c: int)
    requires Shape(k) && Shape(k2) && 0 <= c < |k.cpus| == |k2.cpus| && |k2.threads| == |k.threads|
    requires k2.cpus[c].current == k.cpus[c].current
    requires forall x :: 0 <= x < |k.threads| ==> SameOrder(k.threads[x], k2.threads[x])
    ensures Beaten(k2, c) <==> Beaten(k, c)
  {
    if x :| ReadyFor(k, c, x) && Beats(Current(k, c), k.threads[x]) {
      assert ReadyFor(k2, c, x) && Beats(Current(k2, c), k2.threads[x]);
    }
    if x :| ReadyFor(k2, c, x) && Beats(Current(k2, c), k2.threads[x]) {
      assert ReadyFor(k, c, x) && Beats(Current(k, c), k.threads[x]);
    }
  }

  ghost predicate SameOrder(a: Thread, b: Thread) {
    a.stat == b.stat && a.bind == b.bind && a.prio == b.prio && a.yielding == b.yielding
  }

  ghost predicate IsLast(k: Kernel, w: int, p: int, t: int)
    requires Shape(k) && 0 <= w < |k.queues| && 0 <= p < 32
  {
    var l := TableOf(k, w, p);
    l != [] && l[|l| - 1] == t
  }

  ghost predicate IsFirst(k: Kernel, w: int, p: int, t: int)
    requires Shape(k) && 0 <= w < |k.queues| && 0 <= p < 32
  {
    TableOf(k, w, p) != [] && TableOf(k, w, p)[0] == t
  }

  /** Who leaves the CPU at a switch: a thread that could go on is ready, the last of its list; one that suspended
      itself sleeps.  Who comes in was the first of its list. */
  lemma SwitchMoves(k: Kernel, c: int)
    requires Inv(k) && 0 <= c < |k.cpus| && MaySwitch(k, c, false) && k.cpus[c].irqNest == 0 && Beaten(k, c)
    ensures var k', t, th := ScheduleBody(k, c), k.cpus[c].current, Current(k, c);
            && Inv(k') && |k'.threads| == |k.threads| && |k'.cpus| == |k.cpus|
            && (th.stat == Running ==> Queued(k', t) && IsLast(k', th.bind, th.prio, t) && !k'.threads[t].yielding)
            && (th.stat == Suspend ==> Parked(k', t))
            && var to := k'.cpus[c].current;
               && ReadyFor(k, c, to) && IsFirst(k, k.threads[to].bind, k.threads[to].prio, to)
               && OnCpu(k', to) && Current(k', c).stat == Running && k'.cpus[c].prio == Current(k', c).prio
  {
    hide QueueOk, LockOk, CritOk, Pick, Reschedule, NothingReady, Beaten;
    SwitchesIff(k, c);
    SwitchFields(k, c, false);
    ChosenOk(k, c);
    RescheduleInv(k, c, false);
    var k', t, to := ScheduleBody(k, c), k.cpus[c].current, Chosen(k, c);
    CurrentOk(k, c);
    CurrentOk(k', c);
    ExactlyOnePlace(k', t);
    ExactlyOnePlace(k', to);
    PutLast(k, c, to);
  }

  lemma PutLast(k: Kernel, c: int, to: int)
    requires Shape(k) && 0 <= c < |k.cpus| && 0 <= to < |k.threads| && to != k.cpus[c].current
    ensures var th, qs := Current(k, c), SwitchQueues(k, c, to);
            th.stat == Running ==>
              && |qs| == |k.queues| && |qs[th.bind].table| == 32
              && var l := qs[th.bind].table[th.prio]; l != [] && l[|l| - 1] == k.cpus[c].current
  {
    DropLast(TableOf(k, Current(k, c).bind, Current(k, c).prio), k.cpus[c].current, to);
  }

  lemma DropLast(list: seq<int>, t: int, x: int)
    requires x != t
    ensures var l := Drop(list + [t], x); l != [] && l[|l| - 1] == t
  {
    hide PosOf;
  }
}
