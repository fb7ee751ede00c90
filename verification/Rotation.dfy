/** Time slices on one CPU (scheduler.c, clock.c): how threads of the same priority take turns.

    A CPU has its own ready queue for threads bound to it and shares the global one.  rt_tick_increase marks a
    thread whose slice is over, and the switch at the end of the interrupt then gives way to a thread of the same
    priority.  rt_thread_yield on its own does not mark the thread, so it gives way only to more urgent ones. */
module Rotation {
  import opened Bits
  import opened Ring
  import opened Scheduler

  function TableOf(k: Kernel, w: int, p: int): seq<int>
    requires Shape(k) && 0 <= w < |k.queues| && 0 <= p < 32
  {
    k.queues[w].table[p]
  }

  // ----- one switch

  /** What giving way does to list (v, q): the picked list loses its head, which runs, and the thread that gives
      way goes to the tail of its own list, which may be another one. */
  ghost predicate Rotated(k: Kernel, k': Kernel, c: int, v: int, q: int)
    requires Shape(k) && Shape(k') && |k'.queues| == |k.queues| && 0 <= c < |k.cpus| && 0 <= v < |k.queues|
    requires 0 <= q < 32
  {
    var th, w := Current(k, c), Pick(k, c).1;
    var rest := if v == w && q == th.prio && TableOf(k, v, q) != [] then TableOf(k, v, q)[1..] else TableOf(k, v, q);
    TableOf(k', v, q) == if v == th.bind && q == th.prio then rest + [k.cpus[c].current] else rest
  }

  /** A running thread that is marked, and a ready one of its priority. */
  ghost predicate GivesWay(k: Kernel, c: int)
    requires Shape(k) && 0 <= c < |k.cpus|
  {
    !NothingReady(k, c) && Current(k, c).stat == Running && Current(k, c).yielding && Pick(k, c).0 == Current(k, c).prio
  }

  lemma YieldRotates(k: Kernel, c: int, release: bool)
    requires Inv(k) && 0 <= c < |k.cpus| && GivesWay(k, c)
    ensures var k', p, w := Reschedule(k, c, release), Current(k, c).prio, Pick(k, c).1;
            && (w == c || w == |k.cpus|) && TableOf(k, w, p) != [] && k'.cpus[c].current == TableOf(k, w, p)[0]
            && Shape(k') && |k'.queues| == |k.queues|
            && forall v, q :: 0 <= v < |k.queues| && 0 <= q < 32 ==> Rotated(k, k', c, v, q)
  {
    hide QueueOk, ListsOk, LockOk, CritOk, Pick, Reschedule, Enqueue, Dequeue, ThreadOk, CpuOk, Rotated;
    PickFinds(k, c);
    ChosenOk(k, c);
    SwitchFields(k, c, release);
    var k' := Reschedule(k, c, release);
    forall v, q | 0 <= v < |k.queues| && 0 <= q < 32 ensures Rotated(k, k', c, v, q) {
      RotatedAt(k, k', c, v, q);
    }
  }

  lemma RotatedAt(k: Kernel, k': Kernel, c: int, v: int, q: int)
    requires Shape(k) && Shape(k') && 0 <= c < |k.cpus| && 0 <= v < |k.queues| && 0 <= q < 32
    requires Current(k, c).stat == Running
    requires var p, w := Current(k, c).prio, Pick(k, c).1;
             && (w == c || w == |k.cpus|) && TableOf(k, w, p) != []
             && var to := TableOf(k, w, p)[0];
                ReadyAt(k, w, p, to) && k'.queues == SwitchQueues(k, c, to)
    ensures |k'.queues| == |k.queues| && Rotated(k, k', c, v, q)
  {
    hide Pick, Drop;
    var th, w := Current(k, c), Pick(k, c).1;
    DropHead(TableOf(k, w, th.prio), k.cpus[c].current);
  }

  lemma DropHead(list: seq<int>, cur: int)
    requires list != []
    ensures Drop(list + [cur], list[0]) == list[1..] + [cur] && Drop(list, list[0]) == list[1..]
  {
    assert PosOf(list + [cur], list[0]) == 0 && PosOf(list, list[0]) == 0;
  }

  // ----- a time slice

  /** CPU c runs a thread outside every lock and interrupt, and no CPU is inside the lock. */
  ghost predicate Calm(k: Kernel, c: int) {
    && Inv(k) && 0 <= c < |k.cpus| && !k.lock && k.cpus[c].irqNest == 0
    && Current(k, c).stat == Running && Current(k, c).critNest == 0
  }

  /** The clock interrupt finds the time slice over: rt_tick_increase marks the thread and asks for a switch. */
  function Expired(k: Kernel, c: int): Kernel
    requires Shape(k) && 0 <= c < |k.cpus|
  {
    SetCpu(Put(k, k.cpus[c].current, Current(k, c).(yielding := true)), c, k.cpus[c].(irqSwitch := true))
  }

  /** A thread that comes in inside the lock leaves it, however deep. */
  function Unwound(k: Kernel, c: int): Kernel
    requires Shape(k) && 0 <= c < |k.cpus|
  {
    var th := Current(k, c);
    if th.cpusNest == 0 then k
    else Put(k, k.cpus[c].current, th.(cpusNest := 0, schedNest := th.critNest)).(lock := false)
  }

  /** That is what its calls of rt_cpus_unlock come to. */
  lemma UnwoundUnlocks(k: Kernel, c: int)
    requires Inv(k) && 0 <= c < |k.cpus| && Holds(k, c)
    ensures Shape(CpusUnlock(k, c)) && Unwound(k, c) == Unwound(CpusUnlock(k, c), c)
  {
    CurrentOk(k, c);
    UnlockInv(k, c);
  }

  lemma UnwoundInv(k: Kernel, c: int)
    requires Inv(k) && 0 <= c < |k.cpus| && k.lock == Holds(k, c)
    ensures Inv(Unwound(k, c)) && !Unwound(k, c).lock
  {
    hide QueuesOk, ListsOk;
    CurrentOk(k, c);
    var th := Current(k, c);
    if th.cpusNest > 0 {
      assert InCritical(k, c) ==> k.critLock;
      NestInv(k, c, th.(cpusNest := 0, schedNest := th.critNest), false, k.critLock);
    }
  }

  /** The whole turn: the interrupt, the switch at its end, and the way out of the lock. */
  ghost function Turn(k: Kernel, c: int): Kernel
    requires Calm(k, c)
  {
    hide Inv;
    SliceOk(k, c);
    Unwound(IrqSwitchBody(Expired(k, c), c), c)
  }

  lemma SliceOk(k: Kernel, c: int)
    requires Calm(k, c)
    ensures Shape(k) && Inv(Expired(k, c)) && !Expired(k, c).lock && !Holds(Expired(k, c), c)
    ensures var k' := IrqSwitchBody(Expired(k, c), c); Shape(k') && |k'.cpus| == |k.cpus|
  {
    hide IrqSwitchBody, Inv;
    ExpiredOk(k, c);
    IrqSwitchInv(Expired(k, c), c);
    UseInv(IrqSwitchBody(Expired(k, c), c));
    CpusKept(Expired(k, c), c);
  }

  lemma CpusKept(k: Kernel, c: int)
    requires Inv(k) && 0 <= c < |k.cpus| && !Holds(k, c) && !k.lock
    ensures |IrqSwitchBody(k, c).cpus| == |k.cpus|
  {
    hide Inv;
    UseInv(k);
    LockInv(k, c);
    var k1 := CpusLock(k, c);
    CpuFieldsInv(k1, c, k1.cpus[c].(irqSwitch := false));
  }

  lemma ExpiredOk(k: Kernel, c: int)
    requires Calm(k, c)
    ensures Shape(k) && Inv(Expired(k, c)) && !Expired(k, c).lock && !Holds(Expired(k, c), c)
  {
    hide QueuesOk, ListsOk, CritOk;
    TickInv(k, c);
    var k1 := Put(k, k.cpus[c].current, Current(k, c).(yielding := true));
    CpuFieldsInv(k1, c, k1.cpus[c].(irqSwitch := true));
    CurrentOk(k, c);
    assert !Holds(k, c);
  }

  /** The kernel as the switch finds it: the same lists, and the marked thread inside the lock. */
  function AtSwitch(k: Kernel, c: int): Kernel
    requires Shape(k) && 0 <= c < |k.cpus|
  {
    Put(k, k.cpus[c].current, Current(k, c).(yielding := true, cpusNest := 1, schedNest := 1))
      .(cpus := k.cpus[c := k.cpus[c].(irqSwitch := false)], lock := true)
  }

  lemma TurnSwitches(k: Kernel, c: int)
    requires Calm(k, c)
    ensures Inv(Expired(k, c)) && !Expired(k, c).lock && !Holds(Expired(k, c), c)
    ensures var k2 := AtSwitch(k, c);
            && Inv(k2) && MaySwitch(k2, c, true)
            && IrqSwitchBody(Expired(k, c), c) == if Switches(k2, c) then Reschedule(k2, c, true) else CpusUnlock(k2, c)
  {
    hide QueuesOk, ListsOk, CritOk, LockOk, CpuOk, Reschedule, Pick, NothingReady, KeepsRunning;
    ExpiredOk(k, c);
    CurrentOk(k, c);
    var e := Expired(k, c);
    LockInv(e, c);
    var k1 := CpusLock(e, c);
    CpuFieldsInv(k1, c, k1.cpus[c].(irqSwitch := false));
    assert SetCpu(k1, c, k1.cpus[c].(irqSwitch := false)) == AtSwitch(k, c);
  }

  // ----- which is a run of the kernel

  /** CPU c gets from k to k' by these steps, each of which it may take. */
  ghost predicate Reaches(k: Kernel, c: int, what: seq<Step>, k': Kernel)
    decreases |what|
  {
    && Inv(k)
    && if what == [] then k' == k else Enabled(k, c, what[0]) && Reaches(Apply(k, c, what[0]), c, what[1..], k')
  }

  lemma {:induction false} ReachesIsRun(k: Kernel, c: int, what: seq<Step>, k': Kernel) returns (run: seq<Kernel>)
    requires Reaches(k, c, what, k')
    ensures IsRun(run, seq(|what|, _ => c), what) && run[0] == k && run[|what|] == k'
    decreases |what|
  {
    hide Inv, Enabled, Apply;
    run := [k];
    if what != [] {
      assert Shape(k) by { UseInv(k); }
      var k1 := Apply(k, c, what[0]);
      var rest := ReachesIsRun(k1, c, what[1..], k');
      run := [k] + rest;
      forall i | 0 <= i < |what| ensures Takes(run[i], run[i + 1], c, what[i]) {
        if i > 0 { assert Takes(rest[i - 1], rest[i], c, what[1..][i - 1]); }
      }
    }
  }

  lemma {:induction false} ReachesOn(k: Kernel, c: int, xs: seq<Step>, k1: Kernel, ys: seq<Step>, k2: Kernel)
    requires Reaches(k, c, xs, k1) && Reaches(k1, c, ys, k2)
    ensures Reaches(k, c, xs + ys, k2)
    decreases |xs|
  {
    hide Inv, Enabled, Apply;
    if xs == [] {
      assert xs + ys == ys;
    } else {
      assert Shape(k) by { UseInv(k); }
      ReachesOn(Apply(k, c, xs[0]), c, xs[1..], k1, ys, k2);
      assert (xs + ys)[1..] == xs[1..] + ys;
    }
  }

  lemma OneStep(k: Kernel, c: int, s: Step)
    requires Inv(k) && Enabled(k, c, s)
    ensures Inv(Apply(k, c, s)) && Reaches(k, c, [s], Apply(k, c, s))
  {
    hide Inv, Enabled, Apply;
    StepInv(k, c, s);
    assert [s][1..] == [];
  }

  /** The clock interrupt: rt_interrupt_enter, rt_tick_increase with its rt_schedule, rt_interrupt_leave. */
  function ClockSteps(): seq<Step> { [IrqEnter, Tick, Lock, Schedule, Unlock, IrqLeave] }

  lemma ClockIsRun(k: Kernel, c: int)
    requires Calm(k, c)
    ensures Shape(k) && Reaches(k, c, ClockSteps(), Expired(k, c))
  {
    hide Inv, Reaches, ScheduleBody, CpusLock, CpusUnlock;
    CurrentOk(k, c);
    OneStep(k, c, IrqEnter);
    var k1 := Apply(k, c, IrqEnter);
    OneStep(k1, c, Tick);
    var k2 := Apply(k1, c, Tick);
    CalmFree(k, c);
    Yields(k2, c);
    var k5 := SetCpu(k2, c, k2.cpus[c].(irqSwitch := true));
    ReachesOn(k, c, [IrqEnter], k1, [Tick], k2);
    ReachesOn(k, c, [IrqEnter] + [Tick], k2, [Lock] + [Schedule] + [Unlock], k5);
    ReachesInv(k2, c, [Lock] + [Schedule] + [Unlock], k5);
    OneStep(k5, c, IrqLeave);
    ReachesOn(k, c, [IrqEnter] + [Tick] + ([Lock] + [Schedule] + [Unlock]), k5, [IrqLeave], Apply(k5, c, IrqLeave));
    assert [IrqEnter] + [Tick] + ([Lock] + [Schedule] + [Unlock]) + [IrqLeave] == ClockSteps();
    assert Apply(k5, c, IrqLeave) == Expired(k, c);
  }

  /** rt_schedule inside an interrupt only asks for a switch. */
  lemma Yields(k: Kernel, c: int)
    requires Inv(k) && 0 <= c < |k.cpus| && k.cpus[c].irqNest > 0 && !k.lock && Current(k, c).cpusNest == 0
    ensures Reaches(k, c, [Lock] + [Schedule] + [Unlock], SetCpu(k, c, k.cpus[c].(irqSwitch := true)))
  {
    hide Inv, Reaches;
    CurrentOk(k, c);
    OneStep(k, c, Lock);
    var k3 := Apply(k, c, Lock);
    OneStep(k3, c, Schedule);
    var k4 := Apply(k3, c, Schedule);
    OneStep(k4, c, Unlock);
    ReachesOn(k, c, [Lock], k3, [Schedule], k4);
    ReachesOn(k, c, [Lock] + [Schedule], k4, [Unlock], Apply(k4, c, Unlock));
    assert Apply(k4, c, Unlock) == SetCpu(k, c, k.cpus[c].(irqSwitch := true));
  }

  lemma {:induction false} ReachesInv(k: Kernel, c: int, what: seq<Step>, k': Kernel)
    requires Reaches(k, c, what, k')
    ensures Inv(k')
    decreases |what|
  {
    hide Inv, Enabled, Apply;
    if what != [] {
      assert Shape(k) by { UseInv(k); }
      ReachesInv(Apply(k, c, what[0]), c, what[1..], k');
    }
  }

  lemma CalmFree(k: Kernel, c: int)
    requires Calm(k, c)
    ensures !Holds(k, c) && Current(k, c).cpusNest == 0 && Current(k, c).schedNest == 0
  {
    CurrentOk(k, c);
  }

  /** Leaving the lock one rt_cpus_unlock at a time. */
  lemma {:induction false} UnwindIsRun(k: Kernel, c: int, n: nat)
    requires Inv(k) && 0 <= c < |k.cpus| && Current(k, c).cpusNest == n
    ensures Reaches(k, c, seq(n, _ => Unlock), Unwound(k, c))
    decreases n
  {
    hide QueuesOk, ListsOk, CritOk, LockOk, CpuOk, Reaches, Unwound;
    if n == 0 {
      Arrived(k, c);
    } else {
      UnwoundUnlocks(k, c);
      OneStep(k, c, Unlock);
      UnwindIsRun(CpusUnlock(k, c), c, n - 1);
      ReachesOn(k, c, [Unlock], CpusUnlock(k, c), seq(n - 1, _ => Unlock), Unwound(k, c));
      assert [Unlock] + seq(n - 1, _ => Unlock) == seq(n, _ => Unlock);
    }
  }

  lemma Arrived(k: Kernel, c: int)
    requires Inv(k) && 0 <= c < |k.cpus| && Current(k, c).cpusNest == 0
    ensures Reaches(k, c, seq(0, _ => Unlock), Unwound(k, c))
  {
  }

  function TurnSteps(n: nat): seq<Step> { ClockSteps() + [IrqSwitch] + seq(n, _ => Unlock) }

  /** A turn is a run of the CPU: the clock interrupt, rt_scheduler_do_irq_switch, and as many rt_cpus_unlock as it
      takes the thread that came in to leave the lock. */
  lemma TurnIsRun(k: Kernel, c: int)
    requires Calm(k, c)
    ensures exists n: nat :: Reaches(k, c, TurnSteps(n), Turn(k, c))
  {
    hide Inv, Reaches, IrqSwitchBody, Unwound;
    SliceOk(k, c);
    ClockIsRun(k, c);
    var e := Expired(k, c);
    assert Shape(e) by { UseInv(e); }
    OneStep(e, c, IrqSwitch);
    var k1 := IrqSwitchBody(e, c);
    CurrentOk(k1, c);
    var n: nat := Current(k1, c).cpusNest;
    UnwindIsRun(k1, c, n);
    ReachesOn(k, c, ClockSteps(), e, [IrqSwitch], k1);
    ReachesOn(k, c, ClockSteps() + [IrqSwitch], k1, seq(n, _ => Unlock), Turn(k, c));
    assert Reaches(k, c, TurnSteps(n), Turn(k, c));
  }

  // ----- threads of one priority

  /** The running thread, whether it is bound to the CPU, and the ready threads of its priority in the CPU's own
      queue and in the global one. */
  datatype Peers = Peers(cur: int, bound: bool, local: seq<int>, global: seq<int>)

  function PeersOf(k: Kernel, c: int): Peers
    requires Shape(k) && 0 <= c < |k.cpus|
  {
    var p := Current(k, c).prio;
    Peers(k.cpus[c].current, Current(k, c).bind == c, TableOf(k, c, p), TableOf(k, |k.cpus|, p))
  }

  /** The CPU's own queue comes first; whoever gives way goes to the tail of its own queue. */
  function Rotate(s: Peers): Peers {
    var back := [s.cur];
    if s.local != [] then
      Peers(s.local[0], true, s.local[1..] + (if s.bound then back else []), s.global + (if s.bound then [] else back))
    else if s.global != [] then
      Peers(s.global[0], false, if s.bound then back else [], s.global[1..] + (if s.bound then [] else back))
    else s
  }

  /** Nothing more urgent is ready for the CPU. */
  ghost predicate Top(k: Kernel, c: int)
    requires Shape(k) && 0 <= c < |k.cpus|
  {
    forall q :: 0 <= q < Current(k, c).prio ==> TableOf(k, c, q) == [] && TableOf(k, |k.cpus|, q) == []
  }

  /** Which queue the switch picks from. */
  lemma PickAtTop(k: Kernel, c: int)
    requires Inv(k) && 0 <= c < |k.cpus| && Top(k, c) && Current(k, c).stat == Running && Current(k, c).yielding
    ensures var s, p := PeersOf(k, c), Current(k, c).prio;
            && (Switches(k, c) <==> s.local != [] || s.global != [])
            && (Switches(k, c) ==> GivesWay(k, c) && Pick(k, c) == (p, if s.local != [] then c else |k.cpus|))
  {
    hide Ffs, IsZero, LockOk, CritOk, ThreadOk, CpuOk, ListsOk, QueueOk, Highest;
    var p, n := Current(k, c).prio, |k.cpus|;
    forall q | 0 <= q < p ensures k.queues[c].table[q] == [] && k.queues[n].table[q] == [] {
      assert TableOf(k, c, q) == [] && TableOf(k, n, q) == [];
    }
    HighestAt(k.queues[n], p);
    HighestAt(k.queues[c], p);
  }

  lemma HighestAt(q: Queue, p: int)
    requires QueueOk(q) && 0 <= p < 32 && forall r :: 0 <= r < p ==> q.table[r] == []
    ensures (q.table[p] != [] <==> Highest(q) == p) && Highest(q) >= p && (IsZero(q.group) <==> Highest(q) == UBASE_MAX)
  {
    hide QueueOk;
    HighestIsLeast(q);
    FfsFindsLowest(q.group);
    hide Ffs, IsZero;
  }

  /** The peers depend on the queues and the running thread's place. */
  lemma SamePeers(k: Kernel, k': Kernel, c: int)
    requires Shape(k) && Shape(k') && 0 <= c < |k.cpus| == |k'.cpus| && k'.queues == k.queues
    requires k'.cpus[c].current == k.cpus[c].current && Current(k', c).prio == Current(k, c).prio
    requires Current(k', c).bind == Current(k, c).bind
    ensures PeersOf(k', c) == PeersOf(k, c) && (Top(k, c) ==> Top(k', c))
  {
    assert forall w, q :: 0 <= w < |k.queues| && 0 <= q < 32 ==> TableOf(k', w, q) == TableOf(k, w, q);
  }

  lemma TurnTakes(k: Kernel, c: int)
    requires Inv(k) && 0 <= c < |k.cpus| && MaySwitch(k, c, true) && Top(k, c) && k.cpus[c].irqNest == 0
    requires Switches(k, c) && GivesWay(k, c) && Pick(k, c).1 == (if PeersOf(k, c).local != [] then c else |k.cpus|)
    ensures Shape(Reschedule(k, c, true))
    ensures var k' := Unwound(Reschedule(k, c, true), c);
            && Calm(k', c) && Top(k', c) && |k'.cpus| == |k.cpus| && Current(k', c).prio == Current(k, c).prio
            && PeersOf(k', c) == Rotate(PeersOf(k, c))
  {
    hide QueuesOk, ListsOk, CritOk, LockOk, CpuOk, Reschedule, Pick, NothingReady, KeepsRunning, Top, PeersOf, Rotate,
      ThreadOk, Shape;
    var k3 := Reschedule(k, c, true);
    RescheduleInv(k, c, true);
    UseInv(k3);
    ComesIn(k, c);
    TakesPeers(k, c);
    UnwoundInv(k3, c);
    var k' := Unwound(k3, c);
    UseInv(k');
    SamePeers(k3, k', c);
  }

  lemma ComesIn(k: Kernel, c: int)
    requires Inv(k) && 0 <= c < |k.cpus| && MaySwitch(k, c, true) && Switches(k, c)
    ensures var k3 := Reschedule(k, c, true);
            && Shape(k3) && |k3.cpus| == |k.cpus| && k3.cpus[c].irqNest == k.cpus[c].irqNest
            && Current(k3, c).stat == Running && Current(k3, c).critNest == 0 && k3.lock == Holds(k3, c)
            && Current(k3, c).prio == Pick(k, c).0 && Current(k3, c).bind == Pick(k, c).1
  {
    hide QueuesOk, ListsOk, CritOk, LockOk, CpuOk, Reschedule, Pick, NothingReady, KeepsRunning;
    SwitchFields(k, c, true);
    ChosenOk(k, c);
    LockMeans(k, c);
    RescheduleInv(k, c, true);
    CurrentOk(Reschedule(k, c, true), c);
  }

  lemma TakesPeers(k: Kernel, c: int)
    requires Inv(k) && 0 <= c < |k.cpus| && MaySwitch(k, c, true) && Top(k, c) && Switches(k, c) && GivesWay(k, c)
    requires Pick(k, c).1 == (if PeersOf(k, c).local != [] then c else |k.cpus|)
    ensures var k3 := Reschedule(k, c, true);
            Shape(k3) && |k3.cpus| == |k.cpus| && Top(k3, c) && PeersOf(k3, c) == Rotate(PeersOf(k, c))
  {
    hide QueuesOk, ListsOk, CritOk, LockOk, CpuOk, Reschedule, Pick, NothingReady, KeepsRunning;
    var k3, p, n := Reschedule(k, c, true), Current(k, c).prio, |k.cpus|;
    YieldRotates(k, c, true);
    ComesIn(k, c);
    CurrentOk(k, c);
    assert Rotated(k, k3, c, c, p) && Rotated(k, k3, c, n, p);
    forall q | 0 <= q < p ensures TableOf(k3, c, q) == [] && TableOf(k3, n, q) == [] {
      assert Rotated(k, k3, c, c, q) && Rotated(k, k3, c, n, q);
      assert TableOf(k, c, q) == [] && TableOf(k, n, q) == [];
    }
  }

  lemma LockMeans(k: Kernel, c: int)
    requires Inv(k) && 0 <= c < |k.cpus| && Holds(k, c)
    ensures k.lock
  {
  }

  /** With no other thread of its priority the thread goes on. */
  lemma TurnStays(k: Kernel, c: int)
    requires Calm(k, c) && Top(k, c) && PeersOf(k, c).local == [] && PeersOf(k, c).global == []
    requires Inv(AtSwitch(k, c)) && Holds(AtSwitch(k, c), c)
    ensures var k1 := CpusUnlock(AtSwitch(k, c), c);
            && Shape(k1) && var k' := Unwound(k1, c);
               && Calm(k', c) && Top(k', c) && |k'.cpus| == |k.cpus| && Current(k', c).prio == Current(k, c).prio
               && PeersOf(k', c) == PeersOf(k, c)
  {
    hide QueuesOk, ListsOk, CritOk, LockOk, CpuOk, Top, PeersOf;
    CurrentOk(k, c);
    UnlockInv(AtSwitch(k, c), c);
    SamePeers(k, CpusUnlock(AtSwitch(k, c), c), c);
  }

  /** A turn of the kernel is a turn of the peers. */
  lemma TurnRotates(k: Kernel, c: int)
    requires Calm(k, c) && Top(k, c)
    ensures var k' := Turn(k, c);
            && Calm(k', c) && Top(k', c) && |k'.cpus| == |k.cpus| && Current(k', c).prio == Current(k, c).prio
            && PeersOf(k', c) == Rotate(PeersOf(k, c))
  {
    hide QueuesOk, ListsOk, CritOk, LockOk, CpuOk, Reschedule, Pick, NothingReady, KeepsRunning, IrqSwitchBody,
      ThreadOk, Top, PeersOf;
    TurnSwitches(k, c);
    var k2, k' := AtSwitch(k, c), Turn(k, c);
    SamePeers(k, k2, c);
    PickAtTop(k2, c);
    if Switches(k2, c) {
      TurnTakes(k2, c);
    } else {
      TurnStays(k, c);
    }
  }

  // ----- turn after turn

  function Turned(s: Peers, m: nat): Peers
    decreases m
  {
    if m == 0 then s else Turned(Rotate(s), m - 1)
  }

  lemma {:induction false} TurnedMore(s: Peers, m: nat, n: nat)
    ensures Turned(s, m + n) == Turned(Turned(s, m), n)
    decreases m
  {
    if m > 0 { TurnedMore(Rotate(s), m - 1, n); }
  }

  lemma OneTurn(s: Peers)
    ensures Turned(s, 1) == Rotate(s)
  {
    assert Turned(Rotate(s), 0) == Rotate(s);
  }

  ghost function Turns(k: Kernel, c: int, m: nat): Kernel
    requires Calm(k, c) && Top(k, c)
    decreases m
  {
    TurnRotates(k, c);
    if m == 0 then k else Turns(Turn(k, c), c, m - 1)
  }

  lemma {:induction false} TurnsAreRun(k: Kernel, c: int, m: nat)
    requires Calm(k, c) && Top(k, c)
    ensures exists what :: Reaches(k, c, what, Turns(k, c, m))
    decreases m
  {
    hide Inv, Shape, Turn, Top, Reaches;
    if m == 0 {
      Stays(k, c);
      assert Reaches(k, c, [], Turns(k, c, 0));
    } else {
      TurnRotates(k, c);
      TurnIsRun(k, c);
      var n: nat :| Reaches(k, c, TurnSteps(n), Turn(k, c));
      TurnsAreRun(Turn(k, c), c, m - 1);
      var what :| Reaches(Turn(k, c), c, what, Turns(Turn(k, c), c, m - 1));
      ReachesOn(k, c, TurnSteps(n), Turn(k, c), what, Turns(k, c, m));
    }
  }

  lemma Stays(k: Kernel, c: int)
    requires Inv(k)
    ensures Reaches(k, c, [], k)
  {
  }

  /** So what happens to the kernel in m time slices happens to the peers. */
  lemma {:induction false} TurnsRotate(k: Kernel, c: int, m: nat)
    requires Calm(k, c) && Top(k, c)
    ensures var k' := Turns(k, c, m);
            && Calm(k', c) && Top(k', c) && |k'.cpus| == |k.cpus| && Current(k', c).prio == Current(k, c).prio
            && PeersOf(k', c) == Turned(PeersOf(k, c), m)
    decreases m
  {
    hide Inv, Shape, Turn, PeersOf, Rotate, Top;
    TurnRotates(k, c);
    if m > 0 { TurnsRotate(Turn(k, c), c, m - 1); }
  }

  /** Threads of one queue: `own` is the list of the running thread's queue, and nobody of the other queue comes
      between, because the CPU's own queue goes first or holds no thread of this priority. */
  ghost predicate OneQueue(s: Peers, own: seq<int>) {
    if s.bound then s.local == own && own != [] else s.local == [] && s.global == own
  }

  function After(cur: int, own: seq<int>, m: nat): seq<int>
    requires m <= |own|
  {
    if m == 0 then own else own[m..] + [cur] + own[..m - 1]
  }

  lemma {:induction false} QueueRotates(s: Peers, own: seq<int>, m: nat)
    requires OneQueue(s, own) && m <= |own|
    ensures var s' := Turned(s, m);
            && s'.cur == (if m == 0 then s.cur else own[m - 1]) && s'.bound == s.bound
            && OneQueue(s', After(s.cur, own, m)) && (s.bound ==> s'.global == s.global)
    decreases m
  {
    if m > 0 {
      QueueRotates(s, own, m - 1);
      TurnedMore(s, m - 1, 1);
      var s1 := Turned(s, m - 1);
      OneTurn(s1);
      var list := After(s.cur, own, m - 1);
      AfterStep(s.cur, own, m);
      assert list != [] && list[0] == own[m - 1];
    }
  }

  lemma AfterStep(cur: int, own: seq<int>, m: nat)
    requires 0 < m <= |own|
    ensures var list := After(cur, own, m - 1);
            && list != [] && list[0] == own[m - 1]
            && list[1..] + [if m == 1 then cur else own[m - 2]] == After(cur, own, m)
  {
    var list := After(cur, own, m - 1);
    if m == 1 {
      assert list[1..] + [cur] == own[1..] + [cur] + own[..0];
    } else {
      assert list[1..] == own[m..] + [cur] + own[..m - 2];
      assert own[..m - 1] == own[..m - 2] + [own[m - 2]];
    }
  }

  /** In one queue the threads run in turn, each once, in the order of the list; then all is as it was. */
  lemma RoundOfTurns(s: Peers, own: seq<int>)
    requires OneQueue(s, own)
    ensures forall m :: 0 < m <= |own| ==> Turned(s, m).cur == own[m - 1]
    ensures Turned(s, |own| + 1) == s
  {
    forall m | 0 < m <= |own| ensures Turned(s, m).cur == own[m - 1] { QueueRotates(s, own, m); }
    QueueRotates(s, own, |own|);
    TurnedMore(s, |own|, 1);
    var s1 := Turned(s, |own|);
    OneTurn(s1);
    if own != [] {
      var list := After(s.cur, own, |own|);
      assert list == [s.cur] + own[..|own| - 1];
      assert own == own[..|own| - 1] + [own[|own| - 1]];
    }
  }

  // ----- the two queues

  /** How many threads of this priority are bound to the CPU. */
  function Bound(s: Peers): nat { |s.local| + if s.bound then 1 else 0 }

  lemma RotateKeepsBound(s: Peers)
    ensures Bound(Rotate(s)) == Bound(s)
  {
  }

  /** Two bound threads keep every unbound one of their priority from that CPU for ever. */
  lemma {:induction false} UnboundStarve(s: Peers, m: nat)
    requires Bound(s) >= 2
    ensures Bound(Turned(s, m)) >= 2 && (m > 0 ==> Turned(s, m).bound)
    ensures s.bound ==> Turned(s, m).global == s.global
    decreases m
  {
    if m > 0 {
      RotateKeepsBound(s);
      UnboundStarve(Rotate(s), m - 1);
    }
  }

  /** An unbound thread runs again at some later turn exactly if at most one thread of this priority is bound. */
  lemma UnboundRunsIff(s: Peers)
    requires s.global != [] || !s.bound
    ensures (exists m: nat :: m > 0 && !Turned(s, m).bound) <==> Bound(s) < 2
  {
    if Bound(s) >= 2 {
      forall m: nat | m > 0 ensures Turned(s, m).bound { UnboundStarve(s, m); }
    } else if s.local == [] {
      OneTurn(s);
      var m: nat := 1;
      assert m > 0 && !Turned(s, m).bound;
    } else {
      var s1 := Rotate(s);
      assert s1.local == [] && s1.global != [];
      OneTurn(s1);
      var m: nat := 2;
      assert Turned(s, m) == Turned(s1, 1);
      assert m > 0 && !Turned(s, m).bound;
    }
  }

  /** One bound thread shares the CPU with the unbound ones: it has every other turn, and they have the others in
      the order of their list. */
  lemma {:induction false} OneBoundAlternates(s: Peers, m: nat)
    requires s.bound && s.local == [] && m <= |s.global|
    ensures Turned(s, 2 * m) == s.(global := s.global[m..] + s.global[..m])
    ensures m < |s.global| ==> Turned(s, 2 * m + 1).cur == s.global[m]
    decreases m
  {
    hide Turned, Rotate;
    if m > 0 {
      OneBoundAlternates(s, m - 1);
      TurnedMore(s, 2 * (m - 1), 2);
      var s1 := Turned(s, 2 * (m - 1));
      TwoTurns(s1);
      Shifted(s.global, m);
    } else {
      NoTurn(s);
      assert s.global[0..] + s.global[..0] == s.global;
    }
    if m < |s.global| {
      TurnedMore(s, 2 * m, 1);
      OneTurn(Turned(s, 2 * m));
      NextUnbound(Turned(s, 2 * m));
    }
  }

  lemma NoTurn(s: Peers)
    ensures Turned(s, 0) == s
  {
  }

  lemma NextUnbound(s: Peers)
    requires s.local == [] && s.global != []
    ensures Rotate(s).cur == s.global[0]
  {
  }

  lemma Shifted(g: seq<int>, m: nat)
    requires 0 < m <= |g|
    ensures var h := g[m - 1..] + g[..m - 1]; h != [] && h[1..] + [h[0]] == g[m..] + g[..m]
  {
  }

  lemma TwoTurns(s: Peers)
    requires s.bound && s.local == [] && s.global != []
    ensures Turned(s, 2) == s.(global := s.global[1..] + [s.global[0]])
  {
    OneTurn(Rotate(s));
    assert Turned(s, 2) == Turned(Rotate(s), 1);
  }

  // ----- and so for the kernel

  /** Time slices in one queue: every thread of the list runs once, in order, and then all is as it was. */
  lemma SlicesRotate(k: Kernel, c: int, own: seq<int>)
    requires Calm(k, c) && Top(k, c) && OneQueue(PeersOf(k, c), own)
    ensures forall m: nat :: 0 < m <= |own| ==>
              Calm(Turns(k, c, m), c) && Turns(k, c, m).cpus[c].current == own[m - 1]
    ensures Calm(Turns(k, c, |own| + 1), c) && PeersOf(Turns(k, c, |own| + 1), c) == PeersOf(k, c)
  {
    hide Inv, Shape, Turns, Turned, OneQueue, Top;
    UseInv(k);
    RoundOfTurns(PeersOf(k, c), own);
    forall m: nat | 0 < m <= |own| ensures Calm(Turns(k, c, m), c) && Turns(k, c, m).cpus[c].current == own[m - 1] {
      TurnsRotate(k, c, m);
    }
    TurnsRotate(k, c, |own| + 1);
  }

  /** A thread that is not bound runs on the CPU again, after some number of time slices, exactly if fewer than two
      threads of its priority are bound to that CPU. */
  lemma UnboundThreadRunsIff(k: Kernel, c: int)
    requires Calm(k, c) && Top(k, c) && (PeersOf(k, c).global != [] || !PeersOf(k, c).bound)
    ensures (exists m: nat :: m > 0 && UnboundAt(k, c, m)) <==> Bound(PeersOf(k, c)) < 2
  {
    hide Inv, Shape, Turns, Turned, Top, PeersOf, Bound;
    UseInv(k);
    UnboundRunsIff(PeersOf(k, c));
    forall m: nat ensures UnboundAt(k, c, m) <==> !Turned(PeersOf(k, c), m).bound {
      TurnsRotate(k, c, m);
      BoundMeans(Turns(k, c, m), c);
    }
    if Bound(PeersOf(k, c)) < 2 {
      var m: nat :| m > 0 && !Turned(PeersOf(k, c), m).bound;
      assert UnboundAt(k, c, m);
    } else {
      forall m: nat | m > 0 ensures !UnboundAt(k, c, m) { assert Turned(PeersOf(k, c), m).bound; }
    }
  }

  ghost predicate UnboundAt(k: Kernel, c: int, m: nat)
    requires Calm(k, c) && Top(k, c)
  {
    var k' := Turns(k, c, m);
    Shape(k') && 0 <= c < |k'.cpus| && Current(k', c).bind == |k'.cpus|
  }

  lemma BoundMeans(k: Kernel, c: int)
    requires Inv(k) && 0 <= c < |k.cpus|
    ensures Shape(k) && (PeersOf(k, c).bound <==> Current(k, c).bind != |k.cpus|)
  {
    CurrentOk(k, c);
  }

  /** So with an equal ready and nobody more urgent, rt_schedule changes the running thread exactly if it is marked. */
  lemma GivesWayIff(k: Kernel, c: int)
    requires Inv(k) && 0 <= c < |k.cpus| && MaySwitch(k, c, false) && k.cpus[c].irqNest == 0
    requires Current(k, c).stat == Running && !NothingReady(k, c) && Pick(k, c).0 == Current(k, c).prio
    ensures var k' := ScheduleBody(k, c);
            |k'.cpus| == |k.cpus| && (k'.cpus[c].current != k.cpus[c].current <==> Current(k, c).yielding)
  {
    hide Pick, Reschedule, QueuesOk, ListsOk, LockOk, CritOk;
    if Current(k, c).yielding {
      YieldRotates(k, c, false);
      SwitchFields(k, c, false);
      ChosenOk(k, c);
    } else {
      PlainYieldKeepsCpu(k, c);
    }
  }

  /** rt_thread_yield only calls rt_schedule: a thread whose slice is not over keeps the CPU from its equals. */
  lemma PlainYieldKeepsCpu(k: Kernel, c: int)
    requires Inv(k) && 0 <= c < |k.cpus| && MaySwitch(k, c, false) && k.cpus[c].irqNest == 0
    requires Current(k, c).stat == Running && !Current(k, c).yielding && Current(k, c).prio <= Pick(k, c).0
    ensures ScheduleBody(k, c) == k
  {
  }

  // ----- a state where an unbound thread never runs again

  /** CPU 0 runs thread 0, which is bound to it, and is not in an interrupt.  Threads a and b have the same priority
      and are not started; a is bound to the CPU, b is not. */
  ghost predicate ThreePeers(k: Kernel, a: int, b: int) {
    && Booted(k) && |k.cpus| > 0 && |k.cpus| <= a < |k.threads| && |k.cpus| <= b < |k.threads| && a != b
    && k.cpus[0].irqNest == 0 && k.threads[0].bind == 0 && k.threads[a].bind == 0 && k.threads[b].bind == |k.cpus|
    && k.threads[a].initPrio == k.threads[b].initPrio == k.threads[0].prio
  }

  /** There is such a kernel. */
  function Small(): Kernel {
    var run := Thread(Running, false, 0, 0, 10, 10, OneHot(10), 0, 0, 0);
    var other := Thread(Init, false, 1, 0, 10, 10, OneHot(10), 0, 0, 0);
    var none := Queue(seq(32, _ => []), seq(32, _ => false));
    Kernel([run, other, other.(bind := 1)], [Cpu(0, 0, false, 10)], [none, none], false, false)
  }

  lemma SmallIsBooted()
    ensures ThreePeers(Small(), 1, 2)
  {
  }

  function StartBoth(a: int, b: int): seq<Step> { [Lock] + [DoStart(a)] + [DoStart(b)] + [Unlock] }

  /** The kernel after CPU 0 started both. */
  function Peered(k: Kernel, a: int, b: int): Kernel
    requires ThreePeers(k, a, b)
  {
    var p, q, g := k.threads[0].prio, k.queues[0], k.queues[|k.cpus|];
    var up := (th: Thread) => th.(prio := p, mask := OneHot(p), stat := Ready, yielding := false);
    k.(threads := k.threads[a := up(k.threads[a])][b := up(k.threads[b])],
       queues := k.queues[0 := Enqueue(q, p, OneHot(p), a)][|k.cpus| := Enqueue(g, p, OneHot(p), b)])
  }

  lemma PeeredIsReached(k: Kernel, a: int, b: int)
    requires ThreePeers(k, a, b)
    ensures Reaches(k, 0, StartBoth(a, b), Peered(k, a, b))
  {
    hide Inv, Reaches, Enqueue, StartThread;
    BootedInv(k);
    BootedFree(k, a, b);
    OneStep(k, 0, Lock);
    var k1 := CpusLock(k, 0);
    StartsReady(k1, a);
    OneStep(k1, 0, DoStart(a));
    var k2 := StartThread(k1, a);
    StartsReady(k2, b);
    OneStep(k2, 0, DoStart(b));
    var k3 := StartThread(k2, b);
    UseInv(k3);
    OneStep(k3, 0, Unlock);
    var k4 := CpusUnlock(k3, 0);
    assert k4.threads == Peered(k, a, b).threads;
    hide *;
    ReachesOn(k, 0, [Lock], k1, [DoStart(a)], k2);
    ReachesOn(k, 0, [Lock] + [DoStart(a)], k2, [DoStart(b)], k3);
    ReachesOn(k, 0, [Lock] + [DoStart(a)] + [DoStart(b)], k3, [Unlock], k4);
  }

  lemma StartsReady(k: Kernel, t: int)
    requires Inv(k) && 0 <= t < |k.threads| && k.threads[t].stat == Init
    ensures var th := k.threads[t];
            && Shape(k) && 0 <= th.initPrio < 32
            && StartThread(k, t) ==
               k.(threads := k.threads[t := th.(prio := th.initPrio, mask := OneHot(th.initPrio), stat := Ready,
                                                yielding := false)],
                  queues := k.queues[th.bind := Enqueue(k.queues[th.bind], th.initPrio, OneHot(th.initPrio), t)])
  {
    hide Enqueue, QueuesOk, ListsOk, LockOk, CritOk;
    assert ThreadOk(k, t);
  }

  lemma BootedFree(k: Kernel, a: int, b: int)
    requires ThreePeers(k, a, b)
    ensures var th, ta, tb := k.threads[0], k.threads[a], k.threads[b];
            && k.cpus[0].current == 0 && th.cpusNest == 0 && th.schedNest == 0 && !k.lock && 0 <= th.prio < 32
            && th.stat == Running && th.critNest == 0
            && ta.stat == tb.stat == Init && ta.oncpu == tb.oncpu == |k.cpus| && |k.queues| == |k.cpus| + 1
  {
    assert NewThread(k.threads[0], |k.cpus|);
  }

  /** From there on, however many time slices pass, b does not run on the CPU: the two bound threads take turns. */
  lemma UnboundNeverRuns(k: Kernel, a: int, b: int)
    requires ThreePeers(k, a, b)
    ensures var k' := Peered(k, a, b);
            && Reaches(k, 0, StartBoth(a, b), k') && Calm(k', 0) && Top(k', 0)
            && PeersOf(k', 0) == Peers(0, true, [a], [b]) && forall m: nat :: m > 0 ==> !UnboundAt(k', 0, m)
  {
    hide Reaches, Inv;
    PeeredIsReached(k, a, b);
    ReachesInv(k, 0, StartBoth(a, b), Peered(k, a, b));
    BootedFree(k, a, b);
    UnboundThreadRunsIff(Peered(k, a, b), 0);
  }
}
