/** What the scheduler promises to threads of the same priority when all CPUs work at once: each ready list is
    first in, first out, and threads bound to a CPU come before unbound ones. */
module Fairness {
  import opened Bits
  import opened Ring
  import opened Scheduler
  import opened Rotation

  /** a is ahead of b. */
  ghost predicate Ahead(list: seq<int>, a: int, b: int) {
    exists i, j :: 0 <= i < j < |list| && list[i] == a && list[j] == b
  }

  lemma AheadAfterDrop(list: seq<int>, x: int, a: int, b: int)
    requires Ahead(list, a, b) && x != a && x != b
    ensures Ahead(Drop(list, x), a, b)
  {
    hide PosOf;
    if x in list {
      var i, j :| 0 <= i < j < |list| && list[i] == a && list[j] == b;
      AheadWithout(list, PosOf(list, x), i, j);
    }
  }

  lemma AheadWithout(list: seq<int>, k: nat, i: nat, j: nat)
    requires i < j < |list| && k < |list| && k != i && k != j
    ensures Ahead(Without(list, k), list[i], list[j])
  {
    var i', j' := if i < k then i else i - 1, if j < k then j else j - 1;
    assert Without(list, k)[i'] == list[i] && Without(list, k)[j'] == list[j];
  }

  lemma AheadAfterAppend(list: seq<int>, x: int, a: int, b: int)
    requires Ahead(list, a, b)
    ensures Ahead(list + [x], a, b)
  {
    var i, j :| 0 <= i < j < |list| && list[i] == a && list[j] == b;
    assert (list + [x])[i] == a && (list + [x])[j] == b;
  }

  /** The last one is behind all others. */
  lemma AheadOfLast(list: seq<int>, a: int, b: int)
    requires a in list
    ensures Ahead(list + [b], a, b)
  {
    var i :| 0 <= i < |list| && list[i] == a;
    assert (list + [b])[i] == a && (list + [b])[|list|] == b;
  }

  /** Both are ready, in list (w, p), and a is ahead. */
  ghost predicate AheadIn(k: Kernel, w: int, p: int, a: int, b: int) {
    Shape(k) && 0 <= w < |k.queues| && 0 <= p < 32 && Ahead(TableOf(k, w, p), a, b)
  }

  ghost predicate BothIn(k: Kernel, w: int, p: int, a: int, b: int) {
    Shape(k) && In(k, w, p, a) && In(k, w, p, b)
  }

  // ----- each operation keeps the order

  lemma AheadIsIn(k: Kernel, w: int, p: int, a: int, b: int)
    requires Inv(k) && AheadIn(k, w, p, a, b)
    ensures BothIn(k, w, p, a, b) && a != b && ReadyAt(k, w, p, a) && ReadyAt(k, w, p, b)
    ensures Distinct(TableOf(k, w, p))
  {
    var list := TableOf(k, w, p);
    var i, j :| 0 <= i < j < |list| && list[i] == a && list[j] == b;
    assert SlotOk(k.queues[w], p);
    assert In(k, w, p, a) && In(k, w, p, b);
  }

  lemma EnqueueFifo(k: Kernel, w: int, p: int, a: int, b: int, t: int, k': Kernel)
    requires AheadIn(k, w, p, a, b) && Shape(k') && 0 <= t < |k.threads| && |k'.queues| == |k.queues|
    requires var th := k.threads[t]; k'.queues == k.queues[th.bind := Enqueue(k.queues[th.bind], th.prio, th.mask, t)]
    ensures AheadIn(k', w, p, a, b)
  {
    hide Ahead;
    AheadAfterAppend(TableOf(k, w, p), t, a, b);
  }

  lemma DequeueFifo(k: Kernel, w: int, p: int, a: int, b: int, t: int, k': Kernel)
    requires AheadIn(k, w, p, a, b) && t != a && t != b && Shape(k') && 0 <= t < |k.threads|
    requires |k'.queues| == |k.queues|
    requires var th := k.threads[t]; k'.queues == k.queues[th.bind := Dequeue(k.queues[th.bind], th.prio, th.mask, t)]
    ensures AheadIn(k', w, p, a, b)
  {
    hide Ahead, Drop;
    AheadAfterDrop(TableOf(k, w, p), t, a, b);
  }

  lemma RescheduleFifo(k: Kernel, c: int, release: bool, w: int, p: int, a: int, b: int)
    requires Inv(k) && 0 <= c < |k.cpus| && MaySwitch(k, c, release) && AheadIn(k, w, p, a, b)
    requires BothIn(Reschedule(k, c, release), w, p, a, b)
    ensures AheadIn(Reschedule(k, c, release), w, p, a, b)
  {
    hide QueueOk, LockOk, CritOk, Pick, Reschedule, Enqueue, Dequeue, Ahead;
    var k' := Reschedule(k, c, release);
    if !Switches(k, c) {
      StaysPut(k, c, release);
    } else {
      SwitchFields(k, c, release);
      ChosenOk(k, c);
      RescheduleInv(k, c, release);
      var to, cur, th := Chosen(k, c), k.cpus[c].current, Current(k, c);
      assert ReadyAt(k', w, p, a) && ReadyAt(k', w, p, b);
      assert to != a && to != b;
      CurrentOk(k, c);
      var k1 := if th.stat == Running
                then k.(queues := k.queues[th.bind := Enqueue(k.queues[th.bind], th.prio, th.mask, cur)]) else k;
      assert Shape(k1) by { EnqueueShape(k, cur); }
      if th.stat == Running { EnqueueFifo(k, w, p, a, b, cur, k1); }
      DequeueFifo(k1, w, p, a, b, to, k');
    }
  }

  lemma EnqueueShape(k: Kernel, t: int)
    requires Shape(k) && 0 <= t < |k.threads|
    ensures var th := k.threads[t];
            Shape(k.(queues := k.queues[th.bind := Enqueue(k.queues[th.bind], th.prio, th.mask, t)]))
  {
  }

  lemma InsertFifo(k: Kernel, t: int, w: int, p: int, a: int, b: int)
    requires Shape(k) && 0 <= t < |k.threads| && AheadIn(k, w, p, a, b)
    ensures AheadIn(InsertThread(k, t), w, p, a, b)
  {
    hide Ahead, Enqueue;
    if k.threads[t].oncpu == |k.cpus| { EnqueueFifo(k, w, p, a, b, t, InsertThread(k, t)); }
  }

  lemma SuspendFifo(k: Kernel, t: int, w: int, p: int, a: int, b: int)
    requires Inv(k) && 0 <= t < |k.threads| && AheadIn(k, w, p, a, b) && BothIn(SuspendThread(k, t), w, p, a, b)
    ensures AheadIn(SuspendThread(k, t), w, p, a, b)
  {
    hide Ahead, Dequeue, QueueOk, LockOk, CritOk;
    SuspendInv(k, t);
    var k' := SuspendThread(k, t);
    assert ReadyAt(k', w, p, a) && ReadyAt(k', w, p, b);
    if k.threads[t].stat == Ready || k.threads[t].stat == Running {
      DequeueFifo(k, w, p, a, b, t, RemoveThread(k, t));
    }
  }

  /** A change of priority takes the thread to the tail of its list, even if it keeps its priority. */
  lemma PriorityFifo(k: Kernel, t: int, q: int, w: int, p: int, a: int, b: int)
    requires Inv(k) && 0 <= t < |k.threads| && 0 <= q < 32 && t != a && AheadIn(k, w, p, a, b)
    requires BothIn(ChangePriority(k, t, q), w, p, a, b)
    ensures AheadIn(ChangePriority(k, t, q), w, p, a, b)
  {
    hide Ahead, LockOk, CritOk, QueueOk, Drop, Enqueue, Dequeue, InsertThread;
    AheadIsIn(k, w, p, a, b);
    if k.threads[t].stat == Ready {
      var k1 := RemoveThread(k, t);
      var k2 := Put(k1, t, k1.threads[t].(prio := q, mask := OneHot(q)));
      assert ThreadOk(k, t);
      if t == b {
        ToTheTail(k, q, w, p, a, b);
      } else {
        DequeueFifo(k, w, p, a, b, t, k1);
        InsertFifo(k2, t, w, p, a, b);
      }
    }
  }

  lemma ToTheTail(k: Kernel, q: int, w: int, p: int, a: int, b: int)
    requires Inv(k) && 0 <= q < 32 && AheadIn(k, w, p, a, b) && 0 <= b < |k.threads| && k.threads[b].stat == Ready
    requires BothIn(ChangePriority(k, b, q), w, p, a, b)
    ensures AheadIn(ChangePriority(k, b, q), w, p, a, b)
  {
    hide Ahead, LockOk, CritOk, QueueOk, Drop;
    AheadIsIn(k, w, p, a, b);
    assert ThreadOk(k, b);
    ChangePriorityInv(k, b, q);
    assert ReadyAt(ChangePriority(k, b, q), w, p, b);
    var list := TableOf(k, w, p);
    StillIn(list, b, a);
    AheadOfLast(Drop(list, b), a, b);
    assert TableOf(ChangePriority(k, b, q), w, p) == Drop(list, b) + [b];
  }

  lemma StillIn(list: seq<int>, x: int, a: int)
    requires a in list && a != x && Distinct(list)
    ensures a in Drop(list, x)
  {
    DropKeeps(list, x);
  }

  /** Whatever any CPU does, of two threads that stay in a list the one ahead stays ahead, unless its priority is set
      anew. */
  lemma StepFifo(k: Kernel, c: int, s: Step, w: int, p: int, a: int, b: int)
    requires Inv(k) && Enabled(k, c, s) && AheadIn(k, w, p, a, b) && BothIn(Apply(k, c, s), w, p, a, b)
    requires !(s.DoPriority? && s.t == a)
    ensures AheadIn(Apply(k, c, s), w, p, a, b)
  {
    hide Inv, Ahead, Reschedule, SuspendThread, ChangePriority, IrqSwitchBody, InsertThread;
    CurrentIs(k, c);
    match s
    case Schedule =>
      if k.cpus[c].irqNest == 0 && Current(k, c).schedNest == 1 { RescheduleFifo(k, c, false, w, p, a, b); }
    case IrqSwitch => IrqSwitchFifo(k, c, w, p, a, b);
    case DoSuspend(t) => SuspendFifo(k, t, w, p, a, b);
    case DoResume(t) => if k.threads[t].stat == Suspend { InsertFifo(k, t, w, p, a, b); }
    case DoStart(t) => StartFifo(k, t, w, p, a, b);
    case DoPriority(t, q) => PriorityFifo(k, t, q, w, p, a, b);
    case _ =>
  }

  lemma CurrentIs(k: Kernel, c: int)
    requires Inv(k)
    ensures Shape(k) && (0 <= c < |k.cpus| ==> 0 <= k.cpus[c].current < |k.threads|)
  {
  }

  lemma StartFifo(k: Kernel, t: int, w: int, p: int, a: int, b: int)
    requires Shape(k) && 0 <= t < |k.threads| && 0 <= k.threads[t].initPrio < 32 && AheadIn(k, w, p, a, b)
    ensures AheadIn(StartThread(k, t), w, p, a, b)
  {
    hide Ahead, InsertThread;
    var th := k.threads[t];
    var k1 := Put(k, t, th.(prio := th.initPrio, mask := OneHot(th.initPrio), stat := Suspend, yielding := false));
    InsertFifo(k1, t, w, p, a, b);
  }

  lemma IrqSwitchFifo(k: Kernel, c: int, w: int, p: int, a: int, b: int)
    requires Inv(k) && 0 <= c < |k.cpus| && !Holds(k, c) && !k.lock && AheadIn(k, w, p, a, b)
    requires BothIn(IrqSwitchBody(k, c), w, p, a, b)
    ensures AheadIn(IrqSwitchBody(k, c), w, p, a, b)
  {
    hide Inv, Ahead, Reschedule, Pick, NothingReady, KeepsRunning;
    CurrentOk(k, c);
    LockInv(k, c);
    var k1 := CpusLock(k, c);
    var k2 := SetCpu(k1, c, k1.cpus[c].(irqSwitch := false));
    CpuFieldsInv(k1, c, k1.cpus[c].(irqSwitch := false));
    if k1.cpus[c].irqSwitch && Current(k1, c).schedNest == 1 && k1.cpus[c].irqNest == 0 {
      if !NothingReady(k2, c) && !KeepsRunning(Current(k2, c), Pick(k2, c).0) {
        RescheduleFifo(k2, c, true, w, p, a, b);
      }
    }
  }

  // ----- whole runs

  /** Over every run of any number of CPUs, two threads that stay in a list keep their order. */
  lemma {:induction false} RunFifo(run: seq<Kernel>, who: seq<int>, what: seq<Step>, i: nat, j: nat, w: int, p: int,
                                   a: int, b: int)
    requires IsRun(run, who, what) && i <= j < |run| && Inv(run[0]) && AheadIn(run[i], w, p, a, b)
    requires forall n :: i <= n <= j ==> BothIn(run[n], w, p, a, b)
    requires forall n :: i <= n < j ==> !(what[n].DoPriority? && what[n].t == a)
    ensures Inv(run[j]) && AheadIn(run[j], w, p, a, b)
    decreases j
  {
    hide Inv, Enabled, Apply, Ahead;
    RunInv(run, who, what, j);
    if i < j {
      RunFifo(run, who, what, i, j - 1, w, p, a, b);
      var k, c, s := run[j - 1], who[j - 1], what[j - 1];
      assert Takes(k, run[j], c, s);
      if Enabled(k, c, s) { StepFifo(k, c, s, w, p, a, b); }
    }
  }

  /** What a step brings onto CPU c. */
  lemma StepBringsIn(k: Kernel, d: int, s: Step, c: int)
    requires Inv(k) && Enabled(k, d, s) && 0 <= c < |k.cpus|
    ensures var k' := Apply(k, d, s);
            && |k'.cpus| == |k.cpus|
            && (k'.cpus[c].current == k.cpus[c].current
                || (!NothingReady(k, c) && k'.cpus[c].current == Chosen(k, c)))
  {
    hide QueuesOk, ListsOk, LockOk, CritOk, CpuOk, Reschedule, SuspendThread, ChangePriority, InsertThread,
      IrqSwitchBody;
    match s
    case Schedule =>
      if k.cpus[d].irqNest == 0 && Current(k, d).schedNest == 1 { SwitchBringsIn(k, d, false, c); }
    case IrqSwitch => IrqBringsIn(k, d, c);
    case DoSuspend(t) => assert SuspendThread(k, t).cpus == k.cpus by { SuspendCpus(k, t); }
    case DoPriority(t, p) => assert ChangePriority(k, t, p).cpus == k.cpus by { PriorityCpus(k, t, p); }
    case _ =>
  }

  lemma SuspendCpus(k: Kernel, t: int)
    requires Shape(k) && 0 <= t < |k.threads|
    ensures SuspendThread(k, t).cpus == k.cpus
  {
  }

  lemma PriorityCpus(k: Kernel, t: int, p: int)
    requires Shape(k) && 0 <= t < |k.threads| && 0 <= p < 32
    ensures ChangePriority(k, t, p).cpus == k.cpus
  {
  }

  lemma SwitchBringsIn(k: Kernel, d: int, release: bool, c: int)
    requires Inv(k) && 0 <= d < |k.cpus| && 0 <= c < |k.cpus|
    ensures var k' := Reschedule(k, d, release);
            && |k'.cpus| == |k.cpus|
            && (k'.cpus[c].current == k.cpus[c].current
                || (c == d && !NothingReady(k, c) && k'.cpus[c].current == Chosen(k, c)))
  {
    hide Pick, Reschedule, QueuesOk, ListsOk, LockOk, CritOk, CpuOk, ThreadOk;
    if Switches(k, d) { SwitchFields(k, d, release); } else { StaysPut(k, d, release); }
  }

  lemma IrqBringsIn(k: Kernel, d: int, c: int)
    requires Inv(k) && 0 <= d < |k.cpus| && !Holds(k, d) && !k.lock && 0 <= c < |k.cpus|
    ensures var k' := IrqSwitchBody(k, d);
            && |k'.cpus| == |k.cpus|
            && (k'.cpus[c].current == k.cpus[c].current || (!NothingReady(k, c) && k'.cpus[c].current == Chosen(k, c)))
  {
    hide Inv, Reschedule, KeepsRunning, QueuesOk;
    CurrentOk(k, d);
    LockInv(k, d);
    var k1 := CpusLock(k, d);
    var k2 := SetCpu(k1, d, k1.cpus[d].(irqSwitch := false));
    CpuFieldsInv(k1, d, k1.cpus[d].(irqSwitch := false));
    if k1.cpus[d].irqSwitch && Current(k1, d).schedNest == 1 && k1.cpus[d].irqNest == 0 {
      SwitchBringsIn(k2, d, true, c);
      QueuesOf(k);
      QueuesOf(k2);
      assert !NothingReady(k2, c) ==> Chosen(k2, c) == Chosen(k, c);
    }
  }

  lemma QueuesOf(k: Kernel)
    requires Inv(k)
    ensures Shape(k) && QueuesOk(k)
  {
  }

  /** So nobody overtakes: as long as a is ahead of b, no CPU takes b. */
  lemma NoOvertaking(run: seq<Kernel>, who: seq<int>, what: seq<Step>, i: nat, j: nat, w: int, p: int, a: int, b: int,
                     c: int)
    requires IsRun(run, who, what) && i <= j && j + 1 < |run| && Inv(run[0]) && AheadIn(run[i], w, p, a, b)
    requires forall n :: i <= n <= j ==> BothIn(run[n], w, p, a, b)
    requires forall n :: i <= n < j ==> !(what[n].DoPriority? && what[n].t == a)
    ensures 0 <= c < |run[j + 1].cpus| ==> run[j + 1].cpus[c].current != b
  {
    hide Inv, Enabled, Apply, Ahead, Pick, NothingReady;
    RunFifo(run, who, what, i, j, w, p, a, b);
    var k, d, s := run[j], who[j], what[j];
    assert Takes(k, run[j + 1], d, s);
    QueuesOf(k);
    if Enabled(k, d, s) {
      assert |Apply(k, d, s).cpus| == |k.cpus| by { SameCpus(k, d, s); }
      if 0 <= c < |k.cpus| {
        StepBringsIn(k, d, s, c);
        NotChosen(k, c, w, p, a, b);
      }
    } else if 0 <= c < |k.cpus| {
      NotChosen(k, c, w, p, a, b);
    }
  }

  lemma SameCpus(k: Kernel, d: int, s: Step)
    requires Inv(k) && Enabled(k, d, s)
    ensures |Apply(k, d, s).cpus| == |k.cpus|
  {
    StepBringsIn(k, d, s, d);
  }

  lemma NotChosen(k: Kernel, c: int, w: int, p: int, a: int, b: int)
    requires Inv(k) && 0 <= c < |k.cpus| && AheadIn(k, w, p, a, b)
    ensures k.cpus[c].current != b && (!NothingReady(k, c) ==> Chosen(k, c) != b)
  {
    hide Pick, LockOk, CritOk, QueueOk;
    AheadIsIn(k, w, p, a, b);
    CurrentOk(k, c);
    assert ThreadOk(k, b);
    if !NothingReady(k, c) {
      ChosenOk(k, c);
    }
  }

  // ----- bound threads come first

  /** Thread a is bound to CPU c, has priority p, and is ready or running. */
  ghost predicate BoundPeer(k: Kernel, c: int, p: int, a: int) {
    && 0 <= a < |k.threads| && k.threads[a].bind == c && k.threads[a].prio == p
    && (k.threads[a].stat == Ready || k.threads[a].stat == Running)
  }

  /** Thread x is not bound and not more urgent than p. */
  ghost predicate UnboundPeer(k: Kernel, p: int, x: int) {
    0 <= x < |k.threads| && k.threads[x].bind == |k.cpus| && p <= k.threads[x].prio
  }

  /** With a bound thread of priority p ready, a switch brings in an unbound one only if it is more urgent. */
  lemma BoundFirst(k: Kernel, c: int, p: int, a: int, x: int)
    requires Inv(k) && 0 <= c < |k.cpus| && ReadyAt(k, c, p, a) && UnboundPeer(k, p, x) && !NothingReady(k, c)
    ensures Chosen(k, c) != x
  {
    hide LockOk, CritOk, QueueOk, Highest, NothingReady;
    assert In(k, c, p, a);
    assert QueueOk(k.queues[c]) && SlotOk(k.queues[c], p) by { assert QueuesOk(k); AtQueue(k.queues[c], p); }
    HighestIsLeast(k.queues[c]);
    ChosenOk(k, c);
  }

  lemma AtQueue(q: Queue, p: int)
    requires QueueOk(q) && 0 <= p < 32
    ensures SlotOk(q, p)
  {
  }

  lemma OneOfTwoReady(k: Kernel, c: int, p: int, a: int, b: int)
    requires Inv(k) && 0 <= c < |k.cpus| && BoundPeer(k, c, p, a) && BoundPeer(k, c, p, b) && a != b
    ensures ReadyAt(k, c, p, a) || ReadyAt(k, c, p, b)
  {
    assert ThreadOk(k, a) && ThreadOk(k, b);
  }

  /** Over every run of any number of CPUs: while two threads of priority p are bound to a CPU and want to run, an
      unbound thread that is not more urgent and is not on that CPU never gets it. */
  lemma {:induction false} TwoBoundKeepOut(run: seq<Kernel>, who: seq<int>, what: seq<Step>, i: nat, c: int, p: int,
                                           a: int, b: int, x: int)
    requires IsRun(run, who, what) && i < |run| && Inv(run[0]) && 0 <= c < |run[0].cpus| && a != b
    requires forall n :: 0 <= n <= i ==> BoundPeer(run[n], c, p, a) && BoundPeer(run[n], c, p, b)
    requires forall n :: 0 <= n <= i ==> UnboundPeer(run[n], p, x)
    requires run[0].cpus[c].current != x
    ensures Inv(run[i]) && |run[i].cpus| == |run[0].cpus| && run[i].cpus[c].current != x
    decreases i
  {
    hide Inv, Enabled, Apply, NothingReady;
    if i > 0 {
      TwoBoundKeepOut(run, who, what, i - 1, c, p, a, b, x);
      var k, d, s := run[i - 1], who[i - 1], what[i - 1];
      RunInv(run, who, what, i);
      assert Takes(k, run[i], d, s);
      assert BoundPeer(k, c, p, a) && BoundPeer(k, c, p, b) && UnboundPeer(k, p, x);
      QueuesOf(k);
      if Enabled(k, d, s) {
        StepBringsIn(k, d, s, c);
        OneOfTwoReady(k, c, p, a, b);
        if !NothingReady(k, c) { BoundFirst(k, c, p, if ReadyAt(k, c, p, a) then a else b, x); }
      }
    }
  }
}
