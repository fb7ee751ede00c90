/** rt_thread_resume (thread.c) called outside the lock: it tests the thread's state, takes its node out of the list
    it waited in, and inserts it into a ready list, and anything may happen between these three steps.

    The links, group words and thread fields are as the code has them.  They are in order if they hold some kernel
    state that satisfies the scheduler's invariant. */
module Resume {
  import opened Bits
  import opened Ring
  import opened Nodes
  import opened Scheduler
  import opened SchedulerCode
  import opened Rotation

  /** How far a call has come, and for which thread. */
  datatype Call = Tested(t: int) | Removed(t: int)

  datatype Sys = Sys(threads: seq<Thread>, cpus: seq<Cpu>, groups: seq<Word>, next: map<int, int>, prev: map<int, int>,
                     lock: bool, critLock: bool, calls: map<int, Call>)

  ghost predicate Holding(s: Sys, k: Kernel) {
    && k.threads == s.threads && k.cpus == s.cpus && k.lock == s.lock && k.critLock == s.critLock
    && |k.queues| == |s.groups| && (forall w :: 0 <= w < |s.groups| ==> s.groups[w] == k.queues[w].group)
    && Inv(k) && Threaded(s.next, s.prev, k.queues, |k.threads|)
  }

  ghost predicate InOrder(s: Sys) { exists k :: Holding(s, k) }

  /** What the three steps need to be carried out at all: the node and the list head exist. */
  predicate Known(s: Sys, t: int) {
    && 0 <= t < |s.threads| && t in s.next && t in s.prev && 0 <= s.threads[t].bind < |s.groups|
    && HeadOf(s.threads[t].bind, s.threads[t].prio) in s.prev && HeadOf(s.threads[t].bind, s.threads[t].prio) in s.next
  }

  /** rt_list_remove. */
  function Unlinked(s: Sys, t: int): Sys
    requires Known(s, t)
  {
    var (next, prev) := RemoveNode(s.next, s.prev, t);
    s.(next := next, prev := prev)
  }

  /** rt_schedule_insert_thread. */
  function Linked(s: Sys, t: int): Sys
    requires Known(s, t)
  {
    var th := s.threads[t];
    if th.oncpu != |s.cpus| then s.(threads := s.threads[t := th.(stat := Running)])
    else
      var (next, prev) := InsertBefore(s.next, s.prev, HeadOf(th.bind, th.prio), t);
      s.(threads := s.threads[t := th.(stat := Ready)], next := next, prev := prev,
         groups := s.groups[th.bind := Or(s.groups[th.bind], th.mask)])
  }

  // ----- one step

  lemma HoldingKnown(s: Sys, k: Kernel, t: int)
    requires Holding(s, k) && 0 <= t < |s.threads|
    ensures Known(s, t)
  {
    hide Threaded, Inv;
    UseInv(k);
    FirstOf(s.next, s.prev, k.queues, |k.threads|, k.threads[t].bind, k.threads[t].prio);
    NodeKnown(s.next, s.prev, k.queues, |k.threads|, t);
    HeadKnown(s.next, s.prev, k.queues, |k.threads|, k.threads[t].bind, k.threads[t].prio);
  }

  lemma HeadKnown(next: map<int, int>, prev: map<int, int>, qs: seq<Queue>, n: nat, w: int, p: int)
    requires Threaded(next, prev, qs, n) && 0 <= w < |qs| && 0 <= p < 32
    ensures HeadOf(w, p) in prev
  {
    hide IsList;
    assert ListAt(next, prev, qs, w, p);
    Ends(next, prev, HeadOf(w, p), qs[w].table[p]);
  }

  lemma NodeKnown(next: map<int, int>, prev: map<int, int>, qs: seq<Queue>, n: nat, t: int)
    requires Threaded(next, prev, qs, n) && 0 <= t < n
    ensures t in next && t in prev
  {
    hide IsList;
    if !Nowhere(qs, t) {
      var w, p :| InQueue(qs, w, p, t);
      assert ListAt(next, prev, qs, w, p);
      MemberLinks(next, prev, HeadOf(w, p), qs[w].table[p], t);
    }
  }

  lemma MemberNotAlone(next: map<int, int>, prev: map<int, int>, h: int, list: seq<int>, t: int)
    requires IsList(next, prev, h, list) && t in list
    ensures t in next && next[t] != t
  {
    var k := PosOf(list, t);
    assert ([h] + list)[k + 1] == t;
    RingAt(next, prev, [h] + list, k + 1);
  }

  /** A ready thread is in its list. */
  lemma ReadyLinked(s: Sys, k: Kernel, t: int)
    requires Holding(s, k) && 0 <= t < |s.threads| && s.threads[t].stat == Ready
    ensures var th := s.threads[t];
            && Shape(k) && IsList(s.next, s.prev, HeadOf(th.bind, th.prio), k.queues[th.bind].table[th.prio])
            && t in k.queues[th.bind].table[th.prio]
  {
    hide IsList, Inv, Tables;
    UseInv(k);
    ReadyIsHome(k, t);
    var th := k.threads[t];
    assert InQueue(k.queues, th.bind, th.prio, t);
    assert ListAt(s.next, s.prev, k.queues, th.bind, th.prio);
  }

  /** Taking the node out keeps everything in order exactly if the thread is not ready. */
  lemma RemoveSafeIff(s: Sys, t: int)
    requires InOrder(s) && 0 <= t < |s.threads|
    ensures Known(s, t) && (InOrder(Unlinked(s, t)) <==> s.threads[t].stat != Ready)
  {
    hide Inv, Threaded, IsList;
    var k :| Holding(s, k);
    HoldingKnown(s, k, t);
    var s' := Unlinked(s, t);
    if s.threads[t].stat != Ready {
      UseInv(k);
      ReadyIsHome(k, t);
      IsLone(s.next, s.prev, k.queues, |k.threads|, t);
      RemoveLone(s.next, s.prev, t);
      assert Holding(s', k);
    } else if InOrder(s') {
      var k' :| Holding(s', k');
      ReadyLinked(s', k', t);
      MemberNotAlone(s'.next, s'.prev, HeadOf(k'.threads[t].bind, k'.threads[t].prio),
                     k'.queues[k'.threads[t].bind].table[k'.threads[t].prio], t);
      assert false;
    }
  }

  /** And so does inserting it. */
  lemma InsertSafeIff(s: Sys, t: int)
    requires InOrder(s) && 0 <= t < |s.threads| && s.threads[t].stat != Init
    ensures Known(s, t) && (InOrder(Linked(s, t)) <==> s.threads[t].stat != Ready)
  {
    hide Inv, Threaded, IsList, Enqueue, InsertBefore, ThreadOk;
    var k :| Holding(s, k);
    HoldingKnown(s, k, t);
    PlaceOf(k, t);
    if s.threads[t].stat != Ready {
      InsertHolding(s, k, t);
    } else if InOrder(Linked(s, t)) {
      var k' :| Holding(Linked(s, t), k');
      var th := s.threads[t];
      ReadyLinked(s, k, t);
      ReadyLinked(Linked(s, t), k', t);
      InsertTwice(s.next, s.prev, HeadOf(th.bind, th.prio), k.queues[th.bind].table[th.prio], t,
                  |k.queues[th.bind].table[th.prio]|);
      assert false;
    }
  }

  lemma PlaceOf(k: Kernel, t: int)
    requires Inv(k) && 0 <= t < |k.threads|
    ensures k.threads[t].stat == Running ==> k.threads[t].oncpu != |k.cpus|
    ensures k.threads[t].stat == Ready ==> k.threads[t].oncpu == |k.cpus|
  {
    assert ThreadOk(k, t);
  }

  lemma InsertHolding(s: Sys, k: Kernel, t: int)
    requires Holding(s, k) && 0 <= t < |s.threads| && Known(s, t)
    requires s.threads[t].stat == Suspend || (s.threads[t].stat == Running && s.threads[t].oncpu != |s.cpus|)
    ensures Shape(k) && Holding(Linked(s, t), InsertThread(k, t))
  {
    hide Inv, Threaded, InsertBefore, Or, IsList;
    UseInv(k);
    ReadyIsHome(k, t);
    var th := k.threads[t];
    if th.stat == Suspend { InsertInv(k, t); } else { assert k.threads[t := th.(stat := Running)] == k.threads; }
    if th.oncpu == |k.cpus| {
      AppendThreaded(s.next, s.prev, k.queues, |k.threads|, th.bind, th.prio, t,
                     Enqueue(k.queues[th.bind], th.prio, th.mask, t));
    }
  }

  /** If the thread was alone in its ready list, the bit that says the list is not empty stays set, and the scheduler
      would take the list head for a thread. */
  lemma RemoveLeavesStaleBit(s: Sys, k: Kernel, t: int)
    requires Holding(s, k) && 0 <= t < |s.threads| && s.threads[t].stat == Ready && Shape(k)
    requires k.queues[s.threads[t].bind].table[s.threads[t].prio] == [t]
    ensures Known(s, t)
    ensures var s', th, h := Unlinked(s, t), s.threads[t], HeadOf(s.threads[t].bind, s.threads[t].prio);
            h in s'.next && s'.next[h] == h && s'.groups[th.bind][th.prio]
  {
    hide Threaded, IsList;
    HoldingKnown(s, k, t);
    var th := s.threads[t];
    var h := HeadOf(th.bind, th.prio);
    ReadyLinked(s, k, t);
    RemoveMember(s.next, s.prev, h, [t], t);
    var (next, prev) := RemoveNode(s.next, s.prev, t);
    assert Drop([t], t) == [];
    Ends(next, prev, h, []);
    assert SlotOk(k.queues[th.bind], th.prio);
  }

  // ----- every interleaving

  /** `Other` is any step of other code that changes no call and keeps everything in order if it is; no thread
      disappears. */
  datatype Step = Test(id: int, t: int) | Remove(id: int) | Insert(id: int) | Other

  ghost predicate Takes(s: Sys, s': Sys, step: Step) {
    match step
    case Test(id, t) =>
      && id !in s.calls && 0 <= t < |s.threads|
      && s' == if s.threads[t].stat == Suspend then s.(calls := s.calls[id := Tested(t)]) else s
    case Remove(id) =>
      && id in s.calls && s.calls[id].Tested? && Known(s, s.calls[id].t)
      && s' == Unlinked(s, s.calls[id].t).(calls := s.calls[id := Removed(s.calls[id].t)])
    case Insert(id) =>
      && id in s.calls && s.calls[id].Removed? && Known(s, s.calls[id].t)
      && s' == Linked(s, s.calls[id].t).(calls := s.calls - {id})
    case Other =>
      && s'.calls == s.calls && |s'.threads| == |s.threads| && (InOrder(s) ==> InOrder(s'))
      && forall t :: 0 <= t < |s.threads| && s.threads[t].stat != Init ==> s'.threads[t].stat != Init
  }

  ghost predicate IsRun(run: seq<Sys>, steps: seq<Step>) {
    |run| == |steps| + 1 && forall i :: 0 <= i < |steps| ==> Takes(run[i], run[i + 1], steps[i])
  }

  /** What would have to be checked under the lock before a step: nobody has made the thread ready since. */
  ghost predicate NotReadyYet(s: Sys, step: Step) {
    (step.Remove? || step.Insert?) && step.id in s.calls && 0 <= s.calls[step.id].t < |s.threads| ==>
      s.threads[s.calls[step.id].t].stat != Ready
  }

  /** Calls are for threads that were started. */
  ghost predicate CallsOk(s: Sys) {
    forall id :: id in s.calls ==> 0 <= s.calls[id].t < |s.threads| && s.threads[s.calls[id].t].stat != Init
  }

  lemma StepSafeIff(s: Sys, s': Sys, step: Step)
    requires InOrder(s) && CallsOk(s) && Takes(s, s', step)
    ensures CallsOk(s') && (InOrder(s') <==> NotReadyYet(s, step))
  {
    hide InOrder, Known, RemoveNode, InsertBefore, Or;
    CallsKept(s, s', step);
    match step
    case Test(id, t) => CallsMatterNot(s, s');
    case Remove(id) =>
      var t := s.calls[id].t;
      RemoveSafeIff(s, t);
      CallsMatterNot(Unlinked(s, t), s');
    case Insert(id) =>
      var t := s.calls[id].t;
      InsertSafeIff(s, t);
      CallsMatterNot(Linked(s, t), s');
    case Other =>
  }

  lemma CallsKept(s: Sys, s': Sys, step: Step)
    requires CallsOk(s) && Takes(s, s', step)
    ensures CallsOk(s')
  {
    hide InOrder, Known, RemoveNode, InsertBefore, Or;
  }

  lemma CallsMatterNot(s: Sys, s': Sys)
    requires s' == s.(calls := s'.calls)
    ensures InOrder(s) <==> InOrder(s')
  {
    hide Inv, Threaded;
    if k :| Holding(s, k) { assert Holding(s', k); }
    if k :| Holding(s', k) { assert Holding(s, k); }
  }

  /** Over every interleaving of any number of calls with each other and with the rest of the kernel: everything is in
      order in every state, if and only if no call goes on after its thread was made ready by somebody else. */
  lemma {:induction false} RunSafeIff(run: seq<Sys>, steps: seq<Step>)
    requires IsRun(run, steps) && InOrder(run[0]) && run[0].calls == map[]
    ensures (forall i :: 0 <= i < |run| ==> InOrder(run[i])) <==>
            (forall i :: 0 <= i < |steps| ==> NotReadyYet(run[i], steps[i]))
  {
    hide InOrder, NotReadyYet, Takes;
    if forall i :: 0 <= i < |run| ==> InOrder(run[i]) {
      forall i | 0 <= i < |steps| ensures NotReadyYet(run[i], steps[i]) {
        OrderlyCalls(run, steps, i);
        assert Takes(run[i], run[i + 1], steps[i]);
        StepSafeIff(run[i], run[i + 1], steps[i]);
      }
    }
    if forall i :: 0 <= i < |steps| ==> NotReadyYet(run[i], steps[i]) {
      forall i | 0 <= i < |run| ensures InOrder(run[i]) { OrderlyRun(run, steps, i); }
    }
  }

  lemma {:induction false} OrderlyCalls(run: seq<Sys>, steps: seq<Step>, i: nat)
    requires IsRun(run, steps) && run[0].calls == map[] && i < |run| && forall j :: 0 <= j < |run| ==> InOrder(run[j])
    ensures CallsOk(run[i])
    decreases i
  {
    hide InOrder, Takes;
    if i > 0 {
      OrderlyCalls(run, steps, i - 1);
      assert Takes(run[i - 1], run[i], steps[i - 1]);
      StepSafeIff(run[i - 1], run[i], steps[i - 1]);
    }
  }

  lemma {:induction false} OrderlyRun(run: seq<Sys>, steps: seq<Step>, i: nat)
    requires IsRun(run, steps) && InOrder(run[0]) && run[0].calls == map[] && i < |run|
    requires forall j :: 0 <= j < |steps| ==> NotReadyYet(run[j], steps[j])
    ensures InOrder(run[i]) && CallsOk(run[i])
    decreases i
  {
    hide InOrder, NotReadyYet, Takes;
    if i > 0 {
      OrderlyRun(run, steps, i - 1);
      assert Takes(run[i - 1], run[i], steps[i - 1]);
      StepSafeIff(run[i - 1], run[i], steps[i - 1]);
    }
  }

  /** One call at a time for a thread, and nobody else who makes it ready meanwhile. */
  ghost predicate Exclusive(s: Sys, s': Sys, step: Step) {
    && (step.Test? ==> forall id :: id in s.calls ==> s.calls[id].t != step.t)
    && (step.Other? ==> forall id :: id in s'.calls && 0 <= s'.calls[id].t < |s'.threads| ==>
          s'.threads[s'.calls[id].t].stat != Ready)
  }

  /** That is enough. */
  lemma {:induction false} ExclusiveIsSafe(run: seq<Sys>, steps: seq<Step>, i: nat)
    requires IsRun(run, steps) && InOrder(run[0]) && run[0].calls == map[] && i < |run|
    requires forall j :: 0 <= j < |steps| ==> Exclusive(run[j], run[j + 1], steps[j])
    ensures InOrder(run[i]) && CallsOk(run[i]) && Waiting(run[i])
    decreases i
  {
    hide InOrder, Takes, CallsOk, Exclusive, Waiting;
    if i == 0 {
      NoCalls(run[0]);
    } else {
      ExclusiveIsSafe(run, steps, i - 1);
      assert Takes(run[i - 1], run[i], steps[i - 1]);
      assert Exclusive(run[i - 1], run[i], steps[i - 1]);
      WaitingStep(run[i - 1], run[i], steps[i - 1]);
      StepSafeIff(run[i - 1], run[i], steps[i - 1]);
    }
  }

  lemma NoCalls(s: Sys)
    requires s.calls == map[]
    ensures CallsOk(s) && Waiting(s)
  {
  }

  /** The threads with a call under way are not ready, and have one call each. */
  ghost predicate Waiting(s: Sys) {
    && (forall id :: id in s.calls && 0 <= s.calls[id].t < |s.threads| ==> s.threads[s.calls[id].t].stat != Ready)
    && (forall id, id' :: id in s.calls && id' in s.calls && id != id' ==> s.calls[id].t != s.calls[id'].t)
  }

  lemma WaitingStep(s: Sys, s': Sys, step: Step)
    requires CallsOk(s) && Waiting(s) && Takes(s, s', step) && Exclusive(s, s', step)
    ensures Waiting(s') && NotReadyYet(s, step)
  {
    hide InOrder, Known, RemoveNode, InsertBefore, Or;
  }

  // ----- two calls at once

  /** A suspended thread that is on no CPU. */
  ghost predicate Asleep(s: Sys, t: int) {
    0 <= t < |s.threads| && s.threads[t].stat == Suspend && s.threads[t].oncpu == |s.cpus| && s.calls == map[]
  }

  /** Test, test, remove, remove, insert, insert. */
  function Crossing(t: int): seq<Step> { [Test(1, t), Test(2, t), Remove(1), Remove(2), Insert(1), Insert(2)] }

  /** Test, test, and then one call after the other. */
  function Following(t: int): seq<Step> { [Test(1, t), Test(2, t), Remove(1), Insert(1), Remove(2), Insert(2)] }

  /** The state after Test(1, t), Test(2, t). */
  function BothTested(s: Sys, t: int): Sys { s.(calls := map[1 := Tested(t), 2 := Tested(t)]) }

  lemma TestedTwice(s: Sys, t: int)
    requires InOrder(s) && Asleep(s, t)
    ensures var s1, s2 := s.(calls := map[1 := Tested(t)]), BothTested(s, t);
            Takes(s, s1, Test(1, t)) && Takes(s1, s2, Test(2, t)) && InOrder(s2)
  {
    hide InOrder;
    CallsMatterNot(s, BothTested(s, t));
    assert map[][1 := Tested(t)] == map[1 := Tested(t)];
    assert map[1 := Tested(t)][2 := Tested(t)] == map[1 := Tested(t), 2 := Tested(t)];
  }

  /** A call's next step can be taken, and whether it leaves things in order. */
  lemma NextStep(s: Sys, id: int) returns (s': Sys)
    requires InOrder(s) && CallsOk(s) && id in s.calls
    ensures var t := s.calls[id].t;
            && Known(s, t) && (InOrder(s') <==> s.threads[t].stat != Ready) && CallsOk(s')
            && Takes(s, s', if s.calls[id].Tested? then Remove(id) else Insert(id))
            && s'.cpus == s.cpus && |s'.threads| == |s.threads|
            && s'.calls == (if s.calls[id].Tested? then s.calls[id := Removed(t)] else s.calls - {id})
            && (s.calls[id].Tested? ==> s'.threads == s.threads && s' == Unlinked(s, t).(calls := s'.calls))
            && (s.calls[id].Removed? && s.threads[t].oncpu == |s.cpus| ==> s'.threads[t].stat == Ready)
  {
    hide InOrder, Known, RemoveNode, InsertBefore, Or;
    var t := s.calls[id].t;
    if s.calls[id].Tested? {
      RemoveSafeIff(s, t);
      s' := Unlinked(s, t).(calls := s.calls[id := Removed(t)]);
      StepSafeIff(s, s', Remove(id));
    } else {
      InsertSafeIff(s, t);
      s' := Linked(s, t).(calls := s.calls - {id});
      StepSafeIff(s, s', Insert(id));
    }
  }

  /** Two calls that cross insert the thread twice, and then no ready list is in order. */
  lemma CrossingBreaks(s: Sys, t: int) returns (run: seq<Sys>)
    requires InOrder(s) && Asleep(s, t)
    ensures IsRun(run, Crossing(t)) && run[0] == s && InOrder(run[5]) && !InOrder(run[6])
  {
    hide InOrder, Known, Linked, Unlinked, Takes;
    TestedTwice(s, t);
    var s2 := BothTested(s, t);
    assert CallsOk(s2);
    var s3 := NextStep(s2, 1);
    var s4 := NextStep(s3, 2);
    var s5 := NextStep(s4, 1);
    var s6 := NextStep(s5, 2);
    run := [s, s.(calls := map[1 := Tested(t)]), s2, s3, s4, s5, s6];
    StepsTaken(run, Crossing(t));
  }

  lemma StepsTaken(run: seq<Sys>, steps: seq<Step>)
    requires |run| == 7 && |steps| == 6
    requires Takes(run[0], run[1], steps[0]) && Takes(run[1], run[2], steps[1]) && Takes(run[2], run[3], steps[2])
    requires Takes(run[3], run[4], steps[3]) && Takes(run[4], run[5], steps[4]) && Takes(run[5], run[6], steps[5])
    ensures IsRun(run, steps)
  {
    hide Takes;
  }

  /** A second call that runs whole behind the first leaves the ready thread out of its list for a while, and then puts
      it at the tail. */
  lemma FollowingMovesToTail(s: Sys, t: int) returns (run: seq<Sys>, k: Kernel)
    requires InOrder(s) && Asleep(s, t)
    ensures IsRun(run, Following(t)) && run[0] == s && !InOrder(run[5])
    ensures Holding(run[4], k) && Shape(k) && 0 <= t < |k.threads| && k.threads[t].stat == Ready
    ensures Holding(run[6], ChangePriority(k, t, k.threads[t].prio))
  {
    hide Holding, Known, Linked, Unlinked, Takes, ChangePriority;
    TestedTwice(s, t);
    var s2 := BothTested(s, t);
    assert CallsOk(s2);
    var s3 := NextStep(s2, 1);
    var s4 := NextStep(s3, 1);
    k :| Holding(s4, k);
    HoldingFields(s4, k);
    var s5 := NextStep(s4, 2);
    var s6 := SecondInsert(s4, k, t, s5);
    run := [s, s.(calls := map[1 := Tested(t)]), s2, s3, s4, s5, s6];
    StepsTaken(run, Following(t));
  }

  lemma HoldingFields(s: Sys, k: Kernel)
    requires Holding(s, k)
    ensures Shape(k) && k.threads == s.threads && k.cpus == s.cpus
  {
    hide Inv, Threaded;
    UseInv(k);
  }

  lemma SecondInsert(s4: Sys, k: Kernel, t: int, s5: Sys) returns (s6: Sys)
    requires Holding(s4, k) && 0 <= t < |s4.threads| && s4.threads[t].stat == Ready && Known(s4, t)
    requires s5 == Unlinked(s4, t).(calls := s5.calls) && 2 in s5.calls && s5.calls[2] == Removed(t)
    ensures Shape(k) && 0 <= k.threads[t].prio < 32 && Takes(s5, s6, Insert(2))
    ensures Holding(s6, ChangePriority(k, t, k.threads[t].prio))
  {
    hide Inv, Threaded, ChangePriority, RemoveNode, InsertBefore, Or;
    MovesToTail(s4, k, t);
    s6 := Linked(s5, t).(calls := s5.calls - {2});
  }

  lemma MovesToTail(s: Sys, k: Kernel, t: int)
    requires Holding(s, k) && 0 <= t < |s.threads| && s.threads[t].stat == Ready
    ensures Known(s, t) && Known(Unlinked(s, t), t) && Shape(k) && 0 <= k.threads[t].prio < 32
    ensures Holding(Linked(Unlinked(s, t), t), ChangePriority(k, t, k.threads[t].prio))
  {
    hide Inv, Threaded, RemoveNode, InsertBefore, Drop, Or, AndNot, OneHot;
    HoldingKnown(s, k, t);
    UseInv(k);
    PlaceOf(k, t);
    MaskOf(k, t);
    ReadyIsHome(k, t);
    ChangePriorityInv(k, t, k.threads[t].prio);
    var th, n := k.threads[t], |k.threads|;
    var w, p := th.bind, th.prio;
    var q := Dequeue(k.queues[w], p, th.mask, t);
    assert InQueue(k.queues, w, p, t);
    Unlinks(s.next, s.prev, k.queues, n, w, p, t, q);
    var (next, prev) := RemoveNode(s.next, s.prev, t);
    var qs := k.queues[w := q];
    NodeKnown(next, prev, qs, n, t);
    AppendThreaded(next, prev, qs, n, w, p, t, Enqueue(q, p, th.mask, t));
    OrAgain(k.queues[w].group, th.mask);
    var k' := ChangePriority(k, t, p);
    assert k'.queues == qs[w := Enqueue(q, p, th.mask, t)];
    assert k'.threads == k.threads;
  }

  lemma MaskOf(k: Kernel, t: int)
    requires Inv(k) && 0 <= t < |k.threads| && k.threads[t].stat != Init
    ensures k.threads[t].mask == OneHot(k.threads[t].prio)
  {
    assert ThreadOk(k, t);
  }

  lemma OrAgain(g: Word, m: Word)
    ensures Or(AndNot(g, m), m) == Or(g, m)
  {
  }

  // ----- and this can happen

  /** Thread a of a booted kernel is started and suspended. */
  function StartAndSuspend(a: int): seq<Scheduler.Step> { [Lock] + [DoStart(a)] + [DoSuspend(a)] + [Unlock] }

  /** The links of lists that are all empty: every node points to itself. */
  function Loops(lo: int, hi: int): (r: map<int, int>)
    ensures forall x :: x in r <==> lo <= x < hi
    ensures forall x :: x in r ==> r[x] == x
    decreases hi - lo
  {
    if hi <= lo then map[] else Loops(lo, hi - 1)[hi - 1 := hi - 1]
  }

  function Boot(k: Kernel): Sys {
    var links := Loops(-1 - 32 * |k.queues|, |k.threads|);
    Sys(k.threads, k.cpus, seq(|k.queues|, w requires 0 <= w < |k.queues| => k.queues[w].group), links, links, k.lock,
        k.critLock, map[])
  }

  lemma EmptyThreaded(k: Kernel)
    requires Inv(k) && forall w :: 0 <= w < |k.queues| ==> k.queues[w].table == seq(32, _ => [])
    ensures Holding(Boot(k), k)
  {
    hide Inv;
    var links, qs := Loops(-1 - 32 * |k.queues|, |k.threads|), k.queues;
    forall w, p | 0 <= w < |qs| && 0 <= p < 32 ensures ListAt(links, links, qs, w, p) {
      EmptyRing(links, HeadOf(w, p));
    }
    assert forall w, p, t :: !InQueue(qs, w, p, t);
  }

  lemma EmptyRing(links: map<int, int>, h: int)
    requires h in links && links[h] == h
    ensures IsList(links, links, h, [])
  {
    assert [h] + [] == [h];
  }

  /** From every booted kernel with a thread not started yet there is a run to a state in which it is asleep. */
  lemma AsleepIsReached(k: Kernel, a: int) returns (k': Kernel)
    requires Booted(k) && |k.cpus| > 0 && |k.cpus| <= a < |k.threads|
    ensures Reaches(k, 0, StartAndSuspend(a), k') && InOrder(Boot(k')) && Asleep(Boot(k'), a)
  {
    hide Inv, Reaches, Threaded, Booted;
    k' := SuspendedIsReached(k, a);
    EmptyThreaded(k');
    assert Holding(Boot(k'), k');
  }

  lemma SuspendedIsReached(k: Kernel, a: int) returns (k': Kernel)
    requires Booted(k) && |k.cpus| > 0 && |k.cpus| <= a < |k.threads|
    ensures Reaches(k, 0, StartAndSuspend(a), k') && Inv(k') && |k'.threads| == |k.threads| && |k'.cpus| == |k.cpus|
    ensures forall w :: 0 <= w < |k'.queues| ==> k'.queues[w].table == seq(32, _ => [])
    ensures k'.threads[a].stat == Suspend && k'.threads[a].oncpu == |k'.cpus|
  {
    hide Inv, Reaches, StartThread, SuspendThread;
    BootedInv(k);
    assert NewThread(k.threads[0], |k.cpus|);
    OneStep(k, 0, Lock);
    var k1 := CpusLock(k, 0);
    StartsReady(k1, a);
    OneStep(k1, 0, DoStart(a));
    var k2 := StartThread(k1, a);
    EmptyAgain(k1, k2, a);
    OneStep(k2, 0, DoSuspend(a));
    var k3 := SuspendThread(k2, a);
    UseInv(k3);
    OneStep(k3, 0, Unlock);
    k' := CpusUnlock(k3, 0);
    ReachesOn(k, 0, [Lock], k1, [DoStart(a)], k2);
    ReachesOn(k, 0, [Lock] + [DoStart(a)], k2, [DoSuspend(a)], k3);
    ReachesOn(k, 0, [Lock] + [DoStart(a)] + [DoSuspend(a)], k3, [Unlock], k');
  }

  /** So two calls of rt_thread_resume can cross, and then the ready lists are broken. */
  lemma ResumesCanCross(k: Kernel, a: int) returns (k': Kernel, run: seq<Sys>)
    requires Booted(k) && |k.cpus| > 0 && |k.cpus| <= a < |k.threads|
    ensures Reaches(k, 0, StartAndSuspend(a), k')
    ensures IsRun(run, Crossing(a)) && run[0] == Boot(k') && !InOrder(run[6])
  {
    hide Reaches, InOrder, Booted;
    k' := AsleepIsReached(k, a);
    run := CrossingBreaks(Boot(k'), a);
  }

  /** A thread that is started and suspended leaves the lists as they were. */
  lemma EmptyAgain(k1: Kernel, k2: Kernel, a: int)
    requires Inv(k1) && Inv(k2) && 0 <= a < |k1.threads| && k1.threads[a].stat == Init
    requires 0 <= k1.threads[a].initPrio < 32
    requires k2 == StartThread(k1, a) && forall w :: 0 <= w < |k1.queues| ==> k1.queues[w].table == seq(32, _ => [])
    ensures var k3 := SuspendThread(k2, a);
            && |k3.queues| == |k1.queues| && |k3.threads| == |k1.threads| && k3.cpus == k1.cpus && k3.lock == k1.lock
            && (forall w :: 0 <= w < |k1.queues| ==> k3.queues[w].table == seq(32, _ => []))
            && k3.threads == k1.threads[a := k3.threads[a]] && k3.threads[a].stat == Suspend
            && k3.threads[a].oncpu == |k1.cpus|
  {
    StartsReady(k1, a);
    PlaceOf(k2, a);
    assert Drop([] + [a], a) == [];
  }
}
