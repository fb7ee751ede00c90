/** What message queues promise their users (ipc.c): what each section returns, and that a message goes from the
    sender's buffer to the receiver's through all the sections of all the others. */
module MessageFlow {
  import opened Ring
  import opened IpcList
  import opened MessageQueue

  // ----- what the sections return

  /** A send is refused as bad exactly if the message is too long, and then nothing changes.  It gets a slot exactly if
      one is free, finds the queue full exactly if none is and it may not wait, and else joins the waiting senders.
      With a slot goes the buffer the caller gave. */
  lemma SendTakeOutcomes(s: State, t: int, buf: seq<int>, noWait: bool, prio: int -> int, flag: Flag)
    ensures var (s', r) := SendTake(s, t, buf, noWait, prio, flag);
            && (r == Bad <==> |buf| > s.msgSize) && (r == Bad ==> s' == s)
            && (r == Done <==> |buf| <= s.msgSize && s.free != [])
            && (r == Full <==> |buf| <= s.msgSize && s.free == [] && noWait)
            && (r == Done ==> && t in s'.phase && s.free == [s'.phase[t].slot] + s'.free
                              && s'.phase == s.phase[t := Taken(s'.phase[t].slot, buf, false)]
                              && s'.senders == s.senders)
            && (r != Done ==> s'.phase == s.phase && s'.free == s.free)
            && (r == Full ==> s'.senders == s.senders)
            && (r == Waits ==> multiset(s'.senders) == multiset(s.senders) + multiset{t})
            && s'.queue == s.queue && s'.data == s.data && s'.msg == s.msg && s'.receivers == s.receivers
  {
    if flag == Prio { InsertMembers(s.senders, prio, t); }
  }

  /** An urgent send never waits. */
  lemma UrgentTakeOutcomes(s: State, t: int, buf: seq<int>)
    ensures var (s', r) := UrgentTake(s, t, buf);
            && r != Waits && (r == Bad <==> |buf| > s.msgSize) && (r == Full <==> |buf| <= s.msgSize && s.free == [])
            && (r != Done ==> s' == s)
            && (r == Done ==> && t in s'.phase && s.free == [s'.phase[t].slot] + s'.free
                              && s' == s.(free := s'.free,
                                          phase := s.phase[t := Taken(s'.phase[t].slot, buf, true)]))
  {
  }

  /** A receive gets the first message exactly if there is one, finds the queue empty exactly if there is none and it
      may not wait, and else joins the waiting receivers. */
  lemma RecvTakeOutcomes(s: State, t: int, noWait: bool, prio: int -> int, flag: Flag)
    requires Inv(s) && MayRecv(s, t)
    ensures forall k :: 0 <= k < |s.queue| ==> 0 <= s.queue[k] < |s.msg|
    ensures var (s', r) := RecvTake(s, t, noWait, prio, flag);
            && r != Bad && (r == Done <==> s.queue != []) && (r == Full <==> s.queue == [] && noWait)
            && (r == Done ==> && Contents(s) != [] && t in s'.phase && s.queue == [s'.phase[t].slot] + s'.queue
                              && s'.phase == s.phase[t := Popped(s'.phase[t].slot, Contents(s)[0])]
                              && s'.receivers == s.receivers)
            && (r != Done ==> s'.phase == s.phase && s'.queue == s.queue)
            && (r == Full ==> s'.receivers == s.receivers)
            && (r == Waits ==> multiset(s'.receivers) == multiset(s.receivers) + multiset{t})
            && s'.free == s.free && s'.data == s.data && s'.msg == s.msg && s'.senders == s.senders
  {
    hide SlotsOk, RolesOk, NoLostWakeup;
    forall k | 0 <= k < |s.queue| ensures 0 <= s.queue[k] < |s.msg| { assert FilledAt(s, s.queue[k]); }
    if flag == Prio { InsertMembers(s.receivers, prio, t); }
  }

  /** The copy puts the buffer into the slot, and the call goes on with the same slot, buffer and urgency. */
  lemma FillCopies(s: State, t: int)
    requires Inv(s) && t in s.phase && s.phase[t].Taken?
    ensures 0 <= s.phase[t].slot < |s.data| == |s.msg| && |s.phase[t].buf| <= |s.data[s.phase[t].slot]| == s.msgSize
    ensures var s', Taken(x, buf, urgent) := Fill(s, t), s.phase[t];
            && t in s'.phase && s'.phase == s.phase[t := Filled(x, buf, urgent)] && |s'.data| == |s.data|
            && buf <= s'.data[x] && |s'.data[x]| == s.msgSize
            && forall y :: 0 <= y < |s.data| && y != x ==> s'.data[y] == s.data[y]
  {
    hide Inv;
    FillInv(s, t);
  }

  /** The first of the list, if there is one, leaves it and is woken. */
  ghost predicate FirstWoken(list: seq<int>, list': seq<int>, woken: set<int>, woken': set<int>) {
    if list == [] then list' == [] && woken' == woken
    else list == [list[0]] + list' && woken' == woken + {list[0]}
  }

  /** A message that is linked wakes the first waiting receiver, a slot that is given back the first waiting sender. */
  lemma SectionsWake(s: State, t: int)
    requires t in s.phase
    ensures s.phase[t].Filled? ==>
              var s' := LinkMsg(s, t);
              && FirstWoken(s.receivers, s'.receivers, s.wokenReceivers, s'.wokenReceivers) && s'.phase == s.phase - {t}
              && s'.free == s.free && s'.senders == s.senders
    ensures s.phase[t].Popped? ==>
              var s' := GiveBack(s, t);
              && FirstWoken(s.senders, s'.senders, s.wokenSenders, s'.wokenSenders) && s'.phase == s.phase - {t}
              && s'.free == [s.phase[t].slot] + s.free && s'.queue == s.queue && s'.receivers == s.receivers
  {
  }

  lemma TimeoutLeaves(s: State, t: int)
    requires Inv(s)
    ensures var s' := Timeout(s, t);
            && (forall x :: x in s'.receivers <==> x in s.receivers && x != t)
            && (forall x :: x in s'.senders <==> x in s.senders && x != t)
            && s' == s.(receivers := s'.receivers, senders := s'.senders)
  {
    hide Drop, Distinct, SlotsOk, DataOk;
    DropKeeps(s.receivers, t);
    DropKeeps(s.senders, t);
  }

  /** A reset leaves nobody waiting and nothing queued; all slots that were queued are free, and calls under way keep
      theirs. */
  lemma ResetEmpties(s: State)
    ensures var s' := Cleared(s);
            && s'.receivers == [] && s'.senders == [] && s'.queue == [] && s'.phase == s.phase && s'.data == s.data
            && multiset(s'.free) == multiset(s.free) + multiset(s.queue)
  {
    ReversedMembers(s.queue);
  }

  lemma {:induction false} ReversedMembers(l: seq<int>)
    ensures multiset(Reversed(l)) == multiset(l)
  {
    if l != [] {
      ReversedMembers(l[1..]);
      assert l == [l[0]] + l[1..];
    }
  }

  // ----- from the sender's buffer to the receiver's

  /** Nothing in steps a to b is done by thread u itself. */
  ghost predicate Away(steps: seq<Step>, a: nat, b: nat, u: int) {
    b <= |steps| && forall n :: a <= n < b ==> steps[n].DoReset? || steps[n].DoTimeout? || steps[n].t != u
  }

  /** A call under way stays as it is through everybody else's sections. */
  lemma {:induction false} PhaseStays(run: seq<State>, steps: seq<Step>, prios: seq<int -> int>, flag: Flag, slots: nat,
                                      size: nat, a: nat, b: nat, u: int)
    requires IsRun(run, steps, prios, flag) && run[0] == Init(slots, size) && a <= b && Away(steps, a, b, u)
    requires u in run[a].phase
    ensures u in run[b].phase && run[b].phase[u] == run[a].phase[u]
    decreases b
  {
    hide Inv, Apply;
    if a < b {
      PhaseStays(run, steps, prios, flag, slots, size, a, b - 1, u);
      RunInv(run, steps, prios, flag, slots, size, b - 1);
      assert Takes(run[b - 1], run[b], steps[b - 1], prios[b - 1], flag);
      PhaseKept(run[b - 1], steps[b - 1], prios[b - 1], flag, u);
    }
  }

  /** Over every interleaving: a thread that gets a slot for its buffer at step i, fills it at j and links it at l, adds
      exactly that buffer to the queue, at the tail, or at the head if it is urgent. */
  lemma SentIsQueued(run: seq<State>, steps: seq<Step>, prios: seq<int -> int>, flag: Flag, slots: nat, size: nat,
                     i: nat, j: nat, l: nat, t: int, buf: seq<int>)
    requires IsRun(run, steps, prios, flag) && run[0] == Init(slots, size) && i < j < l < |steps|
    requires (steps[i].DoSendTake? || steps[i].DoUrgentTake?) && steps[i].t == t && steps[i].buf == buf
    requires steps[j] == DoFill(t) && steps[l] == DoLink(t) && Away(steps, i + 1, j, t) && Away(steps, j + 1, l, t)
    ensures DataOk(run[l]) && DataOk(run[l + 1])
    ensures Contents(run[l + 1]) ==
            if steps[i].DoUrgentTake? then [buf] + Contents(run[l]) else Contents(run[l]) + [buf]
  {
    hide Inv, Apply, Contents;
    RunInv(run, steps, prios, flag, slots, size, i);
    RunInv(run, steps, prios, flag, slots, size, j);
    RunInv(run, steps, prios, flag, slots, size, l + 1);
    HasData(run[l]);
    HasData(run[l + 1]);
    assert Takes(run[i], run[i + 1], steps[i], prios[i], flag);
    assert Takes(run[j], run[j + 1], steps[j], prios[j], flag);
    TookSlot(run, steps, prios, flag, slots, size, i, j, t, buf);
    FilledSlot(run[j], t, prios[j], flag);
    PhaseStays(run, steps, prios, flag, slots, size, j + 1, l, t);
  }

  lemma HasData(s: State)
    requires Inv(s)
    ensures DataOk(s)
  {
  }

  lemma FilledSlot(s: State, t: int, prio: int -> int, flag: Flag)
    requires Inv(s) && Enabled(s, DoFill(t))
    ensures var s' := Apply(s, DoFill(t), prio, flag);
            t in s'.phase && s'.phase[t] == Filled(s.phase[t].slot, s.phase[t].buf, s.phase[t].urgent)
  {
    hide Inv;
    FillCopies(s, t);
  }

  /** The thread that is about to fill its slot at j took it at i for the buffer it gave then. */
  lemma TookSlot(run: seq<State>, steps: seq<Step>, prios: seq<int -> int>, flag: Flag, slots: nat, size: nat,
                 i: nat, j: nat, t: int, buf: seq<int>)
    requires IsRun(run, steps, prios, flag) && run[0] == Init(slots, size) && i < j < |steps|
    requires (steps[i].DoSendTake? || steps[i].DoUrgentTake?) && steps[i].t == t && steps[i].buf == buf
    requires steps[j] == DoFill(t) && Away(steps, i + 1, j, t)
    ensures t in run[j].phase && run[j].phase[t].Taken? && run[j].phase[t].buf == buf
    ensures run[j].phase[t].urgent == steps[i].DoUrgentTake?
  {
    hide Inv, SendTake, UrgentTake;
    RunInv(run, steps, prios, flag, slots, size, i);
    assert Takes(run[i], run[i + 1], steps[i], prios[i], flag);
    assert Takes(run[j], run[j + 1], steps[j], prios[j], flag);
    if steps[i].DoSendTake? {
      SendTakeOutcomes(run[i], t, buf, steps[i].noWait, prios[i], flag);
    } else {
      UrgentTakeOutcomes(run[i], t, buf);
    }
    if t in run[i + 1].phase {
      PhaseStays(run, steps, prios, flag, slots, size, i + 1, j, t);
    } else {
      StillIdle(run, steps, prios, flag, slots, size, i + 1, j, t);
    }
  }

  /** A thread that has no call under way gets none through others. */
  lemma {:induction false} StillIdle(run: seq<State>, steps: seq<Step>, prios: seq<int -> int>, flag: Flag, slots: nat,
                                     size: nat, a: nat, b: nat, u: int)
    requires IsRun(run, steps, prios, flag) && run[0] == Init(slots, size) && a <= b && Away(steps, a, b, u)
    requires u !in run[a].phase
    ensures u !in run[b].phase
    decreases b
  {
    hide Inv;
    if a < b {
      StillIdle(run, steps, prios, flag, slots, size, a, b - 1, u);
      RunInv(run, steps, prios, flag, slots, size, b - 1);
      assert Takes(run[b - 1], run[b], steps[b - 1], prios[b - 1], flag);
      IdleStep(run[b - 1], steps[b - 1], prios[b - 1], flag, u);
    }
  }

  lemma IdleStep(s: State, step: Step, prio: int -> int, flag: Flag, u: int)
    requires Inv(s) && Enabled(s, step) && u !in s.phase && (step.DoReset? || step.DoTimeout? || step.t != u)
    ensures u !in Apply(s, step, prio, flag).phase
  {
    hide Inv;
  }

  /** Over every interleaving: a receive that finds the queue not empty at step i has the first message of that moment,
      and whenever it copies later, its buffer gets the bytes of that message, as many as both sizes allow. */
  lemma ReceivedIsFirst(run: seq<State>, steps: seq<Step>, prios: seq<int -> int>, flag: Flag, slots: nat, size: nat,
                        i: nat, l: nat, t: int, n: nat)
    requires IsRun(run, steps, prios, flag) && run[0] == Init(slots, size) && i < l < |run|
    requires steps[i].DoRecvTake? && steps[i].t == t && run[i].queue != [] && Away(steps, i + 1, l, t)
    ensures DataOk(run[i]) && Contents(run[i]) != [] && t in run[l].phase
    ensures 0 <= run[l].phase[t].slot < |run[l].data| && |run[l].data[run[l].phase[t].slot]| == run[l].msgSize == size
    ensures var got, msg := CopyOut(run[l], t, n), Contents(run[i])[0];
            |got| == (if n > size then size else n) && if n <= |msg| then got == msg[..n] else msg <= got
  {
    hide Inv, CopyOut, RecvTake;
    RunInv(run, steps, prios, flag, slots, size, i);
    RunInv(run, steps, prios, flag, slots, size, l);
    HasData(run[i]);
    assert Takes(run[i], run[i + 1], steps[i], prios[i], flag);
    RecvTakeOutcomes(run[i], t, steps[i].noWait, prios[i], flag);
    PhaseStays(run, steps, prios, flag, slots, size, i + 1, l, t);
    CopyOutSent(run[l], t, n);
  }
}
