/** Message queues (ipc.c): a pool of slots that move between a free list, the queue, and the threads
    that copy into or out of them outside any critical section.

    Sending takes a free slot in one critical section, fills it, and links it in another; receiving
    unlinks a slot in one, copies it out, and gives it back in another.  A state is what one such
    section leaves for the next, with any number of threads in between. */
module MessageQueue {
  import opened Ring
  import opened IpcList
  import opened WaitRing
  import Nodes

  /** What a thread is in the middle of. */
  datatype Phase = Taken(slot: int, buf: seq<int>, urgent: bool)
                 | Filled(slot: int, buf: seq<int>, urgent: bool)
                 | Popped(slot: int, msg: seq<int>)

  /** `msg[x]` is the message that was last copied into slot x; it is not part of the queue object. */
  datatype State = State(msgSize: nat, data: seq<seq<int>>, msg: seq<seq<int>>, free: seq<int>, queue: seq<int>,
                         phase: map<int, Phase>, receivers: seq<int>, senders: seq<int>,
                         wokenReceivers: set<int>, wokenSenders: set<int>)

  datatype Outcome = Done | Waits | Full | Bad

  // ----- the critical sections

  /** First section of rt_mq_send_wait. */
  function SendTake(s: State, t: int, buf: seq<int>, noWait: bool, prio: int -> int, flag: Flag): (State, Outcome) {
    var s1 := s.(wokenSenders := s.wokenSenders - {t});
    if |buf| > s.msgSize then (s, Bad)
    else if s.free == [] then
      if noWait then (s1, Full) else (s1.(senders := Enlist(s.senders, prio, t, flag)), Waits)
    else (s1.(free := s.free[1..], phase := s.phase[t := Taken(s.free[0], buf, false)]), Done)
  }

  /** First section of rt_mq_urgent, which never waits. */
  function UrgentTake(s: State, t: int, buf: seq<int>): (State, Outcome) {
    if |buf| > s.msgSize then (s, Bad)
    else if s.free == [] then (s, Full)
    else (s.(free := s.free[1..], phase := s.phase[t := Taken(s.free[0], buf, true)]), Done)
  }

  /** The copy between the two sections of a send. */
  function Fill(s: State, t: int): State
    requires t in s.phase && s.phase[t].Taken? && 0 <= s.phase[t].slot < |s.data| == |s.msg|
    requires |s.phase[t].buf| <= |s.data[s.phase[t].slot]|
  {
    var Taken(x, buf, urgent) := s.phase[t];
    s.(data := s.data[x := buf + s.data[x][|buf|..]], msg := s.msg[x := buf],
       phase := s.phase[t := Filled(x, buf, urgent)])
  }

  function WakeReceiver(s: State): State {
    if s.receivers == [] then s
    else s.(receivers := s.receivers[1..], wokenReceivers := s.wokenReceivers + {s.receivers[0]})
  }

  function WakeSender(s: State): State {
    if s.senders == [] then s
    else s.(senders := s.senders[1..], wokenSenders := s.wokenSenders + {s.senders[0]})
  }

  /** Second section of a send: the slot goes to the tail, or to the head if it is urgent. */
  function LinkMsg(s: State, t: int): State
    requires t in s.phase && s.phase[t].Filled?
  {
    var Filled(x, buf, urgent) := s.phase[t];
    WakeReceiver(s.(queue := if urgent then [x] + s.queue else s.queue + [x], phase := s.phase - {t}))
  }

  /** First section of rt_mq_recv. */
  function RecvTake(s: State, t: int, noWait: bool, prio: int -> int, flag: Flag): (State, Outcome)
    requires forall k :: 0 <= k < |s.queue| ==> 0 <= s.queue[k] < |s.msg|
  {
    var s1 := s.(wokenReceivers := s.wokenReceivers - {t});
    if s.queue == [] then
      if noWait then (s1, Full) else (s1.(receivers := Enlist(s.receivers, prio, t, flag)), Waits)
    else (s1.(queue := s.queue[1..], phase := s.phase[t := Popped(s.queue[0], s.msg[s.queue[0]])]), Done)
  }

  /** What rt_mq_recv copies out of the slot it holds. */
  function CopyOut(s: State, t: int, size: nat): seq<int>
    requires t in s.phase && 0 <= s.phase[t].slot < |s.data| && |s.data[s.phase[t].slot]| == s.msgSize
  {
    s.data[s.phase[t].slot][..if size > s.msgSize then s.msgSize else size]
  }

  /** Second section of rt_mq_recv. */
  function GiveBack(s: State, t: int): State
    requires t in s.phase
  {
    WakeSender(s.(free := [s.phase[t].slot] + s.free, phase := s.phase - {t}))
  }

  function Reversed(l: seq<int>): (r: seq<int>)
    ensures |r| == |l| && forall x :: x in r <==> x in l
  {
    if l == [] then [] else Reversed(l[1..]) + [l[0]]
  }

  /** RT_IPC_CMD_RESET: all waiters are sent off with an error and every queued slot becomes free. */
  function Cleared(s: State): State {
    s.(receivers := [], senders := [], free := Reversed(s.queue) + s.free, queue := [])
  }

  function Timeout(s: State, t: int): State {
    s.(receivers := Drop(s.receivers, t), senders := Drop(s.senders, t))
  }

  function Init(slots: nat, msgSize: nat): State {
    State(msgSize, seq(slots, _ => seq(msgSize, _ => 0)), seq(slots, _ => []), seq(slots, i => slots - 1 - i), [],
          map[], [], [], {}, {})
  }

  // ----- the invariant

  ghost predicate Held(phase: map<int, Phase>, x: int) {
    exists t :: t in phase && phase[t].slot == x
  }

  ghost predicate OneHolder(phase: map<int, Phase>) {
    forall t, u :: t in phase && u in phase && t != u ==> phase[t].slot != phase[u].slot
  }

  /** Slot x is in exactly one place. */
  ghost predicate SlotOk(s: State, x: int) {
    && (0 <= x < |s.data| <==> x in s.free || x in s.queue || Held(s.phase, x))
    && !(x in s.free && x in s.queue) && !(x in s.free && Held(s.phase, x)) && !(x in s.queue && Held(s.phase, x))
  }

  ghost predicate SlotsOk(s: State) {
    && Distinct(s.free) && Distinct(s.queue) && OneHolder(s.phase)
    && forall x :: SlotOk(s, x)
  }

  /** Slot x starts with the message that was last sent through it. */
  ghost predicate FilledAt(s: State, x: int) {
    0 <= x < |s.data| && x < |s.msg| && s.msg[x] <= s.data[x]
  }

  ghost predicate PhaseOk(s: State, t: int)
    requires t in s.phase
  {
    match s.phase[t]
    case Taken(x, buf, _) => |buf| <= s.msgSize
    case Filled(x, buf, _) => FilledAt(s, x) && s.msg[x] == buf
    case Popped(x, msg) => FilledAt(s, x) && s.msg[x] == msg
  }

  ghost predicate DataOk(s: State) {
    && |s.msg| == |s.data|
    && (forall x :: 0 <= x < |s.data| ==> |s.data[x]| == s.msgSize)
    && (forall k :: 0 <= k < |s.queue| ==> FilledAt(s, s.queue[k]))
    && (forall t :: t in s.phase ==> PhaseOk(s, t))
  }

  /** Each thread waits or is on its way back on one side, or is between two sections. */
  ghost predicate RoleOk(s: State, t: int) {
    && (t in s.receivers ==> t !in s.senders && t !in s.wokenReceivers && t !in s.wokenSenders && t !in s.phase)
    && (t in s.senders ==> t !in s.wokenReceivers && t !in s.wokenSenders && t !in s.phase)
    && (t in s.wokenReceivers ==> t !in s.wokenSenders && t !in s.phase)
    && (t in s.wokenSenders ==> t !in s.phase)
  }

  ghost predicate RolesOk(s: State) {
    Distinct(s.receivers) && Distinct(s.senders) && forall t :: RoleOk(s, t)
  }

  ghost predicate NoLostWakeup(s: State) {
    && (s.receivers != [] ==> |s.queue| <= |s.wokenReceivers|)
    && (s.senders != [] ==> |s.free| <= |s.wokenSenders|)
  }

  ghost predicate Inv(s: State) { SlotsOk(s) && DataOk(s) && RolesOk(s) && NoLostWakeup(s) }

  /** The queue as a user sees it: the messages in order. */
  ghost function Contents(s: State): seq<seq<int>>
    requires DataOk(s)
  {
    seq(|s.queue|, i requires 0 <= i < |s.queue| => s.msg[s.queue[i]])
  }

  // ----- slots

  lemma HoldsOneMore(p: map<int, Phase>, t: int, ph: Phase)
    requires OneHolder(p) && t !in p && !Held(p, ph.slot)
    ensures OneHolder(p[t := ph]) && forall x :: Held(p[t := ph], x) <==> Held(p, x) || x == ph.slot
  {
    var p' := p[t := ph];
    assert p'[t] == ph;
    forall x ensures Held(p', x) <==> Held(p, x) || x == ph.slot {
      if Held(p, x) {
        var u :| u in p && p[u].slot == x;
        assert u in p' && p'[u].slot == x;
      }
      if Held(p', x) && x != ph.slot {
        var u :| u in p' && p'[u].slot == x;
        assert u in p && p[u].slot == x;
      }
    }
  }

  lemma HoldsOneLess(p: map<int, Phase>, t: int)
    requires OneHolder(p) && t in p
    ensures OneHolder(p - {t}) && forall x :: Held(p - {t}, x) <==> Held(p, x) && x != p[t].slot
  {
    var p' := p - {t};
    forall x ensures Held(p', x) <==> Held(p, x) && x != p[t].slot {
      if Held(p, x) && x != p[t].slot {
        var u :| u in p && p[u].slot == x;
        assert u in p' && p'[u].slot == x;
      }
      if Held(p', x) {
        var u :| u in p' && p'[u].slot == x;
        assert u in p && p[u].slot == x;
      }
    }
  }

  lemma HoldsSame(p: map<int, Phase>, t: int, ph: Phase)
    requires OneHolder(p) && t in p && p[t].slot == ph.slot
    ensures OneHolder(p[t := ph]) && forall x :: Held(p[t := ph], x) <==> Held(p, x)
  {
    HoldsOneLess(p, t);
    HoldsOneMore(p - {t}, t, ph);
    assert (p - {t})[t := ph] == p[t := ph];
    assert Held(p, ph.slot);
  }

  lemma HeldBy(s: State, t: int)
    requires SlotsOk(s) && t in s.phase
    ensures Held(s.phase, s.phase[t].slot) && 0 <= s.phase[t].slot < |s.data|
    ensures s.phase[t].slot !in s.free && s.phase[t].slot !in s.queue
  {
    assert SlotOk(s, s.phase[t].slot);
  }

  /** A slot leaves the free list or the queue for a thread's hands. */
  lemma GrabSlots(s: State, t: int, ph: Phase, s': State)
    requires SlotsOk(s) && t !in s.phase && s'.phase == s.phase[t := ph] && |s'.data| == |s.data|
    requires || (s.free != [] && ph.slot == s.free[0] && s'.free == s.free[1..] && s'.queue == s.queue)
             || (s.queue != [] && ph.slot == s.queue[0] && s'.queue == s.queue[1..] && s'.free == s.free)
    ensures SlotsOk(s')
  {
    hide Distinct, Held, OneHolder;
    assert SlotOk(s, ph.slot);
    HoldsOneMore(s.phase, t, ph);
    if s.free != [] { DistinctTail(s.free); }
    if s.queue != [] { DistinctTail(s.queue); }
    forall x ensures SlotOk(s', x) {
      assert SlotOk(s, x);
    }
  }

  /** A slot goes from a thread's hands to an end of one of the lists. */
  lemma DropSlots(s: State, t: int, s': State)
    requires SlotsOk(s) && t in s.phase && s'.phase == s.phase - {t} && |s'.data| == |s.data|
    requires var x := s.phase[t].slot;
             || (s'.queue == s.queue && s'.free == [x] + s.free)
             || (s'.free == s.free && (s'.queue == [x] + s.queue || s'.queue == s.queue + [x]))
    ensures SlotsOk(s')
  {
    hide Held, OneHolder;
    HeldBy(s, t);
    HoldsOneLess(s.phase, t);
    forall x ensures SlotOk(s', x) {
      assert SlotOk(s, x);
    }
  }

  lemma {:induction false} ReversedDistinct(l: seq<int>)
    requires Distinct(l)
    ensures Distinct(Reversed(l))
  {
    if l != [] {
      DistinctTail(l);
      ReversedDistinct(l[1..]);
    }
  }

  lemma ClearedSlots(s: State)
    requires SlotsOk(s)
    ensures SlotsOk(Cleared(s))
  {
    ReversedDistinct(s.queue);
    var s' := Cleared(s);
    assert Distinct(s'.free) by {
      forall i, j | 0 <= i < j < |s'.free| ensures s'.free[i] != s'.free[j] {
        assert SlotOk(s, s'.free[i]);
      }
    }
    forall x ensures SlotOk(s', x) {
      assert SlotOk(s, x);
    }
  }

  // ----- each section keeps the invariant

  /** `t` is not waiting, woken on the other side, or in the middle of a call. */
  ghost predicate MaySend(s: State, t: int) {
    t !in s.receivers && t !in s.senders && t !in s.wokenReceivers && t !in s.phase
  }
  ghost predicate MayRecv(s: State, t: int) {
    t !in s.receivers && t !in s.senders && t !in s.wokenSenders && t !in s.phase
  }
  ghost predicate Idle(s: State, t: int) { MaySend(s, t) && t !in s.wokenSenders }

  lemma CardMinus(a: set<int>, t: int)
    ensures |a - {t}| == if t in a then |a| - 1 else |a|
  {
    if t !in a { assert a - {t} == a; }
  }

  lemma SendTakeInv(s: State, t: int, buf: seq<int>, noWait: bool, prio: int -> int, flag: Flag)
    requires Inv(s) && MaySend(s, t)
    ensures Inv(SendTake(s, t, buf, noWait, prio, flag).0)
  {
    hide Enlist, SlotsOk, DataOk, RolesOk, NoLostWakeup;
    var s' := SendTake(s, t, buf, noWait, prio, flag).0;
    SameSlots(s, s');
    if s'.phase != s.phase { GrabSlots(s, t, s'.phase[t], s'); }
    SendTakeRoles(s, t, buf, noWait, prio, flag);
    SendTakeWakes(s, t, buf, noWait, prio, flag);
    assert DataOk(s);
    SameData(s, s', t);
  }

  lemma SendTakeRoles(s: State, t: int, buf: seq<int>, noWait: bool, prio: int -> int, flag: Flag)
    requires RolesOk(s) && MaySend(s, t)
    ensures RolesOk(SendTake(s, t, buf, noWait, prio, flag).0)
  {
    hide Enlist, Distinct;
    EnlistMembers(s.senders, prio, t, flag);
    forall x ensures RoleOk(SendTake(s, t, buf, noWait, prio, flag).0, x) { assert RoleOk(s, x); }
  }

  lemma SendTakeWakes(s: State, t: int, buf: seq<int>, noWait: bool, prio: int -> int, flag: Flag)
    requires NoLostWakeup(s)
    ensures NoLostWakeup(SendTake(s, t, buf, noWait, prio, flag).0)
  {
    hide Enlist;
    EnlistMembers(s.senders, prio, t, flag);
    CardMinus(s.wokenSenders, t);
  }

  lemma SameSlots(s: State, s': State)
    requires SlotsOk(s)
    ensures s'.data == s.data && s'.free == s.free && s'.queue == s.queue && s'.phase == s.phase ==> SlotsOk(s')
  {
    if s'.data == s.data && s'.free == s.free && s'.queue == s.queue && s'.phase == s.phase {
      forall x ensures SlotOk(s', x) { assert SlotOk(s, x); }
    }
  }

  /** The contents of the slots do not change, and no more slots are queued. */
  lemma SameData(s: State, s': State, t: int)
    requires DataOk(s) && s'.data == s.data && s'.msg == s.msg && s'.msgSize == s.msgSize
    requires forall u :: u in s'.phase && u != t ==> u in s.phase && s'.phase[u] == s.phase[u]
    requires t in s'.phase ==> PhaseOk(s', t)
    requires forall k :: 0 <= k < |s'.queue| ==> s'.queue[k] in s.queue || FilledAt(s, s'.queue[k])
    ensures DataOk(s')
  {
    forall u | u in s'.phase ensures PhaseOk(s', u) {
      if u != t { assert PhaseOk(s, u); }
    }
  }

  lemma UrgentTakeInv(s: State, t: int, buf: seq<int>)
    requires Inv(s) && Idle(s, t)
    ensures Inv(UrgentTake(s, t, buf).0)
  {
    hide SlotsOk, Distinct;
    var s' := UrgentTake(s, t, buf).0;
    if s'.phase != s.phase {
      assert SlotsOk(s') by { GrabSlots(s, t, s'.phase[t], s'); }
      forall x ensures RoleOk(s', x) { assert RoleOk(s, x); }
      SameData(s, s', t);
    }
  }

  lemma FillInv(s: State, t: int)
    requires Inv(s) && t in s.phase && s.phase[t].Taken?
    ensures 0 <= s.phase[t].slot < |s.data| == |s.msg| && |s.phase[t].buf| <= |s.data[s.phase[t].slot]| == s.msgSize
    ensures Inv(Fill(s, t))
  {
    hide Distinct, Held, OneHolder;
    HeldBy(s, t);
    assert PhaseOk(s, t);
    var s', x := Fill(s, t), s.phase[t].slot;
    HoldsSame(s.phase, t, s'.phase[t]);
    forall y ensures SlotOk(s', y) { assert SlotOk(s, y); }
    forall y ensures RoleOk(s', y) { assert RoleOk(s, y); }
    assert x !in s.queue;
    forall k | 0 <= k < |s'.queue| ensures FilledAt(s', s'.queue[k]) {
      assert FilledAt(s, s.queue[k]) && s.queue[k] in s.queue;
    }
    forall u | u in s'.phase ensures PhaseOk(s', u) {
      if u != t { FillOthers(s, t, u); }
    }
  }

  lemma FillOthers(s: State, t: int, u: int)
    requires Inv(s) && t in s.phase && s.phase[t].Taken? && u in s.phase && u != t
    requires 0 <= s.phase[t].slot < |s.data| == |s.msg| && |s.phase[t].buf| <= |s.data[s.phase[t].slot]| == s.msgSize
    ensures PhaseOk(Fill(s, t), u)
  {
    assert s.phase[u].slot != s.phase[t].slot by { assert OneHolder(s.phase); }
    assert PhaseOk(s, u);
  }

  lemma LinkInv(s: State, t: int)
    requires Inv(s) && t in s.phase && s.phase[t].Filled?
    ensures Inv(LinkMsg(s, t))
  {
    hide SlotsOk, RolesOk;
    var s' := LinkMsg(s, t);
    DropSlots(s, t, s');
    assert PhaseOk(s, t);
    SameData(s, s', t);
    LinkRoles(s, t);
    assert s.receivers != [] ==> s.receivers[0] !in s.wokenReceivers by { HeadNotWoken(s); }
  }

  lemma LinkRoles(s: State, t: int)
    requires RolesOk(s) && t in s.phase && s.phase[t].Filled?
    ensures RolesOk(LinkMsg(s, t))
  {
    hide Distinct;
    var s' := LinkMsg(s, t);
    if s.receivers != [] {
      DistinctTail(s.receivers);
      assert RoleOk(s, s.receivers[0]);
    }
    forall x ensures RoleOk(s', x) { assert RoleOk(s, x); }
  }

  lemma HeadNotWoken(s: State)
    requires RolesOk(s)
    ensures s.receivers != [] ==> s.receivers[0] !in s.wokenReceivers
  {
    assert s.receivers != [] ==> RoleOk(s, s.receivers[0]);
  }

  lemma RecvTakeInv(s: State, t: int, noWait: bool, prio: int -> int, flag: Flag)
    requires Inv(s) && MayRecv(s, t)
    ensures forall k :: 0 <= k < |s.queue| ==> 0 <= s.queue[k] < |s.msg|
    ensures Inv(RecvTake(s, t, noWait, prio, flag).0)
  {
    hide Enlist, SlotsOk, RolesOk;
    forall k | 0 <= k < |s.queue| ensures 0 <= s.queue[k] < |s.msg| { assert FilledAt(s, s.queue[k]); }
    var s' := RecvTake(s, t, noWait, prio, flag).0;
    EnlistMembers(s.receivers, prio, t, flag);
    CardMinus(s.wokenReceivers, t);
    SameSlots(s, s');
    if s'.phase != s.phase { GrabSlots(s, t, s'.phase[t], s'); }
    RecvTakeRoles(s, t, noWait, prio, flag);
    if s.queue != [] { assert FilledAt(s, s.queue[0]); }
    SameData(s, s', t);
  }

  lemma RecvTakeRoles(s: State, t: int, noWait: bool, prio: int -> int, flag: Flag)
    requires RolesOk(s) && MayRecv(s, t) && forall k :: 0 <= k < |s.queue| ==> 0 <= s.queue[k] < |s.msg|
    ensures RolesOk(RecvTake(s, t, noWait, prio, flag).0)
  {
    hide Enlist, Distinct;
    EnlistMembers(s.receivers, prio, t, flag);
    forall x ensures RoleOk(RecvTake(s, t, noWait, prio, flag).0, x) { assert RoleOk(s, x); }
  }

  lemma GiveBackInv(s: State, t: int)
    requires Inv(s) && t in s.phase && s.phase[t].Popped?
    ensures Inv(GiveBack(s, t))
  {
    hide SlotsOk, Distinct;
    var s' := GiveBack(s, t);
    DropSlots(s, t, s');
    SameData(s, s', t);
    if s.senders != [] {
      DistinctTail(s.senders);
      assert RoleOk(s, s.senders[0]);
    }
    forall x ensures RoleOk(s', x) { assert RoleOk(s, x); }
  }

  lemma TimeoutInv(s: State, t: int)
    requires Inv(s)
    ensures Inv(Timeout(s, t))
  {
    hide SlotsOk, Distinct;
    DropKeeps(s.receivers, t);
    DropKeeps(s.senders, t);
    var s' := Timeout(s, t);
    SameSlots(s, s');
    if t in s'.phase { assert PhaseOk(s, t); }
    SameData(s, s', t);
    forall x ensures RoleOk(s', x) { assert RoleOk(s, x); }
  }

  lemma ResetInv(s: State)
    requires Inv(s)
    ensures Inv(Cleared(s))
  {
    hide SlotsOk;
    var s' := Cleared(s);
    ClearedSlots(s);
    forall u | u in s'.phase ensures PhaseOk(s', u) { assert PhaseOk(s, u); }
    forall x ensures RoleOk(s', x) { assert RoleOk(s, x); }
  }

  lemma InitInv(slots: nat, msgSize: nat)
    ensures Inv(Init(slots, msgSize)) && Contents(Init(slots, msgSize)) == []
  {
    var s := Init(slots, msgSize);
    forall x ensures SlotOk(s, x) {
      if 0 <= x < slots { assert s.free[slots - 1 - x] == x; }
    }
  }

  // ----- every interleaving

  datatype Step =
    | DoSendTake(t: int, buf: seq<int>, noWait: bool)
    | DoUrgentTake(t: int, buf: seq<int>)
    | DoFill(t: int)
    | DoLink(t: int)
    | DoRecvTake(t: int, noWait: bool)
    | DoGiveBack(t: int)
    | DoTimeout(t: int)
    | DoReset

  ghost predicate Enabled(s: State, step: Step) {
    match step
    case DoSendTake(t, _, _) => MaySend(s, t)
    case DoUrgentTake(t, _) => Idle(s, t)
    case DoFill(t) => t in s.phase && s.phase[t].Taken?
    case DoLink(t) => t in s.phase && s.phase[t].Filled?
    case DoRecvTake(t, _) => MayRecv(s, t)
    case DoGiveBack(t) => t in s.phase && s.phase[t].Popped?
    case DoTimeout(t) => true
    case DoReset => true
  }

  ghost function Apply(s: State, step: Step, prio: int -> int, flag: Flag): (r: State)
    requires Inv(s) && Enabled(s, step)
    ensures Inv(r) && r.msgSize == s.msgSize && |r.data| == |s.data|
  {
    hide Inv;
    match step
    case DoSendTake(t, buf, noWait) =>
      SendTakeInv(s, t, buf, noWait, prio, flag); SendTake(s, t, buf, noWait, prio, flag).0
    case DoUrgentTake(t, buf) => UrgentTakeInv(s, t, buf); UrgentTake(s, t, buf).0
    case DoFill(t) => FillInv(s, t); Fill(s, t)
    case DoLink(t) => LinkInv(s, t); LinkMsg(s, t)
    case DoRecvTake(t, noWait) => RecvTakeInv(s, t, noWait, prio, flag); RecvTake(s, t, noWait, prio, flag).0
    case DoGiveBack(t) => GiveBackInv(s, t); GiveBack(s, t)
    case DoTimeout(t) => TimeoutInv(s, t); Timeout(s, t)
    case DoReset => ResetInv(s); Cleared(s)
  }

  /** What a section means for the user's queue: linking a message appends or prepends the bytes that
      thread gave, receiving pops, resetting empties, and no other section is visible. */
  ghost predicate DequeStep(s: State, step: Step, before: seq<seq<int>>, after: seq<seq<int>>)
    requires Enabled(s, step)
  {
    match step
    case DoLink(t) => after == if s.phase[t].urgent then [s.phase[t].buf] + before else before + [s.phase[t].buf]
    case DoRecvTake(t, _) => after == if before == [] then [] else before[1..]
    case DoReset => after == []
    case _ => after == before
  }

  lemma StepRefines(s: State, step: Step, prio: int -> int, flag: Flag)
    requires Inv(s) && Enabled(s, step)
    ensures DequeStep(s, step, Contents(s), Contents(Apply(s, step, prio, flag)))
  {
    hide SlotsOk, DataOk, RolesOk, NoLostWakeup, Enlist, Drop, Reversed;
    var s' := Apply(s, step, prio, flag);
    match step
    case DoFill(t) =>
      HeldBy(s, t);
      SameContents(s, s');
    case DoLink(t) => LinkContents(s, t);
    case DoRecvTake(t, noWait) => PopContents(s, s');
    case DoReset =>
    case _ => SameContents(s, s');
  }

  lemma SameContents(s: State, s': State)
    requires DataOk(s) && DataOk(s') && s'.queue == s.queue
    requires forall k :: k in s.queue && 0 <= k < |s.msg| && k < |s'.msg| ==> s'.msg[k] == s.msg[k]
    ensures Contents(s') == Contents(s)
  {
  }

  lemma PopContents(s: State, s': State)
    requires DataOk(s) && DataOk(s') && s'.queue == (if s.queue == [] then [] else s.queue[1..]) && s'.msg == s.msg
    ensures Contents(s') == if s.queue == [] then [] else Contents(s)[1..]
  {
  }

  lemma LinkContents(s: State, t: int)
    requires DataOk(s) && t in s.phase && s.phase[t].Filled? && DataOk(LinkMsg(s, t))
    ensures var buf := s.phase[t].buf;
            Contents(LinkMsg(s, t)) == if s.phase[t].urgent then [buf] + Contents(s) else Contents(s) + [buf]
  {
    var Filled(x, buf, urgent) := s.phase[t];
    assert s.msg[x] == buf by { assert PhaseOk(s, t); }
    var after, before := Contents(LinkMsg(s, t)), Contents(s);
    if urgent {
      assert after == [buf] + before;
    } else {
      assert after == before + [buf];
    }
  }

  /** The popped message is the head of the user's queue. */
  lemma RecvPops(s: State, t: int, noWait: bool, prio: int -> int, flag: Flag)
    requires Inv(s) && MayRecv(s, t) && s.queue != []
    ensures FilledAt(s, s.queue[0])
    ensures forall k :: 0 <= k < |s.queue| ==> 0 <= s.queue[k] < |s.msg|
    ensures var s' := RecvTake(s, t, noWait, prio, flag).0;
            t in s'.phase && s'.phase[t] == Popped(s.queue[0], Contents(s)[0])
  {
    RecvTakeInv(s, t, noWait, prio, flag);
  }

  /** The receiver's buffer then gets the bytes that were sent, as many as both sizes allow, however many
      sections of other threads lie between. */
  lemma CopyOutSent(s: State, t: int, size: nat)
    requires Inv(s) && t in s.phase && s.phase[t].Popped?
    ensures 0 <= s.phase[t].slot < |s.data| && |s.data[s.phase[t].slot]| == s.msgSize
    ensures var got, msg := CopyOut(s, t, size), s.phase[t].msg;
            && |got| == (if size > s.msgSize then s.msgSize else size)
            && if size <= |msg| then got == msg[..size] else msg <= got
  {
    HeldBy(s, t);
    assert PhaseOk(s, t);
  }

  ghost predicate Takes(s: State, s': State, step: Step, prio: int -> int, flag: Flag) {
    Enabled(s, step) && (Inv(s) ==> s' == Apply(s, step, prio, flag))
  }

  /** A run: threads' priorities may differ from step to step. */
  ghost predicate IsRun(run: seq<State>, steps: seq<Step>, prios: seq<int -> int>, flag: Flag) {
    && |run| == |steps| + 1 && |prios| == |steps|
    && forall i :: 0 <= i < |steps| ==> Takes(run[i], run[i + 1], steps[i], prios[i], flag)
  }

  /** Over every interleaving each slot stays in exactly one place, no wake-up is lost, and what each
      section does to the user's queue is what the deque does. */
  lemma {:induction false} RunInv(run: seq<State>, steps: seq<Step>, prios: seq<int -> int>, flag: Flag, slots: nat,
                                  msgSize: nat, i: nat)
    requires IsRun(run, steps, prios, flag) && i < |run| && run[0] == Init(slots, msgSize)
    ensures Inv(run[i]) && |run[i].data| == slots && run[i].msgSize == msgSize
    ensures i == 0 ==> Contents(run[0]) == []
    ensures i > 0 ==> && Inv(run[i - 1]) && Takes(run[i - 1], run[i], steps[i - 1], prios[i - 1], flag)
                      && DequeStep(run[i - 1], steps[i - 1], Contents(run[i - 1]), Contents(run[i]))
    decreases i
  {
    hide Inv, Apply;
    if i == 0 {
      InitInv(slots, msgSize);
    } else {
      RunInv(run, steps, prios, flag, slots, msgSize, i - 1);
      assert Takes(run[i - 1], run[i], steps[i - 1], prios[i - 1], flag);
      StepRefines(run[i - 1], steps[i - 1], prios[i - 1], flag);
    }
  }

  /** A thread in the middle of a call is not disturbed by the sections of the others. */
  lemma PhaseKept(s: State, step: Step, prio: int -> int, flag: Flag, u: int)
    requires Inv(s) && Enabled(s, step) && u in s.phase && (step.DoReset? || step.DoTimeout? || step.t != u)
    ensures u in Apply(s, step, prio, flag).phase && Apply(s, step, prio, flag).phase[u] == s.phase[u]
  {
    hide Inv;
  }

  // ----- the code

  /** From slot `head` the links run through the slots of `list` and end in -1. */
  ghost predicate Chain(next: seq<int>, head: int, list: seq<int>) {
    && head == (if list == [] then -1 else list[0])
    && forall k :: 0 <= k < |list| ==> LinkOk(next, list, k)
  }

  ghost predicate LinkOk(next: seq<int>, list: seq<int>, k: int)
    requires 0 <= k < |list|
  {
    0 <= list[k] < |next| && next[list[k]] == if k + 1 < |list| then list[k + 1] else -1
  }

  lemma ChainTail(next: seq<int>, list: seq<int>)
    requires list != [] && Chain(next, list[0], list)
    ensures 0 <= list[0] < |next| && Chain(next, next[list[0]], list[1..])
  {
    assert LinkOk(next, list, 0);
    var rest := list[1..];
    forall k | 0 <= k < |rest| ensures LinkOk(next, rest, k) { assert LinkOk(next, list, k + 1); }
  }

  lemma ChainPush(next: seq<int>, head: int, list: seq<int>, x: int)
    requires Chain(next, head, list) && x !in list && 0 <= x < |next|
    ensures Chain(next[x := head], x, [x] + list)
  {
    var next', list' := next[x := head], [x] + list;
    forall k | 0 <= k < |list'| ensures LinkOk(next', list', k) {
      if k > 0 { assert LinkOk(next, list, k - 1); }
    }
  }

  lemma ChainAppend(next: seq<int>, head: int, list: seq<int>, x: int)
    requires Chain(next, head, list) && x !in list && 0 <= x < |next| && next[x] == -1 && Distinct(list)
    requires list != [] ==> 0 <= list[|list| - 1] < |next|
    ensures Chain(if list == [] then next else next[list[|list| - 1] := x], if list == [] then x else head, list + [x])
  {
    var next' := if list == [] then next else next[list[|list| - 1] := x];
    var list' := list + [x];
    forall k | 0 <= k < |list'| ensures LinkOk(next', list', k) {
      if k < |list| { assert LinkOk(next, list, k); }
    }
  }

  lemma ChainFrame(next: seq<int>, head: int, list: seq<int>, x: int, v: int)
    requires Chain(next, head, list) && x !in list && 0 <= x < |next|
    ensures Chain(next[x := v], head, list)
  {
    var next' := next[x := v];
    forall k | 0 <= k < |list| ensures LinkOk(next', list, k) { assert LinkOk(next, list, k); }
  }

  /** A message to be linked at the tail already has no successor. */
  ghost predicate EndsAt(next: seq<int>, ph: Phase) {
    ph.Filled? && !ph.urgent ==> 0 <= ph.slot < |next| && next[ph.slot] == -1
  }

  ghost predicate Ends(next: seq<int>, phase: map<int, Phase>) {
    forall t :: t in phase ==> EndsAt(next, phase[t])
  }

  lemma IsInit(s: State, slots: nat, size: nat)
    requires |s.data| == |s.msg| == slots
    requires forall i :: 0 <= i < slots ==> s.data[i] == seq(size, _ => 0) && s.msg[i] == []
    requires s == State(size, s.data, s.msg, seq(slots, i => slots - 1 - i), [], map[], [], [], {}, {})
    ensures s == Init(slots, size) && Inv(s)
  {
    hide Inv;
    InitInv(slots, size);
    assert s.data == seq(slots, _ => seq(size, _ => 0)) && s.msg == seq(slots, _ => []);
  }

  lemma NothingLinked(next: seq<int>)
    ensures Chain(next, -1, []) && Ends(next, map[])
  {
  }

  class Queue {
    const msgSize: nat
    const data: array<seq<int>>
    const next: array<int>
    var head: int
    var tail: int
    var freeHead: int
    var entry: nat
    const receivers: WaitList
    const senders: WaitList
    ghost var free: seq<int>
    ghost var queue: seq<int>
    ghost var msg: seq<seq<int>>
    ghost var phase: map<int, Phase>
    ghost var wokenReceivers: set<int>
    ghost var wokenSenders: set<int>

    ghost function View(): State
      reads this, data, receivers, senders
    {
      State(msgSize, data[..], msg, free, queue, phase, receivers.list, senders.list, wokenReceivers, wokenSenders)
    }

    /** The links in the slots run through the two lists. */
    ghost predicate Threaded()
      reads this, data, next
    {
      && next.Length == data.Length
      && Chain(next[..], freeHead, free)
      && Chain(next[..], head, queue)
      && tail == (if queue == [] then -1 else queue[|queue| - 1])
      && Ends(next[..], phase)
    }

    ghost predicate Linked()
      reads this, data, next
    {
      Threaded() && entry == |queue|
    }

    /** The suspend lists are two rings. */
    ghost predicate Rings()
      reads this, receivers, senders
    {
      receivers != senders && receivers.Valid() && senders.Valid()
    }

    ghost predicate Valid()
      reads this, data, next, receivers, senders
    {
      Linked() && Rings() && Inv(View())
    }

    /** rt_mq_init: the slots are put on the free list one by one. */
    constructor (slots: nat, size: nat)
      ensures Valid() && View() == Init(slots, size)
      ensures fresh(data) && fresh(next) && fresh(receivers) && fresh(senders)
    {
      msgSize := size;
      data := new seq<int>[slots](_ => seq(size, _ => 0));
      next := new int[slots](_ => -1);
      head, tail, freeHead, entry := -1, -1, -1, 0;
      receivers := new WaitList();
      senders := new WaitList();
      free, queue, msg, phase, wokenReceivers, wokenSenders := [], [], seq(slots, _ => []), map[], {}, {};
      new;
      hide Inv, Chain, Ends, Nodes.IsList, Init;
      NothingLinked(next[..]);
      LinkSlots();
      IsInit(View(), slots, size);
    }

    method LinkSlots()
      requires Linked() && free == [] && queue == [] && phase == map[]
      modifies next, `freeHead, `free
      ensures Linked() && free == seq(next.Length, i => next.Length - 1 - i)
    {
      hide Chain;
      var temp := 0;
      while temp < next.Length
        modifies next, `freeHead, `free
        invariant 0 <= temp <= next.Length && Linked() && queue == [] && free == seq(temp, i => temp - 1 - i)
      {
        PushFree(temp);
        temp := temp + 1;
      }
    }

    /** The first section of rt_mq_send_wait; the slot taken is in `m`. */
    method SendTakeSection(t: int, buf: seq<int>, noWait: bool, prio: int -> int, flag: Flag)
      returns (r: Outcome, m: int)
      requires Valid() && 0 <= t && MaySend(View(), t)
      modifies this, receivers, senders
      ensures Valid() && (View(), r) == SendTake(old(View()), t, buf, noWait, prio, flag)
      ensures r == Done ==> t in phase && m == phase[t].slot
    {
      hide Enlist, Inv, Chain, Ends, Distinct, Apart, Nodes.IsList;
      SendTakeInv(View(), t, buf, noWait, prio, flag);
      m := -1;
      if |buf| > msgSize {
        return Bad, m;
      }
      wokenSenders := wokenSenders - {t};
      FreeEmpty();
      if freeHead == -1 {
        if noWait {
          return Full, m;
        }
        senders.Suspend(prio, t, flag);
        return Waits, m;
      }
      m := TakeFree(t, buf, false);
      r := Done;
    }

    lemma FreeEmpty()
      requires Chain(next[..], freeHead, free)
      ensures freeHead == -1 <==> free == []
    {
      if free != [] { assert LinkOk(next[..], free, 0); }
    }

    /** `t` takes the first free slot. */
    method TakeFree(t: int, buf: seq<int>, urgent: bool) returns (m: int)
      requires Linked() && free != []
      modifies `freeHead, `free, `phase
      ensures Linked() && old(free) == [m] + free && phase == old(phase)[t := Taken(m, buf, urgent)]
    {
      hide Chain, Ends;
      m := PopFree();
      phase := phase[t := Taken(m, buf, urgent)];
      EndsGrab(next[..], old(phase), t, phase[t]);
    }

    /** Take the first slot off the free list. */
    method PopFree() returns (m: int)
      requires free != [] && Chain(next[..], freeHead, free)
      modifies `freeHead, `free
      ensures old(free) == [m] + free && Chain(next[..], freeHead, free)
    {
      ChainTail(next[..], free);
      m := freeHead;
      freeHead := next[m];
      free := free[1..];
    }

    /** The first section of rt_mq_urgent. */
    method UrgentTakeSection(t: int, buf: seq<int>) returns (r: Outcome, m: int)
      requires Valid() && Idle(View(), t)
      modifies this
      ensures Valid() && (View(), r) == UrgentTake(old(View()), t, buf)
      ensures r == Done ==> t in phase && m == phase[t].slot
    {
      hide Inv, Chain, Ends, Nodes.IsList;
      UrgentTakeInv(View(), t, buf);
      m := -1;
      if |buf| > msgSize {
        return Bad, m;
      }
      FreeEmpty();
      if freeHead == -1 {
        return Full, m;
      }
      m := TakeFree(t, buf, true);
      r := Done;
    }

    /** Outside any section: the sender of `buf` fills its slot. */
    method FillSlot(t: int, m: int, buf: seq<int>, urgent: bool)
      requires Valid() && t in phase && phase[t] == Taken(m, buf, urgent)
      requires 0 <= m < |msg| == data.Length && |buf| <= |data[m]|
      modifies data, next, `msg, `phase
      ensures Valid() && View() == Fill(old(View()), t)
    {
      hide Inv, Chain, Ends, Nodes.IsList;
      FillInv(View(), t);
      HeldApart(View(), t);
      ghost var was := next[..];
      if !urgent {
        ChainFrame(next[..], freeHead, free, m, -1);
        ChainFrame(next[..], head, queue, m, -1);
        next[m] := -1;
        assert next[..] == was[m := -1];
      }
      data[m] := buf + data[m][|buf|..];
      assert data[..] == old(data[..])[m := data[m]];
      msg := msg[m := buf];
      phase := phase[t := Filled(m, buf, urgent)];
      EndsFill(was, old(phase), t, m, phase[t], next[..]);
    }

    /** The second section of a send. */
    method LinkSection(t: int, m: int, urgent: bool)
      requires Valid() && t in phase && phase[t].Filled? && phase[t].slot == m && phase[t].urgent == urgent
      modifies this, next, receivers, senders
      ensures Valid() && View() == LinkMsg(old(View()), t)
    {
      hide Inv, Chain, Ends, Nodes.IsList;
      LinkInv(View(), t);
      if urgent {
        LinkHead(t, m);
      } else {
        LinkTail(t, m);
      }
      entry := entry + 1;
      ResumeReceiver();
    }

    method ResumeReceiver()
      requires Rings()
      modifies receivers, `wokenReceivers
      ensures Rings() && View() == WakeReceiver(old(View()))
    {
      hide Nodes.IsList;
      var empty := receivers.IsEmpty();
      if !empty {
        var x := receivers.Resume();
        wokenReceivers := wokenReceivers + {x};
      }
    }

    method LinkHead(t: int, m: int)
      requires Linked() && Inv(View()) && t in phase && phase[t].slot == m
      modifies `head, `tail, `queue, `phase, next
      ensures entry + 1 == |queue| && Threaded() && queue == [m] + old(queue) && phase == old(phase) - {t}
    {
      hide Inv, Chain, Ends, Nodes.IsList;
      HeldApart(View(), t);
      QueueApart(View());
      assert queue != [] ==> tail in queue;
      ghost var was := next[..];
      ChainPush(was, head, queue, m);
      ChainFrame(was, freeHead, free, m, head);
      EndsDrop(was, phase, t, head);
      next[m] := head;
      assert next[..] == was[m := head];
      head := m;
      if tail == -1 {
        tail := m;
      }
      queue := [m] + queue;
      phase := phase - {t};
    }

    method LinkTail(t: int, m: int)
      requires Linked() && Inv(View()) && t in phase && phase[t].Filled? && phase[t].slot == m && !phase[t].urgent
      modifies `head, `tail, `queue, `phase, next
      ensures entry + 1 == |queue| && Threaded() && queue == old(queue) + [m] && phase == old(phase) - {t}
    {
      hide Inv, Chain, Ends, Nodes.IsList;
      HeldApart(View(), t);
      QueueApart(View());
      assert queue != [] ==> tail in queue;
      ghost var was := next[..];
      EndsTail(was, phase, t, tail, m);
      ChainAppend(was, head, queue, m);
      if tail != -1 {
        ChainFrame(was, freeHead, free, tail, m);
        next[tail] := m;
        assert next[..] == was[tail := m];
      }
      QueueEmpty(was, head, queue);
      tail := m;
      if head == -1 {
        head := m;
      }
      queue := queue + [m];
      phase := phase - {t};
    }

    /** The first section of rt_mq_recv. */
    method RecvTakeSection(t: int, noWait: bool, prio: int -> int, flag: Flag) returns (r: Outcome, m: int)
      requires Valid() && 0 <= t && MayRecv(View(), t)
      requires forall k :: 0 <= k < |queue| ==> 0 <= queue[k] < |msg|
      modifies this, receivers, senders
      ensures Valid() && (View(), r) == RecvTake(old(View()), t, noWait, prio, flag)
      ensures r == Done ==> t in phase && m == phase[t].slot
    {
      hide Enlist, Inv, Chain, Ends, Distinct, Apart, Nodes.IsList;
      RecvTakeInv(View(), t, noWait, prio, flag);
      m := -1;
      wokenReceivers := wokenReceivers - {t};
      if entry == 0 {
        if noWait {
          return Full, m;
        }
        receivers.Suspend(prio, t, flag);
        return Waits, m;
      }
      QueueApart(old(View()));
      m := TakeHead(t);
      r := Done;
    }

    /** `t` takes the first message. */
    method TakeHead(t: int) returns (m: int)
      requires Linked() && Distinct(queue) && queue != [] && 0 <= queue[0] < |msg|
      modifies `head, `tail, `queue, `entry, `phase
      ensures Linked() && old(queue) == [m] + queue && phase == old(phase)[t := Popped(m, msg[m])]
    {
      hide Chain, Ends, Distinct;
      m := PopHead();
      entry := entry - 1;
      phase := phase[t := Popped(m, msg[m])];
      EndsGrab(next[..], old(phase), t, phase[t]);
    }

    /** Unlink the first queued slot. */
    method PopHead() returns (m: int)
      requires queue != [] && Chain(next[..], head, queue) && Distinct(queue) && tail == queue[|queue| - 1]
      modifies `head, `tail, `queue
      ensures old(queue) == [m] + queue && Chain(next[..], head, queue)
      ensures tail == if queue == [] then -1 else queue[|queue| - 1]
    {
      ChainTail(next[..], queue);
      m := head;
      head := next[m];
      if tail == m {
        tail := -1;
      }
      queue := queue[1..];
    }

    /** Outside any section: the receiver copies its message out. */
    method CopySlot(t: int, m: int, size: nat) returns (got: seq<int>)
      requires Valid() && t in phase && phase[t].Popped? && phase[t].slot == m
      ensures if size <= |phase[t].msg| then got == phase[t].msg[..size] else phase[t].msg <= got
      ensures |got| == if size > msgSize then msgSize else size
    {
      CopyOutSent(View(), t, size);
      got := data[m][..if size > msgSize then msgSize else size];
    }

    /** The second section of rt_mq_recv. */
    method GiveBackSection(t: int, m: int)
      requires Valid() && t in phase && phase[t].Popped? && phase[t].slot == m
      modifies this, next, receivers, senders
      ensures Valid() && View() == GiveBack(old(View()), t)
    {
      hide Inv, Chain, Ends, Nodes.IsList;
      GiveBackInv(View(), t);
      HeldApart(View(), t);
      EndsDrop(next[..], phase, t, freeHead);
      PushFree(m);
      phase := phase - {t};
      ResumeSender();
    }

    method ResumeSender()
      requires Rings()
      modifies senders, `wokenSenders
      ensures Rings() && View() == WakeSender(old(View()))
    {
      hide Nodes.IsList;
      var empty := senders.IsEmpty();
      if !empty {
        var x := senders.Resume();
        wokenSenders := wokenSenders + {x};
      }
    }

    method PushFree(m: int)
      requires 0 <= m < next.Length && m !in free && m !in queue && Chain(next[..], freeHead, free)
      requires Chain(next[..], head, queue)
      modifies next, `freeHead, `free
      ensures next[..] == old(next[..])[m := old(freeHead)]
      ensures free == [m] + old(free) && Chain(next[..], freeHead, free) && Chain(next[..], head, queue)
    {
      ghost var was := next[..];
      ChainPush(was, freeHead, free, m);
      ChainFrame(was, head, queue, m, freeHead);
      next[m] := freeHead;
      assert next[..] == was[m := freeHead];
      freeHead := m;
      free := [m] + free;
    }

    /** rt_mq_control with RT_IPC_CMD_RESET. */
    method Reset()
      requires Valid()
      modifies this, next, receivers, senders
      ensures Valid() && View() == Cleared(old(View()))
    {
      hide Inv, Chain, Ends, Apart, Distinct, Nodes.IsList;
      ResetInv(View());
      QueueApart(View());
      ResumeAll();
      ReleaseAll();
      entry := 0;
    }

    /** All waiters leave, with an error. */
    method ResumeAll()
      requires Rings()
      modifies receivers, senders
      ensures Rings() && receivers.list == [] && senders.list == []
    {
      hide Nodes.IsList;
      receivers.ResumeAll();
      senders.ResumeAll();
    }

    /** Every queued slot goes back to the free list, one by one from the head. */
    method ReleaseAll()
      requires Threaded() && Distinct(queue) && Apart(queue, free, phase)
      modifies `head, `tail, `queue, `freeHead, `free, next
      ensures Threaded() && queue == [] && free == Reversed(old(queue)) + old(free)
    {
      hide Chain, Ends;
      QueueEmpty(next[..], head, queue);
      while head != -1
        invariant Threaded() && Distinct(queue) && (head == -1 <==> queue == [])
        invariant Apart(queue, free, phase)
        invariant Reversed(queue) + free == Reversed(old(queue)) + old(free)
        decreases |queue|
      {
        ReleaseHead();
        QueueEmpty(next[..], head, queue);
      }
    }

    method ReleaseHead()
      requires Threaded() && Distinct(queue) && Apart(queue, free, phase) && queue != []
      modifies `head, `tail, `queue, `freeHead, `free, next
      ensures Threaded() && Distinct(queue) && Apart(queue, free, phase)
      ensures queue == old(queue[1..]) && free == [old(queue[0])] + old(free)
      ensures Reversed(queue) + free == Reversed(old(queue)) + old(free)
    {
      hide Chain, Ends, Distinct;
      QueueEmpty(next[..], head, queue);
      EndsQueued(next[..], phase, head, freeHead);
      DistinctTail(queue);
      var m := PopHead();
      PushFree(m);
      assert Reversed(old(queue)) == Reversed(queue) + [m];
    }
  }

  /** No slot is queued and free, or queued and held. */
  ghost predicate Apart(queue: seq<int>, free: seq<int>, phase: map<int, Phase>) {
    && (forall x :: x in queue ==> x !in free)
    && (forall t :: t in phase ==> phase[t].slot !in queue)
  }

  lemma HeldApart(s: State, t: int)
    requires Inv(s) && t in s.phase
    ensures 0 <= s.phase[t].slot < |s.data| == |s.msg| && s.phase[t].slot !in s.free && s.phase[t].slot !in s.queue
    ensures OneHolder(s.phase)
  {
    HeldBy(s, t);
  }

  lemma QueueApart(s: State)
    requires Inv(s)
    ensures Distinct(s.queue) && Apart(s.queue, s.free, s.phase)
    ensures forall x :: x in s.queue ==> 0 <= x < |s.data|
  {
    forall x | x in s.queue ensures 0 <= x < |s.data| && x !in s.free { assert SlotOk(s, x); }
    forall t | t in s.phase ensures s.phase[t].slot !in s.queue { HeldBy(s, t); }
  }

  lemma QueueEmpty(next: seq<int>, head: int, queue: seq<int>)
    requires Chain(next, head, queue)
    ensures (head == -1 <==> queue == []) && (queue != [] ==> head == queue[0] && 0 <= head < |next|)
  {
    if queue != [] { assert LinkOk(next, queue, 0); }
  }

  lemma EndsFill(was: seq<int>, phase: map<int, Phase>, t: int, m: int, ph: Phase, next: seq<int>)
    requires Ends(was, phase) && 0 <= m < |was| && ph.Filled? && ph.slot == m
    requires next == if ph.urgent then was else was[m := -1]
    ensures Ends(next, phase[t := ph])
  {
    var phase' := phase[t := ph];
    forall u | u in phase' ensures EndsAt(next, phase'[u]) {
      if u != t { assert EndsAt(was, phase[u]); }
    }
  }

  lemma EndsDrop(next: seq<int>, phase: map<int, Phase>, t: int, v: int)
    requires Ends(next, phase) && OneHolder(phase) && t in phase && 0 <= phase[t].slot < |next|
    ensures Ends(next[phase[t].slot := v], phase - {t})
  {
    var p := phase - {t};
    forall u | u in p ensures EndsAt(next[phase[t].slot := v], p[u]) {
      assert EndsAt(next, phase[u]);
    }
  }

  lemma EndsQueued(next: seq<int>, phase: map<int, Phase>, x: int, v: int)
    requires Ends(next, phase) && 0 <= x < |next| && forall u :: u in phase ==> phase[u].slot != x
    ensures Ends(next[x := v], phase)
  {
    forall u | u in phase ensures EndsAt(next[x := v], phase[u]) {
      assert EndsAt(next, phase[u]);
    }
  }

  lemma EndsTail(next: seq<int>, phase: map<int, Phase>, t: int, tail: int, m: int)
    requires Ends(next, phase) && t in phase && phase[t].Filled? && !phase[t].urgent && phase[t].slot == m
    requires tail == -1 || (0 <= tail < |next| && forall u :: u in phase ==> phase[u].slot != tail)
    ensures 0 <= m < |next| && next[m] == -1
    ensures Ends(if tail == -1 then next else next[tail := m], phase - {t})
  {
    assert EndsAt(next, phase[t]);
    if tail != -1 { EndsQueued(next, phase, tail, m); }
    var p, next' := phase - {t}, if tail == -1 then next else next[tail := m];
    forall u | u in p ensures EndsAt(next', p[u]) {
      assert EndsAt(next', phase[u]);
    }
  }

  lemma EndsGrab(next: seq<int>, phase: map<int, Phase>, t: int, ph: Phase)
    requires Ends(next, phase) && !ph.Filled?
    ensures Ends(next, phase[t := ph])
  {
  }
}
