/** Mailboxes (ipc.c): a ring of words with waiting receivers and waiting senders.

    A blocking call is a series of critical sections: try, wait on a list, be woken, try again.  The
    state below is what one critical section leaves for the next; besides the mailbox it names the
    threads that were woken and have not run yet, and the mails sent and received since the last reset. */
module Mailbox {
  import opened Ring
  import opened IpcList
  import opened WaitRing
  import Nodes

  datatype State = State(size: nat, mails: seq<int>, receivers: seq<int>, senders: seq<int>,
                         wokenReceivers: set<int>, wokenSenders: set<int>, sent: seq<int>, received: seq<int>)

  datatype Outcome = Done(mail: int) | Waits | Refused

  function Init(size: nat): State { State(size, [], [], [], {}, {}, [], []) }

  // ----- the critical sections

  /** One pass of rt_mb_send_wait by thread `t`; `noWait` when its timeout is or has run down to 0. */
  function Send(s: State, t: int, value: int, noWait: bool, prio: int -> int, flag: Flag): (State, Outcome) {
    var s1 := s.(wokenSenders := s.wokenSenders - {t});
    if |s.mails| == s.size then
      if noWait then (s1, Refused) else (s1.(senders := Enlist(s.senders, prio, t, flag)), Waits)
    else
      var s2 := s1.(mails := s.mails + [value], sent := s.sent + [value]);
      if s.receivers == [] then (s2, Done(value))
      else (s2.(receivers := s.receivers[1..], wokenReceivers := s.wokenReceivers + {s.receivers[0]}), Done(value))
  }

  /** One pass of rt_mb_recv by thread `t`. */
  function Recv(s: State, t: int, noWait: bool, prio: int -> int, flag: Flag): (State, Outcome) {
    var s1 := s.(wokenReceivers := s.wokenReceivers - {t});
    if |s.mails| == 0 then
      if noWait then (s1, Refused) else (s1.(receivers := Enlist(s.receivers, prio, t, flag)), Waits)
    else
      var s2 := s1.(mails := s.mails[1..], received := s.received + [s.mails[0]]);
      if s.senders == [] then (s2, Done(s.mails[0]))
      else (s2.(senders := s.senders[1..], wokenSenders := s.wokenSenders + {s.senders[0]}), Done(s.mails[0]))
  }

  /** A waiter's timer runs out: rt_thread_timeout takes it off its list, and its call returns an error. */
  function Timeout(s: State, t: int): State {
    s.(receivers := Drop(s.receivers, t), senders := Drop(s.senders, t))
  }

  /** RT_IPC_CMD_RESET: every waiter's call returns an error, and the ring is emptied. */
  function Cleared(s: State): State {
    s.(receivers := [], senders := [], mails := [], sent := [], received := [])
  }

  // ----- the invariant

  /** Who a thread is to this mailbox: at most one of waiting or woken, on one side. */
  ghost predicate RoleOk(s: State, t: int) {
    && (t in s.receivers ==> t !in s.senders && t !in s.wokenReceivers && t !in s.wokenSenders)
    && (t in s.senders ==> t !in s.wokenReceivers && t !in s.wokenSenders)
    && !(t in s.wokenReceivers && t in s.wokenSenders)
  }

  ghost predicate RolesOk(s: State) {
    Distinct(s.receivers) && Distinct(s.senders) && forall t :: RoleOk(s, t)
  }

  /** No wake-up is lost: while a receiver waits, every stored mail has a woken receiver coming for it,
      and while a sender waits, every free slot has a woken sender coming for it. */
  ghost predicate NoLostWakeup(s: State) {
    && (s.receivers != [] ==> |s.mails| <= |s.wokenReceivers|)
    && (s.senders != [] ==> s.size - |s.mails| <= |s.wokenSenders|)
  }

  ghost predicate Inv(s: State) {
    && |s.mails| <= s.size
    && s.sent == s.received + s.mails
    && RolesOk(s)
    && NoLostWakeup(s)
  }

  /** `t` makes a call of its own or comes back from a wait on that side. */
  ghost predicate MaySend(s: State, t: int) { t !in s.receivers && t !in s.senders && t !in s.wokenReceivers }
  ghost predicate MayRecv(s: State, t: int) { t !in s.receivers && t !in s.senders && t !in s.wokenSenders }

  lemma SendInv(s: State, t: int, value: int, noWait: bool, prio: int -> int, flag: Flag)
    requires Inv(s) && MaySend(s, t)
    ensures Inv(Send(s, t, value, noWait, prio, flag).0)
  {
    hide RolesOk, Enlist;
    SendRoles(s, t, value, noWait, prio, flag);
    CardMinus(s.wokenSenders, t);
    if s.receivers != [] {
      assert s.receivers[0] !in s.wokenReceivers by { HeadNotWoken(s); }
      CardPlus(s.wokenReceivers, s.receivers[0]);
    }
    assert s.sent + [value] == s.received + (s.mails + [value]);
  }

  lemma HeadNotWoken(s: State)
    requires RolesOk(s)
    ensures s.receivers != [] ==> s.receivers[0] !in s.wokenReceivers
    ensures s.senders != [] ==> s.senders[0] !in s.wokenSenders
  {
    assert s.receivers != [] ==> RoleOk(s, s.receivers[0]);
    assert s.senders != [] ==> RoleOk(s, s.senders[0]);
  }

  lemma SendRoles(s: State, t: int, value: int, noWait: bool, prio: int -> int, flag: Flag)
    requires RolesOk(s) && MaySend(s, t)
    ensures RolesOk(Send(s, t, value, noWait, prio, flag).0)
  {
    hide Enlist, Distinct;
    EnlistMembers(s.senders, prio, t, flag);
    if s.receivers != [] { DistinctTail(s.receivers); }
    var s' := Send(s, t, value, noWait, prio, flag).0;
    forall x ensures RoleOk(s', x) {
      assert RoleOk(s, x);
    }
  }

  lemma RecvRoles(s: State, t: int, noWait: bool, prio: int -> int, flag: Flag)
    requires RolesOk(s) && MayRecv(s, t)
    ensures RolesOk(Recv(s, t, noWait, prio, flag).0)
  {
    hide Enlist, Distinct;
    EnlistMembers(s.receivers, prio, t, flag);
    if s.senders != [] { DistinctTail(s.senders); }
    var s' := Recv(s, t, noWait, prio, flag).0;
    forall x ensures RoleOk(s', x) {
      assert RoleOk(s, x);
    }
  }

  lemma RecvInv(s: State, t: int, noWait: bool, prio: int -> int, flag: Flag)
    requires Inv(s) && MayRecv(s, t)
    ensures Inv(Recv(s, t, noWait, prio, flag).0)
  {
    hide RolesOk, Enlist, NoLostWakeup;
    RecvRoles(s, t, noWait, prio, flag);
    RecvWakes(s, t, noWait, prio, flag);
    if s.mails != [] {
      assert s.received + [s.mails[0]] + s.mails[1..] == s.received + s.mails;
    }
  }

  lemma RecvWakes(s: State, t: int, noWait: bool, prio: int -> int, flag: Flag)
    requires RolesOk(s) && NoLostWakeup(s) && |s.mails| <= s.size
    ensures NoLostWakeup(Recv(s, t, noWait, prio, flag).0)
  {
    hide RolesOk, Enlist;
    CardMinus(s.wokenReceivers, t);
    HeadNotWoken(s);
    if s.senders != [] { CardPlus(s.wokenSenders, s.senders[0]); }
  }

  lemma CardMinus(a: set<int>, t: int)
    ensures |a - {t}| == if t in a then |a| - 1 else |a|
  {
    if t !in a { assert a - {t} == a; }
  }

  lemma CardPlus(a: set<int>, t: int)
    requires t !in a
    ensures |a + {t}| == |a| + 1
  {
  }

  lemma TimeoutInv(s: State, t: int)
    requires Inv(s)
    ensures Inv(Timeout(s, t))
  {
    DropKeeps(s.receivers, t);
    DropKeeps(s.senders, t);
    forall x ensures RoleOk(Timeout(s, t), x) {
      assert RoleOk(s, x);
    }
  }

  // ----- every interleaving

  datatype Step =
    | DoSend(t: int, value: int, noWait: bool)
    | DoRecv(t: int, noWait: bool)
    | DoTimeout(t: int)
    | DoReset

  ghost predicate Enabled(s: State, step: Step) {
    match step
    case DoSend(t, _, _) => MaySend(s, t)
    case DoRecv(t, _) => MayRecv(s, t)
    case DoTimeout(t) => true
    case DoReset => true
  }

  function Apply(s: State, step: Step, prio: int -> int, flag: Flag): State {
    match step
    case DoSend(t, value, noWait) => Send(s, t, value, noWait, prio, flag).0
    case DoRecv(t, noWait) => Recv(s, t, noWait, prio, flag).0
    case DoTimeout(t) => Timeout(s, t)
    case DoReset => Cleared(s)
  }

  /** A run: threads' priorities may differ from step to step. */
  ghost predicate IsRun(run: seq<State>, steps: seq<Step>, prios: seq<int -> int>, flag: Flag) {
    && |run| == |steps| + 1 && |prios| == |steps|
    && forall i :: 0 <= i < |steps| ==> Takes(run[i], run[i + 1], steps[i], prios[i], flag)
  }

  ghost predicate Takes(s: State, s': State, step: Step, prio: int -> int, flag: Flag) {
    Enabled(s, step) && s' == Apply(s, step, prio, flag)
  }

  /** In every state of every run the mails received are a prefix of the mails sent, what is between is
      what is stored, and no wake-up is lost. */
  lemma {:induction false} RunInv(run: seq<State>, steps: seq<Step>, prios: seq<int -> int>, flag: Flag, size: nat,
                                  i: nat)
    requires IsRun(run, steps, prios, flag) && i < |run| && run[0] == Init(size)
    ensures Inv(run[i]) && run[i].size == size && run[i].received <= run[i].sent
    decreases i
  {
    hide Inv;
    if i == 0 {
      assert Inv(run[0]) by { InitInv(size); }
    } else {
      RunInv(run, steps, prios, flag, size, i - 1);
      var s, step := run[i - 1], steps[i - 1];
      assert Takes(s, run[i], step, prios[i - 1], flag);
      match step {
        case DoSend(t, value, noWait) => SendInv(s, t, value, noWait, prios[i - 1], flag);
        case DoRecv(t, noWait) => RecvInv(s, t, noWait, prios[i - 1], flag);
        case DoTimeout(t) => TimeoutInv(s, t);
        case DoReset => ResetInv(s);
      }
      assert run[i].received <= run[i].sent by { UseInv(run[i]); }
    }
  }

  lemma InitInv(size: nat)
    ensures Inv(Init(size))
  {
  }

  lemma ResetInv(s: State)
    requires Inv(s)
    ensures Inv(Cleared(s))
  {
    forall x ensures RoleOk(Cleared(s), x) {
      assert RoleOk(s, x);
    }
  }

  lemma UseInv(s: State)
    requires Inv(s)
    ensures s.received <= s.sent
  {
  }

  /** So a waiting receiver and a stored mail never sit facing each other with nobody on the way. */
  lemma NobodyStuck(s: State)
    requires Inv(s)
    ensures s.receivers != [] && s.mails != [] ==> s.wokenReceivers != {}
    ensures s.senders != [] && |s.mails| < s.size ==> s.wokenSenders != {}
  {
  }

  // ----- what the calls return

  /** A send is done exactly if there is room, is refused exactly if there is none and it may not wait, and else joins
      the waiting senders.  Done, the mail is the last stored and the first waiting receiver is woken. */
  lemma SendOutcomes(s: State, t: int, value: int, noWait: bool, prio: int -> int, flag: Flag)
    requires Inv(s)
    ensures var (s', r) := Send(s, t, value, noWait, prio, flag);
            && (r.Done? <==> |s.mails| < s.size) && (r.Refused? <==> |s.mails| == s.size && noWait)
            && s'.wokenSenders == s.wokenSenders - {t} && s'.received == s.received && s'.size == s.size
            && (r.Done? ==> && s'.mails == s.mails + [value] && s'.sent == s.sent + [value] && s'.senders == s.senders
                            && FirstWoken(s.receivers, s'.receivers, s.wokenReceivers, s'.wokenReceivers))
            && (!r.Done? ==> && s'.mails == s.mails && s'.sent == s.sent && s'.receivers == s.receivers
                             && s'.wokenReceivers == s.wokenReceivers)
            && (r.Refused? ==> s'.senders == s.senders)
            && (r.Waits? ==> multiset(s'.senders) == multiset(s.senders) + multiset{t})
  {
    hide RolesOk, NoLostWakeup, InsertByPrio;
    if flag == Prio { InsertMembers(s.senders, prio, t); }
  }

  /** The first of the list, if there is one, leaves it and is woken. */
  ghost predicate FirstWoken(list: seq<int>, list': seq<int>, woken: set<int>, woken': set<int>) {
    if list == [] then list' == [] && woken' == woken
    else list == [list[0]] + list' && woken' == woken + {list[0]}
  }

  /** A receive is done exactly if a mail is stored; then it returns the oldest one, which leaves the mailbox, and the
      first waiting sender is woken. */
  lemma RecvOutcomes(s: State, t: int, noWait: bool, prio: int -> int, flag: Flag)
    requires Inv(s)
    ensures var (s', r) := Recv(s, t, noWait, prio, flag);
            && (r.Done? <==> s.mails != []) && (r.Refused? <==> s.mails == [] && noWait)
            && s'.wokenReceivers == s.wokenReceivers - {t} && s'.sent == s.sent && s'.size == s.size
            && (r.Done? ==> && s.mails == [r.mail] + s'.mails && s'.received == s.received + [r.mail]
                            && s'.receivers == s.receivers
                            && FirstWoken(s.senders, s'.senders, s.wokenSenders, s'.wokenSenders))
            && (!r.Done? ==> && s'.mails == s.mails && s'.received == s.received && s'.senders == s.senders
                             && s'.wokenSenders == s.wokenSenders)
            && (r.Refused? ==> s'.receivers == s.receivers)
            && (r.Waits? ==> multiset(s'.receivers) == multiset(s.receivers) + multiset{t})
  {
    hide RolesOk, NoLostWakeup, InsertByPrio;
    if flag == Prio { InsertMembers(s.receivers, prio, t); }
  }

  /** Who gives up waiting is off both lists, and nobody else is. */
  lemma TimeoutLeaves(s: State, t: int)
    requires Inv(s)
    ensures var s' := Timeout(s, t);
            && (forall x :: x in s'.receivers <==> x in s.receivers && x != t)
            && (forall x :: x in s'.senders <==> x in s.senders && x != t)
            && s'.mails == s.mails && s'.wokenReceivers == s.wokenReceivers && s'.wokenSenders == s.wokenSenders
  {
    hide Drop, Distinct;
    DropKeeps(s.receivers, t);
    DropKeeps(s.senders, t);
  }

  /** A reset leaves nobody waiting and nothing stored. */
  lemma ResetEmpties(s: State)
    requires Inv(s)
    ensures var s' := Cleared(s);
            && Inv(s') && s'.receivers == [] && s'.senders == [] && s'.mails == [] && s'.size == s.size
            && s'.wokenReceivers == s.wokenReceivers && s'.wokenSenders == s.wokenSenders
  {
    ResetInv(s);
  }

  /** What the receives have returned since the last reset, up to state k. */
  ghost function Returned(run: seq<State>, steps: seq<Step>, prios: seq<int -> int>, flag: Flag, k: nat): seq<int>
    requires IsRun(run, steps, prios, flag) && k < |run|
    decreases k
  {
    if k == 0 then []
    else
      var before := Returned(run, steps, prios, flag, k - 1);
      match steps[k - 1]
      case DoRecv(t, noWait) =>
        var r := Recv(run[k - 1], t, noWait, prios[k - 1], flag).1;
        if r.Done? then before + [r.mail] else before
      case DoReset => []
      case _ => before
  }

  /** The mails of the sends that were done since the last reset. */
  ghost function Accepted(run: seq<State>, steps: seq<Step>, prios: seq<int -> int>, flag: Flag, k: nat): seq<int>
    requires IsRun(run, steps, prios, flag) && k < |run|
    decreases k
  {
    if k == 0 then []
    else
      var before := Accepted(run, steps, prios, flag, k - 1);
      match steps[k - 1]
      case DoSend(t, value, noWait) =>
        if Send(run[k - 1], t, value, noWait, prios[k - 1], flag).1.Done? then before + [value] else before
      case DoReset => []
      case _ => before
  }

  /** Over every interleaving, what the receives return is a prefix of what was sent: every mail once, in order, and
      none that was not sent.  The rest is stored. */
  lemma {:induction false} ReturnedInOrder(run: seq<State>, steps: seq<Step>, prios: seq<int -> int>, flag: Flag,
                                           size: nat, k: nat)
    requires IsRun(run, steps, prios, flag) && k < |run| && run[0] == Init(size)
    ensures run[k].received == Returned(run, steps, prios, flag, k)
    ensures run[k].sent == Accepted(run, steps, prios, flag, k)
    ensures Accepted(run, steps, prios, flag, k) == Returned(run, steps, prios, flag, k) + run[k].mails
    decreases k
  {
    hide Send, Recv;
    RunInv(run, steps, prios, flag, size, k);
    if k > 0 {
      ReturnedInOrder(run, steps, prios, flag, size, k - 1);
      RunInv(run, steps, prios, flag, size, k - 1);
      var s, step := run[k - 1], steps[k - 1];
      assert Takes(s, run[k], step, prios[k - 1], flag);
      match step {
        case DoSend(t, value, noWait) => SendOutcomes(s, t, value, noWait, prios[k - 1], flag);
        case DoRecv(t, noWait) => RecvOutcomes(s, t, noWait, prios[k - 1], flag);
        case DoTimeout(t) =>
        case DoReset =>
      }
    }
  }

  // ----- the code

  /** Where the i-th stored mail lies in the ring. */
  function At(out: nat, i: nat, size: nat): int { if out + i < size then out + i else out + i - size }

  /** The stored mails lie in the ring from `out` on. */
  ghost predicate Holds(pool: seq<int>, out: nat, mails: seq<int>) {
    && |mails| <= |pool| && (|pool| > 0 ==> out < |pool|)
    && forall i :: 0 <= i < |mails| ==> pool[At(out, i, |pool|)] == mails[i]
  }

  lemma PushHolds(pool: seq<int>, out: nat, mails: seq<int>, value: int)
    requires Holds(pool, out, mails) && |mails| < |pool|
    ensures Holds(pool[At(out, |mails|, |pool|) := value], out, mails + [value])
  {
  }

  lemma PopHolds(pool: seq<int>, out: nat, mails: seq<int>)
    requires Holds(pool, out, mails) && mails != []
    ensures pool[out] == mails[0] && Holds(pool, At(out, 1, |pool|), mails[1..])
  {
    assert pool[At(out, 0, |pool|)] == mails[0];
    forall i | 0 <= i < |mails| - 1 ensures pool[At(At(out, 1, |pool|), i, |pool|)] == mails[1..][i] {
      assert At(At(out, 1, |pool|), i, |pool|) == At(out, i + 1, |pool|);
      assert pool[At(out, i + 1, |pool|)] == mails[i + 1];
    }
  }

  class MailBox {
    const size: nat
    const pool: array<int>
    var entry: nat
    var inOffset: nat
    var outOffset: nat
    const receivers: WaitList
    const senders: WaitList
    ghost var mails: seq<int>
    ghost var wokenReceivers: set<int>
    ghost var wokenSenders: set<int>
    ghost var sent: seq<int>
    ghost var received: seq<int>

    ghost function View(): State
      reads this, receivers, senders
    {
      State(size, mails, receivers.list, senders.list, wokenReceivers, wokenSenders, sent, received)
    }

    ghost predicate Stored()
      reads this, pool
    {
      && pool.Length == size
      && entry == |mails| <= size
      && (size == 0 ==> inOffset == 0 && outOffset == 0)
      && (size > 0 ==> inOffset == At(outOffset, if entry == size then 0 else entry, size))
      && Holds(pool[..], outOffset, mails)
    }

    ghost predicate Valid()
      reads this, pool, receivers, senders
    {
      Stored() && receivers != senders && receivers.Valid() && senders.Valid()
    }

    constructor (n: nat)
      ensures Valid() && View() == Init(n) && fresh(pool) && fresh(receivers) && fresh(senders)
    {
      size := n;
      pool := new int[n];
      entry, inOffset, outOffset := 0, 0, 0;
      receivers := new WaitList();
      senders := new WaitList();
      mails, wokenReceivers, wokenSenders, sent, received := [], {}, {}, [], [];
    }

    /** One critical section of rt_mb_send_wait. */
    method SendSection(t: int, value: int, noWait: bool, prio: int -> int, flag: Flag) returns (r: Outcome)
      requires Valid() && 0 <= t && MaySend(View(), t)
      modifies this, pool, receivers, senders
      ensures Valid() && (View(), r) == Send(old(View()), t, value, noWait, prio, flag)
    {
      hide Holds, At, Enlist, Nodes.IsList;
      wokenSenders := wokenSenders - {t};
      if entry == size {
        if noWait {
          return Refused;
        }
        senders.Suspend(prio, t, flag);
        return Waits;
      }
      Store(value);
      sent := sent + [value];
      var empty := receivers.IsEmpty();
      if !empty {
        var x := receivers.Resume();
        wokenReceivers := wokenReceivers + {x};
      }
      return Done(value);
    }

    /** Put a mail into the ring. */
    method Store(value: int)
      requires Stored() && entry < size
      modifies `entry, `inOffset, `mails, pool
      ensures Stored() && mails == old(mails) + [value]
    {
      PushHolds(pool[..], outOffset, mails, value);
      ghost var p := pool[..];
      pool[inOffset] := value;
      assert pool[..] == p[inOffset := value];
      inOffset := inOffset + 1;
      if inOffset >= size {
        inOffset := 0;
      }
      entry := entry + 1;
      mails := mails + [value];
    }

    /** Take the oldest mail out of the ring. */
    method Fetch() returns (value: int)
      requires Stored() && entry > 0
      modifies `entry, `outOffset, `mails
      ensures Stored() && old(mails) == [value] + mails
    {
      PopHolds(pool[..], outOffset, mails);
      value := pool[outOffset];
      outOffset := outOffset + 1;
      if outOffset >= size {
        outOffset := 0;
      }
      entry := entry - 1;
      mails := mails[1..];
    }

    /** One critical section of rt_mb_recv. */
    method RecvSection(t: int, noWait: bool, prio: int -> int, flag: Flag) returns (r: Outcome)
      requires Valid() && 0 <= t && MayRecv(View(), t)
      modifies this, receivers, senders
      ensures Valid() && (View(), r) == Recv(old(View()), t, noWait, prio, flag)
    {
      hide Holds, At, Enlist, Nodes.IsList;
      wokenReceivers := wokenReceivers - {t};
      if entry == 0 {
        if noWait {
          return Refused;
        }
        receivers.Suspend(prio, t, flag);
        return Waits;
      }
      var value := Fetch();
      received := received + [value];
      var empty := senders.IsEmpty();
      if !empty {
        var x := senders.Resume();
        wokenSenders := wokenSenders + {x};
      }
      return Done(value);
    }

    /** rt_mb_control with RT_IPC_CMD_RESET. */
    method Reset()
      requires Valid()
      modifies this, receivers, senders
      ensures Valid() && View() == Cleared(old(View()))
    {
      hide Holds, At, Nodes.IsList;
      receivers.ResumeAll();
      senders.ResumeAll();
      entry, inOffset, outOffset := 0, 0, 0;
      mails, sent, received := [], [], [];
      HoldsNone(pool[..]);
    }
  }

  lemma HoldsNone(pool: seq<int>)
    ensures Holds(pool, 0, []) && (|pool| > 0 ==> At(0, 0, |pool|) == 0)
  {
  }
}
