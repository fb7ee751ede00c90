/** Event sets (ipc.c): flags, and threads waiting for all or any of some of them.

    A word of 32 flags is the set of the positions of its one bits: & is intersection, | is union, and
    & ~ is difference.  A state is what one critical section leaves for the next. */
module EventSpec {
  import opened Ring
  import opened IpcList

  /** A position in the word. */
  newtype Bit = b: int | 0 <= b < 32
  type Flags = set<Bit>

  /** What a thread asked for: its event_set, and the bits of its event_info. */
  datatype Info = Info(wish: Flags, and: bool, or: bool, clear: bool)

  /** A thread that was let go, and the flags it was given. */
  datatype Woken = Woken(thread: int, got: Flags)

  datatype State = State(set_: Flags, waiters: seq<int>, info: map<int, Info>)

  datatype Outcome = Got(flags: Flags) | Waits | Refused

  predicate Satisfied(w: Info, flags: Flags) {
    if w.and then w.wish * flags == w.wish else w.or && w.wish * flags != {}
  }

  // ----- the critical sections

  datatype Walked = Walked(set_: Flags, left: seq<int>, woken: seq<Woken>)

  /** What is left of the flags after a satisfied thread with wish `w` took its share. */
  function Rest(w: Info, flags: Flags): Flags { if w.clear then flags - (w.wish * flags) else flags }

  /** The waiters are asked in turn; each one satisfied is let go and may clear what it got. */
  function Walk(flags: Flags, list: seq<int>, info: map<int, Info>): Walked {
    if list == [] then Walked(flags, [], [])
    else if list[0] in info && Satisfied(info[list[0]], flags) then
      var w := info[list[0]];
      var r := Walk(Rest(w, flags), list[1..], info);
      r.(woken := [Woken(list[0], w.wish * flags)] + r.woken)
    else
      var r := Walk(flags, list[1..], info);
      r.(left := [list[0]] + r.left)
  }

  /** rt_event_send. */
  function Send(s: State, flags: Flags): (State, seq<Woken>) {
    if flags == {} then (s, [])
    else var r := Walk(s.set_ + flags, s.waiters, s.info); (s.(set_ := r.set_, waiters := r.left), r.woken)
  }

  /** rt_event_recv by `t`, up to where it returns or sleeps; a woken sleeper returns what it was given. */
  function Recv(s: State, t: int, w: Info, noWait: bool, prio: int -> int, flag: Flag): (State, Outcome) {
    if w.wish == {} then (s, Refused)
    else if Satisfied(w, s.set_) then (s.(set_ := if w.clear then s.set_ - w.wish else s.set_), Got(s.set_ * w.wish))
    else if noWait then (s, Refused)
    else (s.(waiters := Enlist(s.waiters, prio, t, flag), info := s.info[t := w]), Waits)
  }

  function Timeout(s: State, t: int): State { s.(waiters := Drop(s.waiters, t)) }

  function Cleared(s: State): State { s.(set_ := {}, waiters := []) }

  // ----- flags only go while the waiters are walked

  lemma FewerSatisfyLess(w: Info, few: Flags, many: Flags)
    requires few <= many && Satisfied(w, few)
    ensures Satisfied(w, many)
  {
    assert w.wish * few <= w.wish * many <= w.wish;
  }

  lemma {:induction false} WalkLess(flags: Flags, list: seq<int>, info: map<int, Info>)
    ensures Walk(flags, list, info).set_ <= flags
  {
    if list != [] {
      if list[0] in info && Satisfied(info[list[0]], flags) {
        var f := Rest(info[list[0]], flags);
        WalkLess(f, list[1..], info);
      } else {
        WalkLess(flags, list[1..], info);
      }
    }
  }

  /** Nobody who is left could go, although flags were cleared after they were asked. */
  lemma {:induction false} WalkLeavesUnsatisfied(flags: Flags, list: seq<int>, info: map<int, Info>)
    ensures forall k :: 0 <= k < |Walk(flags, list, info).left| ==>
              var t := Walk(flags, list, info).left[k]; t in info ==> !Satisfied(info[t], Walk(flags, list, info).set_)
  {
    if list != [] {
      var t := list[0];
      if t in info && Satisfied(info[t], flags) {
        WalkLeavesUnsatisfied(Rest(info[t], flags), list[1..], info);
      } else {
        WalkLeavesUnsatisfied(flags, list[1..], info);
        WalkLess(flags, list[1..], info);
        if t in info && Satisfied(info[t], Walk(flags, list[1..], info).set_) {
          FewerSatisfyLess(info[t], Walk(flags, list[1..], info).set_, flags);
        }
      }
    }
  }

  function Threads(woken: seq<Woken>): seq<int> { seq(|woken|, i requires 0 <= i < |woken| => woken[i].thread) }

  lemma ThreadsCons(w: Woken, woken: seq<Woken>)
    ensures Threads([w] + woken) == [w.thread] + Threads(woken)
  {
  }

  /** Everyone asked is left or let go, once. */
  lemma {:induction false} WalkPartitions(flags: Flags, list: seq<int>, info: map<int, Info>)
    ensures var r := Walk(flags, list, info); multiset(list) == multiset(r.left) + multiset(Threads(r.woken))
  {
    if list != [] {
      assert list == [list[0]] + list[1..];
      if list[0] in info && Satisfied(info[list[0]], flags) {
        var f := Rest(info[list[0]], flags);
        WalkPartitions(f, list[1..], info);
        ThreadsCons(Woken(list[0], info[list[0]].wish * flags), Walk(f, list[1..], info).woken);
      } else {
        WalkPartitions(flags, list[1..], info);
      }
    }
  }

  /** Those let go got what they wished for: all of it, or some of it, from the flags that were there. */
  ghost predicate Served(w: Woken, info: map<int, Info>, flags: Flags) {
    && w.thread in info && w.got <= flags && w.got <= info[w.thread].wish
    && (if info[w.thread].and then w.got == info[w.thread].wish else info[w.thread].or && w.got != {})
  }

  lemma {:induction false} WalkServes(flags: Flags, list: seq<int>, info: map<int, Info>)
    ensures forall k :: 0 <= k < |Walk(flags, list, info).woken| ==>
            Served(Walk(flags, list, info).woken[k], info, flags)
  {
    if list != [] {
      var t := list[0];
      if t in info && Satisfied(info[t], flags) {
        var f := Rest(info[t], flags);
        WalkServes(f, list[1..], info);
        var r := Walk(f, list[1..], info).woken;
        forall k | 0 <= k < |r| ensures Served(r[k], info, flags) { assert Served(r[k], info, f); }
      } else {
        WalkServes(flags, list[1..], info);
      }
    }
  }

  /** The flags that the clearing ones among `woken` got. */
  function Taken(woken: seq<Woken>, info: map<int, Info>): Flags {
    if woken == [] then {}
    else (if woken[0].thread in info && info[woken[0].thread].clear then woken[0].got else {}) + Taken(woken[1..], info)
  }

  /** No flag disappears but by being taken. */
  lemma {:induction false} WalkConserves(flags: Flags, list: seq<int>, info: map<int, Info>)
    ensures Walk(flags, list, info).set_ == flags - Taken(Walk(flags, list, info).woken, info)
  {
    if list != [] {
      var t := list[0];
      if t in info && Satisfied(info[t], flags) {
        var f := Rest(info[t], flags);
        WalkConserves(f, list[1..], info);
        var r := Walk(f, list[1..], info).woken;
        var w := Woken(t, info[t].wish * flags);
        assert ([w] + r)[1..] == r;
        assert Taken([w] + r, info) == (if info[t].clear then w.got else {}) + Taken(r, info);
      } else {
        WalkConserves(flags, list[1..], info);
      }
    }
  }

  /** A flag taken by one is not given to another after it. */
  lemma {:induction false} TakenGoesToOne(flags: Flags, list: seq<int>, info: map<int, Info>, i: nat, j: nat)
    requires var r := Walk(flags, list, info);
             i < j < |r.woken| && r.woken[i].thread in info && info[r.woken[i].thread].clear
    ensures var r := Walk(flags, list, info); r.woken[i].got * r.woken[j].got == {}
  {
    var t := list[0];
    if t in info && Satisfied(info[t], flags) {
      var f := Rest(info[t], flags);
      var r := Walk(f, list[1..], info).woken;
      if i > 0 {
        TakenGoesToOne(f, list[1..], info, i - 1, j - 1);
      } else {
        WalkServes(f, list[1..], info);
        assert Served(r[j - 1], info, f);
      }
    } else {
      TakenGoesToOne(flags, list[1..], info, i, j);
    }
  }

  // ----- what the calls do

  /** rt_event_send adds its flags to those that are there.  Of both together only what was taken with CLEAR is gone;
      everyone in the list is let go with what it asked for, or is left and still lacks it. */
  lemma SendDelivers(s: State, flags: Flags)
    ensures var (s', woken) := Send(s, flags);
            && s'.info == s.info && s'.set_ == (s.set_ + flags) - Taken(woken, s.info)
            && multiset(s.waiters) == multiset(s'.waiters) + multiset(Threads(woken))
            && (forall k :: 0 <= k < |woken| ==> Served(woken[k], s.info, s.set_ + flags))
            && (flags == {} ==> s' == s && woken == [])
            && (flags != {} ==> forall k :: 0 <= k < |s'.waiters| ==>
                  s'.waiters[k] in s.info ==> !Satisfied(s.info[s'.waiters[k]], s'.set_))
  {
    hide Walk, Satisfied;
    var all := s.set_ + flags;
    WalkConserves(all, s.waiters, s.info);
    WalkPartitions(all, s.waiters, s.info);
    WalkServes(all, s.waiters, s.info);
    WalkLeavesUnsatisfied(all, s.waiters, s.info);
    assert Threads([]) == [] && s.set_ + {} == s.set_;
  }

  /** rt_event_recv returns at once with the wished flags that are there, if there are enough of them, and then exactly
      the wished flags go, and only with CLEAR.  It refuses an empty wish, and one that is not met if the call may not
      wait, and changes nothing.  Else the caller joins the waiting list. */
  lemma RecvOutcomes(s: State, t: int, w: Info, noWait: bool, prio: int -> int, flag: Flag)
    requires w.and || w.or
    ensures var (s', r) := Recv(s, t, w, noWait, prio, flag);
            var met := w.wish != {} && if w.and then w.wish <= s.set_ else w.wish * s.set_ != {};
            && (r.Got? <==> met) && (r.Refused? <==> !met && (w.wish == {} || noWait))
            && (r.Got? ==> && r.flags == w.wish * s.set_ && s'.waiters == s.waiters && s'.info == s.info
                           && s'.set_ == if w.clear then s.set_ - w.wish else s.set_)
            && (r.Refused? ==> s' == s)
            && (r.Waits? ==> && s'.set_ == s.set_ && s'.info == s.info[t := w]
                             && multiset(s'.waiters) == multiset(s.waiters) + multiset{t})
  {
    assert w.wish * s.set_ == w.wish <==> w.wish <= s.set_;
    assert s.set_ * w.wish == w.wish * s.set_;
    if flag == Prio { InsertMembers(s.waiters, prio, t); }
  }

  /** Who gives up waiting is off the list, and nobody else is. */
  lemma TimeoutLeaves(s: State, t: int)
    requires Distinct(s.waiters)
    ensures var s' := Timeout(s, t);
            && s'.set_ == s.set_ && s'.info == s.info
            && forall x :: x in s'.waiters <==> x in s.waiters && x != t
  {
    hide Drop, Distinct;
    DropKeeps(s.waiters, t);
  }

  // ----- every run

  /** Each waiter asked for all or any of some flags, and does not have them. */
  ghost predicate WaiterOk(s: State, t: int) {
    t in s.info && s.info[t].wish != {} && (s.info[t].and || s.info[t].or) && !Satisfied(s.info[t], s.set_)
  }

  ghost predicate Inv(s: State) {
    Distinct(s.waiters) && forall t :: t in s.waiters ==> WaiterOk(s, t)
  }

  lemma {:induction false} WalkDistinct(flags: Flags, list: seq<int>, info: map<int, Info>)
    requires Distinct(list)
    ensures Distinct(Walk(flags, list, info).left) && forall t :: t in Walk(flags, list, info).left ==> t in list
  {
    if list != [] {
      DistinctTail(list);
      var go := list[0] in info && Satisfied(info[list[0]], flags);
      WalkDistinct(if go then Rest(info[list[0]], flags) else flags, list[1..], info);
    }
  }

  lemma SendInv(s: State, flags: Flags)
    requires Inv(s)
    ensures Inv(Send(s, flags).0)
  {
    hide Satisfied, Walk, Distinct;
    WalkDistinct(s.set_ + flags, s.waiters, s.info);
    WalkLeavesUnsatisfied(s.set_ + flags, s.waiters, s.info);
    var s' := Send(s, flags).0;
    forall t | t in s'.waiters ensures WaiterOk(s', t) {
      assert WaiterOk(s, t);
    }
  }

  lemma RecvInv(s: State, t: int, w: Info, noWait: bool, prio: int -> int, flag: Flag)
    requires Inv(s) && t !in s.waiters && (w.and || w.or)
    ensures Inv(Recv(s, t, w, noWait, prio, flag).0)
  {
    hide Satisfied, Distinct, Enlist;
    var s' := Recv(s, t, w, noWait, prio, flag).0;
    EnlistMembers(s.waiters, prio, t, flag);
    forall u | u in s'.waiters ensures WaiterOk(s', u) {
      if u in s.waiters {
        assert WaiterOk(s, u);
        if Satisfied(s'.info[u], s'.set_) { FewerSatisfyLess(s.info[u], s'.set_, s.set_); }
      }
    }
  }

  lemma TimeoutInv(s: State, t: int)
    requires Inv(s)
    ensures Inv(Timeout(s, t)) && Inv(Cleared(s))
  {
    DropKeeps(s.waiters, t);
    var s' := Timeout(s, t);
    forall u | u in s'.waiters ensures WaiterOk(s', u) { assert WaiterOk(s, u); }
  }

  datatype Step = DoSend(flags: Flags) | DoRecv(t: int, w: Info, noWait: bool) | DoTimeout(t: int) | DoReset

  ghost predicate Takes(s: State, s': State, step: Step, prio: int -> int, flag: Flag) {
    match step
    case DoSend(flags) => s' == Send(s, flags).0
    case DoRecv(t, w, noWait) => t !in s.waiters && (w.and || w.or) && s' == Recv(s, t, w, noWait, prio, flag).0
    case DoTimeout(t) => s' == Timeout(s, t)
    case DoReset => s' == Cleared(s)
  }

  /** A reset leaves nobody waiting and no flag. */
  lemma ResetEmpties(s: State)
    ensures var s' := Cleared(s); Inv(s') && s'.waiters == [] && s'.set_ == {}
  {
  }

  /** The flags that a step brings, and those that somebody takes away with CLEAR. */
  function Brings(step: Step): Flags { if step.DoSend? then step.flags else {} }

  ghost function TakesAway(s: State, step: Step, prio: int -> int, flag: Flag): Flags {
    match step
    case DoSend(flags) => Taken(Send(s, flags).1, s.info)
    case DoRecv(t, w, noWait) => if Recv(s, t, w, noWait, prio, flag).1.Got? && w.clear then w.wish else {}
    case DoTimeout(t) => {}
    case DoReset => s.set_
  }

  /** Flags come from sends alone, and stay until somebody takes them with CLEAR or the set is reset. */
  lemma StepFlags(s: State, s': State, step: Step, prio: int -> int, flag: Flag)
    requires Takes(s, s', step, prio, flag)
    ensures s'.set_ == (s.set_ + Brings(step)) - TakesAway(s, step, prio, flag)
  {
    match step
    case DoSend(flags) => SendDelivers(s, flags);
    case DoRecv(t, w, noWait) => RecvOutcomes(s, t, w, noWait, prio, flag);
    case DoTimeout(t) =>
    case DoReset =>
  }

  ghost predicate IsRun(run: seq<State>, steps: seq<Step>, prios: seq<int -> int>, flag: Flag) {
    && |run| == |steps| + 1 && |prios| == |steps|
    && forall i :: 0 <= i < |steps| ==> Takes(run[i], run[i + 1], steps[i], prios[i], flag)
  }

  /** In every state of every run, nobody waits for flags that are there. */
  lemma {:induction false} RunInv(run: seq<State>, steps: seq<Step>, prios: seq<int -> int>, flag: Flag, i: nat)
    requires IsRun(run, steps, prios, flag) && i < |run| && run[0].waiters == [] && run[0].set_ == {}
    ensures Inv(run[i])
    ensures forall t :: t in run[i].waiters ==> t in run[i].info && !Satisfied(run[i].info[t], run[i].set_)
    decreases i
  {
    if i > 0 {
      RunInv(run, steps, prios, flag, i - 1);
      var s := run[i - 1];
      assert Takes(s, run[i], steps[i - 1], prios[i - 1], flag);
      match steps[i - 1] {
        case DoSend(flags) => SendInv(s, flags);
        case DoRecv(t, w, noWait) => RecvInv(s, t, w, noWait, prios[i - 1], flag);
        case DoTimeout(t) => TimeoutInv(s, t);
        case DoReset => TimeoutInv(s, 0);
      }
    }
    InvMeans(run[i]);
  }

  lemma InvMeans(s: State)
    requires Inv(s)
    ensures forall t :: t in s.waiters ==> t in s.info && !Satisfied(s.info[t], s.set_)
  {
    forall t | t in s.waiters ensures t in s.info && !Satisfied(s.info[t], s.set_) { assert WaiterOk(s, t); }
  }
}

module EventCode {
  import opened Ring
  import opened IpcList
  import opened WaitRing
  import Nodes
  import opened EventSpec

  class RtEvent {
    const flag: Flag
    var flags: Flags
    const waiters: WaitList
    /** event_set and event_info of the threads; a thread that is let go finds in it what it was given. */
    var info: map<int, Info>

    ghost function View(): State
      reads this, waiters
    {
      State(flags, waiters.list, info)
    }

    ghost predicate Valid()
      reads this, waiters
    {
      waiters.Valid() && Inv(View())
    }

    constructor (f: Flag)
      ensures Valid() && View() == State({}, [], map[]) && fresh(waiters)
    {
      flag, flags, info := f, {}, map[];
      waiters := new WaitList();
    }

    /** rt_event_send: walk the list, removing those who can go. */
    method SendFlags(f: Flags) returns (ghost woken: seq<Woken>)
      requires Valid()
      modifies this, waiters
      ensures (View(), woken) == (Send(old(View()), f).0.(info := info), Send(old(View()), f).1)
      ensures Valid()
      ensures forall t :: t in waiters.list ==> t in old(info) && info[t] == old(info)[t]
      ensures forall k :: 0 <= k < |woken| ==> woken[k].thread in info && info[woken[k].thread].wish == woken[k].got
    {
      hide Nodes.IsList;
      woken := [];
      if f == {} {
        return;
      }
      SendInv(View(), f);
      flags := flags + f;
      ghost var was, all, p := info, Walk(flags, waiters.list, info), 0;
      var n := waiters.First();
      NotHead(waiters.list);
      assert waiters.list[p..] == waiters.list;
      while n != HEAD
        invariant 0 <= p <= |waiters.list| && n == NodeAt(waiters.list, p) && waiters.Valid()
        invariant Distinct(waiters.list) && (n == HEAD <==> p == |waiters.list|)
        invariant Unchanged(waiters.list, was, info)
        invariant Progress(all, flags, waiters.list, p, was, woken)
        invariant Delivered(woken, info, waiters.list)
        decreases |waiters.list| - p
      {
        n, p, woken := Visit(n, p, was, all, woken);
        NotHead(waiters.list);
      }
      WalkDone(all, flags, waiters.list, was, woken);
      ghost var s', s'' := Send(old(View()), f).0, View();
      forall t | t in waiters.list ensures WaiterOk(s'', t) { assert WaiterOk(s', t); }
    }

    /** One thread of the list. */
    method Visit(n: int, ghost p: nat, ghost was: map<int, Info>, ghost all: Walked, ghost woken: seq<Woken>)
      returns (n': int, ghost p': nat, ghost woken': seq<Woken>)
      requires waiters.Valid() && p < |waiters.list| && n == waiters.list[p] && Distinct(waiters.list)
      requires Unchanged(waiters.list, was, info) && Delivered(woken, info, waiters.list)
      requires Progress(all, flags, waiters.list, p, was, woken)
      modifies this, waiters
      ensures waiters.Valid() && p' <= |waiters.list| && n' == NodeAt(waiters.list, p')
      ensures |waiters.list| - p' < old(|waiters.list|) - p
      ensures Distinct(waiters.list) && Unchanged(waiters.list, was, info) && Delivered(woken', info, waiters.list)
      ensures Progress(all, flags, waiters.list, p', was, woken')
    {
      hide Distinct, Progress, Walk, Nodes.IsList;
      var t := n;
      assert t in waiters.list;
      var w := info[t];
      var go := false;
      if w.and {
        go := w.wish * flags == w.wish;
      } else if w.or {
        if w.wish * flags != {} {
          info := info[t := w.(wish := w.wish * flags)];
          go := true;
        }
      }
      assert info[t].wish == if go then w.wish * flags else w.wish;
      n' := waiters.Next(n, p);
      p', woken' := p + 1, woken;
      if go {
        ProgressGo(all, flags, waiters.list, p, was, woken);
        woken' := woken + [Woken(t, info[t].wish)];
        if w.clear {
          flags := flags - info[t].wish;
        }
        WithoutMembers(waiters.list, p);
        DistinctWithout(waiters.list, p);
        waiters.Unlink(t, p);
        p' := p;
      } else {
        ProgressStay(all, flags, waiters.list, p, was, woken);
      }
    }

    /** rt_event_recv, up to where it returns or sleeps. */
    method RecvFlags(t: int, w: Info, noWait: bool, prio: int -> int) returns (r: Outcome)
      requires Valid() && 0 <= t && t !in waiters.list && (w.and || w.or)
      modifies this, waiters
      ensures (View(), r) == Recv(old(View()), t, w, noWait, prio, flag)
      ensures Valid()
    {
      hide Enlist, Inv, Nodes.IsList;
      RecvInv(View(), t, w, noWait, prio, flag);
      if w.wish == {} {
        return Refused;
      }
      var ok := if w.and then flags * w.wish == w.wish else flags * w.wish != {};
      assert flags * w.wish == w.wish * flags;
      if ok {
        r := Got(flags * w.wish);
        if w.clear {
          flags := flags - w.wish;
        }
      } else if noWait {
        r := Refused;
      } else {
        info := info[t := w];
        waiters.Suspend(prio, t, flag);
        r := Waits;
      }
    }

    /** rt_event_control with RT_IPC_CMD_RESET. */
    method Reset()
      requires Valid()
      modifies this, waiters
      ensures View() == Cleared(old(View())) && Valid()
    {
      hide Nodes.IsList;
      waiters.ResumeAll();
      flags := {};
    }
  }

  /** The waiters' wishes are as they were. */
  ghost predicate Unchanged(waiters: seq<int>, was: map<int, Info>, info: map<int, Info>) {
    forall t :: t in waiters ==> t in was && t in info && info[t] == was[t]
  }

  /** Who was let go found what it got. */
  ghost predicate Delivered(woken: seq<Woken>, info: map<int, Info>, waiters: seq<int>) {
    forall k :: 0 <= k < |woken| ==>
      woken[k].thread in info && info[woken[k].thread].wish == woken[k].got && woken[k].thread !in waiters
  }

  /** The whole walk is what was done so far and the walk over the rest of the list. */
  ghost predicate Progress(all: Walked, flags: Flags, waiters: seq<int>, n: nat, was: map<int, Info>, woken: seq<Woken>)
    requires n <= |waiters|
  {
    var r := Walk(flags, waiters[n..], was);
    all == Walked(r.set_, waiters[..n] + r.left, woken + r.woken)
  }

  lemma WalkDone(all: Walked, flags: Flags, waiters: seq<int>, was: map<int, Info>, woken: seq<Woken>)
    requires Progress(all, flags, waiters, |waiters|, was, woken)
    ensures all == Walked(flags, waiters, woken)
  {
    assert waiters[|waiters|..] == [] && waiters[..|waiters|] + [] == waiters && woken + [] == woken;
  }

  lemma ProgressStay(all: Walked, flags: Flags, waiters: seq<int>, n: nat, was: map<int, Info>, woken: seq<Woken>)
    requires n < |waiters| && Progress(all, flags, waiters, n, was, woken)
    requires waiters[n] in was && !Satisfied(was[waiters[n]], flags)
    ensures Progress(all, flags, waiters, n + 1, was, woken)
  {
    var list, t := waiters[n..], waiters[n];
    assert list[0] == t && list[1..] == waiters[n + 1..];
    var r := Walk(flags, list[1..], was);
    assert waiters[..n] + ([t] + r.left) == waiters[..n + 1] + r.left;
  }

  lemma ProgressGo(all: Walked, flags: Flags, waiters: seq<int>, n: nat, was: map<int, Info>, woken: seq<Woken>)
    requires n < |waiters| && Progress(all, flags, waiters, n, was, woken)
    requires waiters[n] in was && Satisfied(was[waiters[n]], flags)
    ensures var w := was[waiters[n]];
            Progress(all, Rest(w, flags), Without(waiters, n), n, was, woken + [Woken(waiters[n], w.wish * flags)])
  {
    var list, t, left := waiters[n..], waiters[n], Without(waiters, n);
    var w := was[t];
    assert list[0] == t && list[1..] == waiters[n + 1..];
    assert left[n..] == list[1..] && left[..n] == waiters[..n];
    var r := Walk(Rest(w, flags), list[1..], was);
    assert woken + ([Woken(t, w.wish * flags)] + r.woken) == (woken + [Woken(t, w.wish * flags)]) + r.woken;
  }

  lemma WithoutMembers(list: seq<int>, n: nat)
    requires n < |list| && Distinct(list)
    ensures list[n] !in Without(list, n) && forall x :: x in Without(list, n) ==> x in list
  {
  }
}
