/** Recursive mutexes with priority inheritance (ipc.c, and the priority change of thread.c).

    Threads and mutexes are numbered.  A smaller priority number is more urgent.  A state is what one
    critical section leaves for the next. */
module MutexSpec {
  import opened Ring
  import opened IpcList

  const NOBODY: int := -1
  const NO_PRIORITY: int := 0xff

  /** `waiters` is the suspend list; `orig` is the priority the owner had when it got the mutex. */
  datatype Mutex = Mutex(value: int, owner: int, orig: int, hold: int, waiters: seq<int>, flag: Flag)

  datatype Outcome = Done | Waits | Refused

  function Fresh(flag: Flag): Mutex { Mutex(1, NOBODY, NO_PRIORITY, 0, [], flag) }

  function PrioOf(prio: seq<int>): int -> int { t => if 0 <= t < |prio| then prio[t] else NO_PRIORITY }

  // ----- one mutex

  /** rt_mutex_take by `t` up to where it returns or sleeps; a sleeper that is given the mutex just returns. */
  function TakeOne(m: Mutex, prio: seq<int>, t: int, noWait: bool): (Mutex, seq<int>, Outcome)
    requires 0 <= t < |prio| && (m.value > 0 || 0 <= m.owner < |prio|)
  {
    if m.owner == t then (m.(hold := m.hold + 1), prio, Done)
    else if m.value > 0 then (m.(value := m.value - 1, owner := t, orig := prio[t], hold := m.hold + 1), prio, Done)
    else if noWait then (m, prio, Refused)
    else
      var prio' := if prio[t] < prio[m.owner] then prio[m.owner := prio[t]] else prio;
      (m.(waiters := Enlist(m.waiters, PrioOf(prio'), t, m.flag)), prio', Waits)
  }

  /** rt_mutex_release by `t`. */
  function ReleaseOne(m: Mutex, prio: seq<int>, t: int): (Mutex, seq<int>, Outcome)
    requires 0 <= t < |prio| && (m.waiters != [] ==> 0 <= m.waiters[0] < |prio|)
  {
    if t != m.owner then (m, prio, Refused)
    else if m.hold != 1 then (m.(hold := m.hold - 1), prio, Done)
    else
      var prio' := prio[t := m.orig];
      if m.waiters != [] then
        (m.(owner := m.waiters[0], orig := prio'[m.waiters[0]], hold := 1, waiters := m.waiters[1..]), prio', Done)
      else (m.(value := m.value + 1, owner := NOBODY, orig := NO_PRIORITY, hold := 0), prio', Done)
  }

  /** Taken or not, and by whom; only a taken mutex is waited for. */
  ghost predicate MutexOk(m: Mutex, n: nat) {
    && (m.value == 1 <==> m.owner == NOBODY) && (m.owner == NOBODY <==> m.hold == 0)
    && 0 <= m.value <= 1 && 0 <= m.hold && NOBODY <= m.owner < n
    && (m.waiters != [] ==> m.owner != NOBODY)
    && m.owner !in m.waiters && Distinct(m.waiters)
    && (forall k :: 0 <= k < |m.waiters| ==> 0 <= m.waiters[k] < n)
  }

  /** A list in order of urgency whose every member is at most as urgent as the owner. */
  ghost predicate Inherits(m: Mutex, prio: seq<int>) {
    && Sorted(m.waiters, PrioOf(prio))
    && (0 <= m.owner < |prio| ==> forall k :: 0 <= k < |m.waiters| ==> prio[m.owner] <= PrioOf(prio)(m.waiters[k]))
  }

  lemma TakeOneOk(m: Mutex, prio: seq<int>, t: int, noWait: bool)
    requires MutexOk(m, |prio|) && 0 <= t < |prio| && t !in m.waiters
    ensures var (m', prio', r) := TakeOne(m, prio, t, noWait);
            && MutexOk(m', |prio'|) && |prio'| == |prio| && m'.flag == m.flag
            && (forall x :: x in m'.waiters <==> x in m.waiters || (r == Waits && x == t))
            && (r == Done ==> m'.owner == t && (m.owner == t || m.owner == NOBODY))
            && (r != Done ==> m'.owner == m.owner != t)
  {
    EnlistMembers(m.waiters, PrioOf(TakeOne(m, prio, t, noWait).1), t, m.flag);
    var m' := TakeOne(m, prio, t, noWait).0;
    forall k | 0 <= k < |m'.waiters| ensures 0 <= m'.waiters[k] < |prio| {
      assert m'.waiters[k] in m'.waiters;
    }
  }

  lemma ReleaseOneOk(m: Mutex, prio: seq<int>, t: int)
    requires MutexOk(m, |prio|) && 0 <= t < |prio|
    ensures var (m', prio', r) := ReleaseOne(m, prio, t);
            && MutexOk(m', |prio'|) && |prio'| == |prio| && m'.flag == m.flag
            && (r == Done <==> m.owner == t)
            && (forall x :: x in m'.waiters ==> x in m.waiters)
            && (m'.owner != m.owner ==>
                r == Done && m'.owner != t && (m'.owner != NOBODY ==> m'.owner in m.waiters && m'.owner !in m'.waiters))
  {
    if m.waiters != [] { DistinctTail(m.waiters); }
  }

  /** Inheritance on one mutex, while nothing else touches the priorities of its waiters: the waiting list
      stays in order and the owner stays as urgent as everyone in it. */
  lemma TakeInherits(m: Mutex, prio: seq<int>, t: int, noWait: bool)
    requires MutexOk(m, |prio|) && m.flag == Prio && Inherits(m, prio) && 0 <= t < |prio| && t !in m.waiters
    ensures var (m', prio', r) := TakeOne(m, prio, t, noWait); Inherits(m', prio')
  {
    var (m', prio', r) := TakeOne(m, prio, t, noWait);
    if r == Waits {
      SortedFrame(m.waiters, prio, prio');
      InsertSorted(m.waiters, PrioOf(prio'), t);
      EnlistMembers(m.waiters, PrioOf(prio'), t, Prio);
      forall k | 0 <= k < |m'.waiters| ensures prio'[m.owner] <= PrioOf(prio')(m'.waiters[k]) {
        assert m'.waiters[k] in m'.waiters;
        if m'.waiters[k] != t {
          var j :| 0 <= j < |m.waiters| && m.waiters[j] == m'.waiters[k];
          assert prio[m.owner] <= PrioOf(prio)(m.waiters[j]);
        }
      }
    }
  }

  lemma SortedFrame(list: seq<int>, prio: seq<int>, prio': seq<int>)
    requires Sorted(list, PrioOf(prio)) && |prio'| == |prio|
    requires forall k :: 0 <= k < |list| ==> PrioOf(prio')(list[k]) == PrioOf(prio)(list[k])
    ensures Sorted(list, PrioOf(prio'))
  {
    forall i, j | 0 <= i < j < |list| ensures PrioOf(prio')(list[i]) <= PrioOf(prio')(list[j]) {
      assert PrioOf(prio)(list[i]) <= PrioOf(prio)(list[j]);
    }
  }

  lemma ReleaseInherits(m: Mutex, prio: seq<int>, t: int)
    requires MutexOk(m, |prio|) && m.flag == Prio && Inherits(m, prio) && 0 <= t < |prio|
    ensures var (m', prio', r) := ReleaseOne(m, prio, t); Inherits(m', prio')
  {
    var (m', prio', r) := ReleaseOne(m, prio, t);
    if m'.owner != m.owner {
      SortedFrame(m.waiters, prio, prio');
      var f := PrioOf(prio');
      forall k | 0 <= k < |m'.waiters| ensures prio'[m'.owner] <= f(m'.waiters[k]) {
        assert f(m.waiters[0]) <= f(m.waiters[k + 1]);
      }
      forall i, j | 0 <= i < j < |m'.waiters| ensures f(m'.waiters[i]) <= f(m'.waiters[j]) {
        assert f(m.waiters[i + 1]) <= f(m.waiters[j + 1]);
      }
    } else {
      assert prio' == prio;
    }
  }

  /** A hand-over does not look at the other waiters: the new owner is as urgent as they are exactly if it
      is a most urgent one, which only a list kept by priority promises. */
  lemma HandOverInheritsIff(m: Mutex, prio: seq<int>, t: int)
    requires MutexOk(m, |prio|) && 0 <= t < |prio| && m.owner == t && m.hold == 1 && m.waiters != []
    ensures var (m', prio', _) := ReleaseOne(m, prio, t);
            (forall k :: 0 <= k < |m'.waiters| ==> prio'[m'.owner] <= PrioOf(prio')(m'.waiters[k]))
            <==> (forall k :: 0 <= k < |m.waiters| ==> PrioOf(prio)(m.waiters[0]) <= PrioOf(prio)(m.waiters[k]))
  {
    var (m', prio', r) := ReleaseOne(m, prio, t);
    assert forall k :: 0 <= k < |m.waiters| ==>
           m.waiters[k] in m.waiters && PrioOf(prio')(m.waiters[k]) == PrioOf(prio)(m.waiters[k]);
    assert forall k :: 0 <= k < |m'.waiters| ==> m'.waiters[k] == m.waiters[k + 1];
    if forall k :: 0 <= k < |m'.waiters| ==> prio'[m'.owner] <= PrioOf(prio')(m'.waiters[k]) {
      forall k | 0 <= k < |m.waiters| ensures PrioOf(prio)(m.waiters[0]) <= PrioOf(prio)(m.waiters[k]) {
        if k > 0 { assert m'.waiters[k - 1] == m.waiters[k]; }
      }
    }
  }

  // ----- any number of mutexes and threads

  /** `base` is what each thread was given to start with, `held` the mutexes it has, in the order it got
      them; both are there for the statements below only. */
  datatype State = State(prio: seq<int>, base: seq<int>, mutexes: seq<Mutex>, held: seq<seq<int>>)

  ghost predicate Shaped(s: State) {
    && |s.base| == |s.prio| && |s.held| == |s.prio|
    && forall i :: 0 <= i < |s.mutexes| ==> MutexOk(s.mutexes[i], |s.prio|)
  }

  ghost predicate WaitsOn(s: State, t: int, i: int) { 0 <= i < |s.mutexes| && t in s.mutexes[i].waiters }
  ghost predicate Owns(s: State, t: int, i: int) { 0 <= i < |s.mutexes| && s.mutexes[i].owner == t }

  ghost predicate WaitsOnce(s: State) {
    forall t, i, j :: WaitsOn(s, t, i) && WaitsOn(s, t, j) ==> i == j
  }

  ghost predicate HeldOk(s: State, t: int)
    requires 0 <= t < |s.held|
  {
    Distinct(s.held[t]) && forall i :: i in s.held[t] <==> Owns(s, t, i)
  }

  ghost predicate Inv(s: State) {
    && Shaped(s) && WaitsOnce(s)
    && forall t :: 0 <= t < |s.held| ==> HeldOk(s, t)
  }

  /** `t` is not asleep on a mutex. */
  ghost predicate Runs(s: State, t: int) { 0 <= t < |s.prio| && forall i :: !WaitsOn(s, t, i) }

  function Got(held: seq<seq<int>>, t: int, i: int): seq<seq<int>> {
    if 0 <= t < |held| then held[t := held[t] + [i]] else held
  }

  function Lost(held: seq<seq<int>>, t: int, i: int): seq<seq<int>> {
    if 0 <= t < |held| then held[t := Drop(held[t], i)] else held
  }

  ghost function Take(s: State, t: int, i: int, noWait: bool): State
    requires Inv(s) && Runs(s, t) && 0 <= i < |s.mutexes|
  {
    var (m, prio, r) := TakeOne(s.mutexes[i], s.prio, t, noWait);
    s.(prio := prio, mutexes := s.mutexes[i := m],
       held := if m.owner != s.mutexes[i].owner then Got(s.held, t, i) else s.held)
  }

  ghost function Release(s: State, t: int, i: int): State
    requires Inv(s) && Runs(s, t) && 0 <= i < |s.mutexes|
  {
    var (m, prio, r) := ReleaseOne(s.mutexes[i], s.prio, t);
    s.(prio := prio, mutexes := s.mutexes[i := m],
       held := if m.owner != s.mutexes[i].owner then Got(Lost(s.held, t, i), m.owner, i) else s.held)
  }

  /** A waiter's timer runs out; the owner keeps the priority it inherited. */
  ghost function Timeout(s: State, t: int, i: int): State
    requires Inv(s) && 0 <= i < |s.mutexes|
  {
    s.(mutexes := s.mutexes[i := s.mutexes[i].(waiters := Drop(s.mutexes[i].waiters, t))])
  }

  lemma TakeInv(s: State, t: int, i: int, noWait: bool)
    requires Inv(s) && Runs(s, t) && 0 <= i < |s.mutexes|
    ensures Inv(Take(s, t, i, noWait))
  {
    hide MutexOk, TakeOne, Distinct;
    var s' := Take(s, t, i, noWait);
    assert !WaitsOn(s, t, i);
    TakeOneOk(s.mutexes[i], s.prio, t, noWait);
    forall u, a, b | WaitsOn(s', u, a) && WaitsOn(s', u, b) ensures a == b {
      assert (u != t || a != i ==> WaitsOn(s, u, a)) && (u != t || b != i ==> WaitsOn(s, u, b));
      assert !WaitsOn(s, t, a) && !WaitsOn(s, t, b);
    }
    if s.mutexes[i].owner != t { OwnerNotTwice(s, t, i); }
    forall u | 0 <= u < |s'.held| ensures HeldOk(s', u) {
      assert HeldOk(s, u);
      forall j ensures j in s'.held[u] <==> Owns(s', u, j) {
        assert j in s.held[u] <==> Owns(s, u, j);
      }
    }
  }

  /** Getting a mutex that nobody has. */
  lemma OwnerNotTwice(s: State, t: int, i: int)
    requires Inv(s) && 0 <= t < |s.held| && 0 <= i < |s.mutexes| && s.mutexes[i].owner != t
    ensures i !in s.held[t] && Distinct(s.held[t] + [i])
  {
    assert HeldOk(s, t);
    assert !Owns(s, t, i);
  }

  lemma ReleaseInv(s: State, t: int, i: int)
    requires Inv(s) && Runs(s, t) && 0 <= i < |s.mutexes|
    ensures Inv(Release(s, t, i))
  {
    hide MutexOk, ReleaseOne, HeldOk, Drop;
    var s' := Release(s, t, i);
    ReleaseOneOk(s.mutexes[i], s.prio, t);
    forall u, a, b | WaitsOn(s', u, a) && WaitsOn(s', u, b) ensures a == b {
      assert WaitsOn(s, u, a) && WaitsOn(s, u, b);
    }
    forall u | 0 <= u < |s'.held| ensures HeldOk(s', u) { ReleaseHeldOk(s, t, i, u); }
  }

  lemma ReleaseHeldOk(s: State, t: int, i: int, u: int)
    requires Inv(s) && Runs(s, t) && 0 <= i < |s.mutexes| && 0 <= u < |s.held|
    ensures |Release(s, t, i).held| == |s.held| && HeldOk(Release(s, t, i), u)
  {
    hide MutexOk, ReleaseOne, Distinct, Drop;
    var s' := Release(s, t, i);
    ReleaseOneOk(s.mutexes[i], s.prio, t);
    assert HeldOk(s, u);
    DropKeeps(s.held[u], i);
    if s.mutexes[i].owner != u { OwnerNotTwice(s, u, i); }
    forall j ensures j in s'.held[u] <==> Owns(s', u, j) {
      assert j in s.held[u] <==> Owns(s, u, j);
    }
  }

  lemma TimeoutInv(s: State, t: int, i: int)
    requires Inv(s) && 0 <= i < |s.mutexes|
    ensures Inv(Timeout(s, t, i))
  {
    var s' := Timeout(s, t, i);
    TimeoutOk(s.mutexes[i], |s.prio|, t);
    forall u, a, b | WaitsOn(s', u, a) && WaitsOn(s', u, b) ensures a == b {
      DropKeeps(s.mutexes[i].waiters, t);
      assert WaitsOn(s, u, a) && WaitsOn(s, u, b);
    }
    forall u | 0 <= u < |s'.held| ensures HeldOk(s', u) {
      assert HeldOk(s, u);
      forall j ensures j in s'.held[u] <==> Owns(s', u, j) {
        assert j in s.held[u] <==> Owns(s, u, j);
      }
    }
  }

  lemma TimeoutOk(m: Mutex, n: nat, t: int)
    requires MutexOk(m, n)
    ensures MutexOk(m.(waiters := Drop(m.waiters, t)), n)
  {
    DropKeeps(m.waiters, t);
    var l := Drop(m.waiters, t);
    forall k | 0 <= k < |l| ensures 0 <= l[k] < n { assert l[k] in l; }
  }

  // ----- every run

  datatype Step = DoTake(t: int, i: int, noWait: bool) | DoRelease(t: int, i: int) | DoTimeout(t: int, i: int)

  ghost predicate Enabled(s: State, step: Step) {
    && 0 <= step.i < |s.mutexes|
    && (step.DoTimeout? || Runs(s, step.t))
  }

  ghost function Apply(s: State, step: Step): (r: State)
    requires Inv(s) && Enabled(s, step)
    ensures Inv(r) && r.base == s.base && |r.mutexes| == |s.mutexes|
    ensures forall i :: 0 <= i < |s.mutexes| ==> r.mutexes[i].flag == s.mutexes[i].flag
  {
    match step
    case DoTake(t, i, noWait) => TakeInv(s, t, i, noWait); Take(s, t, i, noWait)
    case DoRelease(t, i) => ReleaseInv(s, t, i); Release(s, t, i)
    case DoTimeout(t, i) => TimeoutInv(s, t, i); Timeout(s, t, i)
  }

  ghost predicate Takes(s: State, s': State, step: Step) {
    Enabled(s, step) && (Inv(s) ==> s' == Apply(s, step))
  }

  ghost predicate IsRun(run: seq<State>, steps: seq<Step>) {
    |run| == |steps| + 1 && forall i :: 0 <= i < |steps| ==> Takes(run[i], run[i + 1], steps[i])
  }

  /** Every thread at its own priority and every mutex free. */
  ghost predicate Starts(s: State) {
    && s.prio == s.base && |s.held| == |s.prio|
    && (forall t :: 0 <= t < |s.held| ==> s.held[t] == [])
    && (forall i :: 0 <= i < |s.mutexes| ==> s.mutexes[i] == Fresh(s.mutexes[i].flag))
  }

  lemma StartsInv(s: State)
    requires Starts(s)
    ensures Inv(s) && BasesOk(s) && AllInherit(s)
  {
    forall t | 0 <= t < |s.held| ensures HeldOk(s, t) && BaseOk(s, t) {
    }
  }

  /** Over every run a mutex is free or has one owner, and is waited for only while it is owned. */
  lemma {:induction false} RunInv(run: seq<State>, steps: seq<Step>, k: nat)
    requires IsRun(run, steps) && k < |run| && Starts(run[0])
    ensures Inv(run[k]) && run[k].base == run[0].base && |run[k].mutexes| == |run[0].mutexes|
    ensures forall i :: 0 <= i < |run[0].mutexes| ==> run[k].mutexes[i].flag == run[0].mutexes[i].flag
    decreases k
  {
    hide Inv, Apply;
    if k == 0 {
      StartsInv(run[0]);
    } else {
      RunInv(run, steps, k - 1);
      assert Takes(run[k - 1], run[k], steps[k - 1]);
    }
  }

  // ----- back at the base priority

  /** A thread without mutexes runs at its base priority; one with some took the first of them at it. */
  ghost predicate BaseOk(s: State, t: int)
    requires 0 <= t < |s.held| == |s.base| == |s.prio| && HeldOk(s, t)
  {
    if s.held[t] == [] then s.prio[t] == s.base[t]
    else assert Owns(s, t, s.held[t][0]); s.mutexes[s.held[t][0]].orig == s.base[t]
  }

  ghost predicate BasesOk(s: State)
    requires Inv(s)
  {
    forall t :: 0 <= t < |s.held| ==> HeldOk(s, t) && BaseOk(s, t)
  }

  /** Each thread gives up the mutex it got first only when it has no other; properly nested calls do so. */
  ghost predicate FirstInLastOut(s: State, step: Step) {
    step.DoRelease? && Inv(s) && Enabled(s, step) && Owns(s, step.t, step.i) && s.mutexes[step.i].hold == 1
    ==> s.held[step.t] != [] && (step.i == s.held[step.t][0] ==> |s.held[step.t]| == 1)
  }

  ghost predicate Nested(s: State, step: Step) {
    step.DoRelease? && Inv(s) && Enabled(s, step) && Owns(s, step.t, step.i) && s.mutexes[step.i].hold == 1
    ==> s.held[step.t] != [] && s.held[step.t][|s.held[step.t]| - 1] == step.i
  }

  lemma NestedIsFirstInLastOut(s: State, step: Step)
    requires Nested(s, step) && Inv(s)
    ensures FirstInLastOut(s, step)
  {
    if step.DoRelease? && Enabled(s, step) {
      assert HeldOk(s, step.t);
    }
  }

  lemma TakeBase(s: State, t: int, i: int, noWait: bool)
    requires Inv(s) && Runs(s, t) && 0 <= i < |s.mutexes| && BasesOk(s)
    ensures Inv(Take(s, t, i, noWait)) && BasesOk(Take(s, t, i, noWait))
  {
    TakeInv(s, t, i, noWait);
    var s' := Take(s, t, i, noWait);
    forall u | 0 <= u < |s'.held| ensures HeldOk(s', u) && BaseOk(s', u) {
      assert HeldOk(s, u) && BaseOk(s, u) && HeldOk(s', u);
      if s.held[u] != [] { assert Owns(s, u, s.held[u][0]); }
      assert MutexOk(s.mutexes[i], |s.prio|);
      assert Owns(s, s.mutexes[i].owner, i);
      if 0 <= s.mutexes[i].owner < |s.held| { assert HeldOk(s, s.mutexes[i].owner); }
    }
  }

  lemma ReleaseBase(s: State, t: int, i: int)
    requires Inv(s) && Runs(s, t) && 0 <= i < |s.mutexes| && BasesOk(s) && FirstInLastOut(s, DoRelease(t, i))
    ensures Inv(Release(s, t, i)) && BasesOk(Release(s, t, i))
  {
    hide Drop, Distinct;
    ReleaseInv(s, t, i);
    var s' := Release(s, t, i);
    ReleaseOneOk(s.mutexes[i], s.prio, t);
    if s'.mutexes[i].owner != s.mutexes[i].owner { LosesLast(s, t, i); }
    assert MutexOk(s.mutexes[i], |s.prio|);
    forall u | 0 <= u < |s'.held| ensures HeldOk(s', u) && BaseOk(s', u) {
      assert HeldOk(s, u) && BaseOk(s, u) && HeldOk(s', u);
      if s.held[u] != [] { assert Owns(s, u, s.held[u][0]); }
      assert WaitsOn(s, u, i) ==> u != t;
    }
  }

  /** What is left of the list of mutexes. */
  lemma LosesLast(s: State, t: int, i: int)
    requires Inv(s) && Runs(s, t) && 0 <= i < |s.mutexes| && FirstInLastOut(s, DoRelease(t, i))
    requires Owns(s, t, i) && s.mutexes[i].hold == 1
    ensures i in s.held[t] && (Drop(s.held[t], i) == [] ==> s.held[t] == [i])
    ensures Drop(s.held[t], i) != [] ==> s.held[t][0] != i && Drop(s.held[t], i)[0] == s.held[t][0]
  {
    assert HeldOk(s, t);
    var k := PosOf(s.held[t], i);
  }

  lemma TimeoutBase(s: State, t: int, i: int)
    requires Inv(s) && 0 <= i < |s.mutexes| && BasesOk(s)
    ensures Inv(Timeout(s, t, i)) && BasesOk(Timeout(s, t, i))
  {
    TimeoutInv(s, t, i);
    var s' := Timeout(s, t, i);
    forall u | 0 <= u < |s'.held| ensures HeldOk(s', u) && BaseOk(s', u) {
      assert HeldOk(s, u) && BaseOk(s, u) && HeldOk(s', u);
      if s.held[u] != [] { assert Owns(s, u, s.held[u][0]); }
    }
  }

  lemma StepBase(s: State, step: Step)
    requires Inv(s) && Enabled(s, step) && BasesOk(s) && FirstInLastOut(s, step)
    ensures BasesOk(Apply(s, step))
  {
    match step
    case DoTake(t, i, noWait) => TakeBase(s, t, i, noWait);
    case DoRelease(t, i) => ReleaseBase(s, t, i);
    case DoTimeout(t, i) => TimeoutBase(s, t, i);
  }

  /** However priorities were lent meanwhile, over any number of mutexes: a thread that holds none is back
      at its base priority, if threads nest their calls. */
  lemma {:induction false} RunReturnsToBase(run: seq<State>, steps: seq<Step>, k: nat)
    requires IsRun(run, steps) && k < |run| && Starts(run[0])
    requires forall j :: 0 <= j < |steps| ==> FirstInLastOut(run[j], steps[j])
    ensures Inv(run[k]) && BasesOk(run[k])
    ensures forall t :: 0 <= t < |run[k].held| && run[k].held[t] == [] ==> run[k].prio[t] == run[k].base[t]
    decreases k
  {
    hide Inv, Apply;
    if k == 0 {
      StartsInv(run[0]);
    } else {
      RunReturnsToBase(run, steps, k - 1);
      assert Takes(run[k - 1], run[k], steps[k - 1]);
      StepBase(run[k - 1], steps[k - 1]);
    }
    BaseMeans(run[k]);
  }

  lemma BaseMeans(s: State)
    requires Inv(s) && BasesOk(s)
    ensures forall t :: 0 <= t < |s.held| && s.held[t] == [] ==> s.prio[t] == s.base[t]
  {
    forall t | 0 <= t < |s.held| && s.held[t] == [] ensures s.prio[t] == s.base[t] {
      assert HeldOk(s, t) && BaseOk(s, t);
    }
  }

  /** For any release at all that leaves a thread without mutexes: it ends at its base priority exactly if
      it was at that priority when it got the mutex it gives up last. */
  lemma LastReleaseRestoresIff(s: State, t: int, i: int)
    requires Inv(s) && Runs(s, t) && 0 <= i < |s.mutexes| && s.held[t] == [i] && s.mutexes[i].hold == 1
    ensures Owns(s, t, i) && Release(s, t, i).held[t] == []
    ensures Release(s, t, i).prio[t] == s.base[t] <==> s.mutexes[i].orig == s.base[t]
  {
    assert HeldOk(s, t);
    assert i in s.held[t];
    ReleaseOneOk(s.mutexes[i], s.prio, t);
    assert !WaitsOn(s, t, i);
    DropKeeps([i], i);
    assert Drop([i], i) == [];
  }

  // ----- as urgent as those who wait

  ghost predicate AllInherit(s: State) {
    forall i :: 0 <= i < |s.mutexes| && s.mutexes[i].flag == Prio ==> Inherits(s.mutexes[i], s.prio)
  }

  /** A thread has at most one mutex, and none while it waits. */
  ghost predicate LightAt(s: State, t: int)
    requires 0 <= t < |s.held|
  {
    |s.held[t]| <= 1 && forall i :: WaitsOn(s, t, i) ==> s.held[t] == []
  }

  ghost predicate Light(s: State) { forall t :: 0 <= t < |s.held| ==> LightAt(s, t) }

  /** Nobody asks for a second mutex. */
  ghost predicate OneAtATime(s: State, step: Step) {
    step.DoTake? && 0 <= step.t < |s.held| ==> s.held[step.t] == [] || s.held[step.t] == [step.i]
  }

  /** With a single mutex nobody can. */
  lemma SingleIsOneAtATime(s: State, step: Step)
    requires Inv(s) && |s.mutexes| == 1 && Enabled(s, step)
    ensures OneAtATime(s, step)
  {
    if step.DoTake? && 0 <= step.t < |s.held| && s.held[step.t] != [] {
      var h := s.held[step.t];
      assert HeldOk(s, step.t);
      forall k | 0 <= k < |h| ensures h[k] == 0 { assert h[k] in h; assert Owns(s, step.t, h[k]); }
      if |h| > 1 { TwoDiffer(h, 0); assert false; }
    }
  }

  lemma TwoDiffer(h: seq<int>, x: int)
    requires Distinct(h) && |h| > 1
    ensures h[0] != x || h[1] != x
  {
    assert h[0] != h[1];
  }

  lemma InheritsFrame(m: Mutex, prio: seq<int>, prio': seq<int>)
    requires MutexOk(m, |prio|) && Inherits(m, prio) && |prio'| == |prio|
    requires forall t :: 0 <= t < |prio| && (t == m.owner || t in m.waiters) ==> prio'[t] == prio[t]
    ensures Inherits(m, prio')
  {
    forall k | 0 <= k < |m.waiters| ensures PrioOf(prio')(m.waiters[k]) == PrioOf(prio)(m.waiters[k]) {
      assert m.waiters[k] in m.waiters;
    }
    SortedFrame(m.waiters, prio, prio');
  }

  /** Lending to or taking back from a thread that owns only mutex i leaves the other mutexes alone. */
  lemma OthersInherit(s: State, s': State, t: int, i: int, v: int)
    requires Inv(s) && AllInherit(s) && Light(s) && 0 <= t < |s.prio| && Owns(s, t, i)
    requires |s'.mutexes| == |s.mutexes| && s'.mutexes == s.mutexes[i := s'.mutexes[i]] && s'.prio == s.prio[t := v]
    requires s'.mutexes[i].flag == Prio ==> Inherits(s'.mutexes[i], s'.prio)
    ensures AllInherit(s')
  {
    forall j | 0 <= j < |s'.mutexes| && s'.mutexes[j].flag == Prio ensures Inherits(s'.mutexes[j], s'.prio) {
      if j != i {
        assert HeldOk(s, t) && LightAt(s, t);
        assert i in s.held[t];
        assert !WaitsOn(s, t, j) && (j in s.held[t] <==> Owns(s, t, j));
        assert MutexOk(s.mutexes[j], |s.prio|);
        InheritsFrame(s.mutexes[j], s.prio, s'.prio);
      }
    }
  }

  lemma TakeLight(s: State, t: int, i: int, noWait: bool)
    requires Inv(s) && Runs(s, t) && 0 <= i < |s.mutexes| && Light(s) && OneAtATime(s, DoTake(t, i, noWait))
    ensures Light(Take(s, t, i, noWait))
  {
    hide MutexOk, TakeOne, Distinct;
    var s' := Take(s, t, i, noWait);
    assert !WaitsOn(s, t, i);
    TakeOneOk(s.mutexes[i], s.prio, t, noWait);
    assert HeldOk(s, t);
    assert i in s.held[t] <==> Owns(s, t, i);
    forall u | 0 <= u < |s'.held| ensures LightAt(s', u) {
      assert LightAt(s, u);
      forall j | WaitsOn(s', u, j) ensures s'.held[u] == [] {
        assert !WaitsOn(s, t, j);
        assert u != t || j != i ==> WaitsOn(s, u, j);
      }
    }
  }

  lemma TakeAllInherit(s: State, t: int, i: int, noWait: bool)
    requires Inv(s) && Runs(s, t) && 0 <= i < |s.mutexes| && Light(s) && AllInherit(s)
    ensures AllInherit(Take(s, t, i, noWait))
  {
    hide Inherits;
    var s' := Take(s, t, i, noWait);
    var m := s.mutexes[i];
    assert MutexOk(m, |s.prio|) && !WaitsOn(s, t, i);
    if m.flag == Prio { TakeInherits(m, s.prio, t, noWait); }
    if s'.prio != s.prio {
      OthersInherit(s, s', m.owner, i, s.prio[t]);
    }
  }

  lemma ReleaseLight(s: State, t: int, i: int)
    requires Inv(s) && Runs(s, t) && 0 <= i < |s.mutexes| && Light(s)
    ensures Light(Release(s, t, i))
  {
    hide MutexOk, ReleaseOne, Distinct;
    var s' := Release(s, t, i);
    ReleaseOneOk(s.mutexes[i], s.prio, t);
    assert HeldOk(s, t) && LightAt(s, t);
    assert i in s.held[t] <==> Owns(s, t, i);
    var w := s'.mutexes[i].owner;
    assert w != s.mutexes[i].owner && w != NOBODY ==> WaitsOn(s, w, i);
    forall u | 0 <= u < |s'.held| ensures LightAt(s', u) {
      assert LightAt(s, u);
      forall j | WaitsOn(s', u, j) ensures s'.held[u] == [] {
        assert WaitsOn(s, u, j);
      }
    }
  }

  lemma ReleaseAllInherit(s: State, t: int, i: int)
    requires Inv(s) && Runs(s, t) && 0 <= i < |s.mutexes| && Light(s) && AllInherit(s)
    ensures AllInherit(Release(s, t, i))
  {
    hide Inherits;
    var s' := Release(s, t, i);
    var m := s.mutexes[i];
    assert MutexOk(m, |s.prio|);
    if m.flag == Prio { ReleaseInherits(m, s.prio, t); }
    if s'.prio != s.prio {
      OthersInherit(s, s', t, i, m.orig);
    }
  }

  lemma TimeoutAllInherit(s: State, t: int, i: int)
    requires Inv(s) && 0 <= i < |s.mutexes| && Light(s) && AllInherit(s)
    ensures Light(Timeout(s, t, i)) && AllInherit(Timeout(s, t, i))
  {
    hide Drop;
    var s' := Timeout(s, t, i);
    assert MutexOk(s.mutexes[i], |s.prio|);
    DropKeeps(s.mutexes[i].waiters, t);
    forall u | 0 <= u < |s'.held| ensures LightAt(s', u) {
      assert LightAt(s, u);
      forall j | WaitsOn(s', u, j) ensures s'.held[u] == [] { assert WaitsOn(s, u, j); }
    }
    if s.mutexes[i].flag == Prio { DropInherits(s.mutexes[i], s.prio, t); }
  }

  lemma DropInherits(m: Mutex, prio: seq<int>, t: int)
    requires Inherits(m, prio)
    ensures Inherits(m.(waiters := Drop(m.waiters, t)), prio)
  {
    if t in m.waiters { WithoutSorted(m.waiters, PrioOf(prio), PosOf(m.waiters, t)); }
    var l := Drop(m.waiters, t);
    forall k | 0 <= k < |l| && 0 <= m.owner < |prio| ensures prio[m.owner] <= PrioOf(prio)(l[k]) {
      if t in m.waiters {
        var p := PosOf(m.waiters, t);
        assert l[k] == m.waiters[if k < p then k else k + 1];
      }
    }
  }

  lemma WithoutSorted(list: seq<int>, f: int -> int, p: nat)
    requires Sorted(list, f) && p < |list|
    ensures Sorted(Without(list, p), f)
  {
    var l := Without(list, p);
    forall a, b | 0 <= a < b < |l| ensures f(l[a]) <= f(l[b]) {
      assert l[a] == list[if a < p then a else a + 1] && l[b] == list[if b < p then b else b + 1];
    }
  }

  lemma StepInherits(s: State, step: Step)
    requires Inv(s) && Enabled(s, step) && Light(s) && AllInherit(s) && OneAtATime(s, step)
    ensures Light(Apply(s, step)) && AllInherit(Apply(s, step))
  {
    match step
    case DoTake(t, i, noWait) => TakeLight(s, t, i, noWait); TakeAllInherit(s, t, i, noWait);
    case DoRelease(t, i) => ReleaseLight(s, t, i); ReleaseAllInherit(s, t, i);
    case DoTimeout(t, i) => TimeoutAllInherit(s, t, i);
  }

  /** While nobody asks for a second mutex, the owner of a PRIO mutex is as urgent as everyone waiting for
      it, in every state of every run. */
  lemma {:induction false} RunInherits(run: seq<State>, steps: seq<Step>, k: nat)
    requires IsRun(run, steps) && k < |run| && Starts(run[0])
    requires forall j :: 0 <= j < |steps| ==> OneAtATime(run[j], steps[j])
    ensures Inv(run[k]) && Light(run[k]) && AllInherit(run[k])
    decreases k
  {
    hide Inv, Apply;
    if k == 0 {
      StartsInv(run[0]);
    } else {
      RunInherits(run, steps, k - 1);
      assert Takes(run[k - 1], run[k], steps[k - 1]);
      StepInherits(run[k - 1], steps[k - 1]);
    }
  }

  /** In a system with one PRIO mutex this needs no discipline at all. */
  lemma OneMutexInherits(run: seq<State>, steps: seq<Step>, k: nat)
    requires IsRun(run, steps) && k < |run| && Starts(run[0]) && |run[0].mutexes| == 1 && run[0].mutexes[0].flag == Prio
    ensures |run[k].mutexes| == 1 && Inherits(run[k].mutexes[0], run[k].prio)
  {
    forall j | 0 <= j < |steps| ensures OneAtATime(run[j], steps[j]) {
      RunInv(run, steps, j);
      assert Takes(run[j], run[j + 1], steps[j]);
      SingleIsOneAtATime(run[j], steps[j]);
    }
    RunInv(run, steps, k);
    RunInherits(run, steps, k);
  }

  // ----- exactly when it stays so

  /** The owner o of some mutex is lent v while it waits itself: the mutex it waits for is still in order exactly if
      its owner, and all who wait before o, are as urgent as v. */
  ghost predicate Bears(m: Mutex, prio: seq<int>, o: int, v: int)
    requires o in m.waiters && 0 <= m.owner < |prio|
  {
    prio[m.owner] <= v && forall k :: 0 <= k < PosOf(m.waiters, o) ==> PrioOf(prio)(m.waiters[k]) <= v
  }

  lemma LendIff(m: Mutex, prio: seq<int>, o: int, v: int)
    requires MutexOk(m, |prio|) && Inherits(m, prio) && 0 <= o < |prio| && v < prio[o]
    ensures o in m.waiters ==> 0 <= m.owner < |prio|
    ensures Inherits(m, prio[o := v]) <==> (o in m.waiters ==> Bears(m, prio, o, v))
  {
    if o !in m.waiters {
      LendElsewhere(m, prio, o, v);
    } else if Bears(m, prio, o, v) {
      LendBorne(m, prio, o, v);
    } else {
      LendNotBorne(m, prio, o, v);
    }
  }

  lemma LendElsewhere(m: Mutex, prio: seq<int>, o: int, v: int)
    requires MutexOk(m, |prio|) && Inherits(m, prio) && 0 <= o < |prio| && v < prio[o] && o !in m.waiters
    ensures Inherits(m, prio[o := v])
  {
    var prio' := prio[o := v];
    forall k | 0 <= k < |m.waiters| ensures PrioOf(prio')(m.waiters[k]) == PrioOf(prio)(m.waiters[k]) {
      assert m.waiters[k] in m.waiters;
    }
    SortedFrame(m.waiters, prio, prio');
  }

  lemma LendBorne(m: Mutex, prio: seq<int>, o: int, v: int)
    requires MutexOk(m, |prio|) && Inherits(m, prio) && 0 <= o < |prio| && v < prio[o] && o in m.waiters
    requires Bears(m, prio, o, v)
    ensures Inherits(m, prio[o := v])
  {
    var prio', p := prio[o := v], PosOf(m.waiters, o);
    var f, f' := PrioOf(prio), PrioOf(prio');
    forall k | 0 <= k < |m.waiters| ensures f'(m.waiters[k]) == if k == p then v else f(m.waiters[k]) {
      assert k != p ==> m.waiters[k] != o;
    }
    forall a, b | 0 <= a < b < |m.waiters| ensures f'(m.waiters[a]) <= f'(m.waiters[b]) {
      assert f(m.waiters[a]) <= f(m.waiters[b]);
    }
    assert m.owner != o;
  }

  lemma LendNotBorne(m: Mutex, prio: seq<int>, o: int, v: int)
    requires MutexOk(m, |prio|) && 0 <= o < |prio| && o in m.waiters && !Bears(m, prio, o, v)
    ensures !Inherits(m, prio[o := v])
  {
    var prio', p := prio[o := v], PosOf(m.waiters, o);
    var f' := PrioOf(prio');
    assert f'(m.waiters[p]) == v && m.owner != o;
    if prio[m.owner] <= v {
      var k :| 0 <= k < p && PrioOf(prio)(m.waiters[k]) > v;
      assert m.waiters[k] != o;
      assert f'(m.waiters[k]) > f'(m.waiters[p]);
    }
  }

  /** Taking a mutex keeps every owner as urgent as those who wait, exactly if the thread it lends its priority to
      waits for no PRIO mutex that cannot bear that. */
  lemma TakeInheritsIff(s: State, t: int, i: int, noWait: bool)
    requires Inv(s) && Runs(s, t) && 0 <= i < |s.mutexes| && AllInherit(s)
    ensures AllInherit(Take(s, t, i, noWait))
            <==> (Lends(s, t, i, noWait) ==> LoanBorne(s, s.mutexes[i].owner, s.prio[t]))
  {
    hide Inherits, TakeOne;
    var s', m := Take(s, t, i, noWait), s.mutexes[i];
    assert MutexOk(m, |s.prio|) && !WaitsOn(s, t, i);
    TakePrio(s, t, i, noWait);
    if m.flag == Prio { TakeInherits(m, s.prio, t, noWait); }
    if Lends(s, t, i, noWait) {
      LoanIff(s, s', i, m.owner, s.prio[t]);
    }
  }

  /** `t` has to wait and is more urgent than the owner. */
  ghost predicate Lends(s: State, t: int, i: int, noWait: bool)
    requires 0 <= t < |s.prio| && 0 <= i < |s.mutexes|
  {
    var m := s.mutexes[i];
    m.owner != t && m.value <= 0 && !noWait && 0 <= m.owner < |s.prio| && s.prio[t] < s.prio[m.owner]
  }

  ghost predicate LoanBorne(s: State, o: int, v: int) {
    forall j :: WaitsOn(s, o, j) && s.mutexes[j].flag == Prio && 0 <= s.mutexes[j].owner < |s.prio| ==>
      Bears(s.mutexes[j], s.prio, o, v)
  }

  lemma TakePrio(s: State, t: int, i: int, noWait: bool)
    requires Inv(s) && Runs(s, t) && 0 <= i < |s.mutexes|
    ensures var s' := Take(s, t, i, noWait);
            && s'.prio == (if Lends(s, t, i, noWait) then s.prio[s.mutexes[i].owner := s.prio[t]] else s.prio)
            && |s'.mutexes| == |s.mutexes| && s'.mutexes == s.mutexes[i := s'.mutexes[i]]
            && s'.mutexes[i].flag == s.mutexes[i].flag
  {
    assert MutexOk(s.mutexes[i], |s.prio|);
  }

  lemma LoanIff(s: State, s': State, i: int, o: int, v: int)
    requires Inv(s) && AllInherit(s) && Owns(s, o, i) && 0 <= o < |s.prio| && v < s.prio[o]
    requires s'.prio == s.prio[o := v] && |s'.mutexes| == |s.mutexes| && s'.mutexes == s.mutexes[i := s'.mutexes[i]]
    requires s'.mutexes[i].flag == s.mutexes[i].flag
    requires s'.mutexes[i].flag == Prio ==> Inherits(s'.mutexes[i], s'.prio)
    ensures AllInherit(s') <==> LoanBorne(s, o, v)
  {
    hide Inherits, Bears;
    forall j | 0 <= j < |s.mutexes| && j != i && s.mutexes[j].flag == Prio
      ensures WaitsOn(s, o, j) ==> 0 <= s.mutexes[j].owner < |s.prio|
      ensures Inherits(s'.mutexes[j], s'.prio) <==> (WaitsOn(s, o, j) ==> Bears(s.mutexes[j], s.prio, o, v))
    {
      assert MutexOk(s.mutexes[j], |s.prio|) && Inherits(s.mutexes[j], s.prio);
      LendIff(s.mutexes[j], s.prio, o, v);
    }
    assert !WaitsOn(s, o, i) by { assert MutexOk(s.mutexes[i], |s.prio|); }
    if LoanBorne(s, o, v) {
      forall j | 0 <= j < |s'.mutexes| && s'.mutexes[j].flag == Prio ensures Inherits(s'.mutexes[j], s'.prio) {
        if j != i { assert s'.mutexes[j] == s.mutexes[j]; }
      }
    } else {
      var j :| WaitsOn(s, o, j) && s.mutexes[j].flag == Prio && 0 <= s.mutexes[j].owner < |s.prio|
        && !Bears(s.mutexes[j], s.prio, o, v);
      assert j != i && s'.mutexes[j] == s.mutexes[j];
      assert !Inherits(s'.mutexes[j], s'.prio);
    }
  }

  /** A thread that gives up one of several mutexes goes back to what it was when it got that one, whoever
      waits for the others: it stays as urgent as those exactly if it was then. */
  lemma ReleaseKeepsLentIff(s: State, t: int, i: int, j: int)
    requires Inv(s) && Runs(s, t) && Owns(s, t, i) && Owns(s, t, j) && i != j && s.mutexes[i].hold == 1
    requires s.mutexes[j].flag == Prio && Inherits(s.mutexes[j], s.prio)
    ensures var s' := Release(s, t, i);
            Inherits(s'.mutexes[j], s'.prio) <==> AsUrgentAs(s, s.mutexes[i].orig, j)
  {
    var s' := Release(s, t, i);
    var list := s.mutexes[j].waiters;
    assert !WaitsOn(s, t, j);
    forall k | 0 <= k < |list| ensures PrioOf(s'.prio)(list[k]) == PrioOf(s.prio)(list[k]) {
      assert list[k] in list;
    }
    SortedFrame(list, s.prio, s'.prio);
  }

  /** Priority v is as urgent as everyone who waits for mutex j. */
  ghost predicate AsUrgentAs(s: State, v: int, j: int)
    requires 0 <= j < |s.mutexes|
  {
    var list := s.mutexes[j].waiters;
    forall k :: 0 <= k < |list| ==> v <= PrioOf(s.prio)(list[k])
  }

  /** So a last release keeps every owner as urgent as those who wait, exactly if the priority it goes back to is as
      urgent as everyone who waits for the other PRIO mutexes of that thread. */
  lemma ReleaseInheritsIff(s: State, t: int, i: int)
    requires Inv(s) && Runs(s, t) && Owns(s, t, i) && s.mutexes[i].hold == 1 && AllInherit(s)
    ensures AllInherit(Release(s, t, i)) <==>
            forall j :: j != i && Owns(s, t, j) && s.mutexes[j].flag == Prio ==> AsUrgentAs(s, s.mutexes[i].orig, j)
  {
    hide Inherits, AsUrgentAs, ReleaseOne;
    var s', v := Release(s, t, i), s.mutexes[i].orig;
    assert MutexOk(s.mutexes[i], |s.prio|);
    ReleasePrio(s, t, i);
    if s.mutexes[i].flag == Prio { ReleaseInherits(s.mutexes[i], s.prio, t); }
    forall j | 0 <= j < |s.mutexes| && j != i && s.mutexes[j].flag == Prio
      ensures Inherits(s'.mutexes[j], s'.prio) <==> (Owns(s, t, j) ==> AsUrgentAs(s, v, j))
    {
      if Owns(s, t, j) {
        ReleaseKeepsLentIff(s, t, i, j);
      } else {
        assert MutexOk(s.mutexes[j], |s.prio|) && !WaitsOn(s, t, j);
        InheritsFrame(s.mutexes[j], s.prio, s'.prio);
      }
    }
    if forall j :: j != i && Owns(s, t, j) && s.mutexes[j].flag == Prio ==> AsUrgentAs(s, v, j) {
      forall j | 0 <= j < |s'.mutexes| && s'.mutexes[j].flag == Prio ensures Inherits(s'.mutexes[j], s'.prio) {
        if j != i { assert s'.mutexes[j] == s.mutexes[j]; }
      }
    } else {
      var j :| j != i && Owns(s, t, j) && s.mutexes[j].flag == Prio && !AsUrgentAs(s, v, j);
      assert s'.mutexes[j] == s.mutexes[j] && !Inherits(s'.mutexes[j], s'.prio);
    }
  }

  lemma ReleasePrio(s: State, t: int, i: int)
    requires Inv(s) && Runs(s, t) && Owns(s, t, i) && s.mutexes[i].hold == 1
    ensures var s' := Release(s, t, i);
            && s'.prio == s.prio[t := s.mutexes[i].orig]
            && |s'.mutexes| == |s.mutexes| && s'.mutexes == s.mutexes[i := s'.mutexes[i]]
            && s'.mutexes[i].flag == s.mutexes[i].flag
  {
  }

  /** What a thread could check before a step: a loan is borne, and a last release goes back to a priority that is as
      urgent as everyone who waits for the thread's other PRIO mutexes. */
  ghost predicate Sound(s: State, step: Step)
    requires Shaped(s) && Enabled(s, step)
  {
    match step
    case DoTake(t, i, noWait) => Lends(s, t, i, noWait) ==> LoanBorne(s, s.mutexes[i].owner, s.prio[t])
    case DoRelease(t, i) =>
      Owns(s, t, i) && s.mutexes[i].hold == 1 ==>
        forall j :: j != i && Owns(s, t, j) && s.mutexes[j].flag == Prio ==> AsUrgentAs(s, s.mutexes[i].orig, j)
    case DoTimeout(t, i) => true
  }

  lemma StepInheritsIff(s: State, step: Step)
    requires Inv(s) && Enabled(s, step) && AllInherit(s)
    ensures AllInherit(Apply(s, step)) <==> Sound(s, step)
  {
    match step
    case DoTake(t, i, noWait) => TakeInheritsIff(s, t, i, noWait);
    case DoRelease(t, i) =>
      if Owns(s, t, i) && s.mutexes[i].hold == 1 {
        ReleaseInheritsIff(s, t, i);
      } else {
        OtherReleaseInherits(s, t, i);
      }
    case DoTimeout(t, i) =>
      hide Inherits;
      if s.mutexes[i].flag == Prio { DropInherits(s.mutexes[i], s.prio, t); }
  }

  lemma OtherReleaseInherits(s: State, t: int, i: int)
    requires Inv(s) && Runs(s, t) && 0 <= i < |s.mutexes| && AllInherit(s) && !(Owns(s, t, i) && s.mutexes[i].hold == 1)
    ensures AllInherit(Release(s, t, i))
  {
    var s' := Release(s, t, i);
    forall j | 0 <= j < |s'.mutexes| && s'.mutexes[j].flag == Prio ensures Inherits(s'.mutexes[j], s'.prio) {
      assert Inherits(s.mutexes[j], s.prio);
    }
  }

  /** Over any number of mutexes: in every state of a run the owner of each PRIO mutex is as urgent as everyone who
      waits for it, if and only if every step of the run was sound. */
  lemma {:induction false} RunInheritsIff(run: seq<State>, steps: seq<Step>)
    requires IsRun(run, steps) && Starts(run[0])
    ensures forall j :: 0 <= j < |steps| ==> Shaped(run[j]) && Enabled(run[j], steps[j])
    ensures (forall k :: 0 <= k < |run| ==> AllInherit(run[k]))
            <==> (forall j :: 0 <= j < |steps| ==> Sound(run[j], steps[j]))
  {
    hide Inv, AllInherit, Sound, Apply;
    forall j | 0 <= j < |steps| ensures Inv(run[j]) && Shaped(run[j]) && Enabled(run[j], steps[j]) {
      assert Takes(run[j], run[j + 1], steps[j]);
      RunInv(run, steps, j);
      InvShaped(run[j]);
    }
    if forall k :: 0 <= k < |run| ==> AllInherit(run[k]) {
      forall j | 0 <= j < |steps| ensures Sound(run[j], steps[j]) {
        assert Takes(run[j], run[j + 1], steps[j]);
        StepInheritsIff(run[j], steps[j]);
      }
    }
    if forall j :: 0 <= j < |steps| ==> Sound(run[j], steps[j]) {
      forall k | 0 <= k < |run| ensures AllInherit(run[k]) { SoundInherits(run, steps, k); }
    }
  }

  lemma InvShaped(s: State)
    requires Inv(s)
    ensures Shaped(s)
  {
  }

  lemma {:induction false} SoundInherits(run: seq<State>, steps: seq<Step>, k: nat)
    requires IsRun(run, steps) && Starts(run[0]) && k < |run|
    requires forall j :: 0 <= j < |steps| ==> Shaped(run[j]) && Enabled(run[j], steps[j]) && Sound(run[j], steps[j])
    ensures AllInherit(run[k])
    decreases k
  {
    hide Inv, AllInherit, Sound, Apply;
    if k == 0 {
      StartsInv(run[0]);
    } else {
      SoundInherits(run, steps, k - 1);
      RunInv(run, steps, k - 1);
      assert Takes(run[k - 1], run[k], steps[k - 1]);
      StepInheritsIff(run[k - 1], steps[k - 1]);
    }
  }

  // ----- runs where it does not stay so

  /** A run given by its states, each step of which was checked. */
  lemma {:induction false} RunOf(run: seq<State>, steps: seq<Step>)
    requires |run| == |steps| + 1 && forall i :: 0 <= i < |steps| ==> Takes(run[i], run[i + 1], steps[i])
    ensures IsRun(run, steps)
  {
  }

  /** Two free mutexes, and threads with these priorities. */
  function Fresh2(prio: seq<int>): State {
    State(prio, prio, [Fresh(Prio), Fresh(Prio)], seq(|prio|, _ => []))
  }

  lemma Fresh2Starts(prio: seq<int>)
    ensures Starts(Fresh2(prio)) && Inv(Fresh2(prio))
  {
    StartsInv(Fresh2(prio));
  }

  /** Taking a free mutex, by the fields it sets. */
  lemma TakesFree(s: State, t: int, i: int, h: seq<int>, s': State)
    requires Enabled(s, DoTake(t, i, false)) && |s.held| == |s.prio| && s.mutexes[i] == Fresh(s.mutexes[i].flag)
    requires h == s.held[t] + [i]
    requires s'.prio == s.prio && s'.base == s.base && s'.held == s.held[t := h]
    requires s'.mutexes == s.mutexes[i := Mutex(0, t, s.prio[t], 1, [], s.mutexes[i].flag)]
    ensures Takes(s, s', DoTake(t, i, false))
  {
    hide Inv;
    if Inv(s) { assert s' == Take(s, t, i, false); }
  }

  /** Being the first to wait for a mutex, and lending to its owner. */
  lemma TakesTurn(s: State, t: int, i: int, s': State)
    requires Enabled(s, DoTake(t, i, false)) && |s.held| == |s.prio|
    requires var m := s.mutexes[i];
             && m.value == 0 && 0 <= m.owner < |s.prio| && m.owner != t && m.waiters == [] && m.flag == Prio
             && s.prio[t] < s.prio[m.owner]
             && s'.prio == s.prio[m.owner := s.prio[t]] && s'.base == s.base && s'.held == s.held
             && s'.mutexes == s.mutexes[i := m.(waiters := [t])]
    ensures Takes(s, s', DoTake(t, i, false))
  {
    hide Inv;
    if Inv(s) { assert s' == Take(s, t, i, false); }
  }

  /** Handing a mutex to the only one who waits. */
  lemma HandsOver(s: State, t: int, i: int, a: seq<int>, b: seq<int>, s': State)
    requires Enabled(s, DoRelease(t, i)) && |s.held| == |s.prio|
    requires var m := s.mutexes[i];
             && m.owner == t && m.hold == 1 && |m.waiters| == 1 && 0 <= m.waiters[0] < |s.prio| && m.waiters[0] != t
             && var w := m.waiters[0];
                && s'.prio == s.prio[t := m.orig] && s'.base == s.base && s'.held == s.held[t := a][w := b]
                && a == Drop(s.held[t], i) && b == s.held[w] + [i]
                && s'.mutexes == s.mutexes[i := m.(owner := w, orig := s.prio[w], hold := 1, waiters := [])]
    ensures Takes(s, s', DoRelease(t, i))
  {
    hide Inv, Drop;
    assert s.mutexes[i].waiters[1..] == [];
    if Inv(s) { assert s' == Release(s, t, i); }
  }

  lemma NobodyWaits(s: State, t: int)
    requires 0 <= t < |s.prio| && forall i :: 0 <= i < |s.mutexes| ==> t !in s.mutexes[i].waiters
    ensures Runs(s, t)
  {
  }

  // Thread 0, at 20, gets mutex 0 and then 1, and thread 1, at 5, waits for mutex 0.

  function Lent(): seq<State> {
    var a, b := Mutex(0, 0, 20, 1, [], Prio), Mutex(0, 0, 20, 1, [], Prio);
    [Fresh2([20, 5]),
     State([20, 5], [20, 5], [a, Fresh(Prio)], [[0], []]),
     State([20, 5], [20, 5], [a, b], [[0, 1], []]),
     State([5, 5], [20, 5], [a.(waiters := [1]), b], [[0, 1], []])]
  }

  function LentSteps(): seq<Step> { [DoTake(0, 0, false), DoTake(0, 1, false), DoTake(1, 0, false)] }

  lemma LentIsRun()
    ensures IsRun(Lent(), LentSteps()) && Starts(Lent()[0])
  {
    hide Takes;
    var run := Lent();
    Fresh2Starts([20, 5]);
    NobodyWaits(run[0], 0);
    TakesFree(run[0], 0, 0, [0], run[1]);
    NobodyWaits(run[1], 0);
    TakesFree(run[1], 0, 1, [0, 1], run[2]);
    NobodyWaits(run[2], 1);
    TakesTurn(run[2], 1, 0, run[3]);
    RunOf(run, LentSteps());
  }

  /** Properly nested releases can drop a lent priority while its lender still waits: this run gets there. */
  lemma InnerReleaseDropsLentPriority()
    ensures IsRun(Lent(), LentSteps()) && Starts(Lent()[0])
    ensures var s := Lent()[3];
            && Inv(s) && Runs(s, 0) && AllInherit(s) && Nested(s, DoRelease(0, 1))
            && !AllInherit(Release(s, 0, 1))
  {
    hide Release, Inv, AllInherit, IsRun;
    LentIsRun();
    RunInv(Lent(), LentSteps(), 3);
    var s := Lent()[3];
    NobodyWaits(s, 0);
    SmallInherit(s);
    ReleaseInheritsIff(s, 0, 1);
    assert Owns(s, 0, 0) && !AsUrgentAs(s, 20, 0) by { assert PrioOf(s.prio)(s.mutexes[0].waiters[0]) == 5; }
  }

  /** Where at most one thread waits for each mutex, the owners need only be as urgent as those. */
  lemma SmallInherit(s: State)
    requires forall i :: 0 <= i < |s.mutexes| ==> Lender(s.mutexes[i], s.prio)
    ensures AllInherit(s)
  {
    forall i | 0 <= i < |s.mutexes| ensures Inherits(s.mutexes[i], s.prio) { assert Lender(s.mutexes[i], s.prio); }
  }

  predicate Lender(m: Mutex, prio: seq<int>) {
    && |m.waiters| <= 1
    && (|m.waiters| == 1 && 0 <= m.owner < |prio| && 0 <= m.waiters[0] < |prio| ==>
        prio[m.owner] <= prio[m.waiters[0]])
    && (|m.waiters| == 1 ==> 0 <= m.waiters[0] < |prio|)
  }

  // Thread 0, at 20, gets mutex 0, is lent 5 by thread 1, gets mutex 1, and gives up mutex 0 first.

  function Crossed(): seq<State> {
    var a, b := Mutex(0, 0, 20, 1, [], Prio), Mutex(0, 0, 5, 1, [], Prio);
    [Fresh2([20, 5]),
     State([20, 5], [20, 5], [a, Fresh(Prio)], [[0], []]),
     State([5, 5], [20, 5], [a.(waiters := [1]), Fresh(Prio)], [[0], []]),
     State([5, 5], [20, 5], [a.(waiters := [1]), b], [[0, 1], []]),
     State([20, 5], [20, 5], [Mutex(0, 1, 5, 1, [], Prio), b], [[1], [0]])]
  }

  function CrossedSteps(): seq<Step> {
    [DoTake(0, 0, false), DoTake(1, 0, false), DoTake(0, 1, false), DoRelease(0, 0)]
  }

  lemma CrossedTakes()
    ensures var run := Crossed();
            && Takes(run[0], run[1], CrossedSteps()[0]) && Takes(run[1], run[2], CrossedSteps()[1])
            && Takes(run[2], run[3], CrossedSteps()[2])
  {
    hide Takes;
    var run := Crossed();
    NobodyWaits(run[0], 0);
    TakesFree(run[0], 0, 0, [0], run[1]);
    NobodyWaits(run[1], 1);
    TakesTurn(run[1], 1, 0, run[2]);
    NobodyWaits(run[2], 0);
    TakesFree(run[2], 0, 1, [0, 1], run[3]);
  }

  lemma CrossedHandsOver()
    ensures Takes(Crossed()[3], Crossed()[4], CrossedSteps()[3])
  {
    hide Takes;
    var s, s' := Crossed()[3], Crossed()[4];
    NobodyWaits(s, 0);
    assert Drop([0, 1], 0) == [1];
    HandsOver(s, 0, 0, [1], [0], s');
  }

  lemma CrossedIsRun()
    ensures IsRun(Crossed(), CrossedSteps()) && Starts(Crossed()[0])
  {
    hide Takes;
    Fresh2Starts([20, 5]);
    CrossedTakes();
    CrossedHandsOver();
    RunOf(Crossed(), CrossedSteps());
  }

  /** Giving up the first mutex before the second leaves a thread at a lent priority for good: this run gets there. */
  lemma CrossedReleasesKeepLentPriority()
    ensures IsRun(Crossed(), CrossedSteps()) && Starts(Crossed()[0])
    ensures var s := Crossed()[4];
            Inv(s) && Runs(s, 0) && var r := Release(s, 0, 1); r.held[0] == [] && r.prio[0] != r.base[0]
  {
    hide Release, Inv, IsRun;
    CrossedIsRun();
    RunInv(Crossed(), CrossedSteps(), 4);
    var s := Crossed()[4];
    NobodyWaits(s, 0);
    LastReleaseRestoresIff(s, 0, 1);
    ReleaseKeepsBase(s, 0, 1);
  }

  lemma ReleaseKeepsBase(s: State, t: int, i: int)
    requires Inv(s) && Runs(s, t) && 0 <= i < |s.mutexes|
    ensures Release(s, t, i).base == s.base
  {
  }

  // Thread 2, at 20, has mutex 1; thread 1, at 10, has mutex 0 and waits for mutex 1.

  function Chain(): seq<State> {
    var a, b := Mutex(0, 1, 10, 1, [], Prio), Mutex(0, 2, 20, 1, [], Prio);
    [Fresh2([5, 10, 20]),
     State([5, 10, 20], [5, 10, 20], [Fresh(Prio), b], [[], [], [1]]),
     State([5, 10, 20], [5, 10, 20], [a, b], [[], [0], [1]]),
     State([5, 10, 10], [5, 10, 20], [a, b.(waiters := [1])], [[], [0], [1]])]
  }

  function ChainSteps(): seq<Step> { [DoTake(2, 1, false), DoTake(1, 0, false), DoTake(1, 1, false)] }

  lemma ChainIsRun()
    ensures IsRun(Chain(), ChainSteps()) && Starts(Chain()[0])
  {
    hide Takes;
    var run := Chain();
    Fresh2Starts([5, 10, 20]);
    NobodyWaits(run[0], 2);
    TakesFree(run[0], 2, 1, [1], run[1]);
    NobodyWaits(run[1], 1);
    TakesFree(run[1], 1, 0, [0], run[2]);
    NobodyWaits(run[2], 1);
    TakesTurn(run[2], 1, 1, run[3]);
    RunOf(run, ChainSteps());
  }

  /** A loan is not passed on: when thread 0, at 5, then waits for mutex 0, thread 1 rises to 5 and thread 2, for whose
      mutex it waits, stays at 10.  No release is needed for that. */
  lemma LoanIsNotPassedOn()
    ensures IsRun(Chain(), ChainSteps()) && Starts(Chain()[0])
    ensures var s := Chain()[3]; Inv(s) && Runs(s, 0) && AllInherit(s) && !AllInherit(Take(s, 0, 0, false))
  {
    hide Take, Inv, AllInherit, IsRun;
    ChainIsRun();
    RunInv(Chain(), ChainSteps(), 3);
    var s := Chain()[3];
    NobodyWaits(s, 0);
    SmallInherit(s);
    TakeInheritsIff(s, 0, 0, false);
    assert WaitsOn(s, 1, 1) && !Bears(s.mutexes[1], s.prio, 1, 5);
  }

  /** Waiting behind the others for a FIFO mutex. */
  lemma TakesLast(s: State, t: int, i: int, w: seq<int>, s': State)
    requires Enabled(s, DoTake(t, i, false)) && |s.held| == |s.prio|
    requires var m := s.mutexes[i];
             && m.value == 0 && 0 <= m.owner < |s.prio| && m.owner != t && m.flag == Fifo && w == m.waiters + [t]
             && s'.prio == (if s.prio[t] < s.prio[m.owner] then s.prio[m.owner := s.prio[t]] else s.prio)
             && s'.base == s.base && s'.held == s.held && s'.mutexes == s.mutexes[i := m.(waiters := w)]
    ensures Takes(s, s', DoTake(t, i, false))
  {
    hide Inv;
    if Inv(s) { assert s' == Take(s, t, i, false); }
  }

  // Thread 0, at 15, gets a FIFO mutex; thread 1, at 20, and then thread 2, at 10, wait for it.

  function Queued(): seq<State> {
    var base, m := [15, 20, 10], Mutex(0, 0, 15, 1, [], Fifo);
    [State(base, base, [Fresh(Fifo)], [[], [], []]),
     State(base, base, [m], [[0], [], []]),
     State(base, base, [m.(waiters := [1])], [[0], [], []]),
     State([10, 20, 10], base, [m.(waiters := [1, 2])], [[0], [], []])]
  }

  function QueuedSteps(): seq<Step> { [DoTake(0, 0, false), DoTake(1, 0, false), DoTake(2, 0, false)] }

  lemma QueuedIsRun()
    ensures IsRun(Queued(), QueuedSteps()) && Starts(Queued()[0])
  {
    hide Takes;
    var run := Queued();
    NobodyWaits(run[0], 0);
    TakesFree(run[0], 0, 0, [0], run[1]);
    NobodyWaits(run[1], 1);
    TakesLast(run[1], 1, 0, [1], run[2]);
    NobodyWaits(run[2], 2);
    TakesLast(run[2], 2, 0, [1, 2], run[3]);
    RunOf(run, QueuedSteps());
  }

  /** The mutex then goes to thread 1, although thread 2, which still waits, is more urgent. */
  lemma FifoHandsToLessUrgent()
    ensures IsRun(Queued(), QueuedSteps()) && Starts(Queued()[0])
    ensures var s := Queued()[3];
            && Inv(s) && Runs(s, 0) && var r := Release(s, 0, 0);
               && r.mutexes[0].owner == 1 && r.mutexes[0].waiters == [2] && r.prio[2] < r.prio[1]
  {
    hide Inv, IsRun;
    QueuedIsRun();
    RunInv(Queued(), QueuedSteps(), 3);
    var s := Queued()[3];
    NobodyWaits(s, 0);
    assert s.mutexes[0].waiters[1..] == [2];
  }
}

module MutexCode {
  import opened Ring
  import opened Nodes
  import opened IpcList
  import opened WaitRing
  import opened MutexSpec

  /** The threads' current priorities. */
  class Threads {
    var prio: seq<int>
  }

  class RtMutex {
    const flag: Flag
    const waiters: WaitList
    var value: int
    var owner: int
    var originalPriority: int
    var hold: int

    ghost function View(): Mutex
      reads this, waiters
    {
      Mutex(value, owner, originalPriority, hold, waiters.list, flag)
    }

    ghost predicate Valid(n: nat)
      reads this, waiters
    {
      waiters.Valid() && MutexOk(View(), n)
    }

    constructor (f: Flag)
      ensures Valid(0) && View() == Fresh(f) && fresh(waiters)
    {
      flag := f;
      waiters := new WaitList();
      value, owner, originalPriority, hold := 1, NOBODY, NO_PRIORITY, 0;
    }

    /** rt_mutex_take, up to where it returns or sleeps. */
    method Take(threads: Threads, t: int, noWait: bool) returns (r: Outcome)
      requires Valid(|threads.prio|) && 0 <= t < |threads.prio| && t !in waiters.list
      modifies this, waiters, threads
      ensures Valid(|threads.prio|)
      ensures (View(), threads.prio, r) == TakeOne(old(View()), old(threads.prio), t, noWait)
    {
      hide IsList, Enlist;
      TakeOneOk(View(), threads.prio, t, noWait);
      if owner == t {
        hold := hold + 1;
        return Done;
      }
      if value > 0 {
        value := value - 1;
        owner := t;
        originalPriority := threads.prio[t];
        hold := hold + 1;
        return Done;
      }
      if noWait {
        return Refused;
      }
      if threads.prio[t] < threads.prio[owner] {
        threads.prio := threads.prio[owner := threads.prio[t]];
      }
      waiters.Suspend(PrioOf(threads.prio), t, flag);
      return Waits;
    }

    /** rt_mutex_release. */
    method Release(threads: Threads, t: int) returns (r: Outcome)
      requires Valid(|threads.prio|) && 0 <= t < |threads.prio|
      modifies this, waiters, threads
      ensures Valid(|threads.prio|)
      ensures (View(), threads.prio, r) == ReleaseOne(old(View()), old(threads.prio), t)
    {
      hide IsList;
      ReleaseOneOk(View(), threads.prio, t);
      if t != owner {
        return Refused;
      }
      hold := hold - 1;
      if hold == 0 {
        if originalPriority != threads.prio[owner] {
          threads.prio := threads.prio[owner := originalPriority];
        }
        assert threads.prio == old(threads.prio)[t := originalPriority];
        HandOn(threads);
      }
      return Done;
    }

    /** The first waiter gets the mutex, or nobody. */
    method HandOn(threads: Threads)
      requires waiters.Valid() && hold == 0
      requires forall k :: 0 <= k < |waiters.list| ==> 0 <= waiters.list[k] < |threads.prio|
      modifies this, waiters
      ensures waiters.Valid()
      ensures var l := old(waiters.list);
              if l != [] then
                && owner == l[0] && originalPriority == threads.prio[l[0]] && hold == 1 && waiters.list == l[1..]
                && value == old(value)
              else
                && owner == NOBODY && originalPriority == NO_PRIORITY && hold == 0 && waiters.list == []
                && value == old(value) + 1
    {
      hide IsList;
      var empty := waiters.IsEmpty();
      if !empty {
        owner := waiters.Resume();
        assert old(waiters.list)[0] == owner;
        originalPriority := threads.prio[owner];
        hold := hold + 1;
      } else {
        value := value + 1;
        owner := NOBODY;
        originalPriority := NO_PRIORITY;
      }
    }
  }
}
