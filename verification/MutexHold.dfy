/** What a mutex promises its users (ipc.c): who has it, for how long, and what each call returns. */
module MutexHold {
  import opened Ring
  import opened IpcList
  import opened MutexSpec

  // ----- one call

  /** rt_mutex_take succeeds exactly if nobody else has the mutex, refuses exactly if somebody else has it and the call
      may not wait, and then changes nothing; else the caller joins the waiting list and the owner becomes as urgent
      as the caller. */
  lemma TakeOutcomes(m: Mutex, prio: seq<int>, t: int, noWait: bool)
    requires MutexOk(m, |prio|) && 0 <= t < |prio| && t !in m.waiters
    ensures var (m', prio', r) := TakeOne(m, prio, t, noWait);
            && (r == Done <==> m.owner == NOBODY || m.owner == t)
            && (r == Refused <==> m.owner != NOBODY && m.owner != t && noWait)
            && (r == Refused ==> m' == m && prio' == prio)
            && (r == Done ==> m'.owner == t && m'.hold == m.hold + 1 && m'.waiters == m.waiters && prio' == prio)
            && (r == Waits ==>
                && m'.owner == m.owner && m'.hold == m.hold && m'.orig == m.orig
                && multiset(m'.waiters) == multiset(m.waiters) + multiset{t}
                && |prio'| == |prio| && prio'[m.owner] == (if prio[t] < prio[m.owner] then prio[t] else prio[m.owner])
                && forall u :: 0 <= u < |prio| && u != m.owner ==> prio'[u] == prio[u])
  {
    var (m', prio', r) := TakeOne(m, prio, t, noWait);
    if r == Waits && m.flag == Prio { InsertMembers(m.waiters, PrioOf(prio'), t); }
  }

  /** rt_mutex_release is refused exactly for a thread that does not have the mutex, and then changes nothing.  The
      owner goes one level out; from the last one it is back at the priority it came with, and the mutex goes to the
      first who waits, or is free. */
  lemma ReleaseOutcomes(m: Mutex, prio: seq<int>, t: int)
    requires MutexOk(m, |prio|) && 0 <= t < |prio|
    ensures var (m', prio', r) := ReleaseOne(m, prio, t);
            && (r == Done <==> m.owner == t)
            && (r != Done ==> r == Refused && m' == m && prio' == prio)
            && (r == Done && m.hold > 1 ==>
                m'.owner == t && m'.hold == m.hold - 1 && m'.waiters == m.waiters && prio' == prio)
            && (r == Done && m.hold == 1 ==>
                && prio' == prio[t := m.orig]
                && if m.waiters == [] then m'.owner == NOBODY && m'.hold == 0 && m'.value == 1
                   else m.waiters == [m'.owner] + m'.waiters && m'.hold == 1 && m'.orig == prio[m'.owner])
  {
    if m.waiters != [] { assert m.waiters[0] in m.waiters; }
  }

  /** For the owner, a take and a release undo each other. */
  lemma ReleaseUndoesTake(m: Mutex, prio: seq<int>, t: int, noWait: bool)
    requires MutexOk(m, |prio|) && 0 <= t < |prio| && m.owner == t
    ensures var (m1, prio1, r) := TakeOne(m, prio, t, noWait);
            r == Done && ReleaseOne(m1, prio1, t) == (m, prio, Done)
  {
  }

  /** So they do for a free mutex. */
  lemma ReleaseUndoesFirstTake(m: Mutex, prio: seq<int>, t: int, noWait: bool)
    requires MutexOk(m, |prio|) && 0 <= t < |prio| && m.owner == NOBODY && m.orig == NO_PRIORITY
    ensures var (m1, prio1, r) := TakeOne(m, prio, t, noWait);
            r == Done && m1.owner == t && ReleaseOne(m1, prio1, t) == (m, prio, Done)
  {
    assert prio[t := prio[t]] == prio;
  }

  /** Who gives up waiting is off the list, and nobody else is. */
  lemma TimeoutLeaves(s: State, t: int, i: int)
    requires Inv(s) && 0 <= i < |s.mutexes|
    ensures var s' := Timeout(s, t, i);
            && !WaitsOn(s', t, i) && s'.prio == s.prio && s'.held == s.held
            && (forall u, j :: WaitsOn(s', u, j) <==> WaitsOn(s, u, j) && !(u == t && j == i))
            && forall u, j :: Owns(s', u, j) <==> Owns(s, u, j)
  {
    hide Drop, Distinct;
    assert MutexOk(s.mutexes[i], |s.prio|);
    DropKeeps(s.mutexes[i].waiters, t);
  }

  // ----- whole runs

  /** Takes less releases by the owner since it got mutex i, counted from the steps alone; 0 if nobody has it. */
  ghost function Balance(run: seq<State>, steps: seq<Step>, i: int, k: nat): int
    requires IsRun(run, steps) && k < |run|
    decreases k
  {
    if k == 0 then 0
    else
      var was, now, step := OwnerOf(run[k - 1], i), OwnerOf(run[k], i), steps[k - 1];
      if now == NOBODY then 0
      else if now != was then 1
      else Balance(run, steps, i, k - 1) + Counts(step, now, i)
  }

  /** 1 for a take of mutex i by thread t, -1 for a release. */
  function Counts(step: Step, t: int, i: int): int {
    if step.t != t || step.i != i then 0 else if step.DoTake? then 1 else if step.DoRelease? then -1 else 0
  }

  ghost function OwnerOf(s: State, i: int): int { if 0 <= i < |s.mutexes| then s.mutexes[i].owner else NOBODY }

  lemma StepHold(s: State, step: Step, i: int)
    requires Inv(s) && Enabled(s, step) && 0 <= i < |s.mutexes|
    ensures var s', o := Apply(s, step), OwnerOf(s, i);
            && |s'.mutexes| == |s.mutexes|
            && var o', hold, hold' := OwnerOf(s', i), s.mutexes[i].hold, s'.mutexes[i].hold;
               && (o' == NOBODY ==> hold' == 0)
               && (o' != NOBODY && o' != o ==> hold' == 1)
               && (o' != NOBODY && o' == o ==> hold' == hold + Counts(step, o, i))
               && (o != NOBODY ==> (o' != o <==> step.DoRelease? && step.t == o && step.i == i && hold == 1))
  {
    hide Inv, TakeOne, ReleaseOne, Drop;
    MutexesOk(s, i);
    MutexesOk(Apply(s, step), i);
    match step
    case DoTake(t, j, noWait) =>
      MutexesOk(s, j);
      NotWaiting(s, t, j);
      TakeOutcomes(s.mutexes[j], s.prio, t, noWait);
    case DoRelease(t, j) =>
      MutexesOk(s, j);
      ReleaseOutcomes(s.mutexes[j], s.prio, t);
    case DoTimeout(t, j) =>
  }

  lemma MutexesOk(s: State, i: int)
    requires Inv(s) && 0 <= i < |s.mutexes|
    ensures MutexOk(s.mutexes[i], |s.prio|)
  {
  }

  lemma NotWaiting(s: State, t: int, i: int)
    requires Runs(s, t) && 0 <= i < |s.mutexes|
    ensures t !in s.mutexes[i].waiters
  {
    assert !WaitsOn(s, t, i);
  }

  /** Over every run of any number of threads and mutexes: the count kept in a mutex is the takes less the releases by
      its owner, and a thread has a mutex until the step at which it has released it as often as it took it. */
  lemma {:induction false} HeldUntilBalanced(run: seq<State>, steps: seq<Step>, i: int, k: nat)
    requires IsRun(run, steps) && k < |run| && Starts(run[0]) && 0 <= i < |run[0].mutexes|
    ensures |run[k].mutexes| == |run[0].mutexes| && run[k].mutexes[i].hold == Balance(run, steps, i, k)
    ensures k < |steps| && OwnerOf(run[k], i) != NOBODY ==>
              var t := OwnerOf(run[k], i);
              OwnerOf(run[k + 1], i) != t <==> steps[k] == DoRelease(t, i) && Balance(run, steps, i, k) == 1
    decreases k
  {
    hide Inv, Apply, Enabled, OwnerOf;
    if k == 0 {
      assert OwnerOf(run[0], i) == NOBODY && run[0].mutexes[i].hold == 0 by { FreeAtStart(run[0], i); }
    } else {
      HeldUntilBalanced(run, steps, i, k - 1);
      RunInv(run, steps, k - 1);
      assert Takes(run[k - 1], run[k], steps[k - 1]);
      StepHold(run[k - 1], steps[k - 1], i);
    }
    if k < |steps| {
      RunInv(run, steps, k);
      assert Takes(run[k], run[k + 1], steps[k]);
      StepHold(run[k], steps[k], i);
    }
  }

  lemma FreeAtStart(s: State, i: int)
    requires Starts(s) && 0 <= i < |s.mutexes|
    ensures OwnerOf(s, i) == NOBODY && s.mutexes[i].hold == 0
  {
  }
}
