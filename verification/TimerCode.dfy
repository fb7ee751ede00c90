/** The code of timer.c: each row is a doubly linked circular list through a head and the timers. */
module TimerCode {
  import opened Ring
  import opened Nodes
  import opened TimerSpec

  const HEAD: int := -1

  /** What the code keeps of a timer besides its links. */
  datatype Node = Node(timeoutTick: int, initTick: nat, periodic: bool, active: bool)

  /** The links run from the head through the row, and every other timer is linked to itself. */
  ghost predicate RowLinked(next: map<int, int>, prev: map<int, int>, row: seq<int>, n: nat) {
    && IsList(next, prev, HEAD, row)
    && (forall i :: 0 <= i < |row| ==> 0 <= row[i] < n)
    && (forall t :: 0 <= t < n && t !in row ==> Lone(next, prev, t))
  }

  lemma RemoveLinked(next: map<int, int>, prev: map<int, int>, row: seq<int>, n: nat, t: int)
    requires RowLinked(next, prev, row, n) && 0 <= t < n
    ensures t in next && t in prev
    ensures var (next', prev') := RemoveNode(next, prev, t); RowLinked(next', prev', Drop(row, t), n)
  {
    hide IsList;
    if t in row {
      RemoveMember(next, prev, HEAD, row, t);
      DropSubset(row, t, n);
      var (next', prev') := RemoveNode(next, prev, t);
      forall x | 0 <= x < n && x !in Drop(row, t) ensures Lone(next', prev', x) {
        if x != t {
          DropMembers(row, t, x);
          assert Lone(next, prev, x) && Same(next, prev, next', prev', x);
        }
      }
    } else {
      assert Lone(next, prev, t);
      RemoveLone(next, prev, t);
    }
  }

  lemma DropMembers(row: seq<int>, t: int, x: int)
    requires x !in Drop(row, t) && x != t
    ensures x !in row
  {
    if t in row { var k := PosOf(row, t); assert row == row[..k] + [t] + row[k + 1..]; }
  }

  lemma DropSubset(row: seq<int>, t: int, n: nat)
    requires forall i :: 0 <= i < |row| ==> 0 <= row[i] < n
    ensures forall i :: 0 <= i < |Drop(row, t)| ==> 0 <= Drop(row, t)[i] < n
  {
  }

  lemma InsertLinked(next: map<int, int>, prev: map<int, int>, row: seq<int>, n: nat, p: nat, t: int)
    requires RowLinked(next, prev, row, n) && 0 <= t < n && t !in row && p <= |row|
    ensures ([HEAD] + row)[p] in next
    ensures var (next', prev') := InsertAfter(next, prev, ([HEAD] + row)[p], t);
            RowLinked(next', prev', PutAt(row, p, t), n)
  {
    hide IsList;
    InsertAfterMember(next, prev, HEAD, row, p, t);
    var (next', prev') := InsertAfter(next, prev, ([HEAD] + row)[p], t);
    assert row == row[..p] + row[p..];
    forall x | 0 <= x < n && x !in PutAt(row, p, t) ensures Lone(next', prev', x) {
      assert Lone(next, prev, x) && Same(next, prev, next', prev', x);
    }
  }

  ghost predicate NodeOk(n: Node, t: Timer) {
    n == Node(t.due % WRAP, t.init, t.periodic, t.active)
  }

  /** A head and n timers, each linked to itself. */
  function Selves(n: nat): (m: map<int, int>)
    ensures forall t :: t in m <==> HEAD <= t < n
    ensures forall t :: t in m ==> m[t] == t
  {
    if n == 0 then map[HEAD := HEAD] else Selves(n - 1)[n - 1 := n - 1]
  }

  class SkipList {
    const levels: nat
    var tick: int
    var randomNr: int
    var next: seq<map<int, int>>
    var prev: seq<map<int, int>>
    var nodes: seq<Node>
    ghost var now: nat
    ghost var count: nat
    ghost var rows: seq<seq<int>>
    ghost var timers: seq<Timer>

    ghost function View(): State
      reads this
    {
      State(now, rows, timers, count)
    }

    ghost predicate Linked()
      reads this
    {
      && 1 <= levels == |next| == |prev| == |rows|
      && forall r :: 0 <= r < |rows| ==> RowLinked(next[r], prev[r], rows[r], |nodes|)
    }

    ghost predicate Nodes()
      reads this
    {
      && |timers| == |nodes| && tick == now % WRAP && randomNr == count % WRAP
      && forall t :: 0 <= t < |nodes| ==> NodeOk(nodes[t], timers[t])
    }

    ghost predicate Valid()
      reads this
    {
      Linked() && Nodes()
    }

    /** rt_system_timer_init and _rt_timer_init: empty rows, and timers set to their times. */
    constructor (l: nat, times: seq<nat>, periods: seq<bool>)
      requires l >= 1 && |times| == |periods|
      ensures Valid()
      ensures View() == State(0, seq(l, _ => []),
                              seq(|times|, i requires 0 <= i < |times| => Timer(0, 0, times[i], periods[i], false)), 0)
    {
      levels := l;
      tick, randomNr, now, count := 0, 0, 0, 0;
      var self := Selves(|times|);
      next, prev := seq(l, _ => self), seq(l, _ => self);
      nodes := seq(|times|, i requires 0 <= i < |times| => Node(0, times[i], periods[i], false));
      rows := seq(l, _ => []);
      timers := seq(|times|, i requires 0 <= i < |times| => Timer(0, 0, times[i], periods[i], false));
      assert LinkedAt(self, self, [HEAD], 0);
      assert RowLinked(self, self, [], |times|);
    }

    /** _rt_timer_remove. */
    method RemoveRows(t: int)
      requires Linked() && 0 <= t < |nodes|
      modifies `next, `prev, `rows
      ensures Linked() && rows == RowsWithout(old(rows), t)
    {
      hide RowLinked, Drop;
      var r := 0;
      ghost var was := rows;
      while r < levels
        invariant 0 <= r <= levels && Linked()
        invariant forall i :: 0 <= i < levels ==> rows[i] == if i < r then Drop(was[i], t) else was[i]
      {
        RemoveLinked(next[r], prev[r], rows[r], |nodes|, t);
        var n, p := next[r], prev[r];
        var (n', p') := RemoveNode(n, p, t);
        next := next[r := n'];
        prev := prev[r := p'];
        rows := rows[r := Drop(rows[r], t)];
        r := r + 1;
      }
    }

    /** The inner loop of rt_timer_start: from place k of row r, walk over the timers that are not later. */
    method Walk(r: nat, p: int, timeoutTick: int, ghost k: nat, ghost due: int) returns (q: int)
      requires Valid() && r < levels && k <= |rows[r]| && p == ([HEAD] + rows[r])[k] && timeoutTick == due % WRAP
      ensures q == ([HEAD] + rows[r])[Place(rows[r], timers, due, k)]
    {
      ghost var ring, row, j := [HEAD] + rows[r], rows[r], k;
      assert RowLinked(next[r], prev[r], row, |nodes|);
      RingAt(next[r], prev[r], ring, 0);
      q := p;
      while q != prev[r][HEAD]
        invariant k <= j <= |row| && q == ring[j]
        invariant Place(row, timers, due, k) == Place(row, timers, due, j)
        decreases |row| - j
      {
        hide RowLinked, IsList, IsRing, Distinct;
        RingAt(next[r], prev[r], ring, j);
        var a := next[r][q];
        assert j < |row| ==> a == row[j];
        RowMember(next[r], prev[r], row, |nodes|, j);
        assert NodeOk(nodes[a], timers[a]);
        var d := Minus(nodes[a].timeoutTick, timeoutTick);
        if d == 0 {
        } else if d < HALF {
          break;
        }
        q := a;
        j := j + 1;
      }
    }

    /** The outer loop: row by row from the top, going on from the node found above. */
    method FindPlaces(t: int) returns (heads: seq<int>)
      requires Valid() && 0 <= t < |nodes|
      requires forall r :: 0 <= r < levels ==> Ready(rows, timers, t, r)
      ensures |heads| == levels
      ensures forall r :: 0 <= r < levels ==> t !in rows[r] && HeadFor(heads[r], rows[r], timers, timers[t].due)
    {
      hide Place, Ordered, RowLinked;
      heads := [];
      var p, r := HEAD, 0;
      ghost var k: nat := 0;
      assert NodeOk(nodes[t], timers[t]);
      while r < levels
        invariant 0 <= r <= levels && |heads| == r
        invariant forall i :: 0 <= i < r ==> t !in rows[i] && HeadFor(heads[i], rows[i], timers, timers[t].due)
        invariant r < levels ==> k <= |rows[r]| && p == ([HEAD] + rows[r])[k]
        invariant r < levels ==> Place(rows[r], timers, timers[t].due, 0) == Place(rows[r], timers, timers[t].due, k)
      {
        p := Walk(r, p, nodes[t].timeoutTick, k, timers[t].due);
        heads := heads + [p];
        assert Ready(rows, timers, t, r);
        if r + 1 < levels {
          assert Ready(rows, timers, t, r + 1);
          k := Descend(rows[r], rows[r + 1], timers, t);
        }
        r := r + 1;
      }
    }

    /** Link t into row r behind the node found there. */
    method InsertInRow(r: nat, t: int, head: int)
      requires Linked() && r < levels && 0 <= t < |nodes| && t !in rows[r]
      requires HeadFor(head, rows[r], timers, DueOf(timers, t))
      modifies `next, `prev, `rows
      ensures Linked() && rows == old(rows)[r := InsertRow(old(rows)[r], timers, t)]
    {
      hide RowLinked, Place;
      InsertLinked(next[r], prev[r], rows[r], |nodes|, Place(rows[r], timers, DueOf(timers, t), 0), t);
      var n, p := next[r], prev[r];
      var (n', p') := InsertAfter(n, p, head, t);
      next := next[r := n'];
      prev := prev[r := p'];
      rows := rows[r := InsertRow(rows[r], timers, t)];
    }

    /** Into the bottom row, and up as long as the low bits of the start's number are 0. */
    method InsertRows(t: int, heads: seq<int>)
      requires Linked() && 0 <= t < |nodes| && |timers| == |nodes| && |heads| == levels && 0 <= randomNr
      requires forall r :: 0 <= r < levels ==> t !in rows[r] && HeadFor(heads[r], rows[r], timers, timers[t].due)
      modifies `next, `prev, `rows
      ensures Linked() && rows == RowsWith(old(rows), timers, t, Height(randomNr, levels))
    {
      hide RowLinked, Place, InsertRow, HeadFor, Height;
      ghost var was := rows;
      var tst := randomNr;
      InsertInRow(levels - 1, t, heads[levels - 1]);
      var lvl := 2;
      HeightOne(tst);
      while lvl <= levels
        invariant 2 <= lvl <= levels + 1 && Linked() && 0 <= tst
        invariant forall r :: 0 <= r < levels ==>
                  rows[r] == if levels - r <= lvl - 1 then InsertRow(was[r], timers, t) else was[r]
        invariant Height(randomNr, levels) == lvl - 2 + Height(tst, levels - (lvl - 2))
      {
        HeightStep(tst, levels - (lvl - 2));
        if tst % 4 != 0 {
          break;
        }
        InsertInRow(levels - lvl, t, heads[levels - lvl]);
        tst := tst / 4;
        lvl := lvl + 1;
      }
    }

    /** rt_timer_start. */
    method Start(t: int)
      requires Valid() && Inv(View()) && 0 <= t < |nodes| && CanStart(View(), t)
      modifies `next, `prev, `rows, `nodes, `timers, `count, `randomNr
      ensures Valid() && View() == Started(old(View()), t) && Inv(View())
    {
      hide RowLinked, Place, InsertRow, HeadFor, Height, Inv, CanStart, RowsWith, RowsWithout;
      ghost var s := View();
      StartedInv(s, t);
      RemoveRows(t);
      SetDeadline(t);
      AllReady(s, t);
      var heads := FindPlaces(t);
      InsertRows(t, heads);
    }

    /** The new deadline and the number of this start. */
    method SetDeadline(t: int)
      requires Nodes() && 0 <= t < |nodes|
      modifies `nodes, `timers, `count, `randomNr
      ensures Nodes() && count == old(count) + 1
      ensures var was := old(timers)[t];
              timers == old(timers)[t := was.(due := now + was.init, stamp := count, active := true)]
    {
      assert NodeOk(nodes[t], timers[t]);
      nodes := nodes[t := nodes[t].(active := false)];
      nodes := nodes[t := nodes[t].(timeoutTick := (tick + nodes[t].initTick) % WRAP)];
      ModAdd(now, timers[t].init);
      ModAdd(count, 1);
      randomNr := (randomNr + 1) % WRAP;
      count := count + 1;
      nodes := nodes[t := nodes[t].(active := true)];
      timers := timers[t := timers[t].(due := now + timers[t].init, stamp := count, active := true)];
    }

    /** rt_timer_stop. */
    method Stop(t: int) returns (ok: bool)
      requires Valid() && Inv(View()) && 0 <= t < |nodes|
      modifies `next, `prev, `rows, `nodes, `timers
      ensures Valid() && (View(), ok) == Stopped(old(View()), t) && Inv(View())
    {
      hide RowLinked, Inv, RowsWithout;
      RemovedInv(View(), t);
      assert NodeOk(nodes[t], timers[t]);
      if !nodes[t].active {
        return false;
      }
      RemoveRows(t);
      nodes := nodes[t := nodes[t].(active := false)];
      timers := timers[t := timers[t].(active := false)];
      return true;
    }

    /** rt_timer_check, with callbacks that leave the timers alone; `fired` is who was called back. */
    method Check(ghost lo: int) returns (fired: seq<int>)
      requires Valid() && Inv(View()) && Window(View(), lo)
      modifies `next, `prev, `rows, `nodes, `timers, `count, `randomNr
      ensures var k := DueFirst(Bottom(old(View())), old(timers), now);
              fired == Bottom(old(View()))[..k] && View() == FireTimes(old(View()), k)
      ensures Valid() && Inv(View()) && !Fires(View())
    {
      hide RowLinked, Inv, Window, DueFirst, Bottom, Fires, FireTimes, Fire;
      ghost var s := View();
      ghost var k := DueFirst(Bottom(s), s.timers, s.now);
      fired := [];
      RoundsFireInOrder(s, lo, k);
      FireNone(s);
      assert Bottom(s)[..0] == [];
      while true
        invariant Valid() && |fired| <= k <= |Bottom(s)| && fired == Bottom(s)[..|fired|]
        invariant View() == FireTimes(s, |fired|)
        decreases k - |fired|
      {
        RoundsFireInOrder(s, lo, |fired|);
        var t, due := First();
        if !due {
          break;
        }
        FireTimesMore(s, |fired|);
        FireOne(t, lo);
        assert Bottom(s)[..|fired| + 1] == Bottom(s)[..|fired|] + [t];
        fired := fired + [t];
      }
    }

    /** The condition of the loop in rt_timer_check. */
    method First() returns (t: int, due: bool)
      requires Valid()
      ensures due == Fires(View()) && (due ==> t == Bottom(View())[0])
    {
      var r := levels - 1;
      assert RowLinked(next[r], prev[r], rows[r], |nodes|);
      RingAt(next[r], prev[r], [HEAD] + rows[r], 0);
      t := next[r][HEAD];
      if t == HEAD {
        return t, false;
      }
      RowMember(next[r], prev[r], rows[r], |nodes|, 0);
      assert NodeOk(nodes[t], timers[t]);
      due := Minus(tick, nodes[t].timeoutTick) < HALF;
    }

    /** One round of that loop. */
    method FireOne(t: int, ghost lo: int)
      requires Valid() && Inv(View()) && Window(View(), lo) && Fires(View()) && t == Bottom(View())[0]
      modifies `next, `prev, `rows, `nodes, `timers, `count, `randomNr
      ensures Valid() && View() == Fire(old(View()))
    {
      hide RowLinked, Inv, Window, Fires, RowsWithout, Started, RowsWith, CanStart, Bottom;
      ghost var s := View();
      FireInv(s, lo);
      FiresMeans(s);
      Head(s);
      assert NodeOk(nodes[t], timers[t]);
      if nodes[t].periodic && nodes[t].active {
        FiresIff(s, lo);
        FirstDue(s);
        CanRestart(s, lo, t);
        Start(t);
      } else {
        RemoveRows(t);
        nodes := nodes[t := nodes[t].(active := false)];
        timers := timers[t := timers[t].(active := false)];
      }
    }

    /** rt_tick_increase, as far as timers go. */
    method Tick() returns (fired: seq<int>)
      requires Valid() && RunOk(View())
      modifies this
      ensures Valid() && View() == Ticked(old(View())) && RunOk(View())
    {
      hide RowLinked, Inv, Window, DueFirst, Bottom, Fires, FireTimes, RunOk;
      ghost var s := View();
      TickWindow(s);
      TickOk(s);
      ModAdd(now, 1);
      tick := (tick + 1) % WRAP;
      now := now + 1;
      fired := Check(s.now);
    }
  }

  lemma RowMember(next: map<int, int>, prev: map<int, int>, row: seq<int>, n: nat, j: nat)
    requires RowLinked(next, prev, row, n)
    ensures j < |row| ==> 0 <= row[j] < n
  {
  }

  /** A row that timer t can be put into, and what is below it. */
  ghost predicate Ready(rows: seq<seq<int>>, ts: seq<Timer>, t: int, r: int)
    requires 0 <= r < |rows|
  {
    && RowKnown(ts, rows[r]) && Ordered(ts, rows[r]) && Fits(ts, rows[r], t) && t !in rows[r]
    && (r + 1 < |rows| ==> forall x :: x in rows[r] ==> x in rows[r + 1])
  }

  /** The node found in one row, looked for in the row below: nothing before it there is later. */
  lemma Descend(row: seq<int>, below: seq<int>, ts: seq<Timer>, t: int) returns (k: nat)
    requires RowKnown(ts, row) && Ordered(ts, row) && Fits(ts, row, t)
    requires RowKnown(ts, below) && Ordered(ts, below) && Fits(ts, below, t)
    requires forall x :: x in row ==> x in below
    ensures k <= |below| && ([HEAD] + row)[Place(row, ts, ts[t].due, 0)] == ([HEAD] + below)[k]
    ensures Place(below, ts, ts[t].due, 0) == Place(below, ts, ts[t].due, k)
  {
    var p := Place(row, ts, ts[t].due, 0);
    PlaceSplits(row, ts, t, 0);
    k := 0;
    if p > 0 {
      var x := row[p - 1];
      assert x in row;
      k := PosOf(below, x) + 1;
      forall i | 0 <= i < k ensures ts[below[i]].due <= ts[t].due {
        if i < k - 1 { assert Before(ts, below[i], below[k - 1]); }
      }
      PlaceFrom(below, ts, t, 0, k);
    }
  }

  ghost predicate HeadFor(head: int, row: seq<int>, ts: seq<Timer>, due: int) {
    head == ([HEAD] + row)[Place(row, ts, due, 0)]
  }

  lemma HeightOne(nr: nat)
    ensures Height(nr, 1) == 1
  {
  }

  lemma HeightStep(nr: nat, levels: nat)
    requires levels > 1
    ensures Height(nr, levels) == if nr % 4 == 0 then 1 + Height(nr / 4, levels - 1) else 1
  {
  }

  lemma ModAdd(a: int, b: int)
    ensures (a % WRAP + b) % WRAP == (a + b) % WRAP
  {
    var q := a / WRAP;
    assert a % WRAP + b == a + b - q * WRAP;
    ModShift(a + b, q);
  }

  lemma {:induction false} ModShift(x: int, q: int)
    ensures (x - q * WRAP) % WRAP == x % WRAP
  {
    assert x - q * WRAP == (x / WRAP - q) * WRAP + x % WRAP;
    ModUnique(x / WRAP - q, x % WRAP);
  }

  lemma ModUnique(q: int, r: int)
    requires 0 <= r < WRAP
    ensures (q * WRAP + r) % WRAP == r
  {
  }

  lemma AllReady(s: State, t: int)
    requires Inv(s) && 0 <= t < |s.timers| && CanStart(s, t)
    ensures forall r :: 0 <= r < |s.rows| ==> Ready(RowsWithout(s.rows, t), Started(s, t).timers, t, r)
  {
    hide CanStart, RowsWith, Height, Drop, Ordered, Fits;
    var rows, ts := RowsWithout(s.rows, t), Started(s, t).timers;
    forall r | 0 <= r < |s.rows| ensures Ready(rows, ts, t, r) {
      RemovedRow(s, t, r);
      RowFits(s, t, r);
      assert forall i :: 0 <= i < |rows[r]| ==> rows[r][i] in rows[r];
      OrderedFrame(rows[r], Removed(s, t).timers, ts);
      if r + 1 < |s.rows| { RemovedRow(s, t, r + 1); }
      assert RowBelow(s, r);
    }
  }

  lemma FireNone(s: State)
    ensures FireTimes(s, 0) == s
  {
  }

  lemma {:induction false} FireTimesMore(s: State, n: nat)
    ensures FireTimes(s, n + 1) == Fire(FireTimes(s, n))
    decreases n
  {
    hide Fire;
    if n > 0 { FireTimesMore(Fire(s), n - 1); }
  }
}
