/** Timers (timer.c): a skip list ordered by 32-bit tick arithmetic.

    Time is counted without end here, and the code sees it modulo 2^32.  `rows` are the lists from the
    top level down; the last one holds every active timer. */
module TimerSpec {
  import opened Ring
  import opened Nodes

  const WRAP: int := 0x1_0000_0000
  const HALF: int := 0x7fff_ffff

  /** Unsigned 32-bit subtraction of two ticks. */
  function Minus(a: int, b: int): (d: int)
    ensures 0 <= d < WRAP
  {
    (a - b) % WRAP
  }

  /** `due` is the absolute deadline, whose low 32 bits are timeout_tick; `stamp` numbers the start. */
  datatype Timer = Timer(due: int, stamp: nat, init: nat, periodic: bool, active: bool)

  datatype State = State(now: nat, rows: seq<seq<int>>, timers: seq<Timer>, count: nat)

  /** The code's test on timeout_tick: a deadline `a` comes after a deadline `b`. */
  predicate Later(a: int, b: int) { Minus(a % WRAP, b % WRAP) != 0 && Minus(a % WRAP, b % WRAP) < HALF }

  /** The code's test that a deadline has come. */
  predicate Due(now: int, a: int) { Minus(now % WRAP, a % WRAP) < HALF }

  /** Deadlines this close are told apart across any wrap-around. */
  lemma LaterIff(a: int, b: int)
    requires a - b < HALF && b - a <= WRAP - HALF
    ensures Later(a, b) <==> a > b
  {
    MinusMod(a, b);
  }

  lemma DueIff(now: int, a: int)
    requires now - a < HALF && a - now <= WRAP - HALF
    ensures Due(now, a) <==> a <= now
  {
    MinusMod(now, a);
  }

  lemma MinusMod(a: int, b: int)
    requires -WRAP < a - b < WRAP
    ensures Minus(a % WRAP, b % WRAP) == if a >= b then a - b else a - b + WRAP
  {
    var k := a / WRAP - b / WRAP;
    assert a % WRAP - b % WRAP == a - b - k * WRAP;
    assert k == -1 || k == 0 || k == 1;
  }

  // ----- rows

  function DueOf(ts: seq<Timer>, a: int): int { if 0 <= a < |ts| then ts[a].due else 0 }

  /** Where a new timer goes in a row: behind the first one, from place k on, that is not later. */
  function Place(row: seq<int>, ts: seq<Timer>, due: int, k: nat): (p: nat)
    requires k <= |row|
    ensures k <= p <= |row|
    decreases |row| - k
  {
    if k < |row| && !Later(DueOf(ts, row[k]), due) then Place(row, ts, due, k + 1) else k
  }

  /** By deadline, and timers with the same deadline in the order they were started. */
  predicate Before(ts: seq<Timer>, a: int, b: int) {
    && 0 <= a < |ts| && 0 <= b < |ts|
    && (ts[a].due < ts[b].due || (ts[a].due == ts[b].due && ts[a].stamp < ts[b].stamp))
  }

  ghost predicate Ordered(ts: seq<Timer>, row: seq<int>) {
    forall i, j :: 0 <= i < j < |row| ==> Before(ts, row[i], row[j])
  }

  ghost predicate RowKnown(ts: seq<Timer>, row: seq<int>) { forall i :: 0 <= i < |row| ==> 0 <= row[i] < |ts| }

  lemma OrderedDistinct(ts: seq<Timer>, row: seq<int>)
    requires Ordered(ts, row)
    ensures Distinct(row)
  {
    forall i, j | 0 <= i < j < |row| ensures row[i] != row[j] { assert Before(ts, row[i], row[j]); }
  }

  /** The code can compare `due` with every deadline of the row, and `t` was started after them. */
  ghost predicate Fits(ts: seq<Timer>, row: seq<int>, t: int) {
    0 <= t < |ts| && forall i :: 0 <= i < |row| ==> FitsOne(ts, row[i], t)
  }

  ghost predicate FitsOne(ts: seq<Timer>, a: int, t: int)
    requires 0 <= t < |ts|
  {
    0 <= a < |ts| && ts[a].due - ts[t].due < HALF && ts[t].due - ts[a].due <= WRAP - HALF && ts[a].stamp < ts[t].stamp
  }

  /** The walk stops between the timers that are not later and those that are. */
  lemma {:induction false} PlaceSplits(row: seq<int>, ts: seq<Timer>, t: int, k: nat)
    requires k <= |row| && RowKnown(ts, row) && Ordered(ts, row) && Fits(ts, row, t)
    ensures var p := Place(row, ts, ts[t].due, k);
            && (forall i :: k <= i < p ==> ts[row[i]].due <= ts[t].due)
            && (forall i :: p <= i < |row| ==> ts[row[i]].due > ts[t].due)
    decreases |row| - k
  {
    if k < |row| {
      assert FitsOne(ts, row[k], t);
      LaterIff(ts[row[k]].due, ts[t].due);
      if ts[row[k]].due <= ts[t].due {
        PlaceSplits(row, ts, t, k + 1);
      } else {
        forall i | k <= i < |row| ensures ts[row[i]].due > ts[t].due {
          if i > k { assert Before(ts, row[k], row[i]); }
        }
      }
    }
  }

  /** Starting the walk at a timer that is not later finds the same place. */
  lemma {:induction false} PlaceFrom(row: seq<int>, ts: seq<Timer>, t: int, j: nat, k: nat)
    requires j <= k <= |row| && RowKnown(ts, row) && Fits(ts, row, t)
    requires forall i :: j <= i < k ==> ts[row[i]].due <= ts[t].due
    ensures Place(row, ts, ts[t].due, j) == Place(row, ts, ts[t].due, k)
    decreases k - j
  {
    if j < k {
      assert FitsOne(ts, row[j], t);
      LaterIff(ts[row[j]].due, ts[t].due);
      PlaceFrom(row, ts, t, j + 1, k);
    }
  }

  function InsertRow(row: seq<int>, ts: seq<Timer>, t: int): seq<int>
  {
    PutAt(row, Place(row, ts, DueOf(ts, t), 0), t)
  }

  /** A row stays in order, and only gains t. */
  lemma InsertOrdered(row: seq<int>, ts: seq<Timer>, t: int)
    requires RowKnown(ts, row) && Ordered(ts, row) && Fits(ts, row, t)
    ensures var r := InsertRow(row, ts, t);
            Ordered(ts, r) && RowKnown(ts, r) && forall x :: x in r <==> x in row || x == t
  {
    var p := Place(row, ts, ts[t].due, 0);
    PlaceSplits(row, ts, t, 0);
    forall i | 0 <= i < p ensures Before(ts, row[i], t) { assert FitsOne(ts, row[i], t); }
    forall i | p <= i < |row| ensures Before(ts, t, row[i]) { assert FitsOne(ts, row[i], t); }
    PutOrdered(row, ts, t, p);
    PutMembers(row, ts, t, p);
  }

  lemma PutMembers(row: seq<int>, ts: seq<Timer>, t: int, p: nat)
    requires p <= |row| && RowKnown(ts, row) && 0 <= t < |ts|
    ensures RowKnown(ts, PutAt(row, p, t)) && forall x :: x in PutAt(row, p, t) <==> x in row || x == t
  {
    assert row == row[..p] + row[p..];
  }

  lemma PutOrdered(row: seq<int>, ts: seq<Timer>, t: int, p: nat)
    requires p <= |row| && Ordered(ts, row)
    requires forall i :: 0 <= i < p ==> Before(ts, row[i], t)
    requires forall i :: p <= i < |row| ==> Before(ts, t, row[i])
    ensures Ordered(ts, PutAt(row, p, t))
  {
    hide Before;
    var r := PutAt(row, p, t);
    forall i, j | 0 <= i < j < |r| ensures Before(ts, r[i], r[j]) {
      if i < p && j > p {
        assert r[i] == row[i] && r[j] == row[j - 1];
      }
    }
  }

  lemma RemoveOrdered(row: seq<int>, ts: seq<Timer>, t: int)
    requires Ordered(ts, row)
    ensures Ordered(ts, Drop(row, t)) && forall x :: x in Drop(row, t) <==> x in row && x != t
  {
    OrderedDistinct(ts, row);
    DropKeeps(row, t);
    if t in row {
      var p, r := PosOf(row, t), Drop(row, t);
      forall i, j | 0 <= i < j < |r| ensures Before(ts, r[i], r[j]) {
        assert Before(ts, row[if i < p then i else i + 1], row[if j < p then j else j + 1]);
      }
    }
  }

  lemma OrderedFrame(row: seq<int>, ts: seq<Timer>, ts': seq<Timer>)
    requires Ordered(ts, row) && RowKnown(ts, row) && |ts'| == |ts|
    requires forall i :: 0 <= i < |row| ==> ts'[row[i]].due == ts[row[i]].due && ts'[row[i]].stamp == ts[row[i]].stamp
    ensures Ordered(ts', row)
  {
    forall i, j | 0 <= i < j < |row| ensures Before(ts', row[i], row[j]) { assert Before(ts, row[i], row[j]); }
  }

  // ----- the operations

  /** In how many rows, from the bottom, a timer goes: up as long as the low two bits are 0. */
  function Height(nr: nat, levels: nat): (h: nat)
    ensures levels >= 1 ==> 1 <= h <= levels
  {
    if levels <= 1 || nr % 4 != 0 then 1 else 1 + Height(nr / 4, levels - 1)
  }

  function Bottom(s: State): seq<int> { if s.rows == [] then [] else s.rows[|s.rows| - 1] }

  function RowsWithout(rows: seq<seq<int>>, t: int): (r: seq<seq<int>>)
    ensures |r| == |rows|
  {
    seq(|rows|, r requires 0 <= r < |rows| => Drop(rows[r], t))
  }

  function RowsWith(rows: seq<seq<int>>, ts: seq<Timer>, t: int, h: nat): (r: seq<seq<int>>)
    ensures |r| == |rows|
  {
    seq(|rows|, r requires 0 <= r < |rows| => if |rows| - r <= h then InsertRow(rows[r], ts, t) else rows[r])
  }

  /** _rt_timer_remove, and the flag. */
  function Removed(s: State, t: int): State
    requires 0 <= t < |s.timers|
  {
    s.(rows := RowsWithout(s.rows, t), timers := s.timers[t := s.timers[t].(active := false)])
  }

  /** rt_timer_start. */
  function Started(s: State, t: int): State
    requires 0 <= t < |s.timers|
  {
    var n := s.count + 1;
    var ts := s.timers[t := s.timers[t].(due := s.now + s.timers[t].init, stamp := n, active := true)];
    s.(rows := RowsWith(RowsWithout(s.rows, t), ts, t, Height(n % WRAP, |s.rows|)), timers := ts, count := n)
  }

  /** rt_timer_stop. */
  function Stopped(s: State, t: int): (State, bool)
    requires 0 <= t < |s.timers|
  {
    if s.timers[t].active then (Removed(s, t), true) else (s, false)
  }

  /** The condition of the loop in rt_timer_check. */
  predicate Fires(s: State) { Bottom(s) != [] && Due(s.now, DueOf(s.timers, Bottom(s)[0])) }

  /** One round of that loop, with a callback that leaves the timers alone. */
  function Fire(s: State): State {
    if Bottom(s) == [] || !(0 <= Bottom(s)[0] < |s.timers|) then s
    else
      var t := Bottom(s)[0];
      if s.timers[t].periodic && s.timers[t].active then Started(s, t) else Removed(s, t)
  }

  // ----- the invariant

  ghost predicate RowOk(s: State, r: int)
    requires 0 <= r < |s.rows|
  {
    RowKnown(s.timers, s.rows[r]) && Ordered(s.timers, s.rows[r])
  }

  ghost predicate RowBelow(s: State, r: int)
    requires 0 <= r < |s.rows|
  {
    r + 1 < |s.rows| ==> forall t :: t in s.rows[r] ==> t in s.rows[r + 1]
  }

  ghost predicate TimerOk(s: State, t: int)
    requires 0 <= t < |s.timers|
  {
    s.timers[t].stamp <= s.count && (s.timers[t].active <==> t in Bottom(s))
  }

  /** Each row is in order and contained in the next, and the last one holds the active timers. */
  ghost predicate Inv(s: State) {
    && s.rows != []
    && (forall r :: 0 <= r < |s.rows| ==> RowOk(s, r) && RowBelow(s, r))
    && (forall t :: 0 <= t < |s.timers| ==> TimerOk(s, t))
  }

  /** The tick arithmetic can place a timer that is started now. */
  ghost predicate CanStart(s: State, t: int)
    requires 0 <= t < |s.timers|
  {
    forall a :: 0 <= a < |s.timers| && s.timers[a].active && a != t ==> Close(s.timers[a].due, s.now + s.timers[t].init)
  }

  ghost predicate Close(a: int, b: int) { a - b < HALF && b - a <= WRAP - HALF }

  /** A row's members are active. */
  lemma {:induction false} RowActive(s: State, r: int, t: int)
    requires Inv(s) && 0 <= r < |s.rows| && t in s.rows[r]
    ensures 0 <= t < |s.timers| && s.timers[t].active
    decreases |s.rows| - r
  {
    assert RowOk(s, r) && RowBelow(s, r);
    assert RowKnown(s.timers, s.rows[r]);
    if r + 1 < |s.rows| {
      RowActive(s, r + 1, t);
    } else {
      assert TimerOk(s, t);
    }
  }

  lemma RemovedRow(s: State, t: int, r: int)
    requires Inv(s) && 0 <= t < |s.timers| && 0 <= r < |s.rows|
    ensures var s' := Removed(s, t); RowOk(s', r) && forall x :: x in s'.rows[r] <==> x in s.rows[r] && x != t
  {
    hide Inv, Ordered;
    assert RowOk(s, r) by { InvRow(s, r); }
    RemoveOrdered(s.rows[r], s.timers, t);
    var s' := Removed(s, t);
    assert RowKnown(s.timers, s'.rows[r]) by { KnownMembers(s.rows[r], s'.rows[r], s.timers); }
    OrderedFrame(s'.rows[r], s.timers, s'.timers);
  }

  lemma KnownMembers(row: seq<int>, row': seq<int>, ts: seq<Timer>)
    requires RowKnown(ts, row) && forall x :: x in row' ==> x in row
    ensures RowKnown(ts, row')
  {
    forall i | 0 <= i < |row'| ensures 0 <= row'[i] < |ts| { assert row'[i] in row'; }
  }

  lemma InvRow(s: State, r: int)
    requires Inv(s) && 0 <= r < |s.rows|
    ensures RowOk(s, r) && RowBelow(s, r)
  {
  }

  lemma RemovedInv(s: State, t: int)
    requires Inv(s) && 0 <= t < |s.timers|
    ensures Inv(Removed(s, t))
    ensures forall x :: x in Bottom(Removed(s, t)) <==> x in Bottom(s) && x != t
  {
    hide Ordered, Drop;
    var s' := Removed(s, t);
    forall r | 0 <= r < |s'.rows| ensures RowOk(s', r) && RowBelow(s', r) {
      RemovedRow(s, t, r);
      if r + 1 < |s'.rows| { RemovedRow(s, t, r + 1); }
      assert RowBelow(s, r);
    }
    RemovedRow(s, t, |s.rows| - 1);
    forall x | 0 <= x < |s'.timers| ensures TimerOk(s', x) { assert TimerOk(s, x); }
  }

  lemma StartedRow(s: State, t: int, r: int)
    requires Inv(s) && 0 <= t < |s.timers| && 0 <= r < |s.rows| && CanStart(s, t)
    ensures var s' := Started(s, t);
            && RowOk(s', r)
            && var joins := |s.rows| - r <= Height((s.count + 1) % WRAP, |s.rows|);
               forall x :: x in s'.rows[r] <==> (x in s.rows[r] && x != t) || (joins && x == t)
  {
    hide Inv, Ordered, CanStart, InsertRow, Drop, Height;
    var s1, s' := Removed(s, t), Started(s, t);
    RemovedRow(s, t, r);
    var row := s1.rows[r];
    RowFits(s, t, r);
    OrderedFrame(row, s1.timers, s'.timers);
    InsertOrdered(row, s'.timers, t);
  }

  lemma RowFits(s: State, t: int, r: int)
    requires Inv(s) && 0 <= t < |s.timers| && 0 <= r < |s.rows| && CanStart(s, t)
    ensures Fits(Started(s, t).timers, Removed(s, t).rows[r], t)
  {
    hide Ordered, Drop;
    var row, ts := Removed(s, t).rows[r], Started(s, t).timers;
    RemovedRow(s, t, r);
    forall i | 0 <= i < |row| ensures FitsOne(ts, row[i], t) {
      assert row[i] in row;
      RowActive(s, r, row[i]);
      assert Close(s.timers[row[i]].due, s.now + s.timers[t].init);
      assert TimerOk(s, row[i]);
    }
  }

  lemma StartedInv(s: State, t: int)
    requires Inv(s) && 0 <= t < |s.timers| && CanStart(s, t)
    ensures Inv(Started(s, t))
    ensures forall x :: x in Bottom(Started(s, t)) <==> x in Bottom(s) || x == t
    ensures Bottom(Started(s, t)) == InsertRow(Bottom(Removed(s, t)), Started(s, t).timers, t)
  {
    hide Ordered, CanStart, InsertRow, Drop, Height;
    var s' := Started(s, t);
    forall r | 0 <= r < |s'.rows| ensures RowOk(s', r) && RowBelow(s', r) {
      StartedRow(s, t, r);
      if r + 1 < |s'.rows| { StartedRow(s, t, r + 1); }
      assert RowBelow(s, r);
    }
    StartedRow(s, t, |s.rows| - 1);
    forall x | 0 <= x < |s'.timers| ensures TimerOk(s', x) { assert TimerOk(s, x); }
  }

  // ----- rt_timer_check

  /** All deadlines, with those that restarted timers get, lie in a window the tick arithmetic can tell
      apart, and the period of a due timer is at least one tick. */
  ghost predicate Window(s: State, lo: int) {
    && lo <= s.now < lo + HALF
    && forall a :: 0 <= a < |s.timers| && s.timers[a].active ==> InWindow(s, lo, s.timers[a])
  }

  ghost predicate InWindow(s: State, lo: int, a: Timer) {
    lo <= a.due <= lo + HALF && (a.periodic ==> s.now + a.init <= lo + HALF && (a.due <= s.now ==> 1 <= a.init))
  }

  /** How many timers at the front of the row are due. */
  function DueFirst(row: seq<int>, ts: seq<Timer>, now: int): (k: nat)
    ensures k <= |row|
  {
    if row == [] || DueOf(ts, row[0]) > now then 0 else 1 + DueFirst(row[1..], ts, now)
  }

  lemma {:induction false} DueFirstIs(row: seq<int>, ts: seq<Timer>, now: int)
    requires RowKnown(ts, row) && Ordered(ts, row)
    ensures var k := DueFirst(row, ts, now);
            (forall i :: 0 <= i < k ==> ts[row[i]].due <= now) && (forall i :: k <= i < |row| ==> ts[row[i]].due > now)
  {
    if row != [] {
      if ts[row[0]].due > now {
        forall i | 0 <= i < |row| ensures ts[row[i]].due > now {
          if i > 0 { assert Before(ts, row[0], row[i]); }
        }
      } else {
        var rest := row[1..];
        forall i, j | 0 <= i < j < |rest| ensures Before(ts, rest[i], rest[j]) {
          assert Before(ts, row[i + 1], row[j + 1]);
        }
        DueFirstIs(rest, ts, now);
        var k := DueFirst(rest, ts, now);
        assert forall i :: 1 <= i < |row| ==> row[i] == rest[i - 1];
        forall i | 0 <= i < k + 1 ensures ts[row[i]].due <= now { if i > 0 { assert rest[i - 1] == row[i]; } }
        forall i | k + 1 <= i < |row| ensures ts[row[i]].due > now { assert rest[i - 1] == row[i]; }
      }
    }
  }

  /** A place in the row from which on nothing is due, and before which everything is, is that number. */
  lemma DueFirstUnique(row: seq<int>, ts: seq<Timer>, now: int, k: nat)
    requires RowKnown(ts, row) && Ordered(ts, row) && k <= |row|
    requires forall i :: 0 <= i < k ==> ts[row[i]].due <= now
    requires k < |row| ==> ts[row[k]].due > now
    ensures DueFirst(row, ts, now) == k
  {
    DueFirstIs(row, ts, now);
    var d := DueFirst(row, ts, now);
    assert d < |row| ==> ts[row[d]].due > now;
  }

  /** The loop goes on exactly while a timer is due. */
  lemma FiresIff(s: State, lo: int)
    requires Inv(s) && Window(s, lo)
    ensures Fires(s) <==> DueFirst(Bottom(s), s.timers, s.now) > 0
  {
    if Bottom(s) != [] {
      var t := Bottom(s)[0];
      assert t in Bottom(s);
      RowActive(s, |s.rows| - 1, t);
      assert InWindow(s, lo, s.timers[t]);
      DueIff(s.now, s.timers[t].due);
    }
  }

  lemma DropFirst(row: seq<int>)
    requires row != []
    ensures Drop(row, row[0]) == row[1..]
  {
    assert PosOf(row, row[0]) == 0;
  }

  lemma FirstDue(s: State)
    requires DueFirst(Bottom(s), s.timers, s.now) > 0
    ensures Bottom(s) != [] && DueOf(s.timers, Bottom(s)[0]) <= s.now
  {
  }

  lemma CanRestart(s: State, lo: int, t: int)
    requires Window(s, lo) && 0 <= t < |s.timers| && s.timers[t].active && s.timers[t].periodic
    requires s.timers[t].due <= s.now
    ensures CanStart(s, t)
  {
    assert InWindow(s, lo, s.timers[t]);
    forall a | 0 <= a < |s.timers| && s.timers[a].active && a != t
      ensures Close(s.timers[a].due, s.now + s.timers[t].init)
    {
      assert InWindow(s, lo, s.timers[a]);
    }
  }

  /** The first timer, which is due. */
  lemma Head(s: State)
    requires Inv(s) && Bottom(s) != []
    ensures var t := Bottom(s)[0]; 0 <= t < |s.timers| && s.timers[t].active && Bottom(Removed(s, t)) == Bottom(s)[1..]
  {
    var t := Bottom(s)[0];
    assert t in Bottom(s);
    RowActive(s, |s.rows| - 1, t);
    DropFirst(Bottom(s));
  }

  lemma FireInv(s: State, lo: int)
    requires Inv(s) && Window(s, lo) && Fires(s)
    ensures Inv(Fire(s)) && Window(Fire(s), lo) && Fire(s).now == s.now
  {
    hide Inv, CanStart, Started, Removed;
    FiresIff(s, lo);
    Head(s);
    var t, s' := Bottom(s)[0], Fire(s);
    FireTimers(s, t);
    if s.timers[t].periodic {
      CanRestart(s, lo, t);
      StartedInv(s, t);
    } else {
      RemovedInv(s, t);
    }
    forall a | 0 <= a < |s'.timers| && s'.timers[a].active ensures InWindow(s', lo, s'.timers[a]) {
      assert InWindow(s, lo, s.timers[a]);
    }
  }

  /** What firing `t` does to the timers. */
  lemma FireTimers(s: State, t: int)
    requires Bottom(s) != [] && t == Bottom(s)[0] && 0 <= t < |s.timers| && s.timers[t].active
    ensures var s' := Fire(s);
            && |s'.timers| == |s.timers| && s'.now == s.now
            && (forall a :: 0 <= a < |s.timers| && a != t ==> s'.timers[a] == s.timers[a])
            && s'.timers[t].active == s.timers[t].periodic && s'.timers[t].periodic == s.timers[t].periodic
            && s'.timers[t].init == s.timers[t].init
            && (s.timers[t].periodic ==> s'.timers[t].due == s.now + s.timers[t].init)
  {
  }

  /** One due timer less, and the other due ones stay first in their order. */
  lemma FireAdvances(s: State, lo: int)
    requires Inv(s) && Window(s, lo) && Fires(s)
    ensures var k := DueFirst(Bottom(s), s.timers, s.now);
            && 0 < k && DueFirst(Bottom(Fire(s)), Fire(s).timers, s.now) == k - 1
            && Bottom(Fire(s))[..k - 1] == Bottom(s)[1..k]
  {
    hide Inv, InsertRow, DueFirst, CanStart, Started, Removed, Ordered, RowKnown, Bottom;
    FiresIff(s, lo);
    FireInv(s, lo);
    Head(s);
    var t, k, s' := Bottom(s)[0], DueFirst(Bottom(s), s.timers, s.now), Fire(s);
    FireTimers(s, t);
    FirstDue(s);
    BottomOk(s);
    BottomOk(s');
    if s.timers[t].periodic {
      InsertedBehind(s, lo, t, k);
    }
    RowAdvances(Bottom(s), Bottom(s'), s.timers, s'.timers, s.now, k);
  }

  lemma BottomOk(s: State)
    requires Inv(s)
    ensures RowKnown(s.timers, Bottom(s)) && Ordered(s.timers, Bottom(s))
  {
    assert RowOk(s, |s.rows| - 1);
  }

  lemma NotFirst(row: seq<int>)
    requires Distinct(row) && row != []
    ensures forall i :: 1 <= i < |row| ==> row[i] != row[0]
  {
  }

  /** The first of k due timers leaves the front of a row, and nothing due comes in. */
  lemma RowAdvances(row: seq<int>, row': seq<int>, ts: seq<Timer>, ts': seq<Timer>, now: int, k: nat)
    requires RowKnown(ts, row) && Ordered(ts, row) && RowKnown(ts', row') && Ordered(ts', row') && row != []
    requires 0 < k == DueFirst(row, ts, now) && |ts'| == |ts|
    requires forall a :: 0 <= a < |ts| && a != row[0] ==> ts'[a] == ts[a]
    requires row' == row[1..] || (k <= |row'| && row'[..k - 1] == row[1..k] && ts'[row'[k - 1]].due > now)
    ensures DueFirst(row', ts', now) == k - 1 && row'[..k - 1] == row[1..k]
  {
    hide DueFirst, Ordered, Distinct;
    DueFirstIs(row, ts, now);
    OrderedDistinct(ts, row);
    NotFirst(row);
    assert row'[..k - 1] == row[1..k];
    forall i | 0 <= i < k - 1 ensures ts'[row'[i]].due <= now {
      assert row'[i] == row'[..k - 1][i] == row[1..k][i] == row[i + 1];
    }
    if row' == row[1..] && k - 1 < |row'| { assert row'[k - 1] == row[k]; }
    DueFirstUnique(row', ts', now, k - 1);
  }

  /** A restarted timer goes behind every due one. */
  lemma InsertedBehind(s: State, lo: int, t: int, k: nat)
    requires Inv(s) && Window(s, lo) && Fires(s) && t == Bottom(s)[0] && 0 <= t < |s.timers| && s.timers[t].active
    requires s.timers[t].periodic
    requires k == DueFirst(Bottom(s), s.timers, s.now) > 0
    ensures var b, s' := Bottom(Fire(s)), Fire(s);
            |b| >= k && RowKnown(s'.timers, b) && b[..k - 1] == Bottom(s)[1..k] && s'.timers[b[k - 1]].due > s.now
  {
    hide DueFirst, Ordered, Inv, InsertRow, CanStart, Removed;
    FirstDue(s);
    CanRestart(s, lo, t);
    StartedInv(s, t);
    Head(s);
    var s', rest := Started(s, t), Bottom(s)[1..];
    assert InWindow(s, lo, s.timers[t]);
    StartedRest(s, t, k);
    InsertBehind(rest, s'.timers, t, k - 1, s.now);
    InvRow(s', |s.rows| - 1);
  }

  /** The row without its first timer, seen with the new deadline of that one. */
  lemma StartedRest(s: State, t: int, k: nat)
    requires Inv(s) && Bottom(s) != [] && t == Bottom(s)[0] && 0 <= t < |s.timers| && CanStart(s, t)
    requires k == DueFirst(Bottom(s), s.timers, s.now) > 0
    ensures var rest, ts := Bottom(s)[1..], Started(s, t).timers;
            && RowKnown(ts, rest) && Ordered(ts, rest) && Fits(ts, rest, t)
            && (forall i :: 0 <= i < k - 1 ==> ts[rest[i]].due <= s.now)
            && (k - 1 < |rest| ==> ts[rest[k - 1]].due > s.now)
  {
    hide DueFirst, Ordered, CanStart, Drop, Height, InsertRow, Fits;
    Head(s);
    var b, rest, ts := Bottom(s), Bottom(s)[1..], Started(s, t).timers;
    RowFits(s, t, |s.rows| - 1);
    RemovedRow(s, t, |s.rows| - 1);
    assert RowOk(s, |s.rows| - 1);
    assert forall i :: 0 <= i < |rest| ==> rest[i] in rest;
    OrderedFrame(rest, Removed(s, t).timers, ts);
    DueFirstIs(b, s.timers, s.now);
    forall i | 0 <= i < k - 1 ensures ts[rest[i]].due <= s.now {
      assert rest[i] == b[i + 1] && rest[i] in rest;
    }
    if k - 1 < |rest| { assert rest[k - 1] == b[k] && rest[k - 1] in rest; }
  }

  lemma InsertBehind(rest: seq<int>, ts: seq<Timer>, t: int, n: nat, now: int)
    requires RowKnown(ts, rest) && Ordered(ts, rest) && Fits(ts, rest, t) && n <= |rest| && ts[t].due > now
    requires forall i :: 0 <= i < n ==> ts[rest[i]].due <= now
    requires n < |rest| ==> ts[rest[n]].due > now
    ensures var b := InsertRow(rest, ts, t); |b| > n && b[..n] == rest[..n] && DueOf(ts, b[n]) > now
  {
    PlaceSplits(rest, ts, t, 0);
    var p := Place(rest, ts, ts[t].due, 0);
    assert p < |rest| ==> ts[rest[p]].due > ts[t].due;
  }

  ghost function FireTimes(s: State, n: nat): State
    decreases n
  {
    if n == 0 then s else FireTimes(Fire(s), n - 1)
  }

  /** Who was active and is not in `fired`, or is periodic. */
  ghost predicate Survives(s: State, fired: seq<int>, s': State, t: int)
    requires 0 <= t < |s.timers|
  {
    && |s'.timers| == |s.timers|
    && (t !in fired ==> s'.timers[t] == s.timers[t])
    && (t in fired ==>
        && s'.timers[t].active == s.timers[t].periodic
        && (s.timers[t].periodic ==> s'.timers[t].due == s.now + s.timers[t].init))
  }

  /** After n rounds, and n is at most the number of due timers: the first n have fired, and the loop goes
      on exactly if there is one more. */
  lemma {:induction false} RoundsFireInOrder(s: State, lo: int, n: nat)
    requires Inv(s) && Window(s, lo) && n <= DueFirst(Bottom(s), s.timers, s.now)
    ensures var s', k := FireTimes(s, n), DueFirst(Bottom(s), s.timers, s.now);
            && Inv(s') && Window(s', lo) && s'.now == s.now
            && (Fires(s') <==> n < k) && DueFirst(Bottom(s'), s'.timers, s'.now) == k - n
            && (n < k ==> Bottom(s') != [] && Bottom(s')[0] == Bottom(s)[n])
    decreases n
  {
    hide Inv, Window, Fire, DueFirst, Fires, Bottom;
    FiresIff(s, lo);
    if n == 0 {
      if DueFirst(Bottom(s), s.timers, s.now) > 0 { FirstDue(s); }
    } else {
      var k, s1 := DueFirst(Bottom(s), s.timers, s.now), Fire(s);
      FireInv(s, lo);
      FireAdvances(s, lo);
      RoundsFireInOrder(s1, lo, n - 1);
      assert n < k ==> Bottom(s1)[..k - 1][n - 1] == Bottom(s)[1..k][n - 1];
    }
  }

  /** Each timer among them fired once. */
  lemma {:induction false} RoundsSurvive(s: State, lo: int, n: nat, t: int)
    requires Inv(s) && Window(s, lo) && n <= DueFirst(Bottom(s), s.timers, s.now) && 0 <= t < |s.timers|
    ensures Survives(s, Bottom(s)[..n], FireTimes(s, n), t)
    decreases n
  {
    hide Inv, Window, Fire, DueFirst, Fires, Bottom, Distinct;
    FiresIff(s, lo);
    if n > 0 {
      var k, b, s1 := DueFirst(Bottom(s), s.timers, s.now), Bottom(s), Fire(s);
      FireInv(s, lo);
      FireAdvances(s, lo);
      Head(s);
      FireTimers(s, b[0]);
      BottomDistinct(s);
      RoundsSurvive(s1, lo, n - 1, t);
      SamePrefix(Bottom(s1), b, n, k);
    }
  }

  lemma SamePrefix(b1: seq<int>, b: seq<int>, n: nat, k: nat)
    requires 0 < n <= k <= |b| && |b1| >= k - 1 && b1[..k - 1] == b[1..k] && Distinct(b)
    ensures b1[..n - 1] == b[1..n] && b[0] !in b1[..n - 1] && forall t :: t in b[..n] <==> t == b[0] || t in b1[..n - 1]
  {
    assert b1[..n - 1] == b1[..k - 1][..n - 1];
    assert b[..n] == [b[0]] + b[1..n];
  }

  lemma BottomDistinct(s: State)
    requires Inv(s)
    ensures Distinct(Bottom(s))
  {
    assert RowOk(s, |s.rows| - 1);
    OrderedDistinct(s.timers, Bottom(s));
  }

  /** One rt_timer_check fires exactly the timers that are due, once each, in order of deadline and start,
      and then stops; nothing due is left. */
  lemma CheckFiresDue(s: State, lo: int)
    requires Inv(s) && Window(s, lo)
    ensures var k := DueFirst(Bottom(s), s.timers, s.now);
            var fired, s' := Bottom(s)[..k], FireTimes(s, k);
            && Distinct(fired) && Ordered(s.timers, fired)
            && (forall t :: 0 <= t < |s.timers| ==> (t in fired <==> s.timers[t].active && s.timers[t].due <= s.now))
            && Inv(s') && !Fires(s')
            && (forall t :: 0 <= t < |s.timers| ==> Survives(s, fired, s', t))
            && (forall t :: 0 <= t < |s'.timers| && s'.timers[t].active ==> s'.timers[t].due > s.now)
  {
    hide Inv, Window, DueFirst, Bottom, Fires, FireTimes, Distinct, Ordered, Survives;
    var k, b := DueFirst(Bottom(s), s.timers, s.now), Bottom(s);
    RoundsFireInOrder(s, lo, k);
    forall t | 0 <= t < |s.timers| ensures Survives(s, b[..k], FireTimes(s, k), t) { RoundsSurvive(s, lo, k, t); }
    DueAreFirst(s, k);
    NothingDue(FireTimes(s, k));
  }

  lemma DueAreFirst(s: State, k: nat)
    requires Inv(s) && k == DueFirst(Bottom(s), s.timers, s.now)
    ensures var fired := Bottom(s)[..k];
            && Distinct(fired) && Ordered(s.timers, fired)
            && (forall t :: 0 <= t < |s.timers| ==> (t in fired <==> s.timers[t].active && s.timers[t].due <= s.now))
  {
    var b := Bottom(s);
    BottomDistinct(s);
    assert RowOk(s, |s.rows| - 1);
    DueFirstIs(b, s.timers, s.now);
    forall t | 0 <= t < |s.timers| ensures t in b[..k] <==> s.timers[t].active && s.timers[t].due <= s.now {
      assert TimerOk(s, t);
      if t in b { var i :| 0 <= i < |b| && b[i] == t; }
    }
  }

  lemma NothingDue(s: State)
    requires Inv(s) && DueFirst(Bottom(s), s.timers, s.now) == 0
    ensures forall t :: 0 <= t < |s.timers| && s.timers[t].active ==> s.timers[t].due > s.now
  {
    assert RowOk(s, |s.rows| - 1);
    DueFirstIs(Bottom(s), s.timers, s.now);
    forall t | 0 <= t < |s.timers| && s.timers[t].active ensures s.timers[t].due > s.now {
      assert TimerOk(s, t);
    }
  }

  // ----- when the check ends

  /** Strictly inside the window, whatever the periods. */
  ghost predicate Narrow(s: State, lo: int) {
    && lo <= s.now < lo + HALF
    && forall a :: 0 <= a < |s.timers| && s.timers[a].active ==> InNarrow(s, lo, s.timers[a])
  }

  ghost predicate InNarrow(s: State, lo: int, a: Timer) {
    lo <= a.due < lo + HALF && (a.periodic ==> s.now + a.init < lo + HALF)
  }

  /** A due timer that is restarted for the same tick. */
  predicate Restless(s: State, t: int) {
    0 <= t < |s.timers| && s.timers[t].active && s.timers[t].periodic && s.timers[t].init == 0
      && s.timers[t].due <= s.now
  }

  lemma NarrowFires(s: State, lo: int, t: int)
    requires Inv(s) && Narrow(s, lo) && 0 <= t < |s.timers| && s.timers[t].active && s.timers[t].due <= s.now
    ensures Fires(s)
  {
    assert TimerOk(s, t);
    Head(s);
    var b, h := Bottom(s), Bottom(s)[0];
    assert RowOk(s, |s.rows| - 1);
    var i :| 0 <= i < |b| && b[i] == t;
    if i > 0 { assert Before(s.timers, b[0], b[i]); }
    assert InNarrow(s, lo, s.timers[h]);
    DueIff(s.now, s.timers[h].due);
  }

  lemma RestlessStays(s: State, lo: int, t: int)
    requires Inv(s) && Narrow(s, lo) && Restless(s, t)
    ensures Fires(s) && Inv(Fire(s)) && Narrow(Fire(s), lo) && Restless(Fire(s), t)
  {
    hide Inv, Started, Removed, Fires;
    NarrowFires(s, lo, t);
    FiresMeans(s);
    Head(s);
    var h, s' := Bottom(s)[0], Fire(s);
    FireTimers(s, h);
    assert InNarrow(s, lo, s.timers[h]);
    forall a | 0 <= a < |s.timers| && s.timers[a].active
      ensures s.timers[h].periodic ==> Close(s.timers[a].due, s.now + s.timers[h].init)
    {
      assert InNarrow(s, lo, s.timers[a]);
    }
    if s.timers[h].periodic { StartedInv(s, h); } else { RemovedInv(s, h); }
    forall a | 0 <= a < |s'.timers| && s'.timers[a].active ensures InNarrow(s', lo, s'.timers[a]) {
      assert InNarrow(s, lo, s.timers[a]);
    }
  }

  lemma FiresMeans(s: State)
    requires Fires(s)
    ensures Bottom(s) != []
  {
  }

  lemma {:induction false} RestlessForever(s: State, lo: int, t: int, n: nat)
    requires Inv(s) && Narrow(s, lo) && Restless(s, t)
    ensures Fires(FireTimes(s, n))
    decreases n
  {
    RestlessStays(s, lo, t);
    if n > 0 { RestlessForever(Fire(s), lo, t, n - 1); }
  }

  /** rt_timer_check comes to an end exactly if no due periodic timer has the period 0. */
  lemma CheckEndsIff(s: State, lo: int)
    requires Inv(s) && Narrow(s, lo)
    ensures (exists n: nat :: !Fires(FireTimes(s, n))) <==> forall t :: !Restless(s, t)
  {
    if t :| Restless(s, t) {
      forall n: nat ensures Fires(FireTimes(s, n)) { RestlessForever(s, lo, t, n); }
    } else {
      forall a | 0 <= a < |s.timers| && s.timers[a].active ensures InWindow(s, lo, s.timers[a]) {
        assert InNarrow(s, lo, s.timers[a]) && !Restless(s, a);
      }
      CheckFiresDue(s, lo);
      assert !Fires(FireTimes(s, DueFirst(Bottom(s), s.timers, s.now)));
    }
  }

  // ----- every run

  datatype Step =
    | DoStart(t: int)
    | DoStop(t: int)
    | DoControl(t: int, time: nat, periodic: bool)
    | DoTick

  /** The time of a timer is below RT_TICK_MAX / 2, as rt_timer_start insists, and a period is not 0. */
  ghost predicate Enabled(s: State, step: Step) {
    match step
    case DoTick => true
    case DoControl(t, time, periodic) => 0 <= t < |s.timers| && time < HALF && (periodic ==> time > 0)
    case _ => 0 <= step.t < |s.timers|
  }

  /** rt_tick_increase counts the tick and runs rt_timer_check, all rounds of it. */
  ghost function Ticked(s: State): State {
    var s1 := s.(now := s.now + 1);
    FireTimes(s1, DueFirst(Bottom(s1), s1.timers, s1.now))
  }

  ghost function Apply(s: State, step: Step): State
    requires Enabled(s, step)
  {
    match step
    case DoStart(t) => Started(s, t)
    case DoStop(t) => Stopped(s, t).0
    case DoControl(t, time, periodic) => s.(timers := s.timers[t := s.timers[t].(init := time, periodic := periodic)])
    case DoTick => Ticked(s)
  }

  ghost predicate SettingOk(s: State, a: Timer) {
    && a.init < HALF && (a.periodic ==> a.init > 0)
    && (a.active ==> s.now <= a.due < s.now + HALF)
  }

  ghost predicate RunOk(s: State) {
    Inv(s) && forall a :: 0 <= a < |s.timers| ==> SettingOk(s, s.timers[a])
  }

  lemma StartOk(s: State, t: int)
    requires RunOk(s) && 0 <= t < |s.timers|
    ensures RunOk(Started(s, t))
  {
    hide Inv, Height, RowsWith, RowsWithout;
    assert SettingOk(s, s.timers[t]);
    forall a | 0 <= a < |s.timers| && s.timers[a].active && a != t
      ensures Close(s.timers[a].due, s.now + s.timers[t].init)
    {
      assert SettingOk(s, s.timers[a]);
    }
    StartedInv(s, t);
    var s' := Started(s, t);
    forall a | 0 <= a < |s'.timers| ensures SettingOk(s', s'.timers[a]) { assert SettingOk(s, s.timers[a]); }
  }

  lemma StopOk(s: State, t: int)
    requires RunOk(s) && 0 <= t < |s.timers|
    ensures RunOk(Stopped(s, t).0)
  {
    hide Inv, RowsWithout;
    RemovedInv(s, t);
    var s' := Removed(s, t);
    forall a | 0 <= a < |s'.timers| ensures SettingOk(s', s'.timers[a]) { assert SettingOk(s, s.timers[a]); }
  }

  lemma ControlOk(s: State, step: Step)
    requires RunOk(s) && Enabled(s, step) && step.DoControl?
    ensures RunOk(Apply(s, step))
  {
    hide Inv;
    var s' := Apply(s, step);
    SetInv(s, s');
    forall a | 0 <= a < |s'.timers| ensures SettingOk(s', s'.timers[a]) { assert SettingOk(s, s.timers[a]); }
  }

  /** With a check at every tick, the window takes care of itself. */
  lemma TickWindow(s: State)
    requires RunOk(s)
    ensures Inv(s.(now := s.now + 1)) && Window(s.(now := s.now + 1), s.now)
  {
    var s1 := s.(now := s.now + 1);
    NowInv(s, s1);
    forall a | 0 <= a < |s1.timers| && s1.timers[a].active ensures InWindow(s1, s.now, s1.timers[a]) {
      assert SettingOk(s, s.timers[a]);
    }
  }

  lemma TickOk(s: State)
    requires RunOk(s)
    ensures RunOk(Ticked(s))
  {
    hide Inv, Window, FireTimes, DueFirst, Fires, Ordered, Distinct;
    TickWindow(s);
    var s1, s' := s.(now := s.now + 1), Ticked(s);
    var k := DueFirst(Bottom(s1), s1.timers, s1.now);
    CheckFiresDue(s1, s.now);
    RoundsFireInOrder(s1, s.now, k);
    RoundsKeepSettings(s1, k);
    forall a | 0 <= a < |s'.timers| ensures SettingOk(s', s'.timers[a]) {
      assert SettingOk(s, s.timers[a]) && Survives(s1, Bottom(s1)[..k], s', a);
    }
  }

  lemma NowInv(s: State, s1: State)
    requires Inv(s) && s1 == s.(now := s1.now)
    ensures Inv(s1)
  {
    forall r | 0 <= r < |s1.rows| ensures RowOk(s1, r) && RowBelow(s1, r) { assert RowOk(s, r) && RowBelow(s, r); }
    forall t | 0 <= t < |s1.timers| ensures TimerOk(s1, t) { assert TimerOk(s, t); }
  }

  lemma {:induction false} RoundsKeepSettings(s: State, n: nat)
    ensures var s' := FireTimes(s, n);
            && |s'.timers| == |s.timers|
            && forall a :: 0 <= a < |s.timers| ==>
              s'.timers[a].init == s.timers[a].init && s'.timers[a].periodic == s.timers[a].periodic
    decreases n
  {
    hide RowsWith, RowsWithout, Height;
    if n > 0 { RoundsKeepSettings(Fire(s), n - 1); }
  }

  ghost predicate Takes(s: State, s': State, step: Step) { Enabled(s, step) && s' == Apply(s, step) }

  ghost predicate IsRun(run: seq<State>, steps: seq<Step>) {
    |run| == |steps| + 1 && forall i :: 0 <= i < |steps| ==> Takes(run[i], run[i + 1], steps[i])
  }

  /** No timer is active, and every one is set to a time it may be started with. */
  ghost predicate Starts(s: State) {
    && s.rows != [] && (forall r :: 0 <= r < |s.rows| ==> s.rows[r] == [])
    && forall a :: 0 <= a < |s.timers| ==> Quiet(s.timers[a])
  }

  predicate Quiet(a: Timer) { !a.active && a.stamp == 0 && a.init < HALF && (a.periodic ==> a.init > 0) }

  /** Over every run, with any number of levels and past any number of wrap-arounds, the rows are in order
      of deadline and start, each one part of the next, and the last one holds the active timers. */
  lemma {:induction false} RunInv(run: seq<State>, steps: seq<Step>, i: nat)
    requires IsRun(run, steps) && i < |run| && Starts(run[0])
    ensures RunOk(run[i])
    decreases i
  {
    hide RunOk, Apply;
    if i == 0 {
      StartsOk(run[0]);
    } else {
      RunInv(run, steps, i - 1);
      assert Takes(run[i - 1], run[i], steps[i - 1]);
      StepOk(run[i - 1], steps[i - 1]);
    }
  }

  lemma StepOk(s: State, step: Step)
    requires RunOk(s) && Enabled(s, step)
    ensures RunOk(Apply(s, step))
  {
    hide RunOk;
    match step
    case DoStart(t) => StartOk(s, t);
    case DoStop(t) => StopOk(s, t);
    case DoControl(t, time, periodic) => ControlOk(s, step);
    case DoTick => TickOk(s);
  }

  lemma StartsOk(s: State)
    requires Starts(s)
    ensures RunOk(s)
  {
    forall a | 0 <= a < |s.timers| ensures TimerOk(s, a) && SettingOk(s, s.timers[a]) { assert Quiet(s.timers[a]); }
  }

  /** The source lets rt_timer_control set the period to 0.  In whatever state of whatever run that is done and the
      timer started, the check at the next tick does not end. */
  lemma ZeroPeriodNeverEnds(run: seq<State>, steps: seq<Step>, i: nat, t: int, n: nat)
    requires IsRun(run, steps) && i < |run| && Starts(run[0]) && 0 <= t < |run[i].timers|
    requires forall a :: 0 <= a < |run[i].timers| ==> run[i].timers[a].init + 1 < HALF
    ensures var s := run[i];
            var s1 := Started(s.(timers := s.timers[t := s.timers[t].(init := 0, periodic := true)]), t);
            Fires(FireTimes(s1.(now := s.now + 1), n))
  {
    hide Inv, Height, RowsWith, RowsWithout, FireTimes, Fires;
    RunInv(run, steps, i);
    var s := run[i];
    var s0 := s.(timers := s.timers[t := s.timers[t].(init := 0, periodic := true)]);
    SetInv(s, s0);
    forall a | 0 <= a < |s0.timers| && s0.timers[a].active && a != t ensures Close(s0.timers[a].due, s0.now) {
      assert SettingOk(s, s.timers[a]);
    }
    StartedInv(s0, t);
    var s1 := Started(s0, t);
    var s2 := s1.(now := s.now + 1);
    NowInv(s1, s2);
    forall a | 0 <= a < |s2.timers| && s2.timers[a].active ensures InNarrow(s2, s.now, s2.timers[a]) {
      assert SettingOk(s, s.timers[a]);
    }
    RestlessForever(s2, s.now, t, n);
  }

  /** The settings of the timers are not part of the invariant of the rows. */
  lemma SetInv(s: State, s': State)
    requires Inv(s) && s' == s.(timers := s'.timers) && |s'.timers| == |s.timers|
    requires forall a :: 0 <= a < |s.timers| ==>
               s'.timers[a] == s.timers[a].(init := s'.timers[a].init, periodic := s'.timers[a].periodic)
    ensures Inv(s')
  {
    forall r | 0 <= r < |s'.rows| ensures RowOk(s', r) && RowBelow(s', r) {
      assert RowOk(s, r) && RowBelow(s, r);
      OrderedFrame(s.rows[r], s.timers, s'.timers);
    }
    forall a | 0 <= a < |s'.timers| ensures TimerOk(s', a) { assert TimerOk(s, a); }
  }

  // ----- what the calls do

  /** rt_timer_stop is refused exactly for a timer that is not active, and then changes nothing.  A stopped timer is not
      active and in no row; no other timer changes, and the rest of the rows stays in order. */
  lemma StopStops(s: State, t: int)
    requires Inv(s) && 0 <= t < |s.timers|
    ensures var (s', ok) := Stopped(s, t);
            && (ok <==> s.timers[t].active) && (!ok ==> s' == s)
            && (ok ==> && s'.now == s.now && |s'.rows| == |s.rows| && |s'.timers| == |s.timers|
                       && !s'.timers[t].active
                       && (forall a :: 0 <= a < |s.timers| && a != t ==> s'.timers[a] == s.timers[a])
                       && forall r :: 0 <= r < |s.rows| ==> t !in s'.rows[r] && s'.rows[r] == Drop(s.rows[r], t))
  {
    hide Drop, Distinct;
    forall r | 0 <= r < |s.rows| ensures t !in Drop(s.rows[r], t) {
      assert RowOk(s, r);
      OrderedDistinct(s.timers, s.rows[r]);
      DropKeeps(s.rows[r], t);
    }
  }

  /** A started timer is active and due its time from now; it is in the last row, and no other timer changes. */
  lemma StartSets(s: State, t: int)
    requires Inv(s) && 0 <= t < |s.timers| && CanStart(s, t)
    ensures var s' := Started(s, t);
            && s'.now == s.now && |s'.timers| == |s.timers|
            && s'.timers[t].active && s'.timers[t].due == s.now + s.timers[t].init
            && s'.timers[t].init == s.timers[t].init && s'.timers[t].periodic == s.timers[t].periodic
            && (forall a :: 0 <= a < |s.timers| && a != t ==> s'.timers[a] == s.timers[a])
            && forall x :: x in Bottom(s') <==> x in Bottom(s) || x == t
  {
    hide RowsWith, RowsWithout, Height, Inv;
    StartedInv(s, t);
  }

  /** rt_timer_control sets the time and the kind of a timer and nothing else; a deadline under way stays. */
  lemma ControlSets(s: State, t: int, time: nat, periodic: bool)
    requires Enabled(s, DoControl(t, time, periodic))
    ensures var s', a := Apply(s, DoControl(t, time, periodic)), s.timers[t];
            && s' == s.(timers := s'.timers) && |s'.timers| == |s.timers|
            && s'.timers[t] == Timer(a.due, a.stamp, time, periodic, a.active)
            && forall b :: 0 <= b < |s.timers| && b != t ==> s'.timers[b] == s.timers[b]
  {
  }

  /** A tick fires exactly the active timers whose deadline it reaches: a one-shot timer is then not active, a periodic
      one is due again its period from now.  All others are as they were. */
  lemma TickFires(s: State, t: int)
    requires RunOk(s) && 0 <= t < |s.timers|
    ensures var s', a := Ticked(s), s.timers[t];
            && s'.now == s.now + 1 && |s'.timers| == |s.timers|
            && if a.active && a.due <= s'.now then
                 s'.timers[t].active == a.periodic && (a.periodic ==> s'.timers[t].due == s'.now + a.init)
               else s'.timers[t] == a
  {
    hide Inv, Window, FireTimes, DueFirst, Fires, Ordered, Distinct;
    TickWindow(s);
    var s1 := s.(now := s.now + 1);
    CheckFiresDue(s1, s.now);
    var k := DueFirst(Bottom(s1), s1.timers, s1.now);
    RoundsFireInOrder(s1, s.now, k);
    RoundsKeepNow(s1, k);
    assert Survives(s1, Bottom(s1)[..k], Ticked(s), t);
  }

  lemma {:induction false} RoundsKeepNow(s: State, n: nat)
    ensures FireTimes(s, n).now == s.now
    decreases n
  {
    hide RowsWith, RowsWithout, Height;
    if n > 0 { RoundsKeepNow(Fire(s), n - 1); }
  }

  /** No step from a to b is about timer t. */
  ghost predicate LeftAlone(steps: seq<Step>, a: nat, b: nat, t: int) {
    b <= |steps| && forall n :: a <= n < b ==> steps[n].DoTick? || steps[n].t != t
  }

  /** Over every run: a one-shot timer that is started and left alone is active until the tick that reaches its
      deadline, its time after the start and at least one tick later, and from that tick on it is not. */
  lemma {:induction false} OneShotOnTime(run: seq<State>, steps: seq<Step>, i: nat, k: nat, t: int)
    requires IsRun(run, steps) && Starts(run[0]) && i < k < |run|
    requires steps[i] == DoStart(t) && LeftAlone(steps, i + 1, k, t)
    requires 0 <= t < |run[i].timers| && !run[i].timers[t].periodic
    ensures var from, d := run[i].now, run[i].timers[t].init;
            && 0 <= t < |run[k].timers| && !run[k].timers[t].periodic && run[k].now >= from
            && (run[k].timers[t].active <==> run[k].now < from + if d == 0 then 1 else d)
            && (run[k].timers[t].active ==> run[k].timers[t].due == from + d)
    decreases k
  {
    hide Inv, RowsWith, RowsWithout, Height, Ticked;
    var s, step := run[k - 1], steps[k - 1];
    RunInv(run, steps, k - 1);
    assert Takes(s, run[k], step);
    if k > i + 1 {
      OneShotOnTime(run, steps, i, k - 1, t);
      if step.DoTick? {
        TickFires(s, t);
        TickKeepsSetting(s, t);
      }
    }
  }

  lemma TickKeepsSetting(s: State, t: int)
    requires 0 <= t < |s.timers|
    ensures |Ticked(s).timers| == |s.timers| && Ticked(s).timers[t].periodic == s.timers[t].periodic
  {
    hide FireTimes, DueFirst;
    var s1 := s.(now := s.now + 1);
    RoundsKeepSettings(s1, DueFirst(Bottom(s1), s1.timers, s1.now));
  }

  // ----- rows as subsequences

  /** `a` is `b` with some elements left out. */
  ghost predicate Subseq(a: seq<int>, b: seq<int>) {
    a == [] || (b != [] && if a[0] == b[0] then Subseq(a[1..], b[1..]) else Subseq(a, b[1..]))
  }

  lemma {:induction false} OrderedSubseq(ts: seq<Timer>, a: seq<int>, b: seq<int>)
    requires Ordered(ts, a) && Ordered(ts, b) && forall x :: x in a ==> x in b
    ensures Subseq(a, b)
    decreases |b|
  {
    if a != [] {
      assert a[0] in a;
      OrderedTail(ts, b);
      if a[0] == b[0] {
        OrderedTail(ts, a);
        forall x | x in a[1..] ensures x in b[1..] { assert x in a; }
        OrderedSubseq(ts, a[1..], b[1..]);
      } else {
        forall x | x in a ensures x in b[1..] {
          if x == b[0] { FirstIsFirst(ts, a, b); }
        }
        OrderedSubseq(ts, a, b[1..]);
      }
    }
  }

  /** A later element of a cannot be the first of b when a's first is in b. */
  lemma FirstIsFirst(ts: seq<Timer>, a: seq<int>, b: seq<int>)
    requires Ordered(ts, a) && Ordered(ts, b) && a != [] && b != [] && a[0] != b[0] && a[0] in b
    ensures b[0] !in a
  {
    var j :| 0 <= j < |b| && b[j] == a[0];
    assert Before(ts, b[0], b[j]);
    forall i | 0 <= i < |a| ensures a[i] != b[0] {
      if i > 0 { assert Before(ts, a[0], a[i]); }
    }
  }

  lemma OrderedTail(ts: seq<Timer>, row: seq<int>)
    requires Ordered(ts, row) && row != []
    ensures Ordered(ts, row[1..]) && row[0] !in row[1..] && forall x :: x in row <==> x == row[0] || x in row[1..]
  {
    OrderedDistinct(ts, row);
    DistinctTail(row);
    var r := row[1..];
    forall i, j | 0 <= i < j < |r| ensures Before(ts, r[i], r[j]) { assert Before(ts, row[i + 1], row[j + 1]); }
  }

  lemma UpperRowsAreSubseqs(s: State, r: int)
    requires Inv(s) && 0 <= r < |s.rows| - 1
    ensures Subseq(s.rows[r], s.rows[r + 1])
  {
    assert RowOk(s, r) && RowOk(s, r + 1) && RowBelow(s, r);
    OrderedSubseq(s.timers, s.rows[r], s.rows[r + 1]);
  }
}
