/** The smart power switch (sps.c) and the targets it switches (target.c).

    Each body of a handler is one step.  The host is anyone: it may send any command at any time.  A line
    is what concerns one target: what the switch believes and counts, the two mailboxes to the target, and
    the target itself.  `wanted`, `sends` and `quiet` only record what happened. */
module Sps {
  import opened Ring

  const NUM_TARGETS: int := 4
  const PONG_COUNT: int := 3
  /** Sizes of the mailboxes. */
  const ACK_SIZE: int := 4
  const LINE_SIZE: int := 1
  const IRQ_SIZE: int := 4

  datatype Status = OFF | ON | FROZEN

  /** A gpio mail that was sent, and whether the mailbox had room. */
  datatype Attempt = Attempt(value: int, ok: bool)

  datatype Line = Line(known: Status, pong: nat, ping: seq<int>, gpio: seq<int>, status: Status,
                       wanted: bool, sends: seq<Attempt>, quiet: nat)

  datatype State = State(lines: seq<Line>, ack: seq<int>)

  function Bit(b: bool): int { if b then 1 else 0 }

  /** rt_mb_send without waiting. */
  function Post(box: seq<int>, size: int, v: int): seq<int> { if |box| < size then box + [v] else box }

  // ----- irq_in_handler

  /** What a command does to one line: nothing if it asks for what is believed, else a gpio mail. */
  function CommandLine(l: Line, on: bool): Line {
    if on == (l.known != OFF) then l.(wanted := on)
    else l.(wanted := on, known := if on then ON else OFF, gpio := Post(l.gpio, LINE_SIZE, Bit(on)),
            sends := l.sends + [Attempt(Bit(on), |l.gpio| < LINE_SIZE)])
  }

  function Command(s: State, mask: seq<bool>): State
    requires |mask| == |s.lines|
  {
    s.(lines := seq(|s.lines|, i requires 0 <= i < |s.lines| => CommandLine(s.lines[i], mask[i])))
  }

  // ----- ping_thread

  function PingLine(l: Line): Line {
    if l.known != ON then l else l.(pong := l.pong + 1, quiet := l.quiet + 1, ping := Post(l.ping, LINE_SIZE, 1))
  }

  /** An answer was read. */
  function AckLine(l: Line, read: bool): Line { if read then l.(pong := 0, quiet := 0) else l }

  function JudgeLine(l: Line): Line {
    if l.known != ON || l.pong < PONG_COUNT then l else l.(pong := 0, known := FROZEN)
  }

  function RoundLine(l: Line, read: bool): Line { JudgeLine(AckLine(PingLine(l), read)) }

  /** One run of the ping thread: it reads all answers there are. */
  function Round(s: State): State {
    s.(lines := seq(|s.lines|, i requires 0 <= i < |s.lines| => RoundLine(s.lines[i], i in s.ack)), ack := [])
  }

  // ----- simulation_thread_entry

  /** The target answers a ping if it is on. */
  function Answers(l: Line): bool { l.ping != [] && l.ping[0] == 1 && l.status == ON }

  function NextStatus(l: Line, freeze: bool): Status {
    match l.status
    case ON => if l.gpio != [] && l.gpio[0] == 0 then OFF else if freeze then FROZEN else ON
    case OFF => if l.gpio != [] && l.gpio[0] == 1 then ON else OFF
    case FROZEN => if l.gpio != [] && l.gpio[0] == 0 then OFF else FROZEN
  }

  function Rest(box: seq<int>): seq<int> { if box == [] then [] else box[1..] }

  function SimLine(l: Line, freeze: bool): Line {
    l.(ping := Rest(l.ping), gpio := Rest(l.gpio), status := NextStatus(l, freeze))
  }

  function Sim(s: State, i: int, freeze: bool): State
    requires 0 <= i < |s.lines|
  {
    State(s.lines[i := SimLine(s.lines[i], freeze)], if Answers(s.lines[i]) then Post(s.ack, ACK_SIZE, i) else s.ack)
  }

  function InitLine(): Line { Line(OFF, 0, [], [], OFF, false, [], 0) }
  function Init(): State { State(seq(NUM_TARGETS, _ => InitLine()), []) }

  // ----- the invariant of a line

  /** How many sends in a row, up to the last one, were rejected. */
  function Rejected(sends: seq<Attempt>): nat {
    if sends == [] || sends[|sends| - 1].ok then 0 else 1 + Rejected(sends[..|sends| - 1])
  }

  /** The power of the target once it has read its mailbox. */
  predicate Heading(l: Line) { if l.gpio != [] then l.gpio[0] == 1 else l.status != OFF }

  ghost predicate Alternate(sends: seq<Attempt>) {
    forall k :: 0 <= k < |sends| ==> sends[k].value == Bit(k % 2 == 0)
  }

  ghost predicate LineOk(l: Line) {
    && l.pong < PONG_COUNT && l.pong <= l.quiet
    && |l.ping| <= LINE_SIZE && (l.ping != [] ==> l.ping[0] == 1)
    && |l.gpio| <= LINE_SIZE && (l.gpio != [] ==> l.gpio[0] == 0 || l.gpio[0] == 1)
    && (l.known != OFF <==> l.wanted)
    && Alternate(l.sends) && (|l.sends| % 2 == 1 <==> l.known != OFF)
    && (Heading(l) == (l.known != OFF) <==> Rejected(l.sends) % 2 == 0)
  }

  lemma CommandLineOk(l: Line, on: bool)
    requires LineOk(l)
    ensures LineOk(CommandLine(l, on)) && CommandLine(l, on).wanted == on
  {
    hide Alternate, Rejected;
    if on != (l.known != OFF) { OneMoreSend(l.sends, on, |l.gpio| < LINE_SIZE); }
  }

  lemma OneMoreSend(sends: seq<Attempt>, on: bool, ok: bool)
    requires Alternate(sends) && (|sends| % 2 == 0 <==> on)
    ensures var sends' := sends + [Attempt(Bit(on), ok)];
            Alternate(sends') && Rejected(sends') == if ok then 0 else 1 + Rejected(sends)
  {
    var sends' := sends + [Attempt(Bit(on), ok)];
    assert sends'[..|sends'| - 1] == sends;
  }

  lemma RoundLineOk(l: Line, read: bool)
    requires LineOk(l)
    ensures LineOk(RoundLine(l, read)) && RoundLine(l, read).wanted == l.wanted
  {
  }

  lemma SimLineOk(l: Line, freeze: bool)
    requires LineOk(l)
    ensures LineOk(SimLine(l, freeze)) && SimLine(l, freeze).wanted == l.wanted
  {
  }

  // ----- the invariant

  /** Each target has at most one ping or answer under way. */
  ghost predicate AckOk(s: State) {
    Distinct(s.ack) && forall i :: i in s.ack ==> 0 <= i < |s.lines| && s.lines[i].ping == []
  }

  ghost predicate Inv(s: State) {
    && |s.lines| == NUM_TARGETS
    && (forall i :: 0 <= i < |s.lines| ==> LineOk(s.lines[i]))
    && AckOk(s)
  }

  /** There is always room for an answer. */
  lemma AckHasRoom(s: State, i: int)
    requires Inv(s) && 0 <= i < |s.lines| && s.lines[i].ping != []
    ensures |s.ack| < ACK_SIZE && i !in s.ack
  {
    AtMost([i] + s.ack, NUM_TARGETS);
  }

  lemma {:induction false} AtMost(list: seq<int>, n: nat)
    requires Distinct(list) && forall i :: i in list ==> 0 <= i < n
    ensures |list| <= n
  {
    if list != [] {
      assert list[0] in list;
      DropKeeps(list, n - 1);
      AtMost(Drop(list, n - 1), n - 1);
    }
  }

  lemma CommandInv(s: State, mask: seq<bool>)
    requires Inv(s) && |mask| == |s.lines|
    ensures Inv(Command(s, mask)) && forall i :: 0 <= i < |s.lines| ==> Command(s, mask).lines[i].wanted == mask[i]
  {
    hide LineOk;
    forall i | 0 <= i < |s.lines|
      ensures LineOk(Command(s, mask).lines[i]) && Command(s, mask).lines[i].wanted == mask[i]
    {
      CommandLineOk(s.lines[i], mask[i]);
    }
  }

  lemma RoundInv(s: State)
    requires Inv(s)
    ensures Inv(Round(s))
  {
    hide LineOk;
    forall i | 0 <= i < |s.lines| ensures LineOk(Round(s).lines[i]) { RoundLineOk(s.lines[i], i in s.ack); }
  }

  lemma SimInv(s: State, i: int, freeze: bool)
    requires Inv(s) && 0 <= i < |s.lines|
    ensures Inv(Sim(s, i, freeze))
    ensures Answers(s.lines[i]) ==> Sim(s, i, freeze).ack == s.ack + [i]
  {
    hide LineOk;
    SimLineOk(s.lines[i], freeze);
    if s.lines[i].ping != [] { AckHasRoom(s, i); }
    assert |s.lines[i].ping| <= 1 by { PingAtMostOne(s.lines[i]); }
  }

  lemma PingAtMostOne(l: Line)
    requires LineOk(l)
    ensures |l.ping| <= 1
  {
  }

  // ----- every run

  datatype Step = DoCommand(mask: seq<bool>) | DoRound | DoSim(i: int, freeze: bool)

  ghost predicate Takes(s: State, s': State, step: Step) {
    match step
    case DoCommand(mask) => |mask| == |s.lines| && s' == Command(s, mask)
    case DoRound => s' == Round(s)
    case DoSim(i, freeze) => 0 <= i < |s.lines| && s' == Sim(s, i, freeze)
  }

  ghost predicate IsRun(run: seq<State>, steps: seq<Step>) {
    |run| == |steps| + 1 && forall i :: 0 <= i < |steps| ==> Takes(run[i], run[i + 1], steps[i])
  }

  lemma StepInv(s: State, s': State, step: Step)
    requires Inv(s) && Takes(s, s', step)
    ensures Inv(s')
  {
    match step
    case DoCommand(mask) => CommandInv(s, mask);
    case DoRound => RoundInv(s);
    case DoSim(i, freeze) => SimInv(s, i, freeze);
  }

  lemma {:induction false} RunInv(run: seq<State>, steps: seq<Step>, k: nat)
    requires IsRun(run, steps) && k < |run| && run[0] == Init()
    ensures Inv(run[k])
    decreases k
  {
    hide Inv;
    if k == 0 {
      assert Inv(Init()) by { InitOk(); }
    } else {
      RunInv(run, steps, k - 1);
      assert Takes(run[k - 1], run[k], steps[k - 1]);
      StepInv(run[k - 1], run[k], steps[k - 1]);
    }
  }

  lemma InitOk()
    ensures Inv(Init())
  {
  }

  /** The last command that was carried out, up to step k; all off before the first. */
  ghost function LastMask(steps: seq<Step>, k: nat): seq<bool>
    requires k <= |steps|
  {
    if k == 0 then seq(NUM_TARGETS, _ => false)
    else if steps[k - 1].DoCommand? then steps[k - 1].mask
    else LastMask(steps, k - 1)
  }

  /** Whatever the targets do, the switch takes for on, or frozen, exactly those of the last command. */
  lemma {:induction false} KnownIsLastCommand(run: seq<State>, steps: seq<Step>, k: nat)
    requires IsRun(run, steps) && k < |run| && run[0] == Init()
    ensures |LastMask(steps, k)| == |run[k].lines| == NUM_TARGETS
    ensures forall i :: 0 <= i < NUM_TARGETS ==> (run[k].lines[i].known != OFF <==> LastMask(steps, k)[i])
    decreases k
  {
    hide Inv, LineOk;
    RunInv(run, steps, k);
    KnownIsWanted(run[k]);
    if k == 0 {
      KnownIsWanted(Init());
    } else {
      KnownIsLastCommand(run, steps, k - 1);
      RunInv(run, steps, k - 1);
      KnownIsWanted(run[k - 1]);
      assert Takes(run[k - 1], run[k], steps[k - 1]);
      WantedStep(run[k - 1], run[k], steps[k - 1]);
    }
  }

  lemma KnownIsWanted(s: State)
    requires Inv(s)
    ensures |s.lines| == NUM_TARGETS
    ensures forall i :: 0 <= i < NUM_TARGETS ==> (s.lines[i].known != OFF <==> s.lines[i].wanted)
  {
    forall i | 0 <= i < NUM_TARGETS ensures s.lines[i].known != OFF <==> s.lines[i].wanted {
      assert LineOk(s.lines[i]);
    }
  }

  lemma WantedStep(s: State, s': State, step: Step)
    requires Takes(s, s', step)
    ensures |s'.lines| == |s.lines|
    ensures forall i :: 0 <= i < |s.lines| ==>
            s'.lines[i].wanted == if step.DoCommand? then step.mask[i] else s.lines[i].wanted
  {
  }

  /** The gpio mails to each target, whether they get through or not, are 1, 0, 1 and so on. */
  lemma SendsAlternate(run: seq<State>, steps: seq<Step>, k: nat, i: int)
    requires IsRun(run, steps) && k < |run| && run[0] == Init() && 0 <= i < NUM_TARGETS
    ensures |run[k].lines| == NUM_TARGETS && Alternate(run[k].lines[i].sends)
  {
    RunInv(run, steps, k);
    assert LineOk(run[k].lines[i]);
  }

  /** A target whose mailbox is empty is powered as the switch believes exactly if the sends rejected since
      the last one that got through are even in number. */
  lemma PoweredAsKnownIff(s: State, i: int)
    requires Inv(s) && 0 <= i < NUM_TARGETS && s.lines[i].gpio == []
    ensures var l := s.lines[i]; (l.status != OFF <==> l.known != OFF) <==> Rejected(l.sends) % 2 == 0
  {
    assert LineOk(s.lines[i]);
  }

  /** In particular if none was ever rejected. */
  lemma PoweredAsKnown(s: State, i: int)
    requires Inv(s) && 0 <= i < NUM_TARGETS && s.lines[i].gpio == []
    requires forall k :: 0 <= k < |s.lines[i].sends| ==> s.lines[i].sends[k].ok
    ensures s.lines[i].status != OFF <==> s.lines[i].known != OFF
  {
    PoweredAsKnownIff(s, i);
  }

  /** On and off again before the target looks: the second mail is lost, and the target stays on for a
      switch that takes it for off. */
  lemma LostMailMisleads()
    ensures var l0 := InitLine();
            var l := SimLine(CommandLine(CommandLine(l0, true), false), false);
            l.gpio == [] && l.known == OFF && l.status == ON
  {
  }

  // ----- frozen targets

  /** Being marked frozen takes three pings at least since the last answer that was read. */
  lemma FrozenAfterThreePings(s: State, i: int)
    requires Inv(s) && 0 <= i < |s.lines| && s.lines[i].known != FROZEN && Round(s).lines[i].known == FROZEN
    ensures Round(s).lines[i].quiet >= PONG_COUNT && i !in s.ack
  {
    assert LineOk(s.lines[i]);
  }

  /** From its first step, which switches target i on, the switch keeps it on, and the last step marks it frozen. */
  ghost predicate MarksFrozen(run: seq<State>, steps: seq<Step>, i: int) {
    && IsRun(run, steps) && |steps| >= 2 && steps[0].DoCommand?
    && (forall n :: 0 < n < |steps| ==> KeepsOn(run[n], i))
    && 0 <= i < |run[|steps|].lines| && run[|steps|].lines[i].known == FROZEN
  }

  ghost predicate KeepsOn(s: State, i: int) { 0 <= i < |s.lines| && s.lines[i].known == ON }

  /** Before a target that was just switched on is marked frozen, at least three pings are sent to it. */
  ghost predicate Patient(s: State, i: int) {
    forall run, steps :: MarksFrozen(run, steps, i) && run[0] == s ==> Rounds(steps, 1, |steps|) >= PONG_COUNT
  }

  /** The count is not cleared when a target is switched off.  So there are three pings after it is switched on
      exactly if the count is 0 then, or an answer is still to be read that will clear it. */
  lemma PatientIff(s: State, i: int)
    requires Inv(s) && 0 <= i < |s.lines| && s.lines[i].known == OFF
    ensures Patient(s, i) <==> s.lines[i].pong == 0 || i in s.ack
  {
    if s.lines[i].pong == 0 || i in s.ack {
      forall run, steps | MarksFrozen(run, steps, i) && run[0] == s ensures Rounds(steps, 1, |steps|) >= PONG_COUNT {
        CountsUp(run, steps, i, |steps| - 1);
        LastPing(run, steps, i);
      }
    } else {
      var (run, steps) := Hasty(s, i);
      HastyMarks(s, i);
      assert MarksFrozen(run, steps, i) && run[0] == s;
    }
  }

  /** The count is at most the pings sent since, unless an answer to an older one is still to be read. */
  ghost predicate Counted(s: State, i: int, r: nat)
    requires 0 <= i < |s.lines|
  {
    s.lines[i].pong <= r || (r == 0 && i in s.ack)
  }

  lemma CountedStep(s: State, s': State, step: Step, i: int, r: nat)
    requires Inv(s) && Takes(s, s', step) && 0 <= i < |s.lines| && Counted(s, i, r)
    requires !step.DoRound? || s.lines[i].known == ON
    ensures |s'.lines| == |s.lines| && Counted(s', i, if step.DoRound? then r + 1 else r)
  {
    hide Alternate, Rejected;
    assert LineOk(s.lines[i]);
    match step
    case DoCommand(mask) => assert s'.lines[i] == CommandLine(s.lines[i], mask[i]);
    case DoRound =>
    case DoSim(n, freeze) =>
  }

  lemma {:induction false} CountsUp(run: seq<State>, steps: seq<Step>, i: int, k: nat)
    requires MarksFrozen(run, steps, i) && Inv(run[0]) && 0 < k < |steps| && i < |run[0].lines| && Counted(run[0], i, 0)
    ensures Inv(run[k]) && Counted(run[k], i, Rounds(steps, 1, k))
    decreases k
  {
    hide Inv, Counted, Takes;
    if k > 1 { CountsUp(run, steps, i, k - 1); }
    LinesOf(run[k - 1]);
    assert Takes(run[k - 1], run[k], steps[k - 1]);
    assert k > 1 ==> KeepsOn(run[k - 1], i);
    StepInv(run[k - 1], run[k], steps[k - 1]);
    LinesOf(run[k]);
    CountedStep(run[k - 1], run[k], steps[k - 1], i, if k == 1 then 0 else Rounds(steps, 1, k - 1));
  }

  lemma LinesOf(s: State)
    requires Inv(s)
    ensures |s.lines| == NUM_TARGETS
  {
  }

  lemma LastPing(run: seq<State>, steps: seq<Step>, i: int)
    requires MarksFrozen(run, steps, i)
    requires var k := |steps| - 1; Inv(run[k]) && |run[k].lines| > i && Counted(run[k], i, Rounds(steps, 1, k))
    ensures Rounds(steps, 1, |steps|) >= PONG_COUNT
  {
    hide Alternate, Rejected;
    var k := |steps| - 1;
    assert Takes(run[k], run[k + 1], steps[k]) && KeepsOn(run[k], i);
    var l := run[k].lines[i];
    assert LineOk(l);
    match steps[k]
    case DoRound => assert run[k + 1].lines[i] == RoundLine(l, i in run[k].ack);
    case _ =>
  }

  /** The shortest way: switch the target on and ping it until the count is full. */
  ghost function Hasty(s: State, i: int): (seq<State>, seq<Step>)
    requires Inv(s) && 0 <= i < |s.lines| && 0 < s.lines[i].pong
  {
    var mask := seq(|s.lines|, n requires 0 <= n < |s.lines| => n == i || s.lines[n].known != OFF);
    var s1 := Command(s, mask);
    if s.lines[i].pong == 2 then ([s, s1, Round(s1)], [DoCommand(mask), DoRound])
    else ([s, s1, Round(s1), Round(Round(s1))], [DoCommand(mask), DoRound, DoRound])
  }

  lemma HastyMarks(s: State, i: int)
    requires Inv(s) && 0 <= i < |s.lines| && 0 < s.lines[i].pong && s.lines[i].known == OFF && i !in s.ack
    ensures var (run, steps) := Hasty(s, i); MarksFrozen(run, steps, i) && Rounds(steps, 1, |steps|) < PONG_COUNT
  {
    hide LineOk, CommandLine, RoundLine, Command, Round, Takes, Rounds, AckOk;
    var (run, steps) := Hasty(s, i);
    HastyLine(s.lines[i]);
    HastyLines(s, i);
    RoundsOf(steps);
  }

  lemma RoundsOf(steps: seq<Step>)
    requires 2 <= |steps| <= 3
    ensures Rounds(steps, 1, |steps|) < PONG_COUNT
  {
    assert Rounds(steps, 1, 2) <= Rounds(steps, 1, 1) + 1;
    assert |steps| == 3 ==> Rounds(steps, 1, 3) <= Rounds(steps, 1, 2) + 1;
  }

  lemma HastyLines(s: State, i: int)
    requires Inv(s) && 0 <= i < |s.lines| && 0 < s.lines[i].pong && i !in s.ack
    ensures var (run, steps) := Hasty(s, i);
            var l1 := CommandLine(s.lines[i], true);
            && Takes(run[0], run[1], steps[0]) && Takes(run[1], run[2], steps[1])
            && |run[1].lines| == |run[2].lines| == |s.lines| && run[1].lines[i] == l1
            && run[2].lines[i] == RoundLine(l1, false)
            && (|run| == 4 ==> Takes(run[2], run[3], steps[2]) && |run[3].lines| == |s.lines|)
            && (|run| == 4 ==> run[3].lines[i] == RoundLine(RoundLine(l1, false), false))
  {
    hide CommandLine, RoundLine, LineOk, AckOk;
  }

  lemma HastyLine(l: Line)
    requires LineOk(l) && 0 < l.pong && l.known == OFF
    ensures var l1 := CommandLine(l, true);
            && l.pong <= 2 && l1.known == ON && (l.pong == 2 ==> RoundLine(l1, false).known == FROZEN)
            && (l.pong == 1 ==>
                RoundLine(l1, false).known == ON && RoundLine(RoundLine(l1, false), false).known == FROZEN)
  {
    hide Alternate, Rejected;
  }

  /** From step j to step k the target is not on and the switch is not told to turn it off. */
  ghost predicate Down(run: seq<State>, steps: seq<Step>, i: int, j: nat, k: nat)
    requires IsRun(run, steps)
  {
    j <= k < |run| && forall n :: j <= n < k ==> DownAt(run[n], steps[n], i)
  }

  ghost predicate DownAt(s: State, step: Step, i: int) {
    && 0 <= i < |s.lines| && s.lines[i].status != ON
    && (step.DoCommand? && i < |step.mask| ==> step.mask[i])
  }

  ghost function Rounds(steps: seq<Step>, j: nat, k: nat): nat
    requires j <= k <= |steps|
  {
    if j == k then 0 else Rounds(steps, j, k - 1) + if steps[k - 1].DoRound? then 1 else 0
  }

  /** What is known of the line after r rounds. */
  ghost predicate Fading(s: State, i: int, r: nat)
    requires 0 <= i < |s.lines|
  {
    var l := s.lines[i];
    l.known == FROZEN || (l.known == ON && (r > 0 ==> i !in s.ack && l.pong + 1 >= r))
  }

  lemma FadingStep(s: State, s': State, step: Step, i: int, r: nat)
    requires Inv(s) && Takes(s, s', step) && DownAt(s, step, i) && Fading(s, i, r)
    ensures |s'.lines| == |s.lines| && Fading(s', i, if step.DoRound? then r + 1 else r)
  {
    assert LineOk(s.lines[i]);
    match step
    case DoCommand(mask) => assert s'.lines[i] == CommandLine(s.lines[i], mask[i]);
    case DoRound =>
    case DoSim(n, freeze) =>
  }

  lemma {:induction false} FadingRun(run: seq<State>, steps: seq<Step>, i: int, j: nat, k: nat)
    requires IsRun(run, steps) && run[0] == Init() && Down(run, steps, i, j, k) && 0 <= i < NUM_TARGETS
    requires |run[j].lines| == NUM_TARGETS && run[j].lines[i].known == ON
    ensures |run[k].lines| == NUM_TARGETS && Fading(run[k], i, Rounds(steps, j, k))
    decreases k
  {
    if k > j {
      FadingRun(run, steps, i, j, k - 1);
      RunInv(run, steps, k - 1);
      assert Takes(run[k - 1], run[k], steps[k - 1]);
      assert DownAt(run[k - 1], steps[k - 1], i);
      FadingStep(run[k - 1], run[k], steps[k - 1], i, Rounds(steps, j, k - 1));
    }
  }

  /** A target that is no longer on, while the switch keeps it on, is marked frozen within four rounds. */
  lemma FrozenWithinFourRounds(run: seq<State>, steps: seq<Step>, i: int, j: nat, k: nat)
    requires IsRun(run, steps) && run[0] == Init() && Down(run, steps, i, j, k) && 0 <= i < NUM_TARGETS
    requires |run[j].lines| == NUM_TARGETS && run[j].lines[i].known == ON && Rounds(steps, j, k) >= 4
    ensures |run[k].lines| == NUM_TARGETS && run[k].lines[i].known == FROZEN
  {
    FadingRun(run, steps, i, j, k);
    RunInv(run, steps, k);
    assert LineOk(run[k].lines[i]);
  }

  /** Target i has had its turn since the last round before step n, if there was one from step j on. */
  ghost function HadTurn(steps: seq<Step>, i: int, j: nat, n: nat): bool
    requires j <= n <= |steps|
    decreases n
  {
    n == j || (steps[n - 1].DoSim? && steps[n - 1].i == i) || (!steps[n - 1].DoRound? && HadTurn(steps, i, j, n - 1))
  }

  ghost predicate Answering(s: State, i: int, turn: bool) {
    && 0 <= i < |s.lines| && s.lines[i].known == ON && s.lines[i].pong <= 1
    && if turn then s.lines[i].pong == 0 || i in s.ack else s.lines[i].ping == [1] || i in s.ack
  }

  lemma AnsweringStep(s: State, s': State, step: Step, i: int, turn: bool)
    requires Inv(s) && Takes(s, s', step) && Answering(s, i, turn) && s.lines[i].status == ON
    requires step.DoRound? ==> turn
    requires step.DoCommand? && i < |step.mask| ==> step.mask[i]
    ensures Answering(s', i, (step.DoSim? && step.i == i) || (!step.DoRound? && turn))
  {
    hide Alternate, Rejected, Heading;
    var l := s.lines[i];
    assert LineOk(l);
    hide LineOk;
    match step
    case DoCommand(mask) => assert s'.lines[i] == CommandLine(l, mask[i]);
    case DoRound =>
      assert s'.lines[i] == RoundLine(l, i in s.ack);
      RoundAnswered(l, i in s.ack);
    case DoSim(n, freeze) =>
      SimInv(s, n, freeze);
      if n == i && l.ping != [] { assert l.ping == [1]; }
  }

  lemma RoundAnswered(l: Line, read: bool)
    requires l.known == ON && l.pong <= 1 && (l.pong == 0 || read) && (l.ping == [] || l.ping == [1])
    ensures var l' := RoundLine(l, read); l'.known == ON && l'.pong <= 1 && l'.ping == [1]
  {
  }

  /** A target that is kept on, is up and gets a turn between any two rounds is never marked frozen, if the switch
      started counting at 0. */
  lemma {:induction false} AnsweringStaysOn(run: seq<State>, steps: seq<Step>, i: int, j: nat, k: nat)
    requires IsRun(run, steps) && run[0] == Init() && j <= k < |run| && 0 <= i < NUM_TARGETS
    requires |run[j].lines| == NUM_TARGETS && run[j].lines[i].known == ON && run[j].lines[i].pong == 0
    requires forall n :: j <= n < k ==> UpAt(run[n], steps[n], i) && (steps[n].DoRound? ==> HadTurn(steps, i, j, n))
    ensures Answering(run[k], i, HadTurn(steps, i, j, k)) && run[k].lines[i].known == ON
    decreases k
  {
    hide Inv, Takes;
    if k > j {
      AnsweringStaysOn(run, steps, i, j, k - 1);
      RunInv(run, steps, k - 1);
      assert Takes(run[k - 1], run[k], steps[k - 1]) && UpAt(run[k - 1], steps[k - 1], i);
      AnsweringStep(run[k - 1], run[k], steps[k - 1], i, HadTurn(steps, i, j, k - 1));
    }
  }

  ghost predicate UpAt(s: State, step: Step, i: int) {
    && 0 <= i < |s.lines| && s.lines[i].status == ON
    && (step.DoCommand? && i < |step.mask| ==> step.mask[i])
  }

  /** A target is switched on, is pinged, answers and freezes, and three rounds pass. */
  function Slow(): seq<Step> {
    var on := [true, false, false, false];
    [DoCommand(on), DoSim(0, false), DoRound, DoSim(0, true), DoRound, DoRound, DoRound]
  }

  /** The line of target 0 and the answers after each of those steps. */
  function SlowLine(k: nat): (Line, seq<int>)
    requires k <= 7
  {
    var l := InitLine();
    var on := l.(known := ON, wanted := true, gpio := [1], sends := [Attempt(1, true)]);
    var up := on.(gpio := [], status := ON);
    var pinged := up.(pong := 1, quiet := 1, ping := [1]);
    var down := pinged.(ping := [], status := FROZEN);
    var again := down.(pong := 0, quiet := 0, ping := [1]);
    if k == 0 then (l, []) else if k == 1 then (on, []) else if k == 2 then (up, []) else if k == 3 then (pinged, [])
    else if k == 4 then (down, [0]) else if k == 5 then (again, [])
    else if k == 6 then (again.(pong := 1, quiet := 1), []) else (again.(pong := 2, quiet := 2), [])
  }

  /** Target 0 alone is used. */
  function Solo(la: (Line, seq<int>)): State { State([la.0, InitLine(), InitLine(), InitLine()], la.1) }

  ghost predicate SoloStep(la: (Line, seq<int>), la': (Line, seq<int>), step: Step) {
    match step
    case DoCommand(mask) =>
      |mask| == 4 && mask[1..] == [false, false, false] && la' == (CommandLine(la.0, mask[0]), la.1)
    case DoRound => (forall i :: i in la.1 ==> i == 0) && la' == (RoundLine(la.0, 0 in la.1), [])
    case DoSim(i, freeze) =>
      i == 0 && la' == (SimLine(la.0, freeze), if Answers(la.0) then Post(la.1, ACK_SIZE, 0) else la.1)
  }

  /** What the steps do to line 0 is all they do. */
  lemma SoloTakes(la: (Line, seq<int>), la': (Line, seq<int>), step: Step)
    requires SoloStep(la, la', step)
    ensures Takes(Solo(la), Solo(la'), step)
  {
    Unused();
    hide CommandLine, RoundLine, SimLine, Answers, InitLine;
    var s, s' := Solo(la), Solo(la');
    match step
    case DoCommand(mask) =>
      assert forall i :: 0 < i < 4 ==> mask[i] == mask[1..][i - 1];
      assert s'.lines == Command(s, mask).lines;
    case DoRound => assert s'.lines == Round(s).lines;
    case DoSim(i, freeze) => assert s'.lines == Sim(s, i, freeze).lines;
  }

  lemma Unused()
    ensures CommandLine(InitLine(), false) == InitLine() && RoundLine(InitLine(), false) == InitLine()
  {
  }

  lemma SmallBoxes()
    ensures Post([], LINE_SIZE, 1) == [1] && Post([1], LINE_SIZE, 1) == [1] && Post([], ACK_SIZE, 0) == [0]
    ensures Post([], LINE_SIZE, 0) == [0] && Rest([1]) == [] && Rest([0]) == [] && Rest([]) == []
    ensures [] + [Attempt(1, true)] == [Attempt(1, true)]
    ensures [Attempt(1, true)] + [Attempt(0, true)] == [Attempt(1, true), Attempt(0, true)]
    ensures var two := [Attempt(1, true), Attempt(0, true)];
            two + [Attempt(1, true)] == [Attempt(1, true), Attempt(0, true), Attempt(1, true)]
    ensures forall b :: [b, false, false, false][1..] == [false, false, false]
  {
  }

  lemma SlowSteps(k: nat)
    requires k < 7
    ensures SoloStep(SlowLine(k), SlowLine(k + 1), Slow()[k])
  {
    SmallBoxes();
    hide Post, Rest;
  }

  function SlowRun(): (run: seq<State>)
    ensures |run| == 8 && forall k :: 0 <= k < 8 ==> |run[k].lines| == NUM_TARGETS
  {
    seq(8, k requires 0 <= k < 8 => Solo(SlowLine(k)))
  }

  /** Three rounds need not do: in this run the target is down from step 4 on, its last answer is still in the mailbox,
      and three rounds later the switch still takes it for on. */
  lemma ThreeRoundsMayNotDo()
    ensures var run := SlowRun();
            && IsRun(run, Slow()) && run[0] == Init() && Down(run, Slow(), 0, 4, 7) && Rounds(Slow(), 4, 7) == 3
            && run[4].lines[0].known == ON && run[7].lines[0].known == ON
  {
    hide SlowLine, Takes, SoloStep;
    var run := SlowRun();
    forall k | 0 <= k < 7 ensures Takes(run[k], run[k + 1], Slow()[k]) {
      SlowSteps(k);
      SoloTakes(SlowLine(k), SlowLine(k + 1), Slow()[k]);
    }
    SlowEnds();
    forall n | 4 <= n < 7 ensures DownAt(run[n], Slow()[n], 0) { SlowIsDown(n); }
    assert run[0].lines == Init().lines;
    assert Rounds(Slow(), 4, 7) == Rounds(Slow(), 4, 6) + 1 && Rounds(Slow(), 4, 6) == Rounds(Slow(), 4, 5) + 1;
    assert Rounds(Slow(), 4, 5) == Rounds(Slow(), 4, 4) + 1;
  }

  lemma SlowEnds()
    ensures SlowLine(0) == (InitLine(), []) && SlowLine(4).0.known == ON && SlowLine(7).0.known == ON
  {
  }

  lemma SlowIsDown(n: nat)
    requires 4 <= n < 7
    ensures SlowLine(n).0.status != ON && Slow()[n].DoRound?
  {
  }

  /** A target is switched on, comes up and freezes, is pinged twice, switched off and on, and comes up again. */
  function Cycle(): seq<Step> {
    var on, off := [true, false, false, false], [false, false, false, false];
    [DoCommand(on), DoSim(0, false), DoSim(0, true), DoRound, DoRound, DoCommand(off), DoSim(0, false),
     DoCommand(on), DoSim(0, false), DoRound]
  }

  function CycleLine(k: nat): (Line, seq<int>)
    requires k <= 10
  {
    var on := InitLine().(known := ON, wanted := true, gpio := [1], sends := [Attempt(1, true)]);
    var up := on.(gpio := [], status := ON);
    var frozen := up.(status := FROZEN);
    var pinged := frozen.(pong := 2, quiet := 2, ping := [1]);
    var off := pinged.(known := OFF, wanted := false, gpio := [0], sends := [Attempt(1, true), Attempt(0, true)]);
    var down := off.(ping := [], gpio := [], status := OFF);
    var again := down.(known := ON, wanted := true, gpio := [1],
                       sends := [Attempt(1, true), Attempt(0, true), Attempt(1, true)]);
    var back := again.(gpio := [], status := ON);
    (if k == 0 then InitLine() else if k == 1 then on else if k == 2 then up else if k == 3 then frozen
     else if k == 4 then frozen.(pong := 1, quiet := 1, ping := [1]) else if k == 5 then pinged
     else if k == 6 then off else if k == 7 then down else if k == 8 then again else if k == 9 then back
     else back.(pong := 0, quiet := 3, ping := [1], known := FROZEN), [])
  }

  lemma CycleSteps(k: nat)
    requires k < 10
    ensures SoloStep(CycleLine(k), CycleLine(k + 1), Cycle()[k])
  {
    SmallBoxes();
    hide Post, Rest;
  }

  function CycleRun(): (run: seq<State>)
    ensures |run| == 11 && forall k :: 0 <= k < 11 ==> |run[k].lines| == NUM_TARGETS
  {
    seq(11, k requires 0 <= k < 11 => Solo(CycleLine(k)))
  }

  /** So in this run the target, which is up again, is marked frozen at the first ping. */
  lemma FrozenAtFirstPing()
    ensures var run := CycleRun();
            && IsRun(run, Cycle()) && run[0] == Init() && run[7].lines[0].known == OFF
            && MarksFrozen(run[7..], Cycle()[7..], 0) && Rounds(Cycle()[7..], 1, 3) == 1
            && run[10].lines[0].status == ON
  {
    hide Takes, SoloStep;
    var run, steps := CycleRun(), Cycle()[7..];
    forall k | 0 <= k < 10 ensures Takes(run[k], run[k + 1], Cycle()[k]) {
      CycleSteps(k);
      SoloTakes(CycleLine(k), CycleLine(k + 1), Cycle()[k]);
    }
    assert run[0].lines == Init().lines;
    assert Rounds(steps, 1, 3) == Rounds(steps, 1, 2) + 1 && Rounds(steps, 1, 2) == Rounds(steps, 1, 1);
  }
}

module SpsCode {
  import opened Ring
  import opened Sps

  /** Which targets are taken for on, as the host is told. */
  function OnMask(lines: seq<Line>): seq<bool> { seq(|lines|, i requires 0 <= i < |lines| => lines[i].known == ON) }

  class Switch {
    const targets: array<Status>
    const targetsPong: array<int>
    const mbPing: array<seq<int>>
    const mbGpio: array<seq<int>>
    const status: array<Status>
    var mbPingAck: seq<int>
    /** Mails to the host. */
    var mbPingIrq: seq<seq<bool>>
    ghost var lines: seq<Line>

    ghost function View(): State
      reads this
    {
      State(lines, mbPingAck)
    }

    ghost predicate Valid()
      reads this, targets, targetsPong, mbPing, mbGpio, status
    {
      && targets.Length == targetsPong.Length == mbPing.Length == mbGpio.Length == status.Length == NUM_TARGETS
      && |lines| == NUM_TARGETS
      && targets != status && mbPing != mbGpio
      && (forall i :: 0 <= i < NUM_TARGETS ==> lines[i].known == targets[i] && lines[i].pong == targetsPong[i])
      && (forall i :: 0 <= i < NUM_TARGETS ==> lines[i].ping == mbPing[i] && lines[i].gpio == mbGpio[i])
      && (forall i :: 0 <= i < NUM_TARGETS ==> lines[i].status == status[i])
    }

    constructor ()
      ensures Valid() && View() == Init() && fresh(targets) && fresh(targetsPong) && fresh(mbPing) && fresh(mbGpio)
      ensures fresh(status)
    {
      targets := new Status[NUM_TARGETS](_ => OFF);
      targetsPong := new int[NUM_TARGETS](_ => 0);
      mbPing := new seq<int>[NUM_TARGETS](_ => []);
      mbGpio := new seq<int>[NUM_TARGETS](_ => []);
      status := new Status[NUM_TARGETS](_ => OFF);
      mbPingAck, mbPingIrq := [], [];
      lines := seq(NUM_TARGETS, _ => InitLine());
    }

    /** The body of irq_in_handler for one command. */
    method IrqIn(mask: seq<bool>)
      requires Valid() && |mask| == NUM_TARGETS
      modifies targets, mbGpio, `lines
      ensures Valid() && View() == Command(old(View()), mask)
    {
      hide CommandLine;
      var i := 0;
      ghost var was := lines;
      while i < NUM_TARGETS
        modifies targets, mbGpio, `lines
        invariant 0 <= i <= NUM_TARGETS && Valid()
        invariant forall j :: 0 <= j < NUM_TARGETS ==>
                  lines[j] == if j < i then CommandLine(was[j], mask[j]) else was[j]
      {
        CommandOne(i, mask[i]);
        i := i + 1;
      }
      assert lines == Command(old(View()), mask).lines;
    }

    method CommandOne(i: nat, on: bool)
      requires Valid() && i < NUM_TARGETS
      modifies targets, mbGpio, `lines
      ensures Valid() && lines == old(lines)[i := CommandLine(old(lines)[i], on)]
    {
      lines := lines[i := CommandLine(lines[i], on)];
      if on != (targets[i] != OFF) {
        mbGpio[i] := Post(mbGpio[i], LINE_SIZE, Bit(on));
        targets[i] := if on then ON else OFF;
      }
    }

    /** One run of ping_thread; the host is told if a target was found frozen. */
    method Ping()
      requires Valid()
      modifies this, targets, targetsPong, mbPing
      ensures Valid() && View() == Round(old(View()))
      ensures var found := exists j :: 0 <= j < NUM_TARGETS && lines[j].known != old(lines)[j].known;
              var told := |old(mbPingIrq)| < IRQ_SIZE && found;
              mbPingIrq == old(mbPingIrq) + if told then [OnMask(lines)] else []
    {
      hide PingLine, AckLine, JudgeLine, Round, OnMask;
      SendPings();
      ReadAnswers();
      ghost var mid := lines;
      var on, changed := Judge();
      RoundIs(old(View()), mid, lines);
      if changed && |mbPingIrq| < IRQ_SIZE {
        mbPingIrq := mbPingIrq + [on];
      }
    }

    method SendPings()
      requires Valid()
      modifies targetsPong, mbPing, `lines
      ensures Valid() && forall j :: 0 <= j < NUM_TARGETS ==> lines[j] == PingLine(old(lines)[j])
    {
      hide PingLine;
      var i := 0;
      ghost var was := lines;
      while i < NUM_TARGETS
        modifies targetsPong, mbPing, `lines
        invariant 0 <= i <= NUM_TARGETS && Valid()
        invariant forall j :: 0 <= j < NUM_TARGETS ==> lines[j] == if j < i then PingLine(was[j]) else was[j]
      {
        PingOne(i);
        i := i + 1;
      }
    }

    method PingOne(i: nat)
      requires Valid() && i < NUM_TARGETS
      modifies targetsPong, mbPing, `lines
      ensures Valid() && lines == old(lines)[i := PingLine(old(lines)[i])]
    {
      lines := lines[i := PingLine(lines[i])];
      if targets[i] == ON {
        targetsPong[i] := targetsPong[i] + 1;
        mbPing[i] := Post(mbPing[i], LINE_SIZE, 1);
      }
    }

    /** Read the answers until there are none. */
    method ReadAnswers()
      requires Valid()
      modifies targetsPong, `mbPingAck, `lines
      ensures Valid() && mbPingAck == []
      ensures forall j :: 0 <= j < NUM_TARGETS ==> lines[j] == AckLine(old(lines)[j], j in old(mbPingAck))
    {
      ghost var was, all, n := lines, mbPingAck, 0;
      while mbPingAck != []
        modifies targetsPong, `mbPingAck, `lines
        invariant 0 <= n <= |all| && mbPingAck == all[n..] && Valid()
        invariant forall j :: 0 <= j < NUM_TARGETS ==> lines[j] == AckLine(was[j], j in all[..n])
        decreases |all| - n
      {
        var msg := mbPingAck[0];
        mbPingAck := mbPingAck[1..];
        assert all[..n + 1] == all[..n] + [msg];
        if 0 <= msg < NUM_TARGETS {
          AckOne(msg);
        }
        n := n + 1;
      }
      assert all[..n] == all;
    }

    method AckOne(i: nat)
      requires Valid() && i < NUM_TARGETS
      modifies targetsPong, `lines
      ensures Valid() && lines == old(lines)[i := AckLine(old(lines)[i], true)]
    {
      lines := lines[i := AckLine(lines[i], true)];
      targetsPong[i] := 0;
    }

    /** Who did not answer for too long is taken for frozen. */
    method Judge() returns (on: seq<bool>, changed: bool)
      requires Valid()
      modifies targets, targetsPong, `lines
      ensures Valid() && on == OnMask(lines)
      ensures forall j :: 0 <= j < NUM_TARGETS ==> lines[j] == JudgeLine(old(lines)[j])
      ensures changed <==> exists j :: 0 <= j < NUM_TARGETS && lines[j].known != old(lines)[j].known
    {
      hide JudgeLine;
      var i := 0;
      on, changed := [], false;
      ghost var was := lines;
      while i < NUM_TARGETS
        modifies targets, targetsPong, `lines
        invariant 0 <= i <= NUM_TARGETS && Valid() && |on| == i
        invariant forall j :: 0 <= j < NUM_TARGETS ==> lines[j] == if j < i then JudgeLine(was[j]) else was[j]
        invariant forall j :: 0 <= j < i ==> on[j] == (lines[j].known == ON)
        invariant changed <==> exists j :: 0 <= j < i && lines[j].known != was[j].known
      {
        var isOn, froze := JudgeOne(i);
        on := on + [isOn];
        changed := changed || froze;
        i := i + 1;
      }
    }

    method JudgeOne(i: nat) returns (isOn: bool, froze: bool)
      requires Valid() && i < NUM_TARGETS
      modifies targets, targetsPong, `lines
      ensures Valid() && lines == old(lines)[i := JudgeLine(old(lines)[i])]
      ensures isOn == (lines[i].known == ON) && froze == (lines[i].known != old(lines)[i].known)
    {
      lines := lines[i := JudgeLine(lines[i])];
      isOn, froze := false, false;
      if targets[i] == ON {
        if targetsPong[i] < PONG_COUNT {
          isOn := true;
        } else {
          targetsPong[i] := 0;
          targets[i] := FROZEN;
          froze := true;
        }
      }
    }

    /** One run of simulation_thread_entry of target i; `freeze` is its throw of the dice. */
    method Simulate(i: nat, freeze: bool)
      requires Valid() && i < NUM_TARGETS
      modifies mbPing, mbGpio, status, `mbPingAck, `lines
      ensures Valid() && View() == Sim(old(View()), i, freeze)
    {
      AnswerPing(i);
      ObeyGpio(i, freeze);
    }

    method AnswerPing(i: nat)
      requires Valid() && i < NUM_TARGETS
      modifies mbPing, `mbPingAck, `lines
      ensures Valid() && lines == old(lines)[i := old(lines)[i].(ping := Rest(old(lines)[i].ping))]
      ensures mbPingAck == if Answers(old(lines)[i]) then Post(old(mbPingAck), ACK_SIZE, i) else old(mbPingAck)
    {
      lines := lines[i := lines[i].(ping := Rest(lines[i].ping))];
      if mbPing[i] != [] {
        var ping := mbPing[i][0];
        mbPing[i] := mbPing[i][1..];
        if ping == 1 && status[i] == ON {
          mbPingAck := Post(mbPingAck, ACK_SIZE, i);
        }
      }
    }

    method ObeyGpio(i: nat, freeze: bool)
      requires Valid() && i < NUM_TARGETS
      modifies mbGpio, status, `lines
      ensures Valid()
      ensures lines == old(lines)[i := old(lines)[i].(gpio := Rest(old(lines)[i].gpio),
                                                      status := NextStatus(old(lines)[i], freeze))]
    {
      lines := lines[i := lines[i].(gpio := Rest(lines[i].gpio), status := NextStatus(lines[i], freeze))];
      var gpio := 3;
      if mbGpio[i] != [] {
        gpio := mbGpio[i][0];
        mbGpio[i] := mbGpio[i][1..];
      }
      var now := status[i];
      if now == ON && gpio == 0 {
        now := OFF;
      } else if now == ON && freeze {
        now := FROZEN;
      } else if now == OFF && gpio == 1 {
        now := ON;
      } else if now == FROZEN && gpio == 0 {
        now := OFF;
      }
      status[i] := now;
    }
  }

  /** The three passes over the lines make up a round. */
  lemma RoundIs(s: State, mid: seq<Line>, lines: seq<Line>)
    requires |lines| == |mid| == |s.lines| == NUM_TARGETS
    requires forall j :: 0 <= j < NUM_TARGETS ==> mid[j] == AckLine(PingLine(s.lines[j]), j in s.ack)
    requires forall j :: 0 <= j < NUM_TARGETS ==> lines[j] == JudgeLine(mid[j])
    ensures Round(s) == State(lines, [])
    ensures forall j :: 0 <= j < NUM_TARGETS ==> mid[j].known == s.lines[j].known
  {
  }
}
