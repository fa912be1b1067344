/**
 * The two relay lines of the shade (control = motor enable, direction) and
 * the calls `RVShade::loop` makes on them: reprogramming when the output
 * intent changes, and the per-tick `update`. A call sequence is a value here,
 * so the order and the timing of the hardware writes can be stated and
 * checked: the direction line must only change while the control line is
 * LOW, and the settling time of the relays must be respected.
 */
module Relay {
  import opened Wrappers
  import opened Output

  /** `relaySettlingTimeMS`. */
  const RelaySettlingTimeMS: nat := 8

  /** `OutputState`: `outputStateIdle`, `outputStateOpen`, `outputStateClose`. */
  datatype OutputState = Idle | Open | Close

  /** The level pair an output intent asks for (HIGH is `true`). */
  datatype Levels = Levels(direction: bool, control: bool)

  /** The intent-to-levels table: the motor runs for Open and Close, and the direction line is HIGH for Close. */
  function LevelsFor(o: OutputState): (r: Levels)
    ensures r.control <==> o != Idle
    ensures r.direction <==> o == Close
  {
    match o
    case Open => Levels(false, true)
    case Close => Levels(true, true)
    case Idle => Levels(false, false)
  }

  datatype Line = Control | Direction

  /** One call on one of the two `OutputPin` objects. */
  datatype PinCall =
    | SetState(line: Line, level: bool, delay: nat)
    | ClearDelayedState(line: Line)
    | Update(line: Line)
      /** Not in the source: an `update` held back until the other line has settled. */
    | UpdateWhenSettled(line: Line)

  datatype Lines = Lines(control: Pin, direction: Pin)

  const InitialLines := Lines(Output.Initial, Output.Initial)

  function PinOf(l: Lines, line: Line): Pin
  {
    if line == Control then l.control else l.direction
  }

  function Other(line: Line): Line
  {
    if line == Control then Direction else Control
  }

  /** A line has settled at `now`: nothing is pending on it and it last changed more than the settling time ago. */
  predicate SettledAt(p: Pin, now: nat)
  {
    p.delayed.None? && now > p.changedAt + RelaySettlingTimeMS
  }

  /** The effect of one call made at time `now`. */
  function Perform(l: Lines, call: PinCall, now: nat): (r: Lines)
    ensures call.line == Control ==> r.direction == l.direction
    ensures call.line == Direction ==> r.control == l.control
  {
    var p := PinOf(l, call.line);
    var p' := match call
      case SetState(_, level, delay) => Scheduled(p, level, delay, now)
      case ClearDelayedState(_) => Cleared(p)
      case Update(_) => Updated(p, now)
      case UpdateWhenSettled(line) => if SettledAt(PinOf(l, Other(line)), now) then Updated(p, now) else p;
    if call.line == Control then l.(control := p') else l.(direction := p')
  }

  /** The effect of a call sequence, all made during the tick at `now`. */
  function Apply(l: Lines, calls: seq<PinCall>, now: nat): Lines
    decreases |calls|
  {
    if |calls| == 0 then l else Apply(Perform(l, calls[0], now), calls[1..], now)
  }

  /** A call is safe when it changes the direction line only while the control line is LOW. */
  predicate SafeCall(l: Lines, call: PinCall, now: nat)
  {
    Perform(l, call, now).direction.level != l.direction.level ==> !l.control.level
  }

  predicate SafeRun(l: Lines, calls: seq<PinCall>, now: nat)
    decreases |calls|
  {
    |calls| == 0 || (SafeCall(l, calls[0], now) && SafeRun(Perform(l, calls[0], now), calls[1..], now))
  }

  /**
   * The settling rule the two delayed branches of the reprogramming aim at:
   * the direction line moves only after the motor has been off for more than
   * `RelaySettlingTimeMS` ("direction needs to hold while control settles"),
   * and the motor starts only more than `RelaySettlingTimeMS` after the
   * direction line last moved ("direction needs time to settle before setting
   * control").
   */
  predicate SettledCall(l: Lines, call: PinCall, now: nat)
  {
    var r := Perform(l, call, now);
    && (r.direction.level != l.direction.level ==>
          !l.control.level && now > l.control.changedAt + RelaySettlingTimeMS)
    && (r.control.level && !l.control.level ==> now > l.direction.changedAt + RelaySettlingTimeMS)
  }

  predicate SettledRun(l: Lines, calls: seq<PinCall>, now: nat)
    decreases |calls|
  {
    |calls| == 0 || (SettledCall(l, calls[0], now) && SettledRun(Perform(l, calls[0], now), calls[1..], now))
  }

  /** The settling rule is the safety rule with time added. */
  lemma {:induction false} SettledRunIsSafe(l: Lines, calls: seq<PinCall>, now: nat)
    requires SettledRun(l, calls, now)
    ensures SafeRun(l, calls, now)
    decreases |calls|
  {
    if |calls| > 0 {
      SettledRunIsSafe(Perform(l, calls[0], now), calls[1..], now);
    }
  }

  lemma {:induction false} ApplyAppend(l: Lines, a: seq<PinCall>, b: seq<PinCall>, now: nat)
    ensures Apply(l, a + b, now) == Apply(Apply(l, a, now), b, now)
    ensures SafeRun(l, a + b, now) <==> SafeRun(l, a, now) && SafeRun(Apply(l, a, now), b, now)
    ensures SettledRun(l, a + b, now) <==> SettledRun(l, a, now) && SettledRun(Apply(l, a, now), b, now)
    decreases |a|
  {
    if |a| > 0 {
      assert (a + b)[0] == a[0] && (a + b)[1..] == a[1..] + b;
      ApplyAppend(Perform(l, a[0], now), a[1..], b, now);
    } else {
      assert a + b == b;
    }
  }

  lemma ApplyOne(l: Lines, a: PinCall, now: nat)
    ensures Apply(l, [a], now) == Perform(l, a, now)
    ensures SafeRun(l, [a], now) <==> SafeCall(l, a, now)
    ensures SettledRun(l, [a], now) <==> SettledCall(l, a, now)
  {
    assert [a][1..] == [];
  }

  lemma ApplyTwo(l: Lines, a: PinCall, b: PinCall, now: nat)
    ensures Apply(l, [a, b], now) == Perform(Perform(l, a, now), b, now)
    ensures SafeRun(l, [a, b], now) <==> SafeCall(l, a, now) && SafeCall(Perform(l, a, now), b, now)
    ensures SettledRun(l, [a, b], now) <==> SettledCall(l, a, now) && SettledCall(Perform(l, a, now), b, now)
  {
    assert [a, b][1..] == [b];
    ApplyOne(Perform(l, a, now), b, now);
  }

  lemma ApplyThree(l: Lines, a: PinCall, b: PinCall, c: PinCall, now: nat)
    ensures Apply(l, [a, b, c], now) == Perform(Perform(Perform(l, a, now), b, now), c, now)
    ensures SafeRun(l, [a, b, c], now) <==>
      SafeCall(l, a, now) && SafeRun(Perform(l, a, now), [b, c], now)
    ensures SettledRun(l, [a, b, c], now) <==>
      SettledCall(l, a, now) && SettledRun(Perform(l, a, now), [b, c], now)
  {
    assert [a, b, c][1..] == [b, c];
    ApplyTwo(Perform(l, a, now), b, c, now);
  }

  /** The two `clearDelayedState` calls that open every reprogramming. */
  const ClearBoth := [ClearDelayedState(Control), ClearDelayedState(Direction)]

  lemma ClearBothEffect(l: Lines, now: nat)
    ensures Apply(l, ClearBoth, now) == Lines(Cleared(l.control), Cleared(l.direction))
    ensures SafeRun(l, ClearBoth, now) && SettledRun(l, ClearBoth, now)
  {
    assert ClearBoth == [ClearDelayedState(Control), ClearDelayedState(Direction)];
    ApplyTwo(l, ClearDelayedState(Control), ClearDelayedState(Direction), now);
  }

  // ---------------------------------------------------------------------
  // The calls as written

  /**
   * Lines 379-411 of `RVShade::loop`: drop both pending writes, then, when
   * both lines change, write direction first and enable the motor
   * `RelaySettlingTimeMS` later, or stop the motor first and move the
   * direction line later; when at most one line changes, write both at once.
   */
  function ProgramAsWritten(l: Lines, o: OutputState): seq<PinCall>
  {
    var v := LevelsFor(o);
    ClearBoth +
    if v.direction != l.direction.level && v.control != l.control.level then
      if v.control then [SetState(Control, v.control, RelaySettlingTimeMS), SetState(Direction, v.direction, 0)]
      else [SetState(Control, v.control, 0), SetState(Direction, v.direction, RelaySettlingTimeMS)]
    else
      [SetState(Control, v.control, 0), SetState(Direction, v.direction, 0)]
  }

  /** The per-tick `update` calls of lines 436-437: control first, then direction. */
  const UpdatesAsWritten := [Update(Control), Update(Direction)]

  /** The relay calls of one tick as written: a reprogramming when the intent changed, then the updates. */
  function TickCallsAsWritten(l: Lines, changed: bool, o: OutputState): seq<PinCall>
  {
    (if changed then ProgramAsWritten(l, o) else []) + UpdatesAsWritten
  }

  /** The reversal that the written sequencing lets through: the motor is on, stays on, and the direction flips. */
  predicate Reversal(l: Lines, o: OutputState)
  {
    var v := LevelsFor(o);
    v.direction != l.direction.level && l.control.level && v.control
  }

  /**
   * What the written sequencing keeps between ticks: a pending direction
   * write means the motor is off and no control write is pending, so at most
   * one write is ever pending.
   */
  ghost predicate OnePending(l: Lines)
  {
    l.direction.delayed.Some? ==> !l.control.level && l.control.delayed.None?
  }

  /** The lines after a written reprogramming, case by case; at most one write is left pending. */
  lemma ProgramAsWrittenEffect(l: Lines, o: OutputState, now: nat)
    ensures var v := LevelsFor(o);
      var l1 := Lines(Cleared(l.control), Cleared(l.direction));
      var r := Apply(l, ProgramAsWritten(l, o), now);
      && (v.direction != l.direction.level && v.control != l.control.level && v.control ==>
            r == Lines(Scheduled(l1.control, true, RelaySettlingTimeMS, now), Written(l1.direction, v.direction, now)))
      && (v.direction != l.direction.level && v.control != l.control.level && !v.control ==>
            r == Lines(Written(l1.control, false, now), Scheduled(l1.direction, v.direction, RelaySettlingTimeMS, now)))
      && (!(v.direction != l.direction.level && v.control != l.control.level) ==>
            r == Lines(Written(l1.control, v.control, now), Written(l1.direction, v.direction, now)))
      && OnePending(r)
    ensures SafeRun(l, ProgramAsWritten(l, o), now) <==>
      SafeRun(Apply(l, ClearBoth, now), ProgramAsWritten(l, o)[2..], now)
    ensures SettledRun(l, ProgramAsWritten(l, o), now) <==>
      SettledRun(Apply(l, ClearBoth, now), ProgramAsWritten(l, o)[2..], now)
  {
    var rest := ProgramAsWritten(l, o)[2..];
    assert ProgramAsWritten(l, o) == ClearBoth + rest;
    assert rest == [rest[0], rest[1]];
    ApplyAppend(l, ClearBoth, rest, now);
    ClearBothEffect(l, now);
    ApplyTwo(Apply(l, ClearBoth, now), rest[0], rest[1], now);
  }

  /**
   * The written sequencing is safe exactly when the intent change is not a
   * reversal while the motor runs (HomeKit Open straight to Close, or back).
   */
  lemma ProgramAsWrittenSafeIff(l: Lines, o: OutputState, now: nat)
    ensures SafeRun(l, ProgramAsWritten(l, o), now) <==> !Reversal(l, o)
  {
    var rest := ProgramAsWritten(l, o)[2..];
    ProgramAsWrittenEffect(l, o, now);
    ClearBothEffect(l, now);
    assert rest == [rest[0], rest[1]];
    ApplyTwo(Apply(l, ClearBoth, now), rest[0], rest[1], now);
  }

  /** With at most one write pending, the written updates (control first) are safe and keep it so. */
  lemma UpdatesAsWrittenSafe(l: Lines, now: nat)
    requires OnePending(l)
    ensures SafeRun(l, UpdatesAsWritten, now)
    ensures OnePending(Apply(l, UpdatesAsWritten, now))
  {
    ApplyTwo(l, UpdatesAsWritten[0], UpdatesAsWritten[1], now);
  }

  /** The lines after a tick's relay calls: the reprogramming (if any), then each line's `update`. */
  lemma TickCallsAsWrittenEffect(l: Lines, changed: bool, o: OutputState, now: nat)
    ensures var l1 := if changed then Apply(l, ProgramAsWritten(l, o), now) else l;
      Apply(l, TickCallsAsWritten(l, changed, o), now) == Lines(Updated(l1.control, now), Updated(l1.direction, now))
  {
    var p := if changed then ProgramAsWritten(l, o) else [];
    ApplyAppend(l, p, UpdatesAsWritten, now);
    ApplyTwo(Apply(l, p, now), UpdatesAsWritten[0], UpdatesAsWritten[1], now);
  }

  /**
   * A whole tick of the written relay calls is safe exactly when it does not
   * reprogram a reversal, and it keeps at most one write pending.
   */
  lemma TickCallsAsWrittenSafeIff(l: Lines, changed: bool, o: OutputState, now: nat)
    requires OnePending(l)
    ensures SafeRun(l, TickCallsAsWritten(l, changed, o), now) <==> !(changed && Reversal(l, o))
    ensures OnePending(Apply(l, TickCallsAsWritten(l, changed, o), now))
  {
    var p := if changed then ProgramAsWritten(l, o) else [];
    ApplyAppend(l, p, UpdatesAsWritten, now);
    if changed {
      ProgramAsWrittenSafeIff(l, o, now);
      ProgramAsWrittenEffect(l, o, now);
    }
    UpdatesAsWrittenSafe(Apply(l, p, now), now);
  }

  /**
   * The written reprogramming reaches the requested levels: once the pending
   * write is due (an update later than `now + RelaySettlingTimeMS`), both
   * lines stand at `LevelsFor(o)` with nothing pending.
   */
  lemma ProgramAsWrittenReachesLevels(l: Lines, o: OutputState, now: nat, t: nat)
    requires t > now + RelaySettlingTimeMS
    ensures var r := Apply(Apply(l, ProgramAsWritten(l, o), now), UpdatesAsWritten, t);
      && r.direction.level == LevelsFor(o).direction && r.control.level == LevelsFor(o).control
      && r.direction.delayed.None? && r.control.delayed.None?
  {
    ProgramAsWrittenEffect(l, o, now);
    ApplyTwo(Apply(l, ProgramAsWritten(l, o), now), UpdatesAsWritten[0], UpdatesAsWritten[1], t);
  }

  /**
   * The written settling holds only within one reprogramming. Stopping an
   * opening motor (Open to Idle) and asking to close a millisecond later
   * moves the direction line 1 ms after the motor went off; and after a
   * close move has stopped and its direction write has landed, asking to
   * open a millisecond later starts the motor 1 ms after the direction moved.
   */
  lemma ProgramAsWrittenSkipsSettling(l: Lines, now: nat, t: nat)
    requires l.control.level && !l.direction.level && l.control.delayed.None? && l.direction.delayed.None?
    requires t > now + RelaySettlingTimeMS
    ensures var r := Apply(l, ProgramAsWritten(l, Idle), now);
      !SettledRun(r, ProgramAsWritten(r, Close), now + 1)
    ensures var l' := l.(direction := l.direction.(level := true));
      var r := Apply(Apply(l', ProgramAsWritten(l', Idle), now), UpdatesAsWritten, t);
      !SettledRun(r, ProgramAsWritten(r, Open), t + 1)
  {
    ProgramAsWrittenEffect(l, Idle, now);
    var r := Apply(l, ProgramAsWritten(l, Idle), now);
    assert r.control.changedAt == now && !r.control.level && !r.direction.level;
    ProgramAsWrittenEffect(r, Close, now + 1);
    ClearBothEffect(r, now + 1);
    var rest := ProgramAsWritten(r, Close)[2..];
    assert rest == [SetState(Control, true, RelaySettlingTimeMS), SetState(Direction, true, 0)];
    ApplyTwo(Apply(r, ClearBoth, now + 1), rest[0], rest[1], now + 1);

    var l' := l.(direction := l.direction.(level := true));
    ProgramAsWrittenEffect(l', Idle, now);
    var r1 := Apply(l', ProgramAsWritten(l', Idle), now);
    ApplyTwo(r1, UpdatesAsWritten[0], UpdatesAsWritten[1], t);
    var r2 := Apply(r1, UpdatesAsWritten, t);
    assert r2.direction.changedAt == t && !r2.direction.level && !r2.control.level;
    ProgramAsWrittenEffect(r2, Open, t + 1);
    ClearBothEffect(r2, t + 1);
    var rest2 := ProgramAsWritten(r2, Open)[2..];
    assert rest2 == [SetState(Control, true, 0), SetState(Direction, false, 0)];
    ApplyTwo(Apply(r2, ClearBoth, t + 1), rest2[0], rest2[1], t + 1);
  }

  // ---------------------------------------------------------------------
  // The corrected calls

  /**
   * The corrected reprogramming at time `now`. A change of direction while
   * the motor has been off for more than `RelaySettlingTimeMS` is the written
   * one: the direction is written at once and a start follows
   * `RelaySettlingTimeMS` later. Any other change of direction stops the
   * motor first, moves the direction line `RelaySettlingTimeMS` later, and
   * (when the motor is to run) schedules the restart, which the settled
   * update holds back until the direction line has settled. Without a change
   * of direction the motor starts at once only if the direction line has
   * already settled.
   */
  function Program(l: Lines, o: OutputState, now: nat): seq<PinCall>
  {
    var v := LevelsFor(o);
    ClearBoth +
    if v.direction != l.direction.level && MotorRested(l, now) then
      [SetState(Control, v.control, if v.control then RelaySettlingTimeMS else 0),
       SetState(Direction, v.direction, 0)]
    else if v.direction != l.direction.level then
      [SetState(Control, false, 0),
       SetState(Direction, v.direction, RelaySettlingTimeMS),
       SetState(Control, v.control, if v.control then 2 * RelaySettlingTimeMS else 0)]
    else if v.control && !l.control.level && now <= l.direction.changedAt + RelaySettlingTimeMS then
      [SetState(Control, true, RelaySettlingTimeMS), SetState(Direction, v.direction, 0)]
    else
      [SetState(Control, v.control, 0), SetState(Direction, v.direction, 0)]
  }

  /**
   * The correction touches only the cases the written code gets wrong: it
   * makes the written calls exactly unless the direction changes before the
   * motor has rested, or the motor is to start before the direction line has
   * settled.
   */
  lemma ProgramMatchesWritten(l: Lines, o: OutputState, now: nat)
    ensures var v := LevelsFor(o);
      Program(l, o, now) == ProgramAsWritten(l, o) <==>
        && (v.direction != l.direction.level ==> MotorRested(l, now))
        && !(v.direction == l.direction.level && v.control && !l.control.level
             && now <= l.direction.changedAt + RelaySettlingTimeMS)
  {
    var v := LevelsFor(o);
    if v.direction != l.direction.level && !MotorRested(l, now) {
      assert |Program(l, o, now)| == 5 != |ProgramAsWritten(l, o)|;
    } else if Program(l, o, now) == ProgramAsWritten(l, o) {
      assert Program(l, o, now)[2] == ProgramAsWritten(l, o)[2];
    }
  }

  /** The corrected per-tick updates: direction first, and the control line only once the direction line has settled. */
  const Updates := [Update(Direction), UpdateWhenSettled(Control)]

  /** The motor is off and has been for more than `RelaySettlingTimeMS`. */
  predicate MotorRested(l: Lines, now: nat)
  {
    !l.control.level && now > l.control.changedAt + RelaySettlingTimeMS
  }

  /** The relay calls of one corrected tick. */
  function TickCalls(l: Lines, changed: bool, o: OutputState, now: nat): seq<PinCall>
  {
    (if changed then Program(l, o, now) else []) + Updates
  }

  /**
   * What the corrected sequencing keeps at time `t`: no change lies in the
   * future, and a pending direction write has the motor off and is due no
   * earlier than `RelaySettlingTimeMS` after the motor went off.
   */
  ghost predicate Settled(l: Lines, t: nat)
  {
    && l.control.changedAt <= t && l.direction.changedAt <= t
    && (l.direction.delayed.Some? ==>
          !l.control.level && l.direction.delayedTime >= l.control.changedAt + RelaySettlingTimeMS)
  }

  /** The lines after a corrected reprogramming, case by case. */
  lemma ProgramEffect(l: Lines, o: OutputState, now: nat)
    ensures var v := LevelsFor(o);
      var l1 := Lines(Cleared(l.control), Cleared(l.direction));
      var r := Apply(l, Program(l, o, now), now);
      && (v.direction != l.direction.level && MotorRested(l, now) ==>
            r == Lines(Scheduled(l1.control, v.control, if v.control then RelaySettlingTimeMS else 0, now),
                       Written(l1.direction, v.direction, now)))
      && (v.direction != l.direction.level && !MotorRested(l, now) ==>
            r == Lines(Scheduled(Written(l1.control, false, now), v.control,
                                 if v.control then 2 * RelaySettlingTimeMS else 0, now),
                       Scheduled(l1.direction, v.direction, RelaySettlingTimeMS, now)))
      && (v.direction == l.direction.level && v.control && !l.control.level
          && now <= l.direction.changedAt + RelaySettlingTimeMS ==>
            r == Lines(Scheduled(l1.control, true, RelaySettlingTimeMS, now), l1.direction))
      && (v.direction == l.direction.level
          && !(v.control && !l.control.level && now <= l.direction.changedAt + RelaySettlingTimeMS) ==>
            r == Lines(Written(l1.control, v.control, now), l1.direction))
    ensures SettledRun(l, Program(l, o, now), now) <==>
      SettledRun(Apply(l, ClearBoth, now), Program(l, o, now)[2..], now)
  {
    var rest := Program(l, o, now)[2..];
    assert Program(l, o, now) == ClearBoth + rest;
    ApplyAppend(l, ClearBoth, rest, now);
    ClearBothEffect(l, now);
    var l1 := Apply(l, ClearBoth, now);
    if LevelsFor(o).direction != l.direction.level && !MotorRested(l, now) {
      assert rest == [rest[0], rest[1], rest[2]];
      ApplyThree(l1, rest[0], rest[1], rest[2], now);
    } else {
      assert rest == [rest[0], rest[1]];
      ApplyTwo(l1, rest[0], rest[1], now);
    }
  }

  /** A corrected reprogramming keeps the settling rule (hence the safety rule) and leaves the lines `Settled`. */
  lemma ProgramSettled(l: Lines, o: OutputState, now: nat)
    requires Settled(l, now)
    ensures SettledRun(l, Program(l, o, now), now)
    ensures Settled(Apply(l, Program(l, o, now), now), now)
  {
    ProgramEffect(l, o, now);
    var rest := Program(l, o, now)[2..];
    var l1 := Apply(l, ClearBoth, now);
    ClearBothEffect(l, now);
    if LevelsFor(o).direction != l.direction.level && !MotorRested(l, now) {
      assert rest == [rest[0], rest[1], rest[2]];
      ApplyThree(l1, rest[0], rest[1], rest[2], now);
      ApplyTwo(Perform(l1, rest[0], now), rest[1], rest[2], now);
    } else {
      assert rest == [rest[0], rest[1]];
      ApplyTwo(l1, rest[0], rest[1], now);
    }
  }

  /** The corrected updates keep the settling rule and leave the lines `Settled`. */
  lemma UpdatesSettled(l: Lines, now: nat)
    requires Settled(l, now)
    ensures SettledRun(l, Updates, now)
    ensures Settled(Apply(l, Updates, now), now)
  {
    ApplyTwo(l, Updates[0], Updates[1], now);
  }

  /**
   * A whole corrected tick keeps the settling rule, so it never moves the
   * direction line under a running motor (a reversal included), and it leaves
   * the lines `Settled` for the next tick.
   */
  lemma TickCallsSettled(l: Lines, changed: bool, o: OutputState, now: nat)
    requires Settled(l, now)
    ensures SettledRun(l, TickCalls(l, changed, o, now), now)
    ensures SafeRun(l, TickCalls(l, changed, o, now), now)
    ensures Settled(Apply(l, TickCalls(l, changed, o, now), now), now)
  {
    var p := if changed then Program(l, o, now) else [];
    ApplyAppend(l, p, Updates, now);
    if changed {
      ProgramSettled(l, o, now);
    }
    UpdatesSettled(Apply(l, p, now), now);
    SettledRunIsSafe(l, TickCalls(l, changed, o, now), now);
  }

  /**
   * The corrected reprogramming reaches the requested levels: after a tick
   * later than `now + 2 * RelaySettlingTimeMS` and another more than
   * `RelaySettlingTimeMS` after that, both lines stand at `LevelsFor(o)` with
   * nothing pending.
   */
  lemma ProgramReachesLevels(l: Lines, o: OutputState, now: nat, t1: nat, t2: nat)
    requires Settled(l, now)
    requires t1 > now + 2 * RelaySettlingTimeMS && t2 > t1 + RelaySettlingTimeMS
    ensures var r := Apply(Apply(Apply(l, Program(l, o, now), now), Updates, t1), Updates, t2);
      && r.direction.level == LevelsFor(o).direction && r.control.level == LevelsFor(o).control
      && r.direction.delayed.None? && r.control.delayed.None?
  {
    ProgramEffect(l, o, now);
    var r0 := Apply(l, Program(l, o, now), now);
    ApplyTwo(r0, Updates[0], Updates[1], t1);
    ApplyTwo(Apply(r0, Updates, t1), Updates[0], Updates[1], t2);
  }
}
