/**
 * The shade controller `RVShade` as values: its fields, the effect of a new
 * HomeKit target (`update()`) and of one pass of `loop()`, and what they
 * promise. Positions are percentages (100 = open, 0 = closed) as `real`.
 */
module ShadeModel {
  import opened Wrappers
  import opened Debounce
  import opened Output
  import opened Relay

  const HomeKitFullScale: real := 100.0
  const HomeKitShadeOpenValue: real := 100.0
  const HomeKitShadeClosedValue: real := 0.0

  const CloseTimeMS: nat := 10 * 1000
  const OpenTimeMS: nat := 10 * 1000
  const EndStopExtraTimeMS: nat := 500
  const ClosePerMS: real := HomeKitFullScale / CloseTimeMS as real
  const OpenPerMS: real := HomeKitFullScale / OpenTimeMS as real

  /** `updateTimeMS`: the reporting interval. */
  const UpdateTimeMS: nat := 500

  /** `ShadeState`: a `uint16` of flag bits. */
  type ShadeState = bv16

  const ShadeStateClosing: ShadeState := 1 << 3
  const ShadeStateOpening: ShadeState := 1 << 4
  /** Written `1 < 5` in the source: a comparison, which is true, so the flag is bit 0. */
  const ShadeStateUserAction: ShadeState := if 1 < 5 then 1 else 0
  const ShadeStateHomeKitAction: ShadeState := 1 << 6

  predicate IsMoving(st: ShadeState) { st & (ShadeStateOpening | ShadeStateClosing) != 0 }
  predicate IsOpening(st: ShadeState) { st & ShadeStateOpening != 0 }
  predicate IsUserAction(st: ShadeState) { st & ShadeStateUserAction != 0 }
  predicate IsHomeKitAction(st: ShadeState) { st & ShadeStateHomeKitAction != 0 }

  /** The only values `_shadeState` ever takes. */
  ghost predicate ValidState(st: ShadeState)
  {
    st in {0, ShadeStateUserAction | ShadeStateOpening, ShadeStateUserAction | ShadeStateClosing,
           ShadeStateHomeKitAction | ShadeStateOpening, ShadeStateHomeKitAction | ShadeStateClosing}
  }

  /** The four flags are distinct single bits, so every valid state decodes to one source and one direction. */
  lemma FlagsDecode(st: ShadeState)
    requires ValidState(st)
    ensures ShadeStateUserAction == 1
    ensures IsMoving(st) <==> st != 0
    ensures !(IsUserAction(st) && IsHomeKitAction(st))
    ensures IsMoving(st) <==> IsUserAction(st) || IsHomeKitAction(st)
    ensures IsOpening(st) ==> st & ShadeStateClosing == 0
  {
  }

  // ---------------------------------------------------------------------
  // Position estimate

  function Abs(x: real): real { if x > 0.0 then x else -x }

  /** `max(homeKitShadeClosedValue, min(homeKitShadeOpenValue, x))`. */
  function Clamp(x: real): (r: real)
    ensures HomeKitShadeClosedValue <= r <= HomeKitShadeOpenValue
    ensures HomeKitShadeClosedValue <= x <= HomeKitShadeOpenValue ==> r == x
    ensures x < HomeKitShadeClosedValue ==> r == HomeKitShadeClosedValue
    ensures x > HomeKitShadeOpenValue ==> r == HomeKitShadeOpenValue
  {
    var upper := if HomeKitShadeOpenValue < x then HomeKitShadeOpenValue else x;
    if HomeKitShadeClosedValue < upper then upper else HomeKitShadeClosedValue
  }

  /** Percent per millisecond, signed by direction. */
  function Rate(opening: bool): real
  {
    if opening then OpenPerMS else -ClosePerMS
  }

  /** The estimate after moving `elapsed` ms in one direction. */
  function Advance(position: real, opening: bool, elapsed: nat): real
  {
    Clamp(position + elapsed as real * Rate(opening))
  }

  /**
   * Advancing in steps is advancing once by the total: the clamp at an end
   * stop loses nothing that a later step in the same direction would need.
   */
  lemma AdvanceComposes(position: real, opening: bool, a: nat, b: nat)
    requires HomeKitShadeClosedValue <= position <= HomeKitShadeOpenValue
    ensures Advance(Advance(position, opening, a), opening, b) == Advance(position, opening, a + b)
  {
    assert (a + b) as real * Rate(opening) == a as real * Rate(opening) + b as real * Rate(opening);
  }

  // ---------------------------------------------------------------------
  // A new HomeKit target

  /** `moveTimeMS`: the travel time for the distance, truncated to whole ms as the `uint32` conversion does. */
  function MoveTimeMS(position: real, target: real): nat
  {
    var moveAmount := target - position;
    var ms := Abs(moveAmount / HomeKitFullScale) * (if moveAmount > 0.0 then OpenTimeMS else CloseTimeMS) as real;
    ms.Floor
  }

  predicate IsEndStop(target: real)
  {
    target == HomeKitShadeClosedValue || target == HomeKitShadeOpenValue
  }

  /** The state and deadline a new target sets up. */
  datatype Move = Move(state: ShadeState, endTime: nat)

  function EndTime(position: real, target: real, now: nat): nat
  {
    now + MoveTimeMS(position, target) + if IsEndStop(target) then EndStopExtraTimeMS else 0
  }

  /** `RVShade::update()` AS WRITTEN: the direction is Opening only when the target is strictly above the estimate. */
  function PlanAsWritten(position: real, target: real, now: nat): Move
  {
    var moveAmount := target - position;
    Move(ShadeStateHomeKitAction | (if moveAmount > 0.0 then ShadeStateOpening else ShadeStateClosing),
         EndTime(position, target, now))
  }

  /** The shape of a plan as written: a HomeKit move, opening exactly when the target is above the estimate, and its deadline. */
  lemma PlanAsWrittenShape(position: real, target: real, now: nat)
    ensures var m := PlanAsWritten(position, target, now);
      && IsHomeKitAction(m.state) && IsMoving(m.state)
      && (IsOpening(m.state) <==> target - position > 0.0)
      && (target == position ==> m.state == ShadeStateHomeKitAction | ShadeStateClosing)
      && m.endTime == now + MoveTimeMS(position, target) + if IsEndStop(target) then EndStopExtraTimeMS else 0
  {
  }

  /**
   * Written this way, a request for the open end stop when the estimate is
   * already there drives the shade towards closed: 500 ms of travel (the
   * end-stop grace) takes it to 95, and the move ends only on the first tick
   * strictly after that deadline, so it stops below 95 (94.99 with 1 ms ticks).
   */
  lemma PlanAsWrittenLeavesOpenEndStop(now: nat, elapsed: nat)
    ensures var m := PlanAsWritten(HomeKitShadeOpenValue, HomeKitShadeOpenValue, now);
      && m.state == ShadeStateHomeKitAction | ShadeStateClosing
      && m.endTime == now + EndStopExtraTimeMS
      && Advance(HomeKitShadeOpenValue, IsOpening(m.state), m.endTime - now) == 95.0
      && (elapsed > m.endTime - now ==> Advance(HomeKitShadeOpenValue, IsOpening(m.state), elapsed) < 95.0)
  {
  }

  /** The corrected `update()`: a request for the open end stop always opens. */
  function Plan(position: real, target: real, now: nat): Move
  {
    var moveAmount := target - position;
    var opening := moveAmount > 0.0 || target == HomeKitShadeOpenValue;
    Move(ShadeStateHomeKitAction | (if opening then ShadeStateOpening else ShadeStateClosing),
         EndTime(position, target, now))
  }

  /** The truncation of the travel time loses less than one millisecond. */
  lemma MoveTimeBounds(position: real, target: real)
    ensures Abs(target - position) * 100.0 - 1.0 < MoveTimeMS(position, target) as real <= Abs(target - position) * 100.0
  {
    var moveAmount := target - position;
    var ms := Abs(moveAmount / HomeKitFullScale) * (if moveAmount > 0.0 then OpenTimeMS else CloseTimeMS) as real;
    assert Abs(moveAmount / HomeKitFullScale) == Abs(moveAmount) / 100.0;
    assert ms == Abs(moveAmount) * 100.0;
  }

  /** The shape of a corrected plan: a HomeKit move, its direction, and its deadline. */
  lemma PlanShape(position: real, target: real, now: nat)
    ensures var m := Plan(position, target, now);
      && IsHomeKitAction(m.state) && IsMoving(m.state)
      && (IsOpening(m.state) <==> target - position > 0.0 || target == HomeKitShadeOpenValue)
      && m.endTime == now + MoveTimeMS(position, target) + if IsEndStop(target) then EndStopExtraTimeMS else 0
  {
  }

  /**
   * Within the travel range the written plan is the corrected one except for
   * the single case of asking for the open end stop when the estimate is
   * already there.
   */
  lemma PlanAsWrittenMatchesPlan(position: real, target: real, now: nat)
    requires HomeKitShadeClosedValue <= position <= HomeKitShadeOpenValue
    ensures PlanAsWritten(position, target, now) == Plan(position, target, now) <==>
      !(target == HomeKitShadeOpenValue && position == HomeKitShadeOpenValue)
  {
    PlanShape(position, target, now);
    PlanAsWrittenShape(position, target, now);
  }

  /** Travel arithmetic behind `PlanReachesTarget`, for a duration `f + extra` with `f` the truncated travel time. */
  lemma TravelReaches(position: real, target: real, opening: bool, f: nat, extra: nat)
    requires HomeKitShadeClosedValue <= position <= HomeKitShadeOpenValue
    requires HomeKitShadeClosedValue <= target <= HomeKitShadeOpenValue
    requires opening <==> target - position > 0.0 || target == HomeKitShadeOpenValue
    requires Abs(target - position) * 100.0 - 1.0 < f as real <= Abs(target - position) * 100.0
    requires extra == if IsEndStop(target) then EndStopExtraTimeMS else 0
    ensures var r := Advance(position, opening, f + extra);
      && (IsEndStop(target) ==> r == target)
      && (!IsEndStop(target) && opening ==> target - OpenPerMS < r <= target)
      && (!IsEndStop(target) && !opening ==> target <= r < target + ClosePerMS)
  {
    var x := position + (f + extra) as real * Rate(opening);
    if opening {
      assert x == position + f as real / 100.0 + extra as real / 100.0;
    } else {
      assert x == position - f as real / 100.0 - extra as real / 100.0;
    }
  }

  /**
   * The plan reaches its target: moving in the planned direction for the
   * planned time brings the estimate to an end-stop target exactly, and to
   * any other target to within the travel of one millisecond.
   */
  lemma PlanReachesTarget(position: real, target: real, now: nat)
    requires HomeKitShadeClosedValue <= position <= HomeKitShadeOpenValue
    requires HomeKitShadeClosedValue <= target <= HomeKitShadeOpenValue
    ensures var m := Plan(position, target, now);
      var r := Advance(position, IsOpening(m.state), m.endTime - now);
      && m.endTime >= now
      && (IsEndStop(target) ==> r == target)
      && (!IsEndStop(target) && IsOpening(m.state) ==> target - OpenPerMS < r <= target)
      && (!IsEndStop(target) && !IsOpening(m.state) ==> target <= r < target + ClosePerMS)
  {
    var m := Plan(position, target, now);
    PlanShape(position, target, now);
    MoveTimeBounds(position, target);
    TravelReaches(position, target, IsOpening(m.state), MoveTimeMS(position, target),
                  if IsEndStop(target) then EndStopExtraTimeMS else 0);
  }

  /**
   * The written plan reaches its target too, in every case but the open end
   * stop requested from fully open.
   */
  lemma PlanAsWrittenReachesTarget(position: real, target: real, now: nat)
    requires HomeKitShadeClosedValue <= position <= HomeKitShadeOpenValue
    requires HomeKitShadeClosedValue <= target <= HomeKitShadeOpenValue
    requires !(target == HomeKitShadeOpenValue && position == HomeKitShadeOpenValue)
    ensures var m := PlanAsWritten(position, target, now);
      var r := Advance(position, IsOpening(m.state), m.endTime - now);
      && m.endTime >= now
      && (IsEndStop(target) ==> r == target)
      && (!IsEndStop(target) && IsOpening(m.state) ==> target - OpenPerMS < r <= target)
      && (!IsEndStop(target) && !IsOpening(m.state) ==> target <= r < target + ClosePerMS)
  {
    PlanAsWrittenMatchesPlan(position, target, now);
    PlanReachesTarget(position, target, now);
  }

  /** Scenario: from fully open, a request to close fully is due 10 500 ms later. */
  lemma CloseFromOpenScenario(now: nat)
    ensures PlanAsWritten(HomeKitShadeOpenValue, HomeKitShadeClosedValue, now)
         == Move(ShadeStateHomeKitAction | ShadeStateClosing, now + 10500)
  {
  }

  // ---------------------------------------------------------------------
  // The controller

  /** The fields of `RVShade` (and the `static lastTime` of its `loop`), its buttons and its relay lines. */
  datatype ShadeFields = ShadeFields(
    state: ShadeState,
    position: real,                  // _currentShadePosition
    nextPositionUpdateTime: nat,     // the reporting deadline, 0 when disarmed
    output: OutputState,             // _outputState
    operationEndTime: nat,           // deadline of the HomeKit move
    lastTime: nat,                   // the time of the previous tick, 0 before the first
    reportedPosition: real,          // the CurrentPosition characteristic
    notifications: seq<real>,        // every value pushed with setVal
    userOpen: DebounceState,
    userClose: DebounceState,
    lines: Lines)

  const InitialShade := ShadeFields(0, HomeKitShadeOpenValue, 0, Idle, 0, 0, HomeKitShadeOpenValue, [],
                              Released, Released, InitialLines)

  /** `update()` when the TargetPosition characteristic has a new value. */
  function SetTargetSpec(s: ShadeFields, now: nat, target: real): ShadeFields
  {
    var m := PlanAsWritten(s.position, target, now);
    s.(state := m.state, operationEndTime := m.endTime)
  }

  /**
   * The button step of `loop()`: user-open first, user-close only when open
   * did not report a press, and with neither, a user state ends while a
   * HomeKit state carries on.
   */
  function SampleButtons(s: ShadeFields, now: nat, openRaw: bool, closeRaw: bool): ShadeFields
  {
    var (o, openPressed) := Sample(s.userOpen, now, openRaw);
    if openPressed then s.(userOpen := o, state := ShadeStateUserAction | ShadeStateOpening)
    else
      var (c, closePressed) := Sample(s.userClose, now, closeRaw);
      if closePressed then s.(userOpen := o, userClose := c, state := ShadeStateUserAction | ShadeStateClosing)
      else s.(userOpen := o, userClose := c, state := if IsUserAction(s.state) then 0 else s.state)
  }

  /** Only HomeKit moves drive the relays. */
  function IntentOf(st: ShadeState): OutputState
  {
    if IsHomeKitAction(st) then (if IsOpening(st) then Open else Close) else Idle
  }

  /** The estimate step: advance while moving, and end a HomeKit move strictly after its deadline. */
  function Estimate(s: ShadeFields, now: nat, elapsed: nat): ShadeFields
  {
    if IsMoving(s.state) then
      s.(position := Advance(s.position, IsOpening(s.state), elapsed),
         state := if IsHomeKitAction(s.state) && now > s.operationEndTime then 0 else s.state)
    else s
  }

  /** A tick does something only once a previous tick set `lastTime` and the clock has moved on since. */
  predicate Progresses(s: ShadeFields, now: nat)
  {
    0 < s.lastTime < now
  }

  /**
   * The output step: the intent of the new state; on a change of intent the
   * relays are reprogrammed and the report deadline is armed if disarmed.
   */
  function Drive(s: ShadeFields, now: nat): ShadeFields
  {
    var o := IntentOf(s.state);
    if o != s.output then
      s.(output := o,
         nextPositionUpdateTime := if s.nextPositionUpdateTime == 0 then now + UpdateTimeMS else s.nextPositionUpdateTime,
         lines := Apply(s.lines, ProgramAsWritten(s.lines, o), now))
    else s
  }

  /**
   * The reporting step: at or after an armed deadline the estimate is pushed
   * if it differs from the characteristic's value, and the deadline is
   * disarmed; a moving shade then re-arms it.
   */
  function Report(s: ShadeFields, moving: bool, now: nat): ShadeFields
  {
    var due := s.nextPositionUpdateTime > 0 && now >= s.nextPositionUpdateTime;
    var publish := due && s.reportedPosition != s.position;
    var next := if due then 0 else s.nextPositionUpdateTime;
    s.(nextPositionUpdateTime := if moving && next == 0 then now + UpdateTimeMS else next,
       reportedPosition := if publish then s.position else s.reportedPosition,
       notifications := if publish then s.notifications + [s.position] else s.notifications)
  }

  /** One pass of `loop()` at time `now` with the two raw probe readings. */
  function TickSpec(s: ShadeFields, now: nat, openRaw: bool, closeRaw: bool): ShadeFields
  {
    if s.lastTime == 0 || now <= s.lastTime then s.(lastTime := if s.lastTime == 0 then now else s.lastTime)
    else
      var s1 := SampleButtons(s, now, openRaw, closeRaw);
      var s2 := Estimate(s1, now, now - s.lastTime);
      var s3 := Report(Drive(s2, now), IsMoving(s1.state), now);
      s3.(lines := Lines(Updated(s3.lines.control, now), Updated(s3.lines.direction, now)), lastTime := now)
  }

  /** What the controller keeps true between calls. */
  ghost predicate Inv(s: ShadeFields)
  {
    && ValidState(s.state)
    && HomeKitShadeClosedValue <= s.position <= HomeKitShadeOpenValue
    && OnePending(s.lines)
    && (s.nextPositionUpdateTime == 0 || s.nextPositionUpdateTime > s.lastTime > 0)
  }

  lemma InitialInv()
    ensures Inv(InitialShade)
  {
  }

  lemma SetTargetKeepsInv(s: ShadeFields, now: nat, target: real)
    requires Inv(s)
    ensures Inv(SetTargetSpec(s, now, target))
    ensures IsHomeKitAction(SetTargetSpec(s, now, target).state)
  {
  }

  /**
   * The relay side of a tick: the intent follows the new state, and the
   * lines are those of the written calls (a reprogramming when the intent
   * changed, then each line's `update`).
   */
  lemma TickRelays(s: ShadeFields, now: nat, openRaw: bool, closeRaw: bool)
    requires ValidState(s.state) && Progresses(s, now)
    ensures var s' := TickSpec(s, now, openRaw, closeRaw);
      && s'.output == IntentOf(s'.state)
      && s'.lines == Apply(s.lines, TickCallsAsWritten(s.lines, s'.output != s.output, s'.output), now)
  {
    var s1 := SampleButtons(s, now, openRaw, closeRaw);
    assert s1.lines == s.lines && s1.output == s.output;
    var s2 := Estimate(s1, now, now - s.lastTime);
    assert s2.lines == s.lines && s2.output == s.output;
    var o := IntentOf(s2.state);
    var changed := o != s.output;
    var s3 := Drive(s2, now);
    assert s3.lines == if changed then Apply(s.lines, ProgramAsWritten(s.lines, o), now) else s.lines;
    TickCallsAsWrittenEffect(s.lines, changed, o, now);
  }

  /** The controller side of a tick keeps a valid state, the position in range and the report deadline ahead or disarmed. */
  lemma TickKeepsState(s: ShadeFields, now: nat, openRaw: bool, closeRaw: bool)
    requires Inv(s) && Progresses(s, now)
    ensures var s' := TickSpec(s, now, openRaw, closeRaw);
      && ValidState(s'.state)
      && HomeKitShadeClosedValue <= s'.position <= HomeKitShadeOpenValue
      && (s'.nextPositionUpdateTime == 0 || s'.nextPositionUpdateTime > s'.lastTime > 0)
  {
    var s1 := SampleButtons(s, now, openRaw, closeRaw);
    assert ValidState(s1.state) by { FlagsDecode(s.state); }
    var s2 := Estimate(s1, now, now - s.lastTime);
    assert ValidState(s2.state) && HomeKitShadeClosedValue <= s2.position <= HomeKitShadeOpenValue;
    var s4 := Report(Drive(s2, now), IsMoving(s1.state), now);
    assert s4.nextPositionUpdateTime == 0 || s4.nextPositionUpdateTime > now;
  }

  /**
   * A tick keeps the invariant (position within [0, 100], a valid state, the
   * relay lines with at most one write pending, the report deadline in the
   * future or disarmed), and its relay calls move the direction line under a
   * running motor exactly when the tick reprograms a reversal.
   */
  lemma TickKeepsInvAndRelaysSafe(s: ShadeFields, now: nat, openRaw: bool, closeRaw: bool)
    requires Inv(s)
    ensures var s' := TickSpec(s, now, openRaw, closeRaw);
      && Inv(s')
      && (Progresses(s, now) ==>
            && s'.output == IntentOf(s'.state)
            && s'.lines == Apply(s.lines, TickCallsAsWritten(s.lines, s'.output != s.output, s'.output), now)
            && (SafeRun(s.lines, TickCallsAsWritten(s.lines, s'.output != s.output, s'.output), now) <==>
                  !(s'.output != s.output && Reversal(s.lines, s'.output))))
  {
    if Progresses(s, now) {
      var s' := TickSpec(s, now, openRaw, closeRaw);
      TickRelays(s, now, openRaw, closeRaw);
      TickKeepsState(s, now, openRaw, closeRaw);
      TickCallsAsWrittenSafeIff(s.lines, s'.output != s.output, s'.output, now);
    }
  }

  /**
   * Who wins a tick: a debounced user-open press, then a debounced user-close
   * press (the close button is not even sampled when open wins), and with
   * neither, a user state stops while a HomeKit move goes on until the first
   * tick strictly after its deadline. Only HomeKit moves energise the relays.
   */
  lemma TickArbitration(s: ShadeFields, now: nat, openRaw: bool, closeRaw: bool)
    requires Inv(s) && Progresses(s, now)
    ensures var s' := TickSpec(s, now, openRaw, closeRaw);
      var openPressed := Sample(s.userOpen, now, openRaw).1;
      var closePressed := Sample(s.userClose, now, closeRaw).1;
      && (openPressed ==> s'.state == ShadeStateUserAction | ShadeStateOpening && s'.userClose == s.userClose)
      && (!openPressed && closePressed ==> s'.state == ShadeStateUserAction | ShadeStateClosing)
      && (!openPressed && !closePressed && IsUserAction(s.state) ==> s'.state == 0)
      && (!openPressed && !closePressed && IsHomeKitAction(s.state) ==>
            s'.state == (if now > s.operationEndTime then 0 else s.state))
      && (!openPressed && !closePressed && s.state == 0 ==> s'.state == 0)
      && (s'.output != Idle <==> IsHomeKitAction(s'.state))
  {
    FlagsDecode(s.state);
  }

  /**
   * The position changes only while moving, by the elapsed time at the
   * direction's rate, clamped; a tick that does not progress changes nothing
   * but (on the very first call) `lastTime`.
   */
  lemma TickPosition(s: ShadeFields, now: nat, openRaw: bool, closeRaw: bool)
    requires Inv(s)
    ensures var s' := TickSpec(s, now, openRaw, closeRaw);
      var st := SampleButtons(s, now, openRaw, closeRaw).state;
      && (!Progresses(s, now) ==> s' == s.(lastTime := s'.lastTime))
      && (Progresses(s, now) && IsMoving(st) ==> s'.position == Advance(s.position, IsOpening(st), now - s.lastTime))
      && (Progresses(s, now) && !IsMoving(st) ==> s'.position == s.position)
  {
  }

  /** The output step leaves the reporting state alone, except for arming a disarmed deadline on a change of intent. */
  lemma DriveKeepsReport(s: ShadeFields, now: nat)
    ensures var d := Drive(s, now);
      && d.state == s.state && d.position == s.position
      && d.notifications == s.notifications && d.reportedPosition == s.reportedPosition
      && d.nextPositionUpdateTime ==
           if d.output != s.output && s.nextPositionUpdateTime == 0 then now + UpdateTimeMS else s.nextPositionUpdateTime
  {
  }

  /**
   * The reporting timer: a value is pushed only on a tick at or after an
   * armed deadline, only when it differs from the last one pushed, and it is
   * then the current estimate; a deadline is armed at `now + UpdateTimeMS`
   * only when none is pending, so nothing is pushed for `UpdateTimeMS` after
   * the motion starts. A due deadline is cleared, and re-armed `UpdateTimeMS`
   * ahead only while the sampled state moves, so pushes are at least
   * `UpdateTimeMS` apart; an idle tick leaves a disarmed deadline disarmed.
   */
  lemma ReportingTimer(s: ShadeFields, now: nat, openRaw: bool, closeRaw: bool)
    requires Inv(s) && Progresses(s, now)
    ensures var s' := TickSpec(s, now, openRaw, closeRaw);
      && (s'.notifications != s.notifications ==>
            && s'.notifications == s.notifications + [s'.position]
            && s'.reportedPosition == s'.position != s.reportedPosition
            && 0 < s.nextPositionUpdateTime <= now)
      && (0 < s.nextPositionUpdateTime <= now ==> s'.reportedPosition == s'.position)
      && (s.nextPositionUpdateTime > now ==>
            s'.notifications == s.notifications && s'.nextPositionUpdateTime == s.nextPositionUpdateTime)
      && (s.nextPositionUpdateTime == 0 ==> s'.notifications == s.notifications)
      && (s.nextPositionUpdateTime == 0 && (s'.output != s.output || IsMoving(s'.state)) ==>
            s'.nextPositionUpdateTime == now + UpdateTimeMS)
      && (0 < s.nextPositionUpdateTime <= now ==>
            s'.nextPositionUpdateTime ==
              if IsMoving(SampleButtons(s, now, openRaw, closeRaw).state) then now + UpdateTimeMS else 0)
      && (s.nextPositionUpdateTime == 0 && s'.output == s.output &&
          !IsMoving(SampleButtons(s, now, openRaw, closeRaw).state) ==>
            s'.nextPositionUpdateTime == 0)
  {
    var s1 := SampleButtons(s, now, openRaw, closeRaw);
    var s2 := Estimate(s1, now, now - s.lastTime);
    DriveKeepsReport(s2, now);
  }

  // ---------------------------------------------------------------------
  // Many ticks

  /** Ticks at the given times with neither user button sensed. */
  function RunQuiet(s: ShadeFields, times: seq<nat>): ShadeFields
    decreases |times|
  {
    if |times| == 0 then s else RunQuiet(TickSpec(s, times[0], false, false), times[1..])
  }

  function LastTime(s: ShadeFields, times: seq<nat>): nat
  {
    if |times| == 0 then s.lastTime else times[|times| - 1]
  }

  /** One tick of a HomeKit move before its deadline, with neither button sensed. */
  lemma QuietTick(s: ShadeFields, now: nat)
    requires ValidState(s.state) && IsHomeKitAction(s.state) && Progresses(s, now) && now <= s.operationEndTime
    ensures var s' := TickSpec(s, now, false, false);
      && s'.state == s.state && s'.operationEndTime == s.operationEndTime && s'.lastTime == now
      && s'.position == Advance(s.position, IsOpening(s.state), now - s.lastTime)
  {
    FlagsDecode(s.state);
    var s1 := SampleButtons(s, now, false, false);
    assert s1.state == s.state;
  }

  /**
   * One tick of a HomeKit move before its deadline with any probe readings
   * that do not debounce into a press (a first true reading, or one within
   * 10 ms of it): the move goes on exactly as on a quiet tick, and only the
   * two debounce states take their new values.
   */
  lemma UndebouncedTick(s: ShadeFields, now: nat, openRaw: bool, closeRaw: bool)
    requires ValidState(s.state) && IsHomeKitAction(s.state) && Progresses(s, now) && now <= s.operationEndTime
    requires !Sample(s.userOpen, now, openRaw).1 && !Sample(s.userClose, now, closeRaw).1
    ensures var s' := TickSpec(s, now, openRaw, closeRaw);
      && s'.state == s.state && s'.operationEndTime == s.operationEndTime && s'.lastTime == now
      && s'.position == Advance(s.position, IsOpening(s.state), now - s.lastTime)
      && s'.userOpen == Sample(s.userOpen, now, openRaw).0 && s'.userClose == Sample(s.userClose, now, closeRaw).0
  {
    FlagsDecode(s.state);
    var s1 := SampleButtons(s, now, openRaw, closeRaw);
    assert s1.state == s.state;
  }

  /**
   * A HomeKit move integrates time: over any run of ticks up to its
   * deadline, the estimate is the starting position advanced by the whole
   * elapsed time, however the ticks fall, and the move goes on.
   */
  lemma {:induction false} HomeKitMoveIntegrates(s: ShadeFields, times: seq<nat>)
    requires ValidState(s.state) && IsHomeKitAction(s.state) && s.lastTime > 0
    requires HomeKitShadeClosedValue <= s.position <= HomeKitShadeOpenValue
    requires forall i, j | 0 <= i < j < |times| :: times[i] < times[j]
    requires forall i | 0 <= i < |times| :: s.lastTime < times[i] <= s.operationEndTime
    ensures var r := RunQuiet(s, times);
      && r.state == s.state && r.operationEndTime == s.operationEndTime
      && r.lastTime == LastTime(s, times)
      && r.position == Advance(s.position, IsOpening(s.state), LastTime(s, times) - s.lastTime)
    decreases |times|
  {
    if |times| == 0 {
      assert Advance(s.position, IsOpening(s.state), 0) == s.position;
    } else {
      var s1 := TickSpec(s, times[0], false, false);
      QuietTick(s, times[0]);
      assert LastTime(s1, times[1..]) == LastTime(s, times);
      AdvanceComposes(s.position, IsOpening(s.state), times[0] - s.lastTime, LastTime(s, times) - times[0]);
      assert RunQuiet(s, times) == RunQuiet(s1, times[1..]);
      HomeKitMoveIntegrates(s1, times[1..]);
    }
  }

  /**
   * Scenario: during the move `CloseFromOpenScenario` sets up (closing from
   * fully open, due 10 500 ms later), 5000 ms in the estimate is exactly half
   * open, however the ticks in between fall.
   */
  lemma HalfwayScenario(s: ShadeFields, times: seq<nat>)
    requires Inv(s) && s.position == HomeKitShadeOpenValue && s.lastTime > 0
    requires s.state == ShadeStateHomeKitAction | ShadeStateClosing && s.operationEndTime == s.lastTime + 10500
    requires |times| > 0 && times[|times| - 1] == s.lastTime + 5000
    requires s.lastTime < times[0] && forall i | 0 < i < |times| :: times[i - 1] < times[i]
    ensures RunQuiet(s, times).position == 50.0
  {
    IncreasingBetween(times, s.lastTime, s.operationEndTime);
    assert !IsOpening(s.state) && IsHomeKitAction(s.state);
    assert Advance(s.position, false, LastTime(s, times) - s.lastTime) == 50.0;
    HomeKitMoveIntegrates(s, times);
  }

  /** Times that increase step by step, from after `lo` up to `hi`, increase pairwise and stay in `(lo, hi]`. */
  lemma IncreasingBetween(times: seq<nat>, lo: nat, hi: nat)
    requires |times| > 0 && lo < times[0] && times[|times| - 1] <= hi
    requires forall i | 0 < i < |times| :: times[i - 1] < times[i]
    ensures forall i | 0 <= i < |times| :: lo < times[i] <= hi
    ensures forall i, j | 0 <= i < j < |times| :: times[i] < times[j]
  {
    forall i | 0 <= i < |times| ensures lo < times[i] <= hi {
      Increasing(times, 0, i);
      Increasing(times, i, |times| - 1);
    }
    forall i, j | 0 <= i < j < |times| ensures times[i] < times[j] {
      Increasing(times, i + 1, j);
    }
  }

  lemma {:induction false} Increasing(times: seq<nat>, i: nat, j: nat)
    requires i <= j < |times|
    requires forall k | 0 < k < |times| :: times[k - 1] < times[k]
    ensures times[i] <= times[j]
    decreases j - i
  {
    if i < j {
      Increasing(times, i + 1, j);
    }
  }

  /** One tick of a HomeKit move before its deadline, with neither button sensed: the move goes on and drives the relays. */
  lemma HomeKitTick(s: ShadeFields, now: nat)
    requires ValidState(s.state) && IsHomeKitAction(s.state) && Progresses(s, now) && now <= s.operationEndTime
    ensures var s' := TickSpec(s, now, false, false);
      && s'.state == s.state && s'.operationEndTime == s.operationEndTime && s'.lastTime == now
      && s'.position == Advance(s.position, IsOpening(s.state), now - s.lastTime)
      && s'.output == IntentOf(s.state)
      && s'.lines == Apply(s.lines, TickCallsAsWritten(s.lines, s'.output != s.output, s'.output), now)
  {
    QuietTick(s, now);
    TickRelays(s, now, false, false);
  }

  /** The first steps of `ReversalReachable`: a close from fully open, started at time 1 and ticked at 2. */
  lemma ReversalStart()
    ensures var s1 := TickSpec(InitialShade, 1, false, false);
      var s2 := SetTargetSpec(s1, 1, HomeKitShadeClosedValue);
      var s3 := TickSpec(s2, 2, false, false);
      && s3.state == ShadeStateHomeKitAction | ShadeStateClosing && s3.operationEndTime == 10501
      && s3.lastTime == 2 && s3.output == Close && s3.position == 99.99
      && s3.lines.direction.level && !s3.lines.control.level
      && s3.lines.control.delayed == Some(true) && s3.lines.control.delayedTime == 10
  {
    var s1 := TickSpec(InitialShade, 1, false, false);
    assert s1 == InitialShade.(lastTime := 1);
    var s2 := SetTargetSpec(s1, 1, HomeKitShadeClosedValue);
    PlanAsWrittenShape(s1.position, HomeKitShadeClosedValue, 1);
    assert s2.state == ShadeStateHomeKitAction | ShadeStateClosing;
    assert s2.operationEndTime == 10501 by { CloseFromOpenScenario(1); }
    HomeKitTick(s2, 2);
    ProgramAsWrittenEffect(s2.lines, Close, 2);
    TickCallsAsWrittenEffect(s2.lines, true, Close, 2);
  }

  /** The next step of `ReversalReachable`: at the tick at 20 the pending control write lands and the motor runs. */
  lemma ReversalMotorOn()
    ensures var s1 := TickSpec(InitialShade, 1, false, false);
      var s2 := SetTargetSpec(s1, 1, HomeKitShadeClosedValue);
      var s3 := TickSpec(s2, 2, false, false);
      var s4 := TickSpec(s3, 20, false, false);
      && s4.state == ShadeStateHomeKitAction | ShadeStateClosing && s4.operationEndTime == 10501
      && s4.lastTime == 20 && s4.output == Close && s4.position == 99.81
      && s4.lines.direction.level && s4.lines.control.level
  {
    var s1 := TickSpec(InitialShade, 1, false, false);
    var s2 := SetTargetSpec(s1, 1, HomeKitShadeClosedValue);
    var s3 := TickSpec(s2, 2, false, false);
    ReversalStart();
    HomeKitTick(s3, 20);
    TickCallsAsWrittenEffect(s3.lines, false, Close, 20);
  }

  /**
   * The reversal of `ProgramAsWrittenSafeIff` happens: start at time 1, ask
   * HomeKit to close, let the motor start (the control write pending from the
   * tick at 2 lands at 20), then ask to open again. The tick at 21 goes from
   * Close to Open with the motor running and flips the direction line under it.
   */
  lemma ReversalReachable()
    ensures var s1 := TickSpec(InitialShade, 1, false, false);
      var s2 := SetTargetSpec(s1, 1, HomeKitShadeClosedValue);
      var s3 := TickSpec(s2, 2, false, false);
      var s4 := TickSpec(s3, 20, false, false);
      var s5 := SetTargetSpec(s4, 20, HomeKitShadeOpenValue);
      var s6 := TickSpec(s5, 21, false, false);
      && s5.output == Close && s6.output == Open
      && s5.lines.control.level && s5.lines.direction.level
      && Reversal(s5.lines, Open)
      && !SafeRun(s5.lines, TickCallsAsWritten(s5.lines, true, Open), 21)
      && s6.lines.control.level && !s6.lines.direction.level
  {
    var s1 := TickSpec(InitialShade, 1, false, false);
    var s2 := SetTargetSpec(s1, 1, HomeKitShadeClosedValue);
    var s3 := TickSpec(s2, 2, false, false);
    var s4 := TickSpec(s3, 20, false, false);
    ReversalMotorOn();
    var s5 := SetTargetSpec(s4, 20, HomeKitShadeOpenValue);
    PlanAsWrittenShape(s4.position, HomeKitShadeOpenValue, 20);
    assert s5.state == ShadeStateHomeKitAction | ShadeStateOpening && s5.lines == s4.lines;
    HomeKitTick(s5, 21);
    ProgramAsWrittenEffect(s5.lines, Open, 21);
    TickCallsAsWrittenEffect(s5.lines, true, Open, 21);
    TickCallsAsWrittenSafeIff(s5.lines, true, Open, 21);
  }
}
