# RV-Shade motion controller, modelled in Dafny

RV-Shade is firmware for a HomeKit window covering that drives a motorised RV
shade. The motor is driven through two relays:

- the **control** line switches the motor on and off;
- the **direction** line chooses between opening and closing.

There are no position sensors. The controller estimates the shade's position
from the time the motor has run, and it reports that estimate to HomeKit.
Two analog "user" probes (src/main.cpp:28-29) sense the wall switch. A
sensed press moves only the estimate: the firmware tracks that motion, and
the relays run only for HomeKit moves (src/main.cpp:369-374).

This project models the motion core of `src/main.cpp` and proves properties of
it:

- `Clock` models `millis64()`, which turns the wrapping 32-bit millisecond
  counter into a 64-bit clock.
- `Debounce` models `ButtonBase::pressed()`, the debounce state machine.
  Its class `Button` holds the two fields.
- `Output` models `OutputPin`: one output line that writes the hardware only
  when its level changes, and that holds at most one pending ("delayed")
  level. The class `OutputPin` has the source's three fields, a write
  history that stands for `digitalWrite`, and `changedAt`, the time the
  level last changed. `changedAt` is not in the source. It is kept so that
  the relay settling time can be stated.
- `Relay` models the calls `loop()` makes on the two relay lines as a value,
  a sequence of pin calls. This lets the model state and check the order and
  the timing of the hardware writes. Two rules are checked:
  - the safety rule: the direction line may change only while the control
    line is LOW;
  - the settling rule, the safety rule with time added: the direction line
    moves only more than 8 ms (`relaySettlingTimeMS`) after the motor went
    off, and the motor starts only more than 8 ms after the direction line
    last moved. The comments at src/main.cpp:399 and :403 state this aim.

  `Relay` holds both the calls as written and a corrected sequencing (see
  Findings below). The corrected sequencing is kept separate: the controller
  runs the calls as written.
- `ShadeModel` models `RVShade` as values:
  - the flag-set state;
  - the position estimate;
  - the effect of a new HomeKit target (`update()`);
  - one pass of `loop()`, split into sampling, estimating, driving the relays
    and reporting;
  - the invariant a tick keeps.
- `Shade` holds the class `RVShade`. It has the source's fields, its two
  `Button`s and its two `OutputPin`s. Its methods `Update` and `Loop` do what
  `update()` and `loop()` do, step by step, in the source's order. Each is
  proved to produce exactly the state that `ShadeModel` specifies.

Time is a `nat` parameter `now`. It is the value `millis64()` returns at the
start of the call. A press needs its run of readings to span strictly more
than 10 ms (src/main.cpp:205). Positions are `real` percentages, where 100 is
open and 0 is closed.

## Model

| member | source | states |
|---|---|---|
| Clock.Combine | src/main.cpp:93 | The 64-bit value splits back into its two 32-bit words: the quotient by 2^32 is the high word and the remainder is the low word. |
| Clock.ExtendTracksElapsed | src/main.cpp:84-94 | Across at most one wrap of the hardware counter, the extended clock never goes back. It advances by exactly the elapsed time modulo 2^32. |
| Clock.Millis64.Read | src/main.cpp:84-94 | One call stores the reading as the low word and increments the high word (mod 2^32) exactly when the reading went down. It returns the combined value, which advances by the elapsed time. |
| Debounce.Button.Pressed | src/main.cpp:198-216 | A false reading disarms the button. The first true reading arms it with the current time and reports nothing. A later true reading reports a press exactly when more than 10 ms have passed since arming. |
| Debounce.ReplayMatchesHeld | src/main.cpp:198-216 | After any history of readings, the state machine agrees with the reference definition `Held`. It is armed exactly while the latest run of true readings lasts, and its press time is the first reading of that run. It reports a press exactly when the run has more than one reading and spans more than 10 ms. |
| Output.Written | src/main.cpp:276-281 | `setPin` sets the level and leaves the pending write alone. It appends to the hardware write history, and moves `changedAt` to `now`, exactly when the level changes. |
| Output.WrittenIdempotent | src/main.cpp:276-281 | Writing the same level twice is the same as writing it once, and a write adds at most one hardware write. |
| Output.DelayedWrite | src/main.cpp:247-266 | A delayed `setState` changes neither the level nor the hardware. It replaces any pending level and deadline. An `update` at or before the deadline does nothing, and one strictly after it applies the level and clears the pending write. A `clearDelayedState` makes later updates do nothing. |
| Output.OutputPin.constructor | src/main.cpp:242-245 | A new line stands LOW with one LOW write made and nothing pending. |
| Output.OutputPin.SetPin | src/main.cpp:276-281 | The object's new fields are `Written` applied to the old fields at `now`. |
| Output.OutputPin.SetState | src/main.cpp:247-255 | With a delay, only the pending level and deadline change. Without one, the level is written. |
| Output.OutputPin.ClearDelayedState | src/main.cpp:257-259 | Only the pending write is dropped. |
| Output.OutputPin.Update | src/main.cpp:261-266 | A pending level is applied and dropped exactly when `now` is strictly past its deadline. |
| Relay.LevelsFor | src/main.cpp:385-396 | The control line is HIGH exactly for Open and Close. The direction line is HIGH exactly for Close. |
| Relay.SettledRunIsSafe | src/main.cpp:398-406 | Calls that keep the settling rule keep the safety rule. |
| Relay.ProgramAsWrittenEffect | src/main.cpp:376-411 | The lines after a reprogramming as written, case by case. Both pending writes are dropped first. When both lines change, the direction is written at once and the motor starts 8 ms later, or the motor stops at once and the direction moves 8 ms later. Otherwise both lines are written at once. At most one write is left pending, and a pending direction write has the motor off. |
| Relay.ProgramAsWrittenSafeIff | src/main.cpp:376-411 | The reprogramming as written keeps the safety rule exactly when the change is not a reversal while the motor runs. A reversal is Open to Close or back, with the control line HIGH. |
| Relay.UpdatesAsWrittenSafe | src/main.cpp:436-437 | With at most one write pending, the per-tick updates (control first, then direction) keep the safety rule and leave at most one write pending. |
| Relay.TickCallsAsWrittenEffect | src/main.cpp:376-437 | The relay calls of a tick leave each line as the reprogramming (if the intent changed) followed by that line's `update`. |
| Relay.TickCallsAsWrittenSafeIff | src/main.cpp:376-437 | With at most one write pending, a tick's relay calls keep the safety rule exactly when the tick does not reprogram a reversal. At most one write stays pending. |
| Relay.ProgramAsWrittenReachesLevels | src/main.cpp:379-437 | After a reprogramming and an update more than 8 ms later, both lines stand at the levels the intent asks for, with nothing pending. |
| Relay.ProgramAsWrittenSkipsSettling | src/main.cpp:398-411 | The 8 ms settling holds only within one reprogramming. Open to Idle, then Close 1 ms later, moves the direction line 1 ms after the motor stopped. A stopped close move whose direction write has landed, then Open 1 ms later, starts the motor 1 ms after the direction moved. |
| Relay.ProgramEffect | src/main.cpp:376-411 | The lines after a corrected reprogramming, case by case. A change of direction after the motor has been off for more than 8 ms is the written one: the direction is written at once and a start follows 8 ms later. Any other change of direction stops the motor at once, moves the direction 8 ms later, and schedules a restart 16 ms later. Without a change of direction, the motor starts at once only if the direction line has settled, and 8 ms later otherwise. |
| Relay.ProgramMatchesWritten | src/main.cpp:398-411 | The corrected reprogramming makes exactly the written calls unless the direction changes before the motor has been off for more than 8 ms, or the motor is to start within 8 ms of the direction line's last change. |
| Relay.ProgramSettled | src/main.cpp:398-411 | From `Settled` lines, a corrected reprogramming keeps the settling rule and leaves the lines `Settled`: a pending direction write has the motor off and falls due at least 8 ms after the motor went off. |
| Relay.UpdatesSettled | src/main.cpp:436-437 | From `Settled` lines, the corrected updates keep the settling rule and leave the lines `Settled`. The direction line updates first, and the control line updates only once the direction line has settled. |
| Relay.TickCallsSettled | src/main.cpp:376-437 | From `Settled` lines, a corrected tick keeps the settling rule, and so the safety rule, reversals included. It leaves the lines `Settled`. |
| Relay.ProgramReachesLevels | src/main.cpp:379-437 | After a corrected reprogramming, an update more than 16 ms later and another more than 8 ms after that, both lines stand at the levels the intent asks for, with nothing pending. |
| ShadeModel.FlagsDecode | src/main.cpp:56-61 | The user-action flag is bit 0 (`1 < 5` is a comparison). Every state the controller reaches has exactly one source (user or HomeKit) when it moves, is moving exactly when nonzero, and has at most one direction. |
| ShadeModel.Clamp | src/main.cpp:359 | The result lies in [0, 100]. It equals the input inside that range and the nearer end outside it. |
| ShadeModel.AdvanceComposes | src/main.cpp:354-360 | Advancing the estimate over two intervals in one direction, clamping after each, is the same as advancing once over their sum. |
| ShadeModel.MoveTimeBounds | src/main.cpp:319 | The move time is the travel time for the distance (100 ms per percent), truncated, so it loses less than 1 ms. |
| ShadeModel.PlanAsWrittenShape | src/main.cpp:313-331 | A target sets a moving HomeKit state. It opens exactly when the target is strictly above the estimate, so a target equal to the estimate closes. Its deadline is the move time plus 500 ms for an end-stop target. |
| ShadeModel.PlanAsWrittenLeavesOpenEndStop | src/main.cpp:313-331 | As written, asking for 100 at position 100 sets HomeKit-closing for the 500 ms end-stop grace. 500 ms of travel reach 95, and the move ends only on a later tick, so the estimate ends below 95. |
| ShadeModel.PlanAsWrittenMatchesPlan | src/main.cpp:313-331 | With the estimate in [0, 100], the plan as written equals the corrected plan exactly unless the target and the estimate are both 100. |
| ShadeModel.PlanAsWrittenReachesTarget | src/main.cpp:313-331 | Apart from that one case, moving in the planned direction until the deadline reaches an end-stop target exactly, and any other target to within one millisecond of travel, from the correct side. |
| ShadeModel.PlanShape | src/main.cpp:313-331 | A corrected target sets a moving HomeKit state. It opens exactly when the target is above the estimate or is the open end stop. Its deadline is the move time plus 500 ms for an end-stop target. |
| ShadeModel.PlanReachesTarget | src/main.cpp:313-331 | Moving in the planned direction until the deadline reaches an end-stop target exactly, and any other target to within one millisecond of travel, from the correct side. |
| ShadeModel.CloseFromOpenScenario | src/main.cpp:313-331 | From fully open, a request to close fully is a HomeKit close due 10 500 ms later. |
| ShadeModel.InitialInv | src/main.cpp:292-311 | The freshly built controller satisfies the invariant. |
| ShadeModel.SetTargetKeepsInv | src/main.cpp:313-331 | A new target keeps the invariant and always leaves a HomeKit action. |
| ShadeModel.TickRelays | src/main.cpp:367-437 | On a progressing tick the output is the intent of the new state, and the lines are those the tick's written relay calls leave. |
| ShadeModel.TickKeepsState | src/main.cpp:343-434 | A progressing tick keeps a valid state, the position in [0, 100], and a report deadline that is disarmed or in the future. |
| ShadeModel.TickKeepsInvAndRelaysSafe | src/main.cpp:335-443 | A tick keeps the invariant: a valid state, the position in [0, 100], at most one relay write pending, and a report deadline that is disarmed or in the future. On a progressing tick the output is the intent of the new state, and the tick's relay calls keep the safety rule exactly when the tick does not reprogram a reversal. |
| ShadeModel.TickArbitration | src/main.cpp:343-374 | A debounced open press wins, and the close probe is then not sampled. Otherwise a debounced close press wins. With neither, a user move stops, and a HomeKit move stops only on a tick strictly after its deadline. The relays run exactly for HomeKit moves. |
| ShadeModel.TickPosition | src/main.cpp:336-365 | A tick that does not progress changes nothing but the first `lastTime`. A progressing tick moves the estimate only while the sampled state moves, by the elapsed time at that direction's rate, clamped. |
| ShadeModel.DriveKeepsReport | src/main.cpp:376-418 | The output step changes neither the state, the estimate nor what was reported. On a change of intent it arms a disarmed report deadline. |
| ShadeModel.ReportingTimer | src/main.cpp:420-434 | A value is pushed only at or after an armed deadline, only if it differs from the current one, and it is the estimate. Nothing is pushed before a pending deadline. A deadline is armed 500 ms ahead when a move starts. |
| ShadeModel.QuietTick | src/main.cpp:343-365 | A tick with no button pressed during a HomeKit move, up to its deadline, keeps the move. It advances the estimate by the elapsed time. |
| ShadeModel.UndebouncedTick | src/main.cpp:343-365 | A tick during a HomeKit move, up to its deadline, whose probe readings do not debounce into a press, keeps the move and advances the estimate by the elapsed time, as a quiet tick does. Only the debounce states change besides. |
| ShadeModel.HomeKitMoveIntegrates | src/main.cpp:354-365 | Over any increasing run of ticks up to the deadline, the estimate is the start position advanced by the whole elapsed time, however the ticks fall. The move goes on. |
| ShadeModel.HalfwayScenario | src/main.cpp:354-365 | Closing from fully open, the estimate is exactly 50 after 5000 ms, whatever ticks come in between. |
| ShadeModel.HomeKitTick | src/main.cpp:343-437 | A tick with no button pressed during a HomeKit move, up to its deadline, keeps the move, advances the estimate, and drives the relays by the written calls. |
| ShadeModel.ReversalStart | src/main.cpp:313-437 | From power-up, a close requested at time 1 and ticked at 2 writes the direction HIGH and leaves the motor start pending until after 10. |
| ShadeModel.ReversalMotorOn | src/main.cpp:343-437 | The tick at 20 starts the motor: both lines are HIGH. |
| ShadeModel.ReversalReachable | src/main.cpp:313-437 | The reversal is reachable from power-up: ask to close, let the motor run, then ask to open. The tick at 21 breaks the safety rule and leaves the direction line LOW with the motor on. |
| Shade.RVShade.constructor | src/main.cpp:292-311 | The new controller is the initial state, and it satisfies the invariant. |
| Shade.RVShade.Update | src/main.cpp:313-331 | With a new target, the controller's state becomes `SetTargetSpec` of the old state. Without one, nothing changes. The invariant is kept. |
| Shade.RVShade.ProgramRelays | src/main.cpp:379-411 | The two pin objects end as the written call sequence `ProgramAsWritten` leaves the lines. |
| Shade.RVShade.SampleStep | src/main.cpp:344-352 | The state after sampling is `SampleButtons` of the old state. |
| Shade.RVShade.EstimateStep | src/main.cpp:354-365 | The state after estimating is `Estimate` of the old state. |
| Shade.RVShade.DriveStep | src/main.cpp:367-418 | The state after the output step is `Drive` of the old state. |
| Shade.RVShade.ReportStep | src/main.cpp:420-434 | The state after reporting is `Report` of the old state. |
| Shade.RVShade.TickBody | src/main.cpp:343-434 | Sampling, estimating, the output step and reporting leave the controller in `Report(Drive(Estimate(SampleButtons(...))))` of its old state, in the source's order. |
| Shade.RVShade.Tick | src/main.cpp:343-442 | A progressing tick leaves the controller in `TickSpec` of its old state, updating the control pin before the direction pin. |
| Shade.RVShade.Loop | src/main.cpp:335-443 | Every call leaves the controller in `TickSpec` of its old state, and it keeps the invariant. |

## Left out

- HomeSpan, the accessory and characteristic set-up, Wi-Fi, the NeoPixel
  status indicator (`updateIndicator`), serial logging and `setup()`/the
  global `loop()` are not modelled. They are I/O or belong to the HomeKit
  library.
- The hardware is not modelled:
  - `millis()` is the `reading` parameter of `Clock.Millis64.Read`;
  - the analog probe `analogRead(pin) > analogInputThreshold` is the boolean
    `raw`;
  - `digitalWrite` is an entry appended to a pin's write history.
- The TargetPosition characteristic is an `Option<real>` argument of
  `Update`. The CurrentPosition characteristic is the `reportedPosition`
  field plus the list of pushed values.
- Shade.RVShade.Update: HomeKit limits targets to [0, 100]. The model accepts
  any real target, as the code does, and proves `PlanAsWrittenReachesTarget`
  and `PlanReachesTarget` only for targets in that range.
- Time is read once per call. `now` stands for `millis64()` in `loop()`
  (src/main.cpp:337) and in `update()` (:315). The further reads within a
  tick are taken to return the same `now`: the one in `pressed()` (:203) and
  the one in a delayed `setState` (:250). The few milliseconds that may pass
  within one tick are not modelled.
- Output.OutputPin.constructor: `_state` starts at -1 and becomes LOW at once
  through `setPin(LOW)`. The model's level is a boolean that starts LOW after
  that first write.
- Shade.RVShade.constructor: `_operationEndTime` is left uninitialised in the
  source. The model starts it at 0; it is read only after `update()` has set
  it.
- Shade.RVShade.Loop: positions are exact reals, not `float`. Rounding of
  the per-millisecond rates and of the accumulated estimate is not modelled.
- Clock.Millis64.Read: the 64-bit result is exact. The wrap of the high word
  after 2^64 ms is modelled only as `uint32` arithmetic on that word, and the
  elapsed-time property is stated only before it wraps.
- Debounce.Button.Pressed: `curTime - _pressTime` is a `uint64` difference in
  the source. The model uses the integer difference, which agrees while time
  increases.
- ShadeModel.MoveTimeMS: the conversion to `uint32` of the travel time
  cannot overflow for the 10 s travel times, so its wrap is not modelled.
- `update()` always returns true. The model's `Update` has no result.
- Features the code does not have are not in the model:
  - `ButtonDigital` is defined but never built. The shade builds only
    `ButtonAnalog`s (src/main.cpp:288-289, 306-307).
  - Targets are not clamped: `update()` uses the new value as it is
    (src/main.cpp:317-319).
  - There is no hold request and no re-check before a HomeKit move ends. The
    move ends on the first tick strictly after its deadline (src/main.cpp:361).
  - Copying the position back into the target after a user move is commented
    out (src/main.cpp:425-427).
- `RunQuiet` and the lemmas over many ticks (`HomeKitMoveIntegrates`,
  `HalfwayScenario`) cover only ticks with both probes reading false. A
  HomeKit move also goes on through ticks where a probe reads true but has
  not yet debounced into a press (src/main.cpp:204-209, 344-352). Such a
  tick is covered one at a time by `UndebouncedTick`, not in runs of ticks.

## Findings

| source | as written | input that shows it | evidently intended | confidence | as-written member | corrected member |
|---|---|---|---|---|---|---|
| src/main.cpp:398-411 | A change of intent that flips only the direction line writes both lines at once. This includes HomeKit Open straight to Close (or back) while the control line is HIGH, so the direction relay switches under a running motor. | Close until the motor runs, then ask for open: control HIGH, direction HIGH, new intent Open. | Stop the motor, move the direction line after the 8 ms settling time, then restart the motor once the direction has settled. | high (not executed) | Relay.ProgramAsWrittenSafeIff | Relay.TickCallsSettled |
| src/main.cpp:398-411 | The 8 ms settling delays apply only when both lines change in one reprogramming. A reprogramming that changes one line writes it at once, however recently the other line changed. | Open to Idle at t, then Close at t + 1: the direction moves 1 ms after the motor stopped. | The direction moves only more than 8 ms after the motor stopped, and the motor starts only more than 8 ms after the direction moved. | medium (not executed) | Relay.ProgramAsWrittenSkipsSettling | Relay.TickCallsSettled |
| src/main.cpp:318-327 | The move direction is Opening only when `moveAmount > 0`. A request for 100 while the estimate is already 100 sets HomeKit-closing for the 500 ms end-stop grace. | Position 100, target 100: the shade closes to just below 95 (94.99 with 1 ms ticks). | An open end-stop request opens, or stays put. | high (not executed) | ShadeModel.PlanAsWrittenLeavesOpenEndStop | ShadeModel.PlanReachesTarget |
