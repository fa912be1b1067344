/**
 * `RVShade`: the controller object. Its methods do what `update()` and
 * `loop()` do, step by step, on its own fields and on its button and pin
 * objects, and each is proved to produce the state `ShadeModel` specifies.
 */
module Shade {
  import opened Wrappers
  import opened Debounce
  import opened Output
  import opened Relay
  import opened ShadeModel

  class RVShade {
    var shadeState: ShadeState
    var currentShadePosition: real
    var nextPositionUpdateTime: nat
    var outputState: OutputState
    var operationEndTime: nat
    /** The `static lastTime` of `loop()`. */
    var lastTime: nat
    /** The value held by the CurrentPosition characteristic, and every value pushed to it. */
    var currentPosition: real
    var notifications: seq<real>

    const userOpenButton: Button
    const userCloseButton: Button
    const controlPin: OutputPin
    const directionPin: OutputPin

    function Relays(): Lines
      reads controlPin, directionPin
    {
      Lines(controlPin.Snapshot(), directionPin.Snapshot())
    }

    function Snapshot(): ShadeFields
      reads this, userOpenButton, userCloseButton, controlPin, directionPin
    {
      ShadeFields(shadeState, currentShadePosition, nextPositionUpdateTime, outputState, operationEndTime,
                  lastTime, currentPosition, notifications,
                  userOpenButton.State(), userCloseButton.State(), Relays())
    }

    ghost predicate Valid()
      reads this, userOpenButton, userCloseButton, controlPin, directionPin
    {
      userOpenButton != userCloseButton && controlPin != directionPin && Inv(Snapshot())
    }

    constructor ()
      ensures Valid() && Snapshot() == InitialShade
      ensures fresh(userOpenButton) && fresh(userCloseButton) && fresh(controlPin) && fresh(directionPin)
    {
      shadeState := 0;
      currentShadePosition := HomeKitShadeOpenValue;
      nextPositionUpdateTime := 0;
      outputState := Idle;
      operationEndTime := 0;
      lastTime := 0;
      currentPosition := HomeKitShadeOpenValue;
      notifications := [];
      userOpenButton := new Button();
      userCloseButton := new Button();
      controlPin := new OutputPin();
      directionPin := new OutputPin();
      new;
      InitialInv();
    }

    /** `update()`: acts only when the TargetPosition characteristic carries a new value. */
    method Update(now: nat, newTarget: Option<real>)
      requires Valid()
      modifies this
      ensures Valid()
      ensures Snapshot() == if newTarget.Some? then SetTargetSpec(old(Snapshot()), now, newTarget.value) else old(Snapshot())
    {
      if newTarget.Some? {
        SetTargetKeepsInv(Snapshot(), now, newTarget.value);
        var targetValue := newTarget.value;
        var moveAmount := targetValue - currentShadePosition;
        var moveTimeMS := MoveTimeMS(currentShadePosition, targetValue);
        operationEndTime := now + moveTimeMS;
        if targetValue == HomeKitShadeClosedValue || targetValue == HomeKitShadeOpenValue {
          operationEndTime := operationEndTime + EndStopExtraTimeMS;
        }
        shadeState := ShadeStateHomeKitAction |
          (if moveAmount > 0.0 then ShadeStateOpening else ShadeStateClosing);
      }
    }

    /** Reprogramming the two relay lines for a new output intent. */
    method ProgramRelays(newOutputState: OutputState, now: nat)
      requires controlPin != directionPin
      modifies controlPin, directionPin
      ensures Relays() == Apply(old(Relays()), ProgramAsWritten(old(Relays()), newOutputState), now)
    {
      ProgramAsWrittenEffect(Relays(), newOutputState, now);
      controlPin.ClearDelayedState();
      directionPin.ClearDelayedState();
      var levels := LevelsFor(newOutputState);
      if levels.direction != directionPin.level && levels.control != controlPin.level {
        if levels.control {
          controlPin.SetState(levels.control, RelaySettlingTimeMS, now);
          directionPin.SetState(levels.direction, 0, now);
        } else {
          controlPin.SetState(levels.control, 0, now);
          directionPin.SetState(levels.direction, RelaySettlingTimeMS, now);
        }
      } else {
        controlPin.SetState(levels.control, 0, now);
        directionPin.SetState(levels.direction, 0, now);
      }
    }

    /** The button step of `loop()`: a debounced open press wins over a close press; otherwise a user move stops. */
    method SampleStep(now: nat, openRaw: bool, closeRaw: bool)
      requires userOpenButton != userCloseButton
      modifies this, userOpenButton, userCloseButton
      ensures Snapshot() == SampleButtons(old(Snapshot()), now, openRaw, closeRaw)
    {
      var openPressed := userOpenButton.Pressed(now, openRaw);
      if openPressed {
        shadeState := ShadeStateUserAction | ShadeStateOpening;
      } else {
        var closePressed := userCloseButton.Pressed(now, closeRaw);
        if closePressed {
          shadeState := ShadeStateUserAction | ShadeStateClosing;
        } else if IsUserAction(shadeState) {
          shadeState := 0;
        }
      }
    }

    /** The estimate step of `loop()` over `elapsed` milliseconds. */
    method EstimateStep(now: nat, elapsed: nat)
      modifies this
      ensures Snapshot() == Estimate(old(Snapshot()), now, elapsed)
    {
      var moving := IsMoving(shadeState);
      var movingOpen := IsOpening(shadeState);
      if moving {
        currentShadePosition := currentShadePosition + elapsed as real * Rate(movingOpen);
        currentShadePosition := Clamp(currentShadePosition);
        if IsHomeKitAction(shadeState) && now > operationEndTime {
          shadeState := 0;
        }
      }
    }

    /** The output step of `loop()`: reprogram the relays when the intent changes. */
    method DriveStep(now: nat)
      requires controlPin != directionPin
      modifies this, controlPin, directionPin
      ensures Snapshot() == Drive(old(Snapshot()), now)
    {
      var newOutputState := IntentOf(shadeState);
      if newOutputState != outputState {
        ProgramRelays(newOutputState, now);
        outputState := newOutputState;
        if nextPositionUpdateTime == 0 {
          nextPositionUpdateTime := now + UpdateTimeMS;
        }
      }
    }

    /** The reporting step of `loop()`; `moving` is whether the shade moved at the start of the tick. */
    method ReportStep(moving: bool, now: nat)
      modifies this
      ensures Snapshot() == Report(old(Snapshot()), moving, now)
    {
      if nextPositionUpdateTime > 0 && now >= nextPositionUpdateTime {
        if currentPosition != currentShadePosition {
          currentPosition := currentShadePosition;
          notifications := notifications + [currentShadePosition];
        }
        nextPositionUpdateTime := 0;
      }
      if moving && nextPositionUpdateTime == 0 {
        nextPositionUpdateTime := now + UpdateTimeMS;
      }
    }

    /** The steps of a tick before the pins' timers: sample, estimate over `elapsed`, drive, report. */
    method TickBody(now: nat, elapsed: nat, openRaw: bool, closeRaw: bool)
      requires userOpenButton != userCloseButton && controlPin != directionPin
      modifies this, userOpenButton, userCloseButton, controlPin, directionPin
      ensures var s1 := SampleButtons(old(Snapshot()), now, openRaw, closeRaw);
        Snapshot() == Report(Drive(Estimate(s1, now, elapsed), now), IsMoving(s1.state), now)
    {
      SampleStep(now, openRaw, closeRaw);
      var moving := IsMoving(shadeState);
      EstimateStep(now, elapsed);
      DriveStep(now);
      ReportStep(moving, now);
    }

    /** The body of `loop()` on a tick that progresses: sample, estimate, drive, report, then run the pins' timers. */
    method Tick(now: nat, openRaw: bool, closeRaw: bool)
      requires userOpenButton != userCloseButton && controlPin != directionPin
      requires Progresses(Snapshot(), now)
      modifies this, userOpenButton, userCloseButton, controlPin, directionPin
      ensures Snapshot() == TickSpec(old(Snapshot()), now, openRaw, closeRaw)
    {
      TickBody(now, now - lastTime, openRaw, closeRaw);
      controlPin.Update(now);
      directionPin.Update(now);
      lastTime := now;
    }

    /** `loop()`: one tick at time `now`, with the raw readings of the user-open and user-close probes. */
    method Loop(now: nat, openRaw: bool, closeRaw: bool)
      requires Valid()
      modifies this, userOpenButton, userCloseButton, controlPin, directionPin
      ensures Valid()
      ensures Snapshot() == TickSpec(old(Snapshot()), now, openRaw, closeRaw)
    {
      TickKeepsInvAndRelaysSafe(Snapshot(), now, openRaw, closeRaw);
      if lastTime == 0 {
        lastTime := now;
      }
      if now > lastTime {
        Tick(now, openRaw, closeRaw);
      }
    }
  }
}
