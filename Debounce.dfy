/**
 * `ButtonBase::pressed`: the debounce state machine shared by the button
 * kinds. The raw probe (`analogRead(pin) > analogInputThreshold` for the
 * analog buttons the shade uses) is passed in as the boolean `raw`, and the
 * clock reading as `now`.
 */
module Debounce {

  /** `debounceTimeMS`: a press must have lasted strictly longer than this. */
  const DebounceTimeMS: nat := 10

  /** The two fields `_pressed` and `_pressTime`. */
  datatype DebounceState = DebounceState(pressed: bool, pressTime: nat)

  /** A button before its first sample (`_pressTime` is then never read). */
  const Released := DebounceState(false, 0)

  /** One call of `pressed()`: the new fields and the reported result. */
  function Sample(s: DebounceState, now: nat, raw: bool): (DebounceState, bool)
  {
    if raw then
      if s.pressed then (s, now - s.pressTime > DebounceTimeMS)
      else (DebounceState(true, now), false)
    else
      (s.(pressed := false), false)
  }

  /** One reading of the probe, taken at `time`. */
  datatype Reading = Reading(time: nat, raw: bool)

  /**
   * Where the trailing run of true readings begins: every reading from the
   * result on is true, and the one just before it (if any) is false.
   */
  function RunStart(rs: seq<Reading>): (j: nat)
    ensures j <= |rs|
    ensures forall k | j <= k < |rs| :: rs[k].raw
    ensures j == 0 || !rs[j - 1].raw
  {
    if rs == [] || !rs[|rs| - 1].raw then |rs|
    else RunStart(rs[..|rs| - 1])
  }

  /**
   * Reference definition of a debounced press: the latest reading is true, it
   * is not the first reading of its run, and more than `DebounceTimeMS` has
   * passed since the run's first reading.
   */
  ghost predicate Held(rs: seq<Reading>)
  {
    var j := RunStart(rs);
    j < |rs| - 1 && rs[|rs| - 1].time - rs[j].time > DebounceTimeMS
  }

  /** The state after a freshly constructed button is sampled with `rs`, and the last result. */
  function Replay(rs: seq<Reading>): (DebounceState, bool)
  {
    if rs == [] then (Released, false)
    else
      var last := rs[|rs| - 1];
      Sample(Replay(rs[..|rs| - 1]).0, last.time, last.raw)
  }

  /**
   * The state machine implements the reference definition: after any history
   * of readings the button is armed exactly when the latest reading is true,
   * its press time is the first reading of the current run, and it reports a
   * press exactly when `Held` says so. Any false reading therefore resets the
   * run, and the first true reading of a run never reports a press.
   */
  lemma {:induction false} ReplayMatchesHeld(rs: seq<Reading>)
    ensures Replay(rs).0.pressed <==> RunStart(rs) < |rs|
    ensures RunStart(rs) < |rs| ==> Replay(rs).0.pressTime == rs[RunStart(rs)].time
    ensures Replay(rs).1 <==> Held(rs)
  {
    if rs != [] {
      var init := rs[..|rs| - 1];
      ReplayMatchesHeld(init);
      if rs[|rs| - 1].raw {
        assert RunStart(rs) == RunStart(init);
      }
    }
  }

  /** A button object: `ButtonBase` with its two mutable fields. */
  class Button {
    var pressed: bool
    var pressTime: nat

    function State(): DebounceState
      reads this
    {
      DebounceState(pressed, pressTime)
    }

    constructor ()
      ensures State() == Released
    {
      pressed, pressTime := false, 0;
    }

    /** `pressed()`: debounces one reading of the probe. */
    method Pressed(now: nat, raw: bool) returns (result: bool)
      modifies this
      ensures (State(), result) == Sample(old(State()), now, raw)
      ensures !raw ==> !result && !pressed
      ensures raw && !old(pressed) ==> !result && pressed && pressTime == now
      ensures result <==> raw && old(pressed) && now - old(pressTime) > DebounceTimeMS
    {
      result := false;
      if raw {
        if pressed {
          result := now - pressTime > DebounceTimeMS;
        } else {
          pressed := true;
          pressTime := now;
        }
      } else {
        pressed := false;
      }
    }
  }
}
