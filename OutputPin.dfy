/**
 * `OutputPin`: one digital output line that remembers its level, writes the
 * hardware only when the level changes, and holds at most one pending
 * ("delayed") level with the time after which it takes effect.
 * `digitalWrite` is modelled by appending the written level to `writes`, and
 * the time of the latest hardware write is kept in `changedAt`.
 */
module Output {
  import opened Wrappers

  /**
   * The line's fields `_state`, `_delayedState` (None for -1) and
   * `_delayedStateTime`, the time its level last changed, and its write history.
   */
  datatype Pin = Pin(level: bool, delayed: Option<bool>, delayedTime: nat, changedAt: nat, writes: seq<bool>)

  /** The line as the constructor leaves it: `setPin(LOW)` wrote LOW once, nothing pending. */
  const Initial := Pin(false, None, 0, 0, [false])

  /** `setPin` at time `now`: drives the line to `level`, touching the hardware only if the level changes. */
  function Written(p: Pin, level: bool, now: nat): (r: Pin)
    ensures r.level == level
    ensures r.writes == p.writes <==> level == p.level
    ensures r.writes == p.writes || r.writes == p.writes + [level]
    ensures r.changedAt == p.changedAt || (r.changedAt == now && level != p.level)
    ensures r.delayed == p.delayed && r.delayedTime == p.delayedTime
  {
    if level != p.level then p.(level := level, changedAt := now, writes := p.writes + [level]) else p
  }

  /** `setState`: a nonzero `delay` only records the level as pending until `now + delay`. */
  function Scheduled(p: Pin, level: bool, delay: nat, now: nat): Pin
  {
    if delay != 0 then p.(delayed := Some(level), delayedTime := now + delay)
    else Written(p, level, now)
  }

  /** `clearDelayedState`: drops the pending level without applying it. */
  function Cleared(p: Pin): Pin
  {
    p.(delayed := None)
  }

  /** `update`: applies the pending level once `now` is strictly past its time, then drops it. */
  function Updated(p: Pin, now: nat): Pin
  {
    if p.delayed.Some? && now > p.delayedTime then Cleared(Written(p, p.delayed.value, now))
    else p
  }

  /** Writing a level twice writes the hardware at most once. */
  lemma WrittenIdempotent(p: Pin, level: bool, now: nat, later: nat)
    ensures Written(Written(p, level, now), level, later) == Written(p, level, now)
    ensures |Written(p, level, now).writes| <= |p.writes| + 1
  {
  }

  /**
   * A delayed `setState` leaves the level and the hardware alone and replaces
   * any earlier pending level; the pending level shows only on an `update`
   * strictly after `now + delay`, and a `clearDelayedState` before then
   * discards it.
   */
  lemma DelayedWrite(p: Pin, level: bool, delay: nat, now: nat, t: nat)
    requires delay > 0
    ensures var q := Scheduled(p, level, delay, now);
      && q.level == p.level && q.writes == p.writes && q.changedAt == p.changedAt
      && q.delayed == Some(level) && q.delayedTime == now + delay
      && (t <= now + delay ==> Updated(q, t) == q)
      && (t > now + delay ==> Updated(q, t) == Written(p, level, t).(delayed := None, delayedTime := now + delay))
      && Updated(Cleared(q), t) == Cleared(q)
  {
  }

  /** A line object. */
  class OutputPin {
    var level: bool
    var delayed: Option<bool>
    var delayedTime: nat
    var changedAt: nat
    var writes: seq<bool>

    function Snapshot(): Pin
      reads this
    {
      Pin(level, delayed, delayedTime, changedAt, writes)
    }

    constructor ()
      ensures Snapshot() == Initial
    {
      delayed, delayedTime := None, 0;
      level, changedAt, writes := false, 0, [false];
    }

    method SetPin(newLevel: bool, now: nat)
      modifies this
      ensures Snapshot() == Written(old(Snapshot()), newLevel, now)
    {
      if newLevel != level {
        writes := writes + [newLevel];
        level := newLevel;
        changedAt := now;
      }
    }

    method SetState(newLevel: bool, delay: nat, now: nat)
      modifies this
      ensures Snapshot() == Scheduled(old(Snapshot()), newLevel, delay, now)
    {
      if delay != 0 {
        delayed := Some(newLevel);
        delayedTime := now + delay;
      } else {
        SetPin(newLevel, now);
      }
    }

    method ClearDelayedState()
      modifies this
      ensures Snapshot() == Cleared(old(Snapshot()))
    {
      delayed := None;
    }

    method Update(now: nat)
      modifies this
      ensures Snapshot() == Updated(old(Snapshot()), now)
    {
      if delayed.Some? && now > delayedTime {
        SetPin(delayed.value, now);
        ClearDelayedState();
      }
    }
  }
}
