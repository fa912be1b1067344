/**
 * `millis64`: extends the wrapping 32-bit millisecond counter of the board
 * into a 64-bit one by counting roll-overs in a second 32-bit word.
 * The hardware reading `millis()` is passed in as `reading`.
 */
module Clock {

  const Two32: nat := 0x1_0000_0000

  /** The 64-bit value `(uint64_t) high32 << 32 | low32`; `low32 < 2^32`, so `|` is `+`. */
  function Combine(high32: nat, low32: nat): (t: nat)
    requires high32 < Two32 && low32 < Two32
    ensures t < Two32 * Two32
    ensures t / Two32 == high32 && t % Two32 == low32
  {
    high32 * Two32 + low32
  }

  /** The new high word: it goes up by one (wrapping as a uint32) exactly when the reading went down. */
  function NextHigh(high32: nat, low32: nat, reading: nat): nat
    requires high32 < Two32
  {
    if reading < low32 then (high32 + 1) % Two32 else high32
  }

  /**
   * Across at most one wrap of the 32-bit counter, the extended clock moves
   * forward by exactly the time that passed, `(reading - low32) mod 2^32`;
   * in particular it never goes backwards (until the high word itself wraps).
   */
  lemma ExtendTracksElapsed(high32: nat, low32: nat, reading: nat)
    requires high32 + 1 < Two32 && low32 < Two32 && reading < Two32
    ensures Combine(NextHigh(high32, low32, reading), reading) >= Combine(high32, low32)
    ensures Combine(NextHigh(high32, low32, reading), reading) - Combine(high32, low32)
            == (reading - low32) % Two32
  {
    if reading < low32 {
      assert (reading - low32) % Two32 == reading - low32 + Two32;
    } else {
      assert (reading - low32) % Two32 == reading - low32;
    }
  }

  /** The two `static` words of `millis64`. */
  class Millis64 {
    var low32: nat
    var high32: nat

    ghost predicate Valid()
      reads this
    {
      low32 < Two32 && high32 < Two32
    }

    function Value(): nat
      reads this
      requires Valid()
    {
      Combine(high32, low32)
    }

    constructor ()
      ensures Valid() && low32 == 0 && high32 == 0
    {
      low32, high32 := 0, 0;
    }

    /** One call of `millis64()` that finds the hardware counter at `reading`. */
    method Read(reading: nat) returns (t: nat)
      requires Valid() && reading < Two32
      modifies this
      ensures Valid()
      ensures high32 == NextHigh(old(high32), old(low32), reading) && low32 == reading
      ensures t == Value()
      ensures old(high32) + 1 < Two32 ==> t >= old(Value()) && t - old(Value()) == (reading - old(low32)) % Two32
    {
      if reading < low32 {
        high32 := (high32 + 1) % Two32;
      }
      if old(high32) + 1 < Two32 {
        ExtendTracksElapsed(old(high32), old(low32), reading);
      }
      low32 := reading;
      t := Combine(high32, low32);
    }
  }
}
