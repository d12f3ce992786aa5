/** Names shared by every component of the relayer model. */
module Prelude {

  datatype Option<+T> = None | Some(value: T)

  datatype Result<+T, +E> = Ok(value: T) | Err(error: E)

  /** A 32-byte key, read as a number: only equality of keys matters here. */
  type Pubkey = nat

  type Slot = nat

  /** Instants and durations in nanoseconds, from an arbitrary origin. */
  type Time = nat

  const NANOS_PER_SEC: nat := 1_000_000_000

  const U64_MAX: nat := 0xFFFF_FFFF_FFFF_FFFF

  /** A machine word, and arithmetic on it as a release build does it. */
  type U64 = n: nat | n <= U64_MAX

  const WORD: nat := U64_MAX + 1

  function WrappingAdd(a: U64, b: U64): U64 { (a + b) % WORD }

  function WrappingSub(a: U64, b: U64): U64 { (a - b) % WORD }

  /** `saturating_add_assign!` on `u64` counters. */
  function SaturatingAdd(a: nat, b: nat): nat {
    if a + b <= U64_MAX then a + b else U64_MAX
  }

  /** There is always a number not used yet. */
  lemma {:induction false} Unused(used: set<nat>) returns (n: nat)
    ensures n !in used && forall k :: k in used ==> k < n
  {
    if used == {} {
      n := 0;
    } else {
      var k :| k in used;
      var m := Unused(used - {k});
      n := if m > k then m else k + 1;
      assert forall x :: x in used ==> x == k || x in used - {k};
    }
  }

  /** What `try_send` on a bounded channel can answer. */
  datatype SendOutcome = Sent | Full | Closed

  /**
   * The machine's clock. Time may pass before any reading, by any amount, so a
   * method that reads it several times may see several different instants.
   */
  class Clock {
    var now: Time

    constructor (start: Time)
      ensures now == start
    {
      now := start;
    }

    method Read() returns (t: Time)
      modifies this
      ensures t == now && old(now) <= now
    {
      var passed :| 0 <= passed;
      now := now + passed;
      t := now;
    }
  }
}
