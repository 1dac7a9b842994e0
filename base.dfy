/** Shared vocabulary: the firmware's 32-bit `unsigned long` millisecond
    arithmetic and an Option type. */
module Base {

  /** 2^32: the modulus of an ESP32 `unsigned long`. */
  const TWO_32: int := 0x1_0000_0000

  /** A value of a 32-bit `unsigned long` (millis(), on-time counters). */
  type U32 = x: int | 0 <= x < 0x1_0000_0000

  datatype Option<+T> = None | Some(value: T)

  /** Unsigned subtraction `a - b` of two `unsigned long`s: wraps modulo 2^32. */
  function Sub32(a: U32, b: U32): (r: U32)
    ensures (b + r) % TWO_32 == a
    ensures b <= a ==> r == a - b
    ensures a < b ==> r == a - b + TWO_32
  {
    if b <= a then a - b else a - b + TWO_32
  }

  /** Unsigned `a += d` on an `unsigned long`: wraps modulo 2^32. */
  function Add32(a: U32, d: U32): (r: U32)
    ensures a + d < TWO_32 ==> r == a + d
    ensures TWO_32 <= a + d ==> r == a + d - TWO_32
  {
    (a + d) % TWO_32
  }

  /** The wrap-safe difference undoes a wrapping addition. */
  lemma AddSubInverse(a: U32, d: U32)
    ensures Sub32(Add32(a, d), a) == d
  {
  }

  /** Folding an unwrapped increment into a wrapped counter is the same as
      wrapping the unwrapped sum. */
  lemma ModAdd(total: int, d: U32)
    ensures Add32(total % TWO_32, d) == (total + d) % TWO_32
  {
    var q := total / TWO_32;
    var r := total % TWO_32;
    assert total == q * TWO_32 + r;
    assert total + d == q * TWO_32 + (r + d);
    if r + d < TWO_32 {
      assert (total + d) % TWO_32 == r + d;
    } else {
      assert total + d == (q + 1) * TWO_32 + (r + d - TWO_32);
      assert (total + d) % TWO_32 == r + d - TWO_32;
    }
  }

  /** Wrap-safe elapsed time: as long as less than 2^32 ms (about 49.7 days)
      pass between two readings of the free-running clock, the unsigned
      difference of the wrapped readings is the true elapsed time, even
      across a rollover of the counter. */
  lemma ElapsedExact(t0: nat, t1: nat)
    requires t0 <= t1 < t0 + TWO_32
    ensures Sub32(t1 % TWO_32, t0 % TWO_32) == t1 - t0
  {
    var q := t0 / TWO_32;
    var r0 := t0 % TWO_32;
    assert t0 == q * TWO_32 + r0;
    var d := t1 - t0;
    if r0 + d < TWO_32 {
      assert t1 == q * TWO_32 + (r0 + d);
      assert t1 % TWO_32 == r0 + d;
    } else {
      assert t1 == (q + 1) * TWO_32 + (r0 + d - TWO_32);
      assert t1 % TWO_32 == r0 + d - TWO_32;
    }
  }
}
