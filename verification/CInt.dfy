/** The C integer conversions the firmware relies on: `uint32_t` wraps modulo
    2^32, and storing a `uint32_t` in an `int` reinterprets its top bit. */
module CInt {
  const TWO31: int := 0x8000_0000
  const TWO32: int := 0x1_0000_0000

  /** A `uint32_t`. */
  type Word = n: int | 0 <= n < 0x1_0000_0000

  /** Conversion to `uint32_t`. */
  function U32(x: int): Word {
    x % TWO32
  }

  /** Conversion from `uint32_t` to `int`. */
  function I32(w: Word): int {
    if w < TWO31 then w else w - TWO32
  }

  /** Storing a `uint32_t` in an `int` and back loses nothing. */
  lemma RoundTripInt(w: Word)
    ensures U32(I32(w)) == w
  {
    if w >= TWO31 { assert w - TWO32 == -1 * TWO32 + w; }
  }

  lemma SmallWord(x: int)
    requires 0 <= x < TWO32
    ensures U32(x) == x
  {
  }

  lemma TimesAtLeast(q: nat, y: nat)
    requires y != 0
    ensures q <= q * y
  {
  }

  lemma QuotientAtMost(x: nat, y: nat)
    requires y != 0
    ensures x / y <= x
  {
    TimesAtLeast(x / y, y);
  }

  /** Subtracting two counter readings recovers the elapsed time whenever it is
      below 2^32, however often the counter wrapped before or in between. */
  lemma ElapsedSurvivesWrap(start: nat, now: nat)
    requires start <= now < start + TWO32
    ensures U32(U32(now) - U32(start)) == now - start
  {
    var p, q := start / TWO32, now / TWO32;
    assert start == p * TWO32 + U32(start) && now == q * TWO32 + U32(now);
    assert now - start == U32(now) - U32(start) + (q - p) * TWO32;
    assert q == p || q == p + 1;
  }
}
