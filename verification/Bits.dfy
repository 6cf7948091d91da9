/** Bytes on the wire, least significant bit first. */
module Bits {
  function Mask(k: nat): bv8
    requires k < 8
  {
    if k == 0 then 0x01 else if k == 1 then 0x02 else if k == 2 then 0x04 else if k == 3 then 0x08
    else if k == 4 then 0x10 else if k == 5 then 0x20 else if k == 6 then 0x40 else 0x80
  }

  predicate Bit(b: bv8, k: nat)
    requires k < 8
  {
    b & Mask(k) != 0
  }

  /** The payload complement of inverted mode. */
  function Flip(invert: bool, b: bv8): bv8 {
    if invert then !b else b
  }

  /** Inverted mode complements every bit, the other mode none. */
  lemma FlipBits(invert: bool, b: bv8, k: nat)
    requires k < 8
    ensures Bit(Flip(invert, b), k) == (invert != Bit(b, k))
  {
    assert !b & Mask(k) == !(b & Mask(k)) & Mask(k);
  }

  lemma FlipTwice(invert: bool, b: bv8)
    ensures Flip(invert, Flip(invert, b)) == b
  {
  }

  /** The byte whose bit k is `levels[k]`. */
  function ByteOf(levels: seq<bool>): bv8
    requires |levels| == 8
  {
    Put(levels[0], 0x01) | Put(levels[1], 0x02) | Put(levels[2], 0x04) | Put(levels[3], 0x08) |
    Put(levels[4], 0x10) | Put(levels[5], 0x20) | Put(levels[6], 0x40) | Put(levels[7], 0x80)
  }

  function Put(level: bool, mask: bv8): bv8 {
    if level then mask else 0
  }

  lemma ByteOfBits(levels: seq<bool>, k: nat)
    requires |levels| == 8 && k < 8
    ensures Bit(ByteOf(levels), k) == levels[k]
  {
    var p0, p1, p2, p3 := Put(levels[0], 0x01), Put(levels[1], 0x02), Put(levels[2], 0x04), Put(levels[3], 0x08);
    var p4, p5, p6, p7 := Put(levels[4], 0x10), Put(levels[5], 0x20), Put(levels[6], 0x40), Put(levels[7], 0x80);
    var b := p0 | p1 | p2 | p3 | p4 | p5 | p6 | p7;
    assert b == ByteOf(levels);
    if k == 0 { assert b & 0x01 == p0; } else if k == 1 { assert b & 0x02 == p1; }
    else if k == 2 { assert b & 0x04 == p2; } else if k == 3 { assert b & 0x08 == p3; }
    else if k == 4 { assert b & 0x10 == p4; } else if k == 5 { assert b & 0x20 == p5; }
    else if k == 6 { assert b & 0x40 == p6; } else { assert b & 0x80 == p7; }
  }

  /** A byte is determined by its bits. */
  lemma BitsDetermine(a: bv8, b: bv8)
    requires forall k | 0 <= k < 8 :: Bit(a, k) == Bit(b, k)
    ensures a == b
  {
    assert Bit(a, 0) == Bit(b, 0) && Bit(a, 1) == Bit(b, 1) && Bit(a, 2) == Bit(b, 2) && Bit(a, 3) == Bit(b, 3);
    assert Bit(a, 4) == Bit(b, 4) && Bit(a, 5) == Bit(b, 5) && Bit(a, 6) == Bit(b, 6) && Bit(a, 7) == Bit(b, 7);
  }

  /** `ByteOf` is the one byte with the given bits. */
  lemma ByteOfUnique(levels: seq<bool>, b: bv8)
    requires |levels| == 8
    ensures b == ByteOf(levels) <==> forall k | 0 <= k < 8 :: Bit(b, k) == levels[k]
  {
    forall k | 0 <= k < 8 ensures Bit(ByteOf(levels), k) == levels[k] { ByteOfBits(levels, k); }
    if forall k | 0 <= k < 8 :: Bit(b, k) == levels[k] {
      BitsDetermine(b, ByteOf(levels));
    }
  }

  /** Shifting right by one moves every bit down by one. */
  lemma ShiftRight(b: bv8, k: nat)
    requires k < 8
    ensures Bit(b >> 1, k) == (k < 7 && Bit(b, k + 1))
  {
  }

  lemma Halves(b: bv8)
    ensures (b >> 1) as int == b as int / 2
    ensures Bit(b, 0) <==> b as int % 2 == 1
  {
  }

  /** The binary digit of weight 2^k. */
  predicate Digit(n: nat, k: nat) {
    if k == 0 then n % 2 == 1 else Digit(n / 2, k - 1)
  }

  /** Bit k is the digit of weight 2^k. */
  lemma {:induction false} BitIsDigit(b: bv8, k: nat)
    requires k < 8
    ensures Bit(b, k) <==> Digit(b as int, k)
    decreases k
  {
    Halves(b);
    if k > 0 {
      ShiftRight(b, k - 1);
      BitIsDigit(b >> 1, k - 1);
    }
  }

  /** One step of the receive shift register. */
  lemma ShiftIn(b: bv8, level: bool, k: nat)
    requires k < 8
    ensures Bit(if level then (b >> 1) | 0x80 else b >> 1, k) == if k == 7 then level else Bit(b, k + 1)
  {
  }
}
