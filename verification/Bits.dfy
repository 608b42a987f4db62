/**
 The word converters as both files write them - masks, shifts and bitwise or - against the positional
 arithmetic that Codec computes with.
 */
module Bits {
  import opened Codec

  function Pow2(n: nat): (p: nat)
    ensures p > 0
  {
    if n == 0 then 1 else 2 * Pow2(n - 1)
  }

  // ---------------------------------------------------------------- bit by bit

  /** x & y */
  function And(x: nat, y: nat): nat {
    if x == 0 || y == 0 then 0 else 2 * And(x / 2, y / 2) + (if x % 2 == 1 && y % 2 == 1 then 1 else 0)
  }

  /** x | y */
  function Or(x: nat, y: nat): nat
    decreases x + y
  {
    if x == 0 then y
    else if y == 0 then x
    else 2 * Or(x / 2, y / 2) + (if x % 2 == 1 || y % 2 == 1 then 1 else 0)
  }

  /** x << n, without a bound on the width. */
  function Shl(x: nat, n: nat): nat { if n == 0 then x else 2 * Shl(x, n - 1) }

  /** x >> n */
  function Shr(x: nat, n: nat): nat { if n == 0 then x else Shr(x / 2, n - 1) }

  lemma {:induction false} ShlIsTimes(x: nat, n: nat)
    ensures Shl(x, n) == x * Pow2(n)
  {
    if n > 0 {
      ShlIsTimes(x, n - 1);
      assert 2 * (x * Pow2(n - 1)) == x * (2 * Pow2(n - 1));
    }
  }

  lemma DivTwice(x: nat, m: nat)
    requires m > 0
    ensures x / 2 / m == x / (2 * m)
  {
    var q, r := x / 2 / m, x / 2 % m;
    assert x == 2 * (x / 2) + x % 2;
    assert x / 2 == q * m + r;
    DivUnique(x, 2 * m, q, 2 * r + x % 2);
  }

  lemma DivUnique(x: nat, d: nat, q: nat, r: nat)
    requires 0 <= r < d && x == q * d + r
    ensures x / d == q && x % d == r
  {
    var k := x / d - q;
    assert x == x / d * d + x % d;
    assert k * d == r - x % d;
    MulBound(k, d);
  }

  lemma MulBound(k: int, d: nat)
    ensures k >= 1 ==> k * d >= d
    ensures k <= -1 ==> k * d + d <= 0
  {
  }

  lemma {:induction false} ShrIsDiv(x: nat, n: nat)
    ensures Shr(x, n) == x / Pow2(n)
    decreases n
  {
    if n > 0 {
      ShrIsDiv(x / 2, n - 1);
      DivTwice(x, Pow2(n - 1));
    }
  }

  /** Masking with a mask shifted up, and shifting back down, masks the shifted word. */
  lemma {:induction false} MaskShifted(x: nat, mask: nat, n: nat)
    ensures Shr(And(x, Shl(mask, n)), n) == And(Shr(x, n), mask)
    decreases n
  {
    if n > 0 {
      var inner := Shl(mask, n - 1);
      assert And(x, 2 * inner) == 2 * And(x / 2, inner);
      MaskShifted(x / 2, mask, n - 1);
    }
  }

  /** The mask of n ones takes the remainder. */
  lemma {:induction false} MaskOnes(x: nat, n: nat)
    ensures And(x, Pow2(n) - 1) == x % Pow2(n)
    decreases n
  {
    if n > 0 {
      MaskOnes(x / 2, n - 1);
      var m := Pow2(n - 1);
      MaskOneMore(x, m - 1);
      RemainderTwice(x, m);
    }
  }

  lemma MaskOneMore(x: nat, mask: nat)
    ensures And(x, 2 * mask + 1) == 2 * And(x / 2, mask) + x % 2
  {
    assert (2 * mask + 1) / 2 == mask && (2 * mask + 1) % 2 == 1;
  }

  lemma RemainderTwice(x: nat, m: nat)
    requires m > 0
    ensures x % (2 * m) == 2 * (x / 2 % m) + x % 2
  {
    var q, r := x / 2 / m, x / 2 % m;
    assert x / 2 == q * m + r;
    assert q * (2 * m) == 2 * (q * m);
    DivUnique(x, 2 * m, q, 2 * r + x % 2);
  }

  /** Bits that do not overlap: or is sum. */
  lemma {:induction false} OrIsSum(x: nat, y: nat, n: nat)
    requires y < Pow2(n)
    ensures Or(Shl(x, n), y) == Shl(x, n) + y
    decreases n
  {
    if n > 0 {
      assert Shl(x, n) == 2 * Shl(x, n - 1);
      OrIsSum(x, y / 2, n - 1);
      if Shl(x, n) != 0 && y != 0 {
        assert Shl(x, n) / 2 == Shl(x, n - 1) && Shl(x, n) % 2 == 0;
      }
    }
  }

  // ---------------------------------------------------------------- the four converters

  const ONES: nat := 0xFF

  /** One byte of uint32_to_buf / write_uint32: mask the n-th bits, shift them down. */
  function ByteAt(value: UInt32, n: nat): nat { Shr(And(value, Shl(ONES, n)), n) }

  lemma ByteAtIs(value: UInt32, n: nat, p: nat)
    requires p == Pow2(n)
    ensures p > 0 && ByteAt(value, n) == value / p % 0x100
  {
    MaskShifted(value, ONES, n);
    ShrIsDiv(value, n);
    Powers();
    MaskOnes(value / p, 8);
  }

  lemma Powers()
    ensures Pow2(8) == 0x100 && Pow2(16) == 0x1_0000 && Pow2(24) == 0x100_0000
  {
    assert Pow2(4) == 16;
    assert Pow2(8) == 16 * Pow2(4);
    assert Pow2(12) == 16 * Pow2(8);
    assert Pow2(16) == 16 * Pow2(12);
    assert Pow2(20) == 16 * Pow2(16);
    assert Pow2(24) == 16 * Pow2(20);
  }

  /** The masks and shifts of the writers store the bytes of WordBytes. */
  lemma WriterBits(value: UInt32)
    ensures var b := WordBytes(value);
            && ByteAt(value, 24) == b[0] && ByteAt(value, 16) == b[1]
            && ByteAt(value, 8) == b[2] && ByteAt(value, 0) == b[3]
  {
    Powers();
    ByteAtIs(value, 24, 0x100_0000);
    ByteAtIs(value, 16, 0x1_0000);
    ByteAtIs(value, 8, 0x100);
    ByteAtIs(value, 0, 1);
  }

  /** read_uint32: four shifted bytes, or-ed from the left. */
  function OrBytes(b0: nat, b1: nat, b2: nat, b3: nat): nat {
    Or(Or(Or(Shl(b0, 24), Shl(b1, 16)), Shl(b2, 8)), b3)
  }

  /** The shifts and ors of the readers give the number of ReadWord. */
  lemma ReaderBits(p: Packet, at: nat)
    requires at + 4 <= |p|
    ensures OrBytes(p[at], p[at + 1], p[at + 2], p[at + 3]) == ReadWord(p, at)
  {
    var b0, b1, b2, b3 := p[at], p[at + 1], p[at + 2], p[at + 3];
    OrBytesIs(b0, b1, b2, b3);
  }

  lemma OrBytesIs(b0: Byte, b1: Byte, b2: Byte, b3: Byte)
    ensures var a: nat, b: nat, c: nat, d: nat := b0, b1, b2, b3;
            OrBytes(a, b, c, d) == a * 0x100_0000 + b * 0x1_0000 + c * 0x100 + d
  {
    var a: nat := b0;
    var ab := a * 0x100 + b1;
    var abc := ab * 0x100 + b2;
    OrByte(a, b1, 16);
    OrByte(ab, b2, 8);
    OrByte(abc, b3, 0);
  }

  /** One more byte is or-ed in below those already there. */
  lemma OrByte(acc: nat, b: Byte, n: nat)
    ensures Or(Shl(acc, n + 8), Shl(b, n)) == Shl(acc * 0x100 + b, n)
  {
    var p := Pow2(n);
    ByteUp(n);
    ShlIsTimes(b, n);
    ShlIsTimes(acc, n + 8);
    ShlIsTimes(acc * 0x100 + b, n);
    BelowByte(b, p);
    OrIsSum(acc, Shl(b, n), n + 8);
    Distribute(acc, b, p);
  }

  lemma ByteUp(n: nat)
    ensures Pow2(n + 8) == 0x100 * Pow2(n)
  {
    assert Pow2(n + 2) == 4 * Pow2(n);
    assert Pow2(n + 4) == 4 * Pow2(n + 2);
    assert Pow2(n + 6) == 4 * Pow2(n + 4);
  }

  lemma BelowByte(b: Byte, p: nat)
    requires p > 0
    ensures b * p < 0x100 * p
  {
  }

  lemma Distribute(acc: nat, b: nat, p: nat)
    ensures acc * (0x100 * p) + b * p == (acc * 0x100 + b) * p
  {
  }

  /** In the source's own operations: reading what the writer stored gives the word back. */
  lemma BitsRoundTrip(p: Packet, at: nat, value: UInt32)
    requires at + 4 <= |p|
    requires p[at] == ByteAt(value, 24) && p[at + 1] == ByteAt(value, 16)
    requires p[at + 2] == ByteAt(value, 8) && p[at + 3] == ByteAt(value, 0)
    ensures OrBytes(p[at], p[at + 1], p[at + 2], p[at + 3]) == value
  {
    WriterBits(value);
    assert p[at..at + 4] == WordBytes(value);
    WordRoundTrip(p, at, value);
    ReaderBits(p, at);
  }
}
