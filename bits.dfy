/** Bitwise OR on the signed 64-bit location ids the scout removal builds,
    defined bit by bit on integers, with the fact that makes most of those
    ORs additions: a value whose low k bits are clear, ORed with a value
    below 2^k, is their sum. */
module Bits {

  function Pow2(k: nat): (p: nat)
    ensures p >= 1
  {
    if k == 0 then 1 else 2 * Pow2(k - 1)
  }

  /** The powers of two the location ids are built on. */
  lemma Pow2Values()
    ensures Pow2(4) == 0x10 && Pow2(8) == 0x100 && Pow2(16) == 0x1_0000
  {
    assert Pow2(1) == 0x2;
    assert Pow2(2) == 0x4;
    assert Pow2(3) == 0x8;
    assert Pow2(4) == 0x10;
    assert Pow2(5) == 0x20;
    assert Pow2(6) == 0x40;
    assert Pow2(7) == 0x80;
    assert Pow2(8) == 0x100;
    assert Pow2(9) == 0x200;
    assert Pow2(10) == 0x400;
    assert Pow2(11) == 0x800;
    assert Pow2(12) == 0x1000;
    assert Pow2(13) == 0x2000;
    assert Pow2(14) == 0x4000;
    assert Pow2(15) == 0x8000;
    assert Pow2(16) == 0x10000;
  }

  /** Bitwise OR of two non-negative integers, lowest bit first. */
  function BitOr(a: nat, b: nat): nat
    decreases a + b
  {
    if a == 0 then b
    else if b == 0 then a
    else 2 * BitOr(a / 2, b / 2) + (if a % 2 == 1 || b % 2 == 1 then 1 else 0)
  }

  /** The int64_t with the 64-bit pattern of `x`. */
  function Signed64(x: int): (r: int)
    ensures -0x8000_0000_0000_0000 <= r < 0x8000_0000_0000_0000
    ensures (r - x) % 0x1_0000_0000_0000_0000 == 0
  {
    var u := x % 0x1_0000_0000_0000_0000;
    if u < 0x8000_0000_0000_0000 then u else u - 0x1_0000_0000_0000_0000
  }

  /** `a | b` on int64_t operands (two's complement). */
  function Or64(a: int, b: int): int
  {
    Signed64(BitOr(a % 0x1_0000_0000_0000_0000, b % 0x1_0000_0000_0000_0000))
  }

  /** OR of a multiple of 2^k with a value below 2^k adds them. */
  lemma {:induction false} BitOrDisjoint(h: nat, b: nat, k: nat)
    requires b < Pow2(k)
    ensures BitOr(h * Pow2(k), b) == h * Pow2(k) + b
    decreases k
  {
    var a := h * Pow2(k);
    if a != 0 && b != 0 {
      var p := Pow2(k - 1);
      var m := h * p;
      assert a == 2 * m;
      assert a / 2 == m && a % 2 == 0;
      BitOrDisjoint(h, b / 2, k - 1);
    }
  }

  /** The int64_t form: a non-negative multiple of 2^k ORed with a value
      below 2^k is their sum. */
  lemma Or64Disjoint(h: nat, b: nat, k: nat)
    requires b < Pow2(k) && h * Pow2(k) + b < 0x8000_0000_0000_0000
    ensures Or64(h * Pow2(k), b) == h * Pow2(k) + b
  {
    var a := h * Pow2(k);
    Unsigned64Small(a);
    Unsigned64Small(b);
    BitOrDisjoint(h, b, k);
    Unsigned64Small(a + b);
  }

  /** Below 2^63 the 64-bit pattern and the int64_t are the value itself. */
  lemma Unsigned64Small(x: nat)
    requires x < 0x8000_0000_0000_0000
    ensures x % 0x1_0000_0000_0000_0000 == x && Signed64(x) == x
  {
  }
}
