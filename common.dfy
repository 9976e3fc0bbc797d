/** Types shared by the whole model: bytes of the emulated memory, the
    fixed-width integers of the C++ side, and an optional value. */
module Common {

  /** One byte of emulated memory or of a file. */
  type byte = bv8

  /** `uint32_t` / `u32`. */
  type u32 = x: int | 0 <= x < 0x1_0000_0000

  /** `int16_t` / `s16`. */
  type s16 = x: int | -0x8000 <= x < 0x8000

  datatype Option<T> = None | Some(value: T)

  /** A C++ conversion to `u32`: the value modulo 2^32. */
  function U32(x: int): u32
  {
    x % 0x1_0000_0000
  }

  function Min(a: int, b: int): int
  {
    if a <= b then a else b
  }

  /** No byte of `s` is NUL, so `s` followed by a NUL is a well-formed C string. */
  predicate NoNul(s: seq<byte>)
  {
    forall i :: 0 <= i < |s| ==> s[i] != 0
  }

  /** The bytes of an ASCII string literal. */
  function Ascii(s: string): (b: seq<byte>)
    requires forall i :: 0 <= i < |s| ==> s[i] < 128 as char
    ensures |b| == |s|
  {
    seq(|s|, i requires 0 <= i < |s| => (s[i] as int) as bv8)
  }
}
