/** The shop-price list of rando_init_common: the slot-data string
    `shop_prices` is read with `stream >> s16` until an extraction fails, and
    each value read is stored in the next element of `prices[36]`. */
module Prices {
  import opened Common

  /** The C locale's white space: space, and tab through carriage return. */
  predicate IsSpace(b: byte)
  {
    b == 0x20 || (0x09 <= b && b <= 0x0D)
  }

  predicate IsDigit(b: byte)
  {
    0x30 <= b && b <= 0x39
  }

  /** The length of the run of decimal digits that starts `s`. */
  function DigitRun(s: seq<byte>): (n: nat)
    ensures n <= |s|
    ensures forall i :: 0 <= i < n ==> IsDigit(s[i])
    ensures n < |s| ==> !IsDigit(s[n])
  {
    if |s| > 0 && IsDigit(s[0]) then 1 + DigitRun(s[1..]) else 0
  }

  /** The value of a digit byte. */
  function DigitValue(b: byte): int
  {
    (b as int) - 0x30
  }

  /** The number a run of decimal digits denotes. */
  function DecimalValue(ds: seq<byte>): int
  {
    if |ds| == 0 then 0
    else 10 * DecimalValue(ds[..|ds| - 1]) + DigitValue(ds[|ds| - 1])
  }

  /** The maximal run of digits that starts `u`, as a number, and the rest;
      None when `u` does not start with a digit. */
  function Magnitude(u: seq<byte>): (r: Option<(int, seq<byte>)>)
    ensures r.Some? ==> |r.value.1| < |u|
  {
    var n := DigitRun(u);
    if n == 0 then None else Some((DecimalValue(u[..n]), u[n..]))
  }

  /** One `stream >> s16` extraction, once white space is skipped: an
      optional sign and the maximal run of digits. It fails (None) when there
      is no digit or the value does not fit in 16 bits; otherwise it gives the
      value and the rest of the input. */
  function ExtractNumber(t: seq<byte>): (r: Option<(s16, seq<byte>)>)
    ensures r.Some? ==> |r.value.1| < |t|
  {
    var negative := |t| > 0 && t[0] == 0x2D;
    var u := if |t| > 0 && (t[0] == 0x2D || t[0] == 0x2B) then t[1..] else t;
    var m := Magnitude(u);
    if m.None? then None
    else
      var v: int := if negative then -m.value.0 else m.value.0;
      if v < -0x8000 || 0x8000 <= v then None else Some((v, m.value.1))
  }

  /** One `stream >> s16` extraction: skip white space, then read a number. */
  function NextShort(s: seq<byte>): (r: Option<(s16, seq<byte>)>)
    ensures r.Some? ==> |r.value.1| < |s|
  {
    if |s| > 0 && IsSpace(s[0]) then NextShort(s[1..]) else ExtractNumber(s)
  }

  /** Every value the loop stores, in order. */
  function Prices(s: seq<byte>): seq<s16>
    decreases |s|
  {
    var next := NextShort(s);
    if next.None? then [] else [next.value.0] + Prices(next.value.1)
  }

  /** The price loop: store each extracted value at the next index, and stop
      at the first failed extraction. More than `prices.Length` values would
      write past the end of the C array, so the caller must not supply them. */
  method ParsePrices(prices: array<s16>, text: seq<byte>) returns (count: nat)
    requires |Prices(text)| <= prices.Length
    modifies prices
    ensures count == |Prices(text)|
    ensures prices[..count] == Prices(text)
    ensures prices[count..] == old(prices[count..])
  {
    var rest := text;
    count := 0;
    while true
      invariant count + |Prices(rest)| == |Prices(text)|
      invariant prices[..count] + Prices(rest) == Prices(text)
      invariant prices[count..] == old(prices[count..])
      decreases |rest|
    {
      var next := NextShort(rest);
      if next.None? {
        break;
      }
      var (v, after) := next.value;
      assert Prices(rest) == [v] + Prices(after);
      ghost var stored := prices[..count];
      ghost var untouched := prices[count + 1..];
      prices[count] := v;
      assert prices[..count + 1] == stored + [v];
      assert prices[count + 1..] == untouched;
      count := count + 1;
      rest := after;
    }
  }

  /** rando_get_shop_price: the price stored at the index. A read past the
      array is undefined in C, so the caller must stay inside it. */
  method GetShopPrice(prices: array<s16>, arg: u32) returns (price: s16)
    requires arg < prices.Length
    ensures price == prices[arg]
  {
    price := prices[arg];
  }

  // The decimal text of a list of prices: a space-separated decimal list.

  /** The ASCII digits '0' to '9'. */
  const DigitBytes: seq<byte> := [0x30, 0x31, 0x32, 0x33, 0x34, 0x35, 0x36, 0x37, 0x38, 0x39]

  function DigitByte(d: int): byte
    requires 0 <= d < 10
  {
    DigitBytes[d]
  }

  /** The decimal digits of `n`, most significant first, without leading zeros. */
  function Digits(n: nat): (ds: seq<byte>)
    ensures 0 < |ds|
    ensures forall i :: 0 <= i < |ds| ==> IsDigit(ds[i])
  {
    if n < 10 then [DigitByte(n)] else Digits(n / 10) + [DigitByte(n % 10)]
  }

  /** A value in decimal, with a leading '-' when negative. */
  function FormatShort(v: s16): seq<byte>
  {
    var m: int := v;
    if m < 0 then [0x2D] + Digits(-m) else Digits(m)
  }

  /** Each value followed by one space. */
  function FormatPrices(vs: seq<s16>): seq<byte>
  {
    if |vs| == 0 then [] else FormatShort(vs[0]) + [0x20] + FormatPrices(vs[1..])
  }

  lemma DigitByteValue(d: int)
    requires 0 <= d < 10
    ensures IsDigit(DigitByte(d)) && DigitValue(DigitByte(d)) == d
  {
    if d == 0 {} else if d == 1 {} else if d == 2 {} else if d == 3 {} else if d == 4 {}
    else if d == 5 {} else if d == 6 {} else if d == 7 {} else if d == 8 {} else {}
  }

  lemma {:induction false} DecimalValueDigits(n: nat)
    ensures DecimalValue(Digits(n)) == n
    decreases n
  {
    var ds := Digits(n);
    if n < 10 {
      DigitByteValue(n);
      assert ds[..0] == [];
    } else {
      assert ds[..|ds| - 1] == Digits(n / 10);
      assert ds[|ds| - 1] == DigitByte(n % 10);
      DigitByteValue(n % 10);
      DecimalValueDigits(n / 10);
    }
  }

  /** Leading white space does not change what is parsed. */
  lemma {:induction false} PricesSkipSpace(ws: seq<byte>, s: seq<byte>)
    requires forall i :: 0 <= i < |ws| ==> IsSpace(ws[i])
    ensures NextShort(ws + s) == NextShort(s)
    ensures Prices(ws + s) == Prices(s)
    decreases |ws|
  {
    if |ws| > 0 {
      assert (ws + s)[1..] == ws[1..] + s;
      PricesSkipSpace(ws[1..], s);
    } else {
      assert ws + s == s;
    }
  }

  /** One formatted value followed by a space extracts as that value. */
  lemma {:induction false} NextShortFormatted(v: s16, rest: seq<byte>)
    ensures NextShort(FormatShort(v) + [0x20] + rest) == Some((v, [0x20] + rest))
  {
    var after := [0x20] + rest;
    var s := FormatShort(v) + after;
    assert FormatShort(v) + [0x20] + rest == s;
    ExtractFormatted(v, after);
  }

  /** A formatted value followed by a non-digit extracts as that value, and
      no white space precedes it. */
  lemma ExtractFormatted(v: s16, after: seq<byte>)
    requires |after| > 0 && !IsDigit(after[0])
    ensures var s := FormatShort(v) + after;
      !IsSpace(s[0]) && ExtractNumber(s) == Some((v, after))
  {
    if v < 0 {
      ExtractNegative(v, after);
    } else {
      ExtractNonNegative(v, after);
    }
  }

  /** A '-' and the digits of the magnitude extract as the negative value. */
  lemma ExtractNegative(v: s16, after: seq<byte>)
    requires v < 0 && |after| > 0 && !IsDigit(after[0])
    ensures var s := FormatShort(v) + after;
      !IsSpace(s[0]) && ExtractNumber(s) == Some((v, after))
  {
    var k: nat := -(v as int);
    MagnitudeOfDigits(k, after);
    PrefixAppend(0x2D, Digits(k), after);
    ExtractMinus(FormatShort(v) + after, Digits(k) + after, k, after);
  }

  lemma PrefixAppend(b: byte, x: seq<byte>, y: seq<byte>)
    ensures ([b] + x) + y == [b] + (x + y)
  {
  }

  /** '-' and a magnitude within range extract as the negated magnitude. */
  lemma ExtractMinus(t: seq<byte>, u: seq<byte>, k: int, after: seq<byte>)
    requires t == [0x2D] + u && Magnitude(u) == Some((k, after)) && 0 <= k <= 0x8000
    ensures !IsSpace(t[0]) && ExtractNumber(t) == Some((-k, after))
  {
    assert t[0] == 0x2D && t[1..] == u;
  }

  /** The digits of a non-negative value extract as that value. */
  lemma ExtractNonNegative(v: s16, after: seq<byte>)
    requires v >= 0 && |after| > 0 && !IsDigit(after[0])
    ensures var s := FormatShort(v) + after;
      !IsSpace(s[0]) && ExtractNumber(s) == Some((v, after))
  {
    var m: int := v;
    MagnitudeOfDigits(m, after);
    assert FormatShort(v) == Digits(m);
  }

  /** A number's digits followed by a non-digit read back as the number. */
  lemma MagnitudeOfDigits(k: nat, after: seq<byte>)
    requires |after| > 0 && !IsDigit(after[0])
    ensures var u := Digits(k) + after;
      IsDigit(u[0]) && Magnitude(u) == Some((k, after))
  {
    var ds := Digits(k);
    DigitRunDigits(ds, after);
    DecimalValueDigits(k);
    assert (ds + after)[..|ds|] == ds;
    assert (ds + after)[|ds|..] == after;
  }

  lemma {:induction false} DigitRunDigits(ds: seq<byte>, rest: seq<byte>)
    requires forall i :: 0 <= i < |ds| ==> IsDigit(ds[i])
    requires |rest| > 0 && !IsDigit(rest[0])
    ensures DigitRun(ds + rest) == |ds|
    decreases |ds|
  {
    if |ds| > 0 {
      assert (ds + rest)[1..] == ds[1..] + rest;
      DigitRunDigits(ds[1..], rest);
    } else {
      assert ds + rest == rest;
    }
  }

  /** The formatted list parses back to the same prices, and parsing stops
      where the formatted text does if what follows cannot start a number. */
  lemma {:induction false} PricesRoundTrip(vs: seq<s16>, tail: seq<byte>)
    requires NextShort(tail).None?
    ensures Prices(FormatPrices(vs) + tail) == vs
    decreases |vs|
  {
    if |vs| == 0 {
      assert FormatPrices(vs) + tail == tail;
    } else {
      var rest := FormatPrices(vs[1..]) + tail;
      assert FormatPrices(vs) + tail == FormatShort(vs[0]) + [0x20] + rest;
      NextShortFormatted(vs[0], rest);
      PricesSkipSpace([0x20], rest);
      PricesRoundTrip(vs[1..], tail);
      assert [vs[0]] + vs[1..] == vs;
    }
  }
}
