/** Zero-terminated strings in the game's emulated memory (`getStr`,
    `getU8Str`, `setStr`, `setU8Str`) and the truncating copy into a
    caller-sized buffer shared by the seed-name and date getters.

    `rdram` is a flat byte array indexed by emulated address: `MEM_B(i, ptr)`
    is `rdram[ptr + i]`. The narrow and the UTF-8 variants move the same
    bytes, so each pair is modelled by one method. */
module CStrings {
  import opened Common

  /** Some NUL byte lies at or after `ptr`: reading a C string there stops. */
  ghost predicate HasTerminator(mem: seq<byte>, ptr: nat)
  {
    exists k :: ptr <= k < |mem| && mem[k] == 0
  }

  /** Length of the C string at `ptr`: the distance to the first NUL. */
  ghost function StrLen(mem: seq<byte>, ptr: nat): (n: nat)
    requires HasTerminator(mem, ptr)
    ensures ptr + n < |mem| && mem[ptr + n] == 0
    ensures forall j :: ptr <= j < ptr + n ==> mem[j] != 0
    decreases |mem| - ptr
  {
    if mem[ptr] == 0 then 0
    else
      assert HasTerminator(mem, ptr + 1) by {
        var k :| ptr <= k < |mem| && mem[k] == 0;
        assert k != ptr;
      }
      StrLen(mem, ptr + 1) + 1
  }

  /** The bytes of the C string at `ptr`, without its terminator. */
  ghost function CString(mem: seq<byte>, ptr: nat): seq<byte>
    requires HasTerminator(mem, ptr)
  {
    mem[ptr..ptr + StrLen(mem, ptr)]
  }

  /** A run of `n` non-NUL bytes at `ptr` followed by a NUL is the C string there. */
  lemma StrLenUnique(mem: seq<byte>, ptr: nat, n: nat)
    requires ptr + n < |mem| && mem[ptr + n] == 0
    requires forall j :: ptr <= j < ptr + n ==> mem[j] != 0
    ensures HasTerminator(mem, ptr)
    ensures StrLen(mem, ptr) == n
  {
  }

  /** Memory after the C string held in the buffer `src` (its bytes up to and
      including the first NUL) is copied to address `ptr`. */
  ghost function WriteCString(mem: seq<byte>, ptr: nat, src: seq<byte>): (m: seq<byte>)
    requires HasTerminator(src, 0)
    requires ptr + StrLen(src, 0) < |mem|
    ensures |m| == |mem|
    ensures forall j :: 0 <= j <= StrLen(src, 0) ==> m[ptr + j] == src[j]
    ensures forall j :: 0 <= j < |mem| && !(ptr <= j <= ptr + StrLen(src, 0)) ==> m[j] == mem[j]
  {
    var n := StrLen(src, 0);
    mem[..ptr] + src[..n + 1] + mem[ptr + n + 1..]
  }

  /** getStr / getU8Str: append the C string at `ptr` to `outString`.
      The caller guarantees a terminator; the source does not bound the scan. */
  method GetStr(rdram: array<byte>, ptr: nat, outString: seq<byte>) returns (r: seq<byte>)
    requires HasTerminator(rdram[..], ptr)
    ensures r == outString + CString(rdram[..], ptr)
    ensures |r| - |outString| == StrLen(rdram[..], ptr) && rdram[ptr + |r| - |outString|] == 0
    ensures forall j :: |outString| <= j < |r| ==> r[j] != 0
  {
    ghost var n := StrLen(rdram[..], ptr);
    r := outString;
    var c := rdram[ptr];
    var i := 0;
    while c != 0
      invariant 0 <= i <= n
      invariant c == rdram[ptr + i]
      invariant r == outString + rdram[ptr..ptr + i]
      decreases n - i
    {
      r := r + [c];
      i := i + 1;
      c := rdram[ptr + i];
    }
  }

  /** setStr / setU8Str: copy the C string in `src` (terminator included) to
      `ptr`. There is no bound on the destination: the caller sizes it. */
  method SetStr(rdram: array<byte>, ptr: nat, src: seq<byte>)
    requires HasTerminator(src, 0)
    requires ptr + StrLen(src, 0) < rdram.Length
    modifies rdram
    ensures rdram[..] == WriteCString(old(rdram[..]), ptr, src)
  {
    ghost var n := StrLen(src, 0);
    var c: byte := 0xFF;  // char c = -1
    var i := 0;
    while c != 0
      invariant 0 <= i <= n + 1
      invariant c == 0 <==> i == n + 1
      invariant forall j :: 0 <= j < rdram.Length ==>
        rdram[j] == if ptr <= j < ptr + i then src[j - ptr] else old(rdram[j])
      decreases n + 1 - i
    {
      c := src[i];
      rdram[ptr + i] := c;
      i := i + 1;
    }
    ghost var w := WriteCString(old(rdram[..]), ptr, src);
    assert forall j :: 0 <= j < rdram.Length ==> rdram[..][j] == w[j];
  }

  /** A string written by setStr is read back unchanged by getStr, and the
      bytes around it keep their values. */
  lemma ReadBackWritten(mem: seq<byte>, ptr: nat, s: seq<byte>)
    requires NoNul(s) && ptr + |s| < |mem|
    ensures HasTerminator(s + [0], 0) && StrLen(s + [0], 0) == |s|
    ensures var m := WriteCString(mem, ptr, s + [0]);
      HasTerminator(m, ptr) && CString(m, ptr) == s
  {
    TerminatedLength(s);
    var m := WriteCString(mem, ptr, s + [0]);
    WrittenBytes(mem, ptr, s, m);
    StrLenUnique(m, ptr, |s|);
  }

  /** A NUL-free string with a NUL appended has its own length as C string. */
  lemma TerminatedLength(s: seq<byte>)
    requires NoNul(s)
    ensures HasTerminator(s + [0], 0) && StrLen(s + [0], 0) == |s|
  {
    var src := s + [0];
    forall j | 0 <= j < |s| ensures src[j] != 0 {
      assert src[j] == s[j];
    }
    StrLenUnique(src, 0, |s|);
  }

  /** The bytes the write of `s + [0]` leaves at `ptr`. */
  lemma WrittenBytes(mem: seq<byte>, ptr: nat, s: seq<byte>, m: seq<byte>)
    requires NoNul(s) && ptr + |s| < |mem|
    requires HasTerminator(s + [0], 0) && StrLen(s + [0], 0) == |s|
    requires m == WriteCString(mem, ptr, s + [0])
    ensures ptr + |s| < |m| && m[ptr + |s|] == 0
    ensures forall j :: ptr <= j < ptr + |s| ==> m[j] != 0
    ensures m[ptr..ptr + |s|] == s
  {
    var src := s + [0];
    assert m[ptr + |s|] == src[|s|];
    forall j | ptr <= j < ptr + |s| ensures m[j] == s[j - ptr] && m[j] != 0 {
      assert m[ptr + (j - ptr)] == src[j - ptr];
    }
    assert m[ptr..ptr + |s|] == s;
  }

  /** Bytes of `text` kept by a bounded copy into a buffer of `outLen > 0` bytes. */
  function KeptLength(size: nat, outLen: nat): nat
    requires outLen > 0
  {
    Min(size, outLen - 1)
  }

  /** The destination of a bounded copy lies in memory. */
  predicate BoundedFits(memLength: nat, ptr: nat, size: nat, outLen: nat)
  {
    outLen == 0 || ptr + KeptLength(size, outLen) < memLength
  }

  /** Memory after a bounded copy of `text` into the `outLen`-byte buffer at `ptr`. */
  ghost function BoundedWrite(mem: seq<byte>, ptr: nat, text: seq<byte>, outLen: nat): seq<byte>
    requires BoundedFits(|mem|, ptr, |text|, outLen)
  {
    if outLen == 0 then mem
    else
      var src := text[..KeptLength(|text|, outLen)] + [0];
      assert src[|src| - 1] == 0;
      assert StrLen(src, 0) <= |src| - 1;
      WriteCString(mem, ptr, src)
  }

  /** The copy shared by rando_solo_get_seed_name, rando_solo_get_generation_date
      and rando_get_seed_name: write nothing into an empty buffer; otherwise write
      as much of `text` as fits before a terminator. The reply is the size the
      caller would need, `text.size() + 1`, converted to u32. */
  method CopyBounded(rdram: array<byte>, outPtr: nat, outLen: u32, text: seq<byte>) returns (needed: u32)
    requires BoundedFits(rdram.Length, outPtr, |text|, outLen)
    modifies rdram
    ensures needed == U32(|text| + 1)
    ensures rdram[..] == BoundedWrite(old(rdram[..]), outPtr, text, outLen)
  {
    needed := U32(|text| + 1);
    if outLen == 0 {
      // Write nothing if the output length is 0.
    } else if |text| + 1 >= outLen {
      var src := text[..outLen - 1] + [0];
      assert src[|src| - 1] == 0;
      SetStr(rdram, outPtr, src);
    } else {
      var src := text + [0];
      assert src[|src| - 1] == 0;
      assert text[..KeptLength(|text|, outLen)] == text;
      SetStr(rdram, outPtr, src);
    }
  }

  /** What a bounded copy promises: nothing outside the `outLen`-byte buffer
      changes, and the buffer then holds the first min(size, outLen - 1) bytes
      of the text as a terminated C string. */
  lemma BoundedCopyStaysInBuffer(mem: seq<byte>, ptr: nat, text: seq<byte>, outLen: nat)
    requires NoNul(text) && outLen > 0
    requires BoundedFits(|mem|, ptr, |text|, outLen)
    ensures var m := BoundedWrite(mem, ptr, text, outLen);
      && |m| == |mem|
      && (forall j :: 0 <= j < |mem| && !(ptr <= j < ptr + outLen) ==> m[j] == mem[j])
      && HasTerminator(m, ptr)
      && CString(m, ptr) == text[..Min(|text|, outLen - 1)]
  {
    var k := KeptLength(|text|, outLen);
    ReadBackWritten(mem, ptr, text[..k]);
  }

  /** An empty buffer is left untouched. */
  lemma BoundedCopyEmptyBuffer(mem: seq<byte>, ptr: nat, text: seq<byte>)
    ensures BoundedFits(|mem|, ptr, |text|, 0) && BoundedWrite(mem, ptr, text, 0) == mem
  {
  }
}
