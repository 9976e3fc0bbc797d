/** The 64-bit opaque handles of the slot-data accessors, passed across the
    32-bit boundary as two words (`UPPER`, `LOWER`, `CRAFT_64`), and the `_o32`
    handlers that store a handle as its high word at offset 0 and its low word
    at offset 4 of an emulated buffer. `MEM_W` is modelled as a big-endian
    32-bit word over four bytes of `rdram`. */
module Handles {
  import opened Common

  /** UPPER(v): bits 63..32 of v. */
  function Upper(v: bv64): bv32
  {
    ((v >> 32) & 0xFFFF_FFFF) as bv32
  }

  /** LOWER(v): bits 31..0 of v. */
  function Lower(v: bv64): bv32
  {
    (v & 0xFFFF_FFFF) as bv32
  }

  /** CRAFT_64(upper, lower): the 64-bit value whose halves are `upper` and `lower`. */
  function Craft64(upper: bv32, lower: bv32): (v: bv64)
    ensures Upper(v) == upper && Lower(v) == lower
  {
    ((upper as bv64) << 32) | (lower as bv64)
  }

  /** Splitting a handle and crafting it back gives the same handle. */
  lemma SplitRoundTrip(v: bv64)
    ensures Craft64(Upper(v), Lower(v)) == v
  {
  }

  /** MEM_W read: the 32-bit word at `addr`, most significant byte first. */
  function WordAt(mem: seq<byte>, addr: nat): bv32
    requires addr + 4 <= |mem|
  {
    ((mem[addr] as bv32) << 24) | ((mem[addr + 1] as bv32) << 16)
      | ((mem[addr + 2] as bv32) << 8) | (mem[addr + 3] as bv32)
  }

  /** The four bytes of `w`, most significant first. */
  function WordBytes(w: bv32): seq<byte>
  {
    [(w >> 24) as bv8, ((w >> 16) & 0xFF) as bv8, ((w >> 8) & 0xFF) as bv8, (w & 0xFF) as bv8]
  }

  /** MEM_W write: memory with `w` stored at `addr`; no other byte changes. */
  function PutWord(mem: seq<byte>, addr: nat, w: bv32): (m: seq<byte>)
    requires addr + 4 <= |mem|
    ensures |m| == |mem| && WordAt(m, addr) == w
    ensures forall j :: 0 <= j < |mem| && !(addr <= j < addr + 4) ==> m[j] == mem[j]
  {
    var b := WordBytes(w);
    var m := mem[..addr] + b + mem[addr + 4..];
    assert m[addr] == b[0] && m[addr + 1] == b[1] && m[addr + 2] == b[2] && m[addr + 3] == b[3];
    m
  }

  /** The handle held in the 8-byte buffer at `addr` (read as in lines 941-944). */
  function HandleAt(mem: seq<byte>, addr: nat): bv64
    requires addr + 8 <= |mem|
  {
    Craft64(WordAt(mem, addr), WordAt(mem, addr + 4))
  }

  /** Memory after `v` is stored at `addr` (written as in lines 931-932). */
  function PutHandle(mem: seq<byte>, addr: nat, v: bv64): seq<byte>
    requires addr + 8 <= |mem|
  {
    PutWord(PutWord(mem, addr, Upper(v)), addr + 4, Lower(v))
  }

  /** A handle stored by one `_o32` handler is reconstructed exactly by the
      next one; the bytes outside the 8-byte buffer keep their values. */
  lemma {:induction false} HandleRoundTrip(mem: seq<byte>, addr: nat, v: bv64)
    requires addr + 8 <= |mem|
    ensures var m := PutHandle(mem, addr, v);
      && |m| == |mem|
      && HandleAt(m, addr) == v
      && forall j :: 0 <= j < |mem| && !(addr <= j < addr + 8) ==> m[j] == mem[j]
  {
    var m1 := PutWord(mem, addr, Upper(v));
    var m2 := PutWord(m1, addr + 4, Lower(v));
    assert m2[addr..addr + 4] == m1[addr..addr + 4];
    assert WordAt(m2, addr) == WordAt(m1, addr) by {
      assert m2[addr] == m1[addr] && m2[addr + 1] == m1[addr + 1];
      assert m2[addr + 2] == m1[addr + 2] && m2[addr + 3] == m1[addr + 3];
    }
    SplitRoundTrip(v);
  }

  /** One MEM_W store. */
  method StoreWord(rdram: array<byte>, addr: nat, w: bv32)
    requires addr + 4 <= rdram.Length
    modifies rdram
    ensures rdram[..] == PutWord(old(rdram[..]), addr, w)
  {
    var b := WordBytes(w);
    rdram[addr] := b[0];
    rdram[addr + 1] := b[1];
    rdram[addr + 2] := b[2];
    rdram[addr + 3] := b[3];
  }

  /** One MEM_W load. */
  method LoadWord(rdram: array<byte>, addr: nat) returns (w: bv32)
    requires addr + 4 <= rdram.Length
    ensures w == WordAt(rdram[..], addr)
  {
    w := ((rdram[addr] as bv32) << 24) | ((rdram[addr + 1] as bv32) << 16)
      | ((rdram[addr + 2] as bv32) << 8) | (rdram[addr + 3] as bv32);
  }

  /** The store that ends every raw handler: UPPER at +0, LOWER at +4. */
  method StoreHandle(rdram: array<byte>, outPtr: nat, v: bv64)
    requires outPtr + 8 <= rdram.Length
    modifies rdram
    ensures rdram[..] == PutHandle(old(rdram[..]), outPtr, v)
  {
    StoreWord(rdram, outPtr, Upper(v));
    StoreWord(rdram, outPtr + 4, Lower(v));
  }

  /** The load that begins every access handler: the handle's halves are the
      words at +0 and +4. */
  method LoadHandle(rdram: array<byte>, inPtr: nat) returns (v: bv64)
    requires inPtr + 8 <= rdram.Length
    ensures Upper(v) == WordAt(rdram[..], inPtr) && Lower(v) == WordAt(rdram[..], inPtr + 4)
  {
    var upper := LoadWord(rdram, inPtr);
    var lower := LoadWord(rdram, inPtr + 4);
    v := Craft64(upper, lower);
  }

  /** rando_get_slotdata_raw_o32: store the handle the library returns for a
      key (`fetched`, the result of AP_GetSlotDataRaw) into the out buffer. */
  method GetSlotDataRaw(rdram: array<byte>, outPtr: nat, fetched: bv64)
    requires outPtr + 8 <= rdram.Length
    modifies rdram
    ensures rdram[..] == PutHandle(old(rdram[..]), outPtr, fetched)
  {
    StoreHandle(rdram, outPtr, fetched);
  }

  /** rando_access_slotdata_raw_array_o32 / _dict_o32: read a handle from the in
      buffer, hand it to the library (`access`, standing for
      AP_AccessSlotDataRawArray with its index or AP_AccessSlotDataRawDict with
      its key) and store the handle it returns into the out buffer. */
  method AccessSlotDataRaw(rdram: array<byte>, inPtr: nat, outPtr: nat, access: bv64 -> bv64)
    requires inPtr + 8 <= rdram.Length && outPtr + 8 <= rdram.Length
    modifies rdram
    ensures rdram[..] == PutHandle(old(rdram[..]), outPtr, access(HandleAt(old(rdram[..]), inPtr)))
  {
    var jsonValue := LoadHandle(rdram, inPtr);
    SplitRoundTrip(jsonValue);
    jsonValue := access(jsonValue);
    StoreHandle(rdram, outPtr, jsonValue);
  }

  /** rando_access_slotdata_raw_u32_o32: the low 32 bits of the integer the
      library reads from the handle in the in buffer. */
  method AccessSlotDataRawU32(rdram: array<byte>, inPtr: nat, readInt: bv64 -> bv64) returns (r: bv32)
    requires inPtr + 8 <= rdram.Length
    ensures r == Lower(readInt(HandleAt(rdram[..], inPtr)))
  {
    var jsonValue := LoadHandle(rdram, inPtr);
    SplitRoundTrip(jsonValue);
    r := (readInt(jsonValue) & 0xFFFF_FFFF) as bv32;
  }
}
