/** The session globals the handlers keep between calls: the seed name of the
    room joined (room_seed_name) and the id of the last location reported
    (last_location_sent). What the client library answers (whether
    rando_init_common succeeded, the server's seed name, whether a location
    exists or is checked) is passed in. */
module Sessions {
  import opened Common
  import opened Codes
  import opened Locations
  import opened CStrings
  import opened SoloSeeds

  class Session {
    var roomSeedName: seq<byte>
    var lastLocationSent: int

    /** Both globals start zero-initialised. */
    constructor ()
      ensures roomSeedName == [] && lastLocationSent == 0
    {
      roomSeedName := [];
      lastLocationSent := 0;
    }

    /** rando_init: when rando_init_common succeeds, the room's seed name is
        the one the server reports; the reply is that success. */
    method InitServer(initCommon: bool, serverSeedName: seq<byte>) returns (ok: bool)
      modifies this
      ensures ok == initCommon
      ensures roomSeedName == if initCommon then serverSeedName else old(roomSeedName)
      ensures lastLocationSent == old(lastLocationSent)
    {
      ok := initCommon;
      if ok {
        roomSeedName := serverSeedName;
      }
    }

    /** rando_init_solo: an index past the seed list fails before anything is
        opened. Otherwise the game file "AP_<seed>_solo.zip" in the seed
        folder is opened, and when rando_init_common succeeds the room's seed
        name becomes the selected seed. */
    method InitSolo(solo: SoloState, selected: u32, initCommon: bool) returns (ok: bool, genFile: Option<seq<byte>>)
      modifies this
      ensures selected >= |solo.seeds| ==> !ok && genFile == None && roomSeedName == old(roomSeedName)
      ensures selected < |solo.seeds| ==>
        var seed := solo.seeds[selected].seedName;
        && ok == initCommon
        && genFile == Some(Prefix + seed + Suffix)
        && roomSeedName == (if initCommon then seed else old(roomSeedName))
      ensures lastLocationSent == old(lastLocationSent)
    {
      if selected >= |solo.seeds| {
        ok, genFile := false, None;
        return;
      }
      var seed := solo.seeds[selected].seedName;
      genFile := Some(Prefix + seed + Suffix);
      ok := initCommon;
      if ok {
        roomSeedName := seed;
      }
    }

    /** rando_get_seed_name: the bounded copy of the room's seed name. */
    method GetSeedName(rdram: array<byte>, outPtr: nat, outLen: u32) returns (r: u32)
      requires BoundedFits(rdram.Length, outPtr, |roomSeedName|, outLen)
      modifies rdram
      ensures r == U32(|roomSeedName| + 1)
      ensures rdram[..] == BoundedWrite(old(rdram[..]), outPtr, roomSeedName, outLen)
    {
      r := CopyBounded(rdram, outPtr, outLen, roomSeedName);
    }

    /** rando_send_location: the location's id is remembered when the server
        knows it, and the location is sent when it is also not yet checked. */
    method SendLocation(c: Codes, arg: u32, shopsanity: int, locationExists: int -> bool, isChecked: int -> bool)
      returns (sent: bool)
      modifies this
      ensures var id := LocationId(c, arg, shopsanity);
        && lastLocationSent == (if locationExists(id) then id else old(lastLocationSent))
        && sent == (locationExists(id) && !isChecked(id))
      ensures roomSeedName == old(roomSeedName)
    {
      var id := LocationId(c, arg, shopsanity);
      if locationExists(id) {
        lastLocationSent := id;
        sent := !isChecked(id);
      } else {
        sent := false;
      }
    }

    /** rando_get_last_location_sent: the low 24 bits of the remembered id. */
    method GetLastLocationSent() returns (r: u32)
      ensures r == lastLocationSent % 0x100_0000
    {
      r := lastLocationSent % 0x100_0000;
    }
  }

  /** The game reads back what it reported: after a location with a 24-bit
      argument is accepted, the last location sent is that argument after
      fixLocation. */
  lemma {:induction false} LastLocationIsFixedArgument(c: Codes, arg: u32, shopsanity: int)
    requires arg < 0x100_0000
    ensures LocationId(c, arg, shopsanity) % 0x100_0000 == FixLocation(c, arg, shopsanity)
  {
    LocationIdOf24Bit(c, arg, shopsanity);
    LocationIdLowBits(c, arg, shopsanity);
  }
}
