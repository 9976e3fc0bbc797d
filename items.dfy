/** What the game is told about items: `hasItem`, the item a location holds
    as `rando_get_item_id` computes it, and the damage-multiplier table. The
    client library's answers about a location and the list of received items
    are the fields of a `Library` value. */
module Items {
  import opened Common
  import opened Codes
  import opened Locations

  /** What the client library reports, for the calls the item handlers make:
      AP_GetLocationHasLocalItem, AP_GetItemAtLocation, AP_GetLocationItemType
      and the received-items list (AP_GetReceivedItemsSize, AP_GetReceivedItem). */
  datatype Library = Library(
    hasLocalItem: int -> bool,
    itemAt: int -> int,
    itemType: int -> int,
    received: seq<int>)

  /** The number of received-item positions holding `id`, among the first
      `(u32) size` positions that hasItem visits. */
  function ReceivedCount(received: seq<int>, id: int): (n: nat)
    ensures |received| < 0x1_0000_0000 ==> n == multiset(received)[id]
    ensures n <= |received|
  {
    var size := U32(|received|);
    assert received[..size] <= received;
    assert |received| < 0x1_0000_0000 ==> received[..size] == received;
    multiset(received[..size])[id]
  }

  /** hasItem(itemId): a pass over the received items counting the matches. */
  method HasItem(received: seq<int>, itemId: int) returns (count: u32)
    ensures count == ReceivedCount(received, itemId)
  {
    count := 0;
    var itemsSize: u32 := U32(|received|);
    var i: u32 := 0;
    while i < itemsSize
      invariant i <= itemsSize
      invariant count <= i
      invariant count == multiset(received[..i])[itemId]
    {
      assert received[..i + 1] == received[..i] + [received[i]];
      if received[i] == itemId {
        count := count + 1;
      }
      i := i + 1;
    }
  }

  /** Receiving one more item (while the list stays below 2^32 entries) adds
      one to the count of that item and leaves every other count alone. */
  lemma {:induction false} ReceivedCountAppend(received: seq<int>, x: int, id: int)
    requires |received| + 1 < 0x1_0000_0000
    ensures ReceivedCount(received + [x], id) == ReceivedCount(received, id) + (if x == id then 1 else 0)
  {
    assert multiset(received + [x]) == multiset(received) + multiset{x};
  }

  /** The item id hasItem is asked about for a get-item code:
      0x3469420000000 | code. */
  function GetItemItemId(c: Codes, g: GetItem): (id: int)
    ensures id == GameBase + c.getItem(g)
  {
    OrGameBase(c.getItem(g))
  }

  /** MIN(base + hasItem(0x3469420000000 | base), cap) for one progressive
      item; the sum is a u32 and MIN compares it with the cap as a u32. */
  function Progressive(c: Codes, received: seq<int>, base: GetItem, cap: GetItem): u32
  {
    Min(U32(c.getItem(base) + ReceivedCount(received, GetItemItemId(c, base))), c.getItem(cap))
  }

  /** A progressive item never goes past its cap, starts at its base while
      no copy has been received, and moves up one code per copy received
      until it reaches the cap. */
  lemma ProgressiveSteps(c: Codes, received: seq<int>, base: GetItem, cap: GetItem)
    requires |received| <= 0xFFFF_0000
    requires c.getItem(base) <= c.getItem(cap)
    ensures Progressive(c, received, base, cap) <= c.getItem(cap)
    ensures var n := ReceivedCount(received, GetItemItemId(c, base));
      Progressive(c, received, base, cap) == Min(c.getItem(base) + n, c.getItem(cap))
    ensures c.getItem(base) <= Progressive(c, received, base, cap)
  {
  }

  /** Receiving another item never lowers a progressive item's code. */
  lemma {:induction false} ProgressiveMonotone(c: Codes, received: seq<int>, x: int, base: GetItem, cap: GetItem)
    requires |received| < 0xFFFF_0000
    requires c.getItem(base) <= c.getItem(cap)
    ensures Progressive(c, received, base, cap) <= Progressive(c, received + [x], base, cap)
    ensures x == GetItemItemId(c, base) && Progressive(c, received, base, cap) < c.getItem(cap) ==>
      Progressive(c, received + [x], base, cap) == Progressive(c, received, base, cap) + 1
  {
    ReceivedCountAppend(received, x, GetItemItemId(c, base));
    ProgressiveSteps(c, received, base, cap);
    ProgressiveSteps(c, received + [x], base, cap);
  }

  /** A local item of class 0x00: one of the four progressive items, or its
      low byte as the get-item id. */
  function LocalGetItem(c: Codes, received: seq<int>, gi: int): u32
    requires 0 <= gi < 0x100
  {
    if gi == c.getItem(SwordKokiri) then Progressive(c, received, SwordKokiri, SwordGilded)
    else if gi == c.getItem(Quiver30) then Progressive(c, received, Quiver30, Quiver50)
    else if gi == c.getItem(BombBag20) then Progressive(c, received, BombBag20, BombBag40Gi)
    else if gi == c.getItem(WalletAdult) then Progressive(c, received, WalletAdult, WalletGiant)
    else gi
  }

  /** Class 0x01: the low byte selects one of five get-item ids. */
  function Class01(c: Codes, low: int): Option<u32>
  {
    if low == 0x7F then Some(c.getItem(GiB2))
    else if low == 0x00 then Some(c.getItem(Gi46))
    else if low == 0x01 then Some(c.getItem(Gi47))
    else if low == 0x02 then Some(c.getItem(Gi48))
    else if low == 0x03 then Some(c.getItem(Gi49))
    else None
  }

  /** Class 0x02: the low byte selects one of three get-item ids. */
  function Class02(c: Codes, low: int): Option<u32>
  {
    if low == 0x00 then Some(c.getItem(MagicJarSmall))
    else if low == 0x01 then Some(c.getItem(Gi71))
    else if low == 0x03 then Some(c.getItem(Gi73))
    else None
  }

  /** The get-item id the game shows for each song. */
  function SongGetItem(s: Item): Option<GetItem>
  {
    match s
    case SongTime => Some(GiA6)
    case SongHealing => Some(GiAF)
    case SongEpona => Some(GiA5)
    case SongSoaring => Some(GiA3)
    case SongStorms => Some(GiA2)
    case SongSonata => Some(GiAE)
    case SongLullaby => Some(GiAD)
    case SongNova => Some(GiAC)
    case SongElegy => Some(GiA8)
    case SongOath => Some(GiA7)
    case _ => None
  }

  /** Class 0x04: the low byte is an ITEM_SONG_* code. */
  function Class04(c: Codes, low: int): Option<u32>
  {
    if low == c.item(SongTime) then Some(c.getItem(GiA6))
    else if low == c.item(SongHealing) then Some(c.getItem(GiAF))
    else if low == c.item(SongEpona) then Some(c.getItem(GiA5))
    else if low == c.item(SongSoaring) then Some(c.getItem(GiA3))
    else if low == c.item(SongStorms) then Some(c.getItem(GiA2))
    else if low == c.item(SongSonata) then Some(c.getItem(GiAE))
    else if low == c.item(SongLullaby) then Some(c.getItem(GiAD))
    else if low == c.item(SongNova) then Some(c.getItem(GiAC))
    else if low == c.item(SongElegy) then Some(c.getItem(GiA8))
    else if low == c.item(SongOath) then Some(c.getItem(GiA7))
    else None
  }

  /** The four dungeon items, numbered 1 to 4 within a dungeon's block. */
  function DungeonKind(s: Item): int
  {
    match s
    case KeyBoss => 1
    case KeySmall => 2
    case DungeonMap => 3
    case Compass => 4
    case _ => 0
  }

  /** GI_MAX + region * 4 + kind: the code of a dungeon item of one region. */
  function DungeonCode(c: Codes, region: int, kind: int): int
  {
    c.getItem(GiMax) + region * 4 + kind
  }

  /** Class 0x09: a dungeon item, with its region in bits 8 to 11. */
  function Class09(c: Codes, low: int, region: int): Option<u32>
    requires 0 <= region < 0x10
  {
    if low == c.item(KeyBoss) then Some(DungeonCode(c, region, 1))
    else if low == c.item(KeySmall) then Some(DungeonCode(c, region, 2))
    else if low == c.item(DungeonMap) then Some(DungeonCode(c, region, 3))
    else if low == c.item(Compass) then Some(DungeonCode(c, region, 4))
    else None
  }

  /** An item the game cannot show by itself: one of three Archipelago
      icons, chosen by the item's classification. */
  function RemoteGetItem(c: Codes, itemType: int): u32
  {
    if itemType == c.typeFiller then c.getItem(ApFiller)
    else if itemType == c.typeUseful then c.getItem(ApUseful)
    else c.getItem(ApProg)
  }

  /** rando_get_item_id(arg). `None` stands for the paths on which the
      handler returns without setting a return value. */
  function GetItemId(c: Codes, arg: u32, shopsanity: int, lib: Library): Option<u32>
  {
    if arg == 0 then Some(0) else ItemAtLocation(c, LocationId(c, arg, shopsanity), lib)
  }

  /** What rando_get_item_id shows for the item the library places at a
      location id: a local item by its class byte, any other item by its
      classification. */
  function ItemAtLocation(c: Codes, location: int, lib: Library): Option<u32>
  {
    var item := lib.itemAt(location) % 0x100_0000;
    var itemClass := item / 0x1_0000;
    var low := item % 0x100;
    if lib.hasLocalItem(location) && itemClass == 0x00 then Some(LocalGetItem(c, lib.received, low))
    else if lib.hasLocalItem(location) && itemClass == 0x01 then Class01(c, low)
    else if lib.hasLocalItem(location) && itemClass == 0x02 then Class02(c, low)
    else if lib.hasLocalItem(location) && itemClass == 0x04 then Class04(c, low)
    else if lib.hasLocalItem(location) && itemClass == 0x09 then Class09(c, low, item / 0x100 % 0x10)
    else Some(RemoteGetItem(c, lib.itemType(location)))
  }

  /** A local item of class 0x00 whose low byte is one of the four
      progressive get-items is shown as MIN(base + hasItem(base), cap),
      whatever its bits 8 to 15 hold. */
  lemma {:induction false} ProgressiveItemShown(c: Codes, arg: u32, shopsanity: int, lib: Library, base: GetItem, cap: GetItem)
    requires WellFormed(c)
    requires (base, cap) in {(SwordKokiri, SwordGilded), (Quiver30, Quiver50), (BombBag20, BombBag40Gi), (WalletAdult, WalletGiant)}
    requires arg != 0 && c.getItem(base) < 0x100
    requires lib.hasLocalItem(LocationId(c, arg, shopsanity))
    requires lib.itemAt(LocationId(c, arg, shopsanity)) % 0x100_0000 / 0x1_0000 == 0
    requires lib.itemAt(LocationId(c, arg, shopsanity)) % 0x100 == c.getItem(base)
    ensures GetItemId(c, arg, shopsanity, lib) == Some(Progressive(c, lib.received, base, cap))
  {
    ProgressiveAtLocation(c, LocationId(c, arg, shopsanity), lib, base, cap);
  }

  /** The same, for the item at a location id. */
  lemma ProgressiveAtLocation(c: Codes, location: int, lib: Library, base: GetItem, cap: GetItem)
    requires GetItemCodesValid(c)
    requires (base, cap) in {(SwordKokiri, SwordGilded), (Quiver30, Quiver50), (BombBag20, BombBag40Gi), (WalletAdult, WalletGiant)}
    requires c.getItem(base) < 0x100
    requires lib.hasLocalItem(location) && lib.itemAt(location) % 0x100_0000 / 0x1_0000 == 0
    requires lib.itemAt(location) % 0x100 == c.getItem(base)
    ensures ItemAtLocation(c, location, lib) == Some(Progressive(c, lib.received, base, cap))
  {
    LowByteOfItem(lib.itemAt(location));
    LocalProgressive(c, lib.received, base, cap);
  }

  /** The low byte of the 24-bit item is the low byte of the raw item. */
  lemma LowByteOfItem(x: int)
    ensures x % 0x100_0000 % 0x100 == x % 0x100
  {
    var q, m := x / 0x100_0000, x % 0x100_0000;
    var r, b := m / 0x100, m % 0x100;
    assert x == (q * 0x1_0000 + r) * 0x100 + b;
  }

  /** The class 0x00 branch on a progressive base code gives that item's step. */
  lemma LocalProgressive(c: Codes, received: seq<int>, base: GetItem, cap: GetItem)
    requires GetItemCodesValid(c)
    requires (base, cap) in {(SwordKokiri, SwordGilded), (Quiver30, Quiver50), (BombBag20, BombBag40Gi), (WalletAdult, WalletGiant)}
    requires c.getItem(base) < 0x100
    ensures LocalGetItem(c, received, c.getItem(base)) == Progressive(c, received, base, cap)
  {
  }

  /** The song table, looked up by code, agrees with the table by name. */
  lemma {:induction false} Class04FollowsSongs(c: Codes, s: Item)
    requires ItemCodesValid(c)
    ensures Class04(c, c.item(s)) == if SongGetItem(s).Some? then Some(c.getItem(SongGetItem(s).value)) else None
  {
  }

  /** Songs are shown as pairwise different get-items. */
  lemma SongGetItemsDistinct(c: Codes, s: Item, t: Item)
    requires WellFormed(c)
    requires Class04(c, c.item(s)).Some? && Class04(c, c.item(t)).Some?
    ensures Class04(c, c.item(s)) == Class04(c, c.item(t)) <==> s == t
  {
    Class04FollowsSongs(c, s);
    Class04FollowsSongs(c, t);
  }

  /** The dungeon-item codes of the 16 regions fill GI_MAX + 1 to GI_MAX + 64
      with no two region/kind pairs sharing a code. */
  lemma DungeonCodeLayout(c: Codes, region: int, kind: int, region': int, kind': int)
    requires 0 <= region < 0x10 && 1 <= kind <= 4
    requires 0 <= region' < 0x10 && 1 <= kind' <= 4
    ensures c.getItem(GiMax) + 1 <= DungeonCode(c, region, kind) <= c.getItem(GiMax) + 64
    ensures DungeonCode(c, region, kind) == DungeonCode(c, region', kind') <==> region == region' && kind == kind'
  {
  }

  /** The dungeon table, looked up by code, agrees with the numbering by name. */
  lemma {:induction false} Class09FollowsKinds(c: Codes, s: Item, region: int)
    requires WellFormed(c) && 0 <= region < 0x10
    ensures Class09(c, c.item(s), region) == if DungeonKind(s) != 0 then Some(DungeonCode(c, region, DungeonKind(s))) else None
  {
  }

  /** Argument 0 always yields get-item 0. */
  lemma ZeroArgument(c: Codes, shopsanity: int, lib: Library)
    ensures GetItemId(c, 0, shopsanity, lib) == Some(0)
  {
  }

  /** A location without a local item is shown by its classification, and the
      three classifications give three different icons. */
  lemma {:induction false} RemoteItemsByClassification(c: Codes, arg: u32, shopsanity: int, lib: Library)
    requires WellFormed(c)
    requires arg != 0 && !lib.hasLocalItem(LocationId(c, arg, shopsanity))
    ensures var t := lib.itemType(LocationId(c, arg, shopsanity));
      GetItemId(c, arg, shopsanity, lib) == Some(
        if t == c.typeFiller then c.getItem(ApFiller)
        else if t == c.typeUseful then c.getItem(ApUseful)
        else c.getItem(ApProg))
    ensures RemoteGetItem(c, c.typeFiller) != RemoteGetItem(c, c.typeUseful)
    ensures forall t :: t != c.typeFiller && t != c.typeUseful ==>
      RemoteGetItem(c, t) != RemoteGetItem(c, c.typeFiller) && RemoteGetItem(c, t) != RemoteGetItem(c, c.typeUseful)
  {
  }

  /** A local item of a class with no table of its own (not 0x00, 0x01, 0x02,
      0x04 or 0x09) is shown by its classification too. */
  lemma UntabledClassIsRemote(c: Codes, arg: u32, shopsanity: int, lib: Library)
    requires arg != 0
    requires var item := lib.itemAt(LocationId(c, arg, shopsanity)) % 0x100_0000;
      item / 0x1_0000 !in {0x00, 0x01, 0x02, 0x04, 0x09}
    ensures GetItemId(c, arg, shopsanity, lib) == Some(RemoteGetItem(c, lib.itemType(LocationId(c, arg, shopsanity))))
  {
  }

  /** The class 0x01 and 0x02 tables: a local item of either class sets a
      return value only for the low bytes its table lists, and that value is
      one of the table's get-item ids; for any other low byte the handler
      returns without setting one. */
  lemma SmallClassTables(c: Codes, location: int, lib: Library)
    requires lib.hasLocalItem(location)
    ensures var item := lib.itemAt(location) % 0x100_0000;
      var r := ItemAtLocation(c, location, lib);
      item / 0x1_0000 == 0x01 ==>
        (r.Some? <==> item % 0x100 in {0x7F, 0x00, 0x01, 0x02, 0x03})
        && (r.Some? ==> r.value in {c.getItem(GiB2), c.getItem(Gi46), c.getItem(Gi47), c.getItem(Gi48), c.getItem(Gi49)})
    ensures var item := lib.itemAt(location) % 0x100_0000;
      var r := ItemAtLocation(c, location, lib);
      item / 0x1_0000 == 0x02 ==>
        (r.Some? <==> item % 0x100 in {0x00, 0x01, 0x03})
        && (r.Some? ==> r.value in {c.getItem(MagicJarSmall), c.getItem(Gi71), c.getItem(Gi73)})
  {
  }

  /** The item shown for a nonzero argument depends only on the location id
      it is remapped to. */
  lemma SameLocationSameItem(c: Codes, a: u32, b: u32, shopsanity: int, lib: Library)
    requires a != 0 && b != 0
    requires LocationId(c, a, shopsanity) == LocationId(c, b, shopsanity)
    ensures GetItemId(c, a, shopsanity, lib) == GetItemId(c, b, shopsanity, lib)
  {
  }

  /** With shopsanity 1, an upper-tier shop slot shows the same item as the
      slot one tier down. */
  lemma {:induction false} UpperTierSharesItem(c: Codes, arg: u32, s: ShopItem, lib: Library)
    requires ShopCodesValid(c)
    requires IsShopLocation(arg) && Slot(arg) == c.shop(s)
    ensures GetItemId(c, arg, 1, lib) == GetItemId(c, 0x09_0000 + c.shop(Downgrade(s)), 1, lib)
  {
    var lower: u32 := 0x09_0000 + c.shop(Downgrade(s));
    UpperTierSharesLocation(c, arg, s);
    ShopLocationNonZero(arg);
    SameLocationSameItem(c, arg, lower, 1, lib);
  }

  /** rando_damage_multiplier: the option value 0 to 4 selects 0, 1, 2, 4 or
      0xF; any other value leaves the return value unset. */
  function DamageMultiplier(option: int): (r: Option<u32>)
    ensures r.Some? <==> 0 <= option <= 4
  {
    if option == 0 then Some(0)
    else if option == 1 then Some(1)
    else if option == 2 then Some(2)
    else if option == 3 then Some(4)
    else if option == 4 then Some(0xF)
    else None
  }

  /** A higher option always gives a higher multiplier, and options 1 to 3
      double it each time. */
  lemma DamageMultiplierIncreasing(a: int, b: int)
    requires 0 <= a < b <= 4
    ensures DamageMultiplier(a).value < DamageMultiplier(b).value
    ensures 1 <= a <= 2 ==> DamageMultiplier(a + 1).value == 2 * DamageMultiplier(a).value
  {
  }
}
