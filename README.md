# MMRecompAPCppGlue core in Dafny

This project models the native glue that sits between the Majora's Mask
recompilation and the Archipelago client library. It covers the parts that
compute something:

- **Emulated memory.** It reads and writes zero-terminated strings in the
  game's memory (`rdram`). It splits 64-bit slot-data handles into two
  32-bit words and joins them again. It makes the truncating copy into a
  caller-sized buffer that the seed-name and date getters share.
- **Location and item ids.** `fixLocation` remaps shop tiers and one special
  location. `hasItem` counts received items. `rando_get_item_id` picks the
  get-item the game shows for a location. There is also the
  damage-multiplier table and the set of location scouts that
  `rando_init_common` drops.
- **Parsers.** `glueGetLine` and the reader of the saved connection
  settings built from it, plus the `shop_prices` list that is read into
  `prices[36]`.
- **Solo seeds.** The seed-folder scan that finds `AP_<seed>_solo.zip`
  files, sorts them newest first and keeps them in `solo_state`, the
  index-checked getters, and the session globals (`room_seed_name`,
  `last_location_sent`).
- **Solo generation helpers.** The backslash escaping of a path, and the
  "rewrite only if different" copy of the bundled zips, run once per process.

The client library (`AP_*`) is not modelled. Its answers are parameters: the
slot options are integers, the received items are a `seq<int>`, and the
location queries are functions. The game's `SI_*`, `GI_*` and `ITEM_*`
enumerators are symbolic: a `Codes` value gives each name its number.
The lemmas make assumptions about those numbers. These are assumptions
about the game's headers; C++ does not guarantee them:

- every code is a non-negative value below 0x10000;
- distinct names have distinct values;
- ITEM_TYPE_FILLER and ITEM_TYPE_USEFUL differ;
- where a lemma needs more, its `requires` states it. `Items.ProgressiveSteps`
  needs the base get-item not above the cap, and `Items.ProgressiveItemShown`
  needs the base code below 0x100.

Location ids are integers, and the source's masks are written as
Euclidean `%` and `/`, which equal two's-complement masking.
The shop-tier `switch` in `fixLocation` is a table of its eleven cases,
walked in order until one matches. `Locations.Downgrade` is an independent
reference that names each slot's lower tier, and the lemmas tie the two together.

Modules, one per file:

| file | module | models |
|---|---|---|
| common.dfy | Common | bytes, u32 wrap-around, `Option` |
| memory.dfy | CStrings | getStr, setStr, the bounded copy |
| handles.dfy | Handles | UPPER, LOWER, CRAFT_64 and the `_o32` handle words |
| codes.dfy | Codes | the enumerators |
| locations.dfy | Locations | fixLocation and the location id |
| items.dfy | Items | hasItem, rando_get_item_id, rando_damage_multiplier |
| bits.dfy | Bits | 64-bit OR on integers |
| scouts.dfy | Scouts | the scouts rando_init_common removes |
| prices.dfy | Prices | the shop-price list |
| connection.dfy | ConnectionFile | glueGetLine and apconnect.txt |
| solo_seeds.dfy | SoloSeeds | solo_state, the scan and its getters |
| session.dfy | Sessions | room_seed_name, last_location_sent |
| solo_gen.dfy | SoloGen | path_to_string_utf8, compare_zip, update_zips, the generate guard |

Two places where the code behaves surprisingly; the model follows the
code:

- **Saved settings round trip.** Writing the saved connection settings and
  reading them back is not always exact. `glueGetLine` swallows every CR and
  LF after a line. With an empty player name, the blank line vanishes and
  the password is read as the player name.
  `ConnectionFile.EmptyPlayerNameShiftsPassword` states this case.
- **The name "AP_solo.zip".** The prefix and suffix of this file name
  overlap. The length computation `size - 3 - 9` wraps around in `size_t`,
  so the scan lists a seed named "solo.zip". `SoloSeeds.OverlappingSeedFileName`
  states this case.

## Model

| member | source | states |
|---|---|---|
| CStrings.StrLen | apcpp-glue.cpp:130-138 | the distance from `ptr` to the first NUL: the byte there is NUL and none before it is (`CStrings.StrLenUnique`: no other length has both properties) |
| CStrings.CString | apcpp-glue.cpp:130-138 | no contract; the bytes from `ptr` up to the first NUL, the string getStr builds; `CStrings.GetStr` returns it |
| CStrings.WriteCString | apcpp-glue.cpp:150-158 | memory after the setStr loop: the source's bytes through its first NUL at `ptr` onward, every other byte kept, the length unchanged |
| CStrings.GetStr | apcpp-glue.cpp:130-148 | appends to the out-string exactly the bytes before the first NUL at `ptr`; none of them is NUL and a NUL follows them |
| CStrings.SetStr | apcpp-glue.cpp:150-168 | memory afterwards is the old memory with the source's bytes up to and including its first NUL at `ptr..ptr+len`; no other byte changes |
| CStrings.ReadBackWritten | apcpp-glue.cpp:130-168 | a NUL-free string written by setStr is read back unchanged by getStr |
| CStrings.CopyBounded | apcpp-glue.cpp:511-529 | returns `size + 1` as a u32; memory becomes the bounded write of the text (nothing for an empty buffer, else the first min(size, outLen-1) bytes and a NUL) |
| CStrings.BoundedCopyStaysInBuffer | apcpp-glue.cpp:511-529 | for a nonempty buffer no byte outside its `outLen` bytes changes, and the buffer holds the first min(size, outLen-1) bytes of the text as a C string |
| CStrings.BoundedCopyEmptyBuffer | apcpp-glue.cpp:515-518 | with output length 0 memory is unchanged |
| Handles.Craft64 | apcpp-glue.cpp:11-14 | the crafted value's upper and lower halves are the two words given |
| Handles.SplitRoundTrip | apcpp-glue.cpp:11-14 | CRAFT_64(UPPER(v), LOWER(v)) == v for every 64-bit v |
| Handles.WordAt | apcpp-glue.cpp:941-942 | no contract; a MEM_W read, the four bytes at the address most significant first; `Handles.PutWord` shows a stored word reads back |
| Handles.HandleAt | apcpp-glue.cpp:941-944 | no contract; CRAFT_64 of the words at +0 and +4; `Handles.HandleRoundTrip` ties it to `PutHandle` |
| Handles.PutHandle | apcpp-glue.cpp:931-932 | no contract; UPPER stored at +0 and LOWER at +4; `Handles.HandleRoundTrip` shows the handle reads back and the other bytes are kept |
| Handles.PutWord | apcpp-glue.cpp:931-932 | a MEM_W store makes the word at the address the value stored and changes no byte outside those four |
| Handles.HandleRoundTrip | apcpp-glue.cpp:921-944 | a handle stored high word at +0 and low word at +4 is read back as the same handle; bytes outside the eight are kept |
| Handles.StoreWord | apcpp-glue.cpp:931 | memory becomes the old memory with the word stored |
| Handles.LoadWord | apcpp-glue.cpp:941 | returns the word at the address |
| Handles.StoreHandle | apcpp-glue.cpp:931-932 | memory becomes the old memory with the handle stored |
| Handles.LoadHandle | apcpp-glue.cpp:941-944 | the handle's halves are the words at +0 and +4 |
| Handles.GetSlotDataRaw | apcpp-glue.cpp:921-933 | stores the handle the library returns at the out pointer |
| Handles.AccessSlotDataRaw | apcpp-glue.cpp:935-968 | stores at the out pointer the library's answer for the handle read from the in pointer |
| Handles.AccessSlotDataRawU32 | apcpp-glue.cpp:970-980 | returns the low 32 bits of the library's answer for the handle read |
| Locations.FixLocation | apcpp-glue.cpp:67-123 | no contract; fixLocation with the shopsanity option as a parameter; its properties are `ShopTierCollapse`, `UnknownShopSlotKept`, `SpecialLocationRemap`, `OtherLocationsUnchanged`, `ShopSlotIdempotent` and `FixLocationIdempotent` |
| Locations.LocationId | apcpp-glue.cpp:1330 | no contract; `0x3469420000000 \| fixLocation(arg)` as an int64, also computed at line 756; `LocationIdLowBits` and `LocationIdOf24Bit` state its value |
| Locations.Downgrade | apcpp-glue.cpp:71-111 | no contract; an independent reference that names each upper tier's lower tier and leaves every other slot alone; `DowngradeIsLowerTier` |
| Locations.LowerTierFrom | apcpp-glue.cpp:71-111 | no contract; the switch as the table `TierCases` of its eleven cases, walked from index i until one matches; `LowerTierFromFollowsDowngrade`, `LowerTierFromOther` |
| Locations.LowerTier | apcpp-glue.cpp:71-111 | no contract; the switch on `arg & 0xFFFF`, the walk from the first case; `LowerTierFollowsDowngrade`, `LowerTierIdempotent`, `LowerTierNeverUpper` |
| Locations.OrGameBase | apcpp-glue.cpp:756 | `0x3469420000000 \| x` keeps the low 28 and low 24 bits of x, stays within the base's 2^32 block, and is the base plus x for x below 2^28 |
| Locations.TierCaseFollowsDowngrade | apcpp-glue.cpp:71-111 | each case of the switch, taken as a row of the tier table, maps an upper tier to its lower tier by name |
| Locations.UnlistedNotUpper | apcpp-glue.cpp:71-111 | a slot with no case in the switch is its own lower tier |
| Locations.LowerTierFromFollowsDowngrade | apcpp-glue.cpp:71-111 | walking the cases from any point before the slot's own case yields the code of the slot's lower tier |
| Locations.LowerTierFromOther | apcpp-glue.cpp:71-111 | a code that is no SI_* code matches no case and is kept |
| Locations.DowngradeIsLowerTier | apcpp-glue.cpp:71-111 | the lower tier of any slot is not an upper tier |
| Locations.LowerTierFollowsDowngrade | apcpp-glue.cpp:71-111 | the switch on codes maps each SI_* code to the code of its lower tier, by name |
| Locations.LowerTierIdempotent | apcpp-glue.cpp:71-111 | applying the tier map twice equals applying it once |
| Locations.LowerTierNeverUpper | apcpp-glue.cpp:71-111 | the tier map never yields an upper-tier code |
| Locations.ShopTierCollapse | apcpp-glue.cpp:69-118 | with shopsanity 1 a shop location of an upper-tier slot becomes 0x090000 plus its lower tier's code; any other shop slot becomes `arg & 0xFFFFFF`, so bits above 23 are dropped |
| Locations.UnknownShopSlotKept | apcpp-glue.cpp:69-118 | with shopsanity 1 a shop location whose slot is no listed SI_* code is kept except for bits above 23 |
| Locations.SpecialLocationRemap | apcpp-glue.cpp:120-122 | 0x05481E becomes 0x054D1E exactly when shopsanity != 2 |
| Locations.OtherLocationsUnchanged | apcpp-glue.cpp:67-123 | every argument that is neither a remapped shop location nor 0x05481E is returned unchanged |
| Locations.ShopSlotIdempotent | apcpp-glue.cpp:69-118 | with shopsanity 1 fixLocation applied twice to a shop location equals fixLocation once |
| Locations.FixLocationIdempotent | apcpp-glue.cpp:67-123 | no remap target is a remap source: fixLocation applied twice equals fixLocation once |
| Locations.UpperTierSharesLocation | apcpp-glue.cpp:69-118 | with shopsanity 1 an upper-tier shop slot has the same location id as its lower tier |
| Locations.LocationIdLowBits | apcpp-glue.cpp:1330 | the low 24 bits of the location id are those of the fixed location |
| Locations.LocationIdOf24Bit | apcpp-glue.cpp:1330 | for a 24-bit argument the fixed location is 24-bit and the id is the base plus it |
| Locations.RemapSourceNeverReported | apcpp-glue.cpp:120-123 | unless shopsanity is 2, no 24-bit argument yields the id of location 0x05481E |
| Locations.UpperTierNeverReported | apcpp-glue.cpp:69-118 | with shopsanity 1 no 24-bit argument yields the id of an upper-tier shop slot |
| Items.ReceivedCount | apcpp-glue.cpp:53-65 | the count of an item is its multiplicity among the received items, and at most their number |
| Items.HasItem | apcpp-glue.cpp:53-65 | the loop returns the number of positions among the first `(u32) size` received items that hold the id |
| Items.ReceivedCountAppend | apcpp-glue.cpp:53-65 | receiving one more item adds one to that item's count and leaves the others |
| Items.GetItemItemId | apcpp-glue.cpp:768-786 | the id hasItem is asked about is the base plus the get-item code |
| Items.Progressive | apcpp-glue.cpp:766-788 | no contract; `MIN(base + hasItem(0x3469420000000 \| base), cap)` with the sum as a u32; `ProgressiveSteps`, `ProgressiveMonotone` |
| Items.LocalGetItem | apcpp-glue.cpp:762-792 | no contract; class 0x00: one of the four progressive items, else the low byte itself; `ProgressiveItemShown` |
| Items.Class01 | apcpp-glue.cpp:795-813 | no contract; the class 0x01 table of five low bytes; `SmallClassTables` |
| Items.Class02 | apcpp-glue.cpp:814-827 | no contract; the class 0x02 table of three low bytes; `SmallClassTables` |
| Items.SmallClassTables | apcpp-glue.cpp:795-827 | a local class 0x01 item sets a value exactly for low bytes 0x7F and 0x00 to 0x03, and a class 0x02 item exactly for 0x00, 0x01 and 0x03; the value is one of that table's get-items, and any other byte returns without a value |
| Items.Class04 | apcpp-glue.cpp:829-863 | no contract; the class 0x04 song switch; `Class04FollowsSongs`, `SongGetItemsDistinct` |
| Items.Class09 | apcpp-glue.cpp:864-880 | no contract; the class 0x09 dungeon-item switch; `Class09FollowsKinds`, `DungeonCodeLayout` |
| Items.RemoteGetItem | apcpp-glue.cpp:884-895 | no contract; the classification switch; `RemoteItemsByClassification` |
| Items.ItemAtLocation | apcpp-glue.cpp:758-895 | no contract; the class-byte dispatch on the item at a location id, or the classification when the item is not local; `UntabledClassIsRemote`, `SmallClassTables` |
| Items.GetItemId | apcpp-glue.cpp:746-895 | no contract; rando_get_item_id, with `None` for the paths that return without a value; `ZeroArgument`, `SameLocationSameItem`, `UpperTierSharesItem` |
| Items.ProgressiveSteps | apcpp-glue.cpp:766-788 | a progressive item is min(base + count, cap): never above the cap, never below the base |
| Items.ProgressiveMonotone | apcpp-glue.cpp:766-788 | receiving an item never lowers a progressive item, and one more copy below the cap raises it by one |
| Items.ProgressiveItemShown | apcpp-glue.cpp:758-788 | a local item of class 0x00 whose low byte is one of the four progressive get-items is shown as MIN(base + hasItem(base), cap), whatever bits 8 to 15 hold |
| Items.ProgressiveAtLocation | apcpp-glue.cpp:760-788 | a local item of class 0x00 at a location, whose low byte is a progressive base get-item, is shown as MIN(base + hasItem(base), cap), whatever bits 8 to 15 hold |
| Items.LocalProgressive | apcpp-glue.cpp:762-788 | in the class 0x00 branch, the low byte of each of the four progressive base get-items selects that item's MIN(base + hasItem(base), cap) |
| Items.Class04FollowsSongs | apcpp-glue.cpp:829-863 | the song switch maps each ITEM_SONG_* code to its GI_* code, by name, and any other item to no value |
| Items.SongGetItemsDistinct | apcpp-glue.cpp:829-863 | two songs are shown as the same get-item only if they are the same song |
| Items.DungeonCodeLayout | apcpp-glue.cpp:864-880 | GI_MAX + region*4 + k lies in GI_MAX+1..GI_MAX+64, and distinct region/kind pairs get distinct codes |
| Items.Class09FollowsKinds | apcpp-glue.cpp:864-880 | the dungeon switch gives the boss key, small key, map and compass kinds 1 to 4 in the item's region |
| Items.ZeroArgument | apcpp-glue.cpp:750-754 | argument 0 yields 0 |
| Items.RemoteItemsByClassification | apcpp-glue.cpp:884-895 | a location without a local item is shown by its classification (filler, useful, otherwise progression), and the three results differ |
| Items.UntabledClassIsRemote | apcpp-glue.cpp:793-895 | a local item of a class with no case falls through to the classification |
| Items.SameLocationSameItem | apcpp-glue.cpp:746-895 | the item shown for a nonzero argument depends only on its location id |
| Items.UpperTierSharesItem | apcpp-glue.cpp:746-895 | with shopsanity 1 an upper-tier shop slot shows the same item as its lower tier |
| Items.DamageMultiplier | apcpp-glue.cpp:620-641 | a value is returned exactly for options 0 to 4 |
| Items.DamageMultiplierIncreasing | apcpp-glue.cpp:620-641 | a higher option gives a higher multiplier, doubling from option 1 to 3 |
| Bits.BitOrDisjoint | apcpp-glue.cpp:241-304 | OR of a multiple of 2^k with a value below 2^k is their sum |
| Bits.Or64Disjoint | apcpp-glue.cpp:241-304 | the same for int64_t operands below 2^63 |
| Scouts.SkullScouts | apcpp-glue.cpp:233-250 | no contract; the two spider-house token loops; `SkullScoutsRemoved` |
| Scouts.HeartScouts | apcpp-glue.cpp:252-256 | no contract; the heart-location loop from `starting_heart_locations`; `HeartScoutsFromStart`, `HeartScoutsAntitone` |
| Scouts.CowScouts | apcpp-glue.cpp:258-265 | no contract; the eight cows when cowsanity is 0 |
| Scouts.ScrubScouts | apcpp-glue.cpp:267-273 | no contract; the four business scrubs when scrubsanity is 0 |
| Scouts.ShopScouts | apcpp-glue.cpp:275-313 | no contract; the shop removals for shopsanity 0 and 1; `ShopScoutId`, `UpperTierScoutsRemoved`, `RemapSourceScoutRemoved` |
| Scouts.TradeScouts | apcpp-glue.cpp:315-321 | no contract; the four curiosity-shop trades when they are not randomized |
| Scouts.IntroScouts | apcpp-glue.cpp:323-326 | no contract; the intro check when it is not randomized |
| Scouts.RemovedScouts | apcpp-glue.cpp:233-326 | no contract; the union of the seven removal rules; `SentScouts`, `NothingRemovedWhenAllRandomized` |
| Scouts.SentScouts | apcpp-glue.cpp:231-326 | a scout is kept exactly when it is queued and no removal rule names it: every removed scout is dropped, and nothing else is |
| Scouts.NothingRemovedWhenAllRandomized | apcpp-glue.cpp:231-326 | with every option randomized no scout is removed |
| Scouts.HeartScoutsFromStart | apcpp-glue.cpp:252-256 | heart location i is removed exactly when i >= starting_heart_locations |
| Scouts.HeartScoutsAntitone | apcpp-glue.cpp:252-256 | more starting heart locations never remove more heart scouts |
| Scouts.SkullScoutsRemoved | apcpp-glue.cpp:233-250 | with skullsanity 2 every token of both spider houses is removed except token 3 of the first |
| Scouts.ShopScoutId | apcpp-glue.cpp:282-311 | `0x3469420090000 \| code` is the id of shop location 0x090000 + code |
| Scouts.UpperTierScoutsRemoved | apcpp-glue.cpp:280-291 | with shopsanity 1 the listed upper-tier slots are removed, and fixLocation never reports them |
| Scouts.RemapSourceScoutRemoved | apcpp-glue.cpp:275-278 | unless shopsanity is 2 location 0x05481E is removed, and fixLocation never reports it |
| Prices.NextShort | apcpp-glue.cpp:225 | one `>> s16` extraction after skipping white space; a success consumes input; `PricesSkipSpace`, `NextShortFormatted` |
| Prices.Prices | apcpp-glue.cpp:219-228 | no contract; every value the loop extracts, in order; `ParsePrices` stores them and `PricesRoundTrip` inverts them |
| Prices.ExtractNumber | apcpp-glue.cpp:225 | a successful `>> s16` extraction consumes input |
| Prices.ParsePrices | apcpp-glue.cpp:219-228 | the loop stores exactly the values `>> s16` extracts, in order, at indices 0..count-1, and leaves the rest of the array alone |
| Prices.GetShopPrice | apcpp-glue.cpp:733-737 | returns the price stored at the index |
| Prices.PricesSkipSpace | apcpp-glue.cpp:225 | leading white space does not change what is parsed |
| Prices.NextShortFormatted | apcpp-glue.cpp:225 | one decimal value followed by a space is extracted as that value |
| Prices.ExtractFormatted | apcpp-glue.cpp:225 | the decimal text of any s16 value followed by a non-digit is extracted as that value, and the rest is left |
| Prices.DecimalValueDigits | apcpp-glue.cpp:225 | reading back the decimal digits of a natural number gives the number |
| Prices.PricesRoundTrip | apcpp-glue.cpp:219-228 | a space-separated decimal list of s16 values parses back to the same list |
| ConnectionFile.ReadLine | apcpp-glue.cpp:16-33 | one glueGetLine call as a value: the line and the position after it, which never passes the end; `GlueGetLine` is proved to compute it |
| ConnectionFile.LineEnd | apcpp-glue.cpp:16-33 | the line ends at the first CR, LF, NUL or EOF byte |
| ConnectionFile.SkipBreaks | apcpp-glue.cpp:27-32 | the run of CR and LF after a line is consumed entirely, and the next byte is neither |
| ConnectionFile.SkipLineBreaks | apcpp-glue.cpp:26-32 | the peek-and-consume loop stops exactly where the run of CR and LF after the line ends |
| ConnectionFile.GlueGetLine | apcpp-glue.cpp:16-33 | appends the longest prefix without a line ender, consumes it, one terminator and the following run of CR/LF |
| ConnectionFile.ReadSavedConnection | apcpp-glue.cpp:333-364 | no contract; the defaults, or the three lines read in turn; `LoadSavedConnection` computes it and `SavedConnectionRoundTrip` inverts the writer |
| ConnectionFile.SavedConnectionFile | apcpp-glue.cpp:388-390 | no contract; the three fields, each followed by LF; `ReadFields`, `SavedConnectionRoundTrip`, `EmptyPlayerNameShiftsPassword` |
| ConnectionFile.LoadSavedConnection | apcpp-glue.cpp:333-364 | the defaults when the file does not open, else the three lines read in turn |
| ConnectionFile.ReadFields | apcpp-glue.cpp:333-391 | the three reads of a written file give back the address, player name and password, for fields without line enders when an empty player name has no password |
| ConnectionFile.ReadLastTwoLines | apcpp-glue.cpp:356-358 | two lines ended by LF at the end of the file are read back one after the other when the first is not empty |
| ConnectionFile.SavedConnectionRoundTrip | apcpp-glue.cpp:333-391 | settings written and read back are the same, for fields without line enders when an empty player name has no password |
| ConnectionFile.EmptyPlayerNameShiftsPassword | apcpp-glue.cpp:333-391 | an empty player name with a password reads back as the password in the player-name field |
| SoloSeeds.IsSeedFileName | apcpp-glue.cpp:471 | no contract; starts with "AP_" and ends with "_solo.zip", which may overlap; `SeedFileNameRoundTrip`, `OverlappingSeedFileName` |
| SoloSeeds.SeedNameOf | apcpp-glue.cpp:477 | no contract; the `substr` with its count computed in `size_t`; `SeedNameBetween`, `OverlappingSeedFileName` |
| SoloSeeds.SeedsOf | apcpp-glue.cpp:464-483 | no contract; the seeds of the kept entries in directory order; `SeedsOfMembers`, `ScanSoloSeeds` |
| SoloSeeds.SeedNameBetween | apcpp-glue.cpp:476-482 | a seed file name of at least 12 bytes is "AP_" + seed name + "_solo.zip" |
| SoloSeeds.SeedFileNameRoundTrip | apcpp-glue.cpp:476-482 | the file name rando_init_solo opens is recognised by the scan and gives back the seed |
| SoloSeeds.OverlappingSeedFileName | apcpp-glue.cpp:476-482 | the only matching name shorter than 12 bytes is "AP_solo.zip", whose seed name "solo.zip" does not name it back |
| SoloSeeds.SeedsOfMembers | apcpp-glue.cpp:464-484 | every kept regular file gives a listed seed and every listed seed comes from one |
| SoloSeeds.InsertNewestFirst | apcpp-glue.cpp:486-491 | inserting into a newest-first list adds the seed and keeps the list newest first |
| SoloSeeds.SortNewestFirst | apcpp-glue.cpp:486-491 | the sorted list is a permutation of the input ordered by timestamp, non-increasing |
| SoloSeeds.SoloState.ScanSoloSeeds | apcpp-glue.cpp:452-492 | the list is rebuilt as a permutation of the seeds of exactly the kept entries, newest first, and the folder is recorded |
| SoloSeeds.SoloState.Count | apcpp-glue.cpp:494-497 | the number of seeds as a u32 |
| SoloSeeds.SoloState.GetSeedName | apcpp-glue.cpp:499-530 | 0 and no write past the list; otherwise size+1 and the bounded copy of the seed name |
| SoloSeeds.SoloState.GetGenerationDate | apcpp-glue.cpp:532-563 | 0 and no write past the list; otherwise size+1 and the bounded copy of the date |
| SoloSeeds.NewerSeedListedFirst | apcpp-glue.cpp:486-491 | of two kept files with different times, the newer one's seed is listed first |
| Sessions.Session.InitServer | apcpp-glue.cpp:393-421 | the room seed name becomes the server's only when initialisation succeeds |
| Sessions.Session.InitSolo | apcpp-glue.cpp:423-450 | an index past the list fails with nothing opened; otherwise "AP_<seed>_solo.zip" is opened and the seed becomes the room's on success |
| Sessions.Session.GetSeedName | apcpp-glue.cpp:565-588 | size+1 and the bounded copy of the room seed name |
| Sessions.Session.SendLocation | apcpp-glue.cpp:1327-1339 | the id is remembered exactly when the location exists, and sent exactly when it also is not checked |
| Sessions.Session.GetLastLocationSent | apcpp-glue.cpp:1355-1358 | the low 24 bits of the last id remembered |
| Sessions.LastLocationIsFixedArgument | apcpp-glue.cpp:1327-1358 | for a 24-bit argument the last location read back is that argument after fixLocation |
| SoloGen.Escaped | apcpp-solo-gen.cpp:14-28 | no contract; the path's bytes with every backslash doubled; `EscapedLength`, `EscapedAppend`, `UnescapeEscaped`, `EscapedInjective` |
| SoloGen.PathToStringUtf8 | apcpp-solo-gen.cpp:14-28 | the result is the path with every backslash doubled |
| SoloGen.EscapedLength | apcpp-solo-gen.cpp:14-28 | the result is one byte longer per backslash |
| SoloGen.EscapedNoBackslash | apcpp-solo-gen.cpp:20-26 | a path without backslashes is unchanged |
| SoloGen.EscapedAppend | apcpp-solo-gen.cpp:20-26 | escaping works byte by byte: the escape of a concatenation is the concatenation of the escapes |
| SoloGen.UnescapeEscaped | apcpp-solo-gen.cpp:20-26 | collapsing doubled backslashes recovers the path |
| SoloGen.EscapedInjective | apcpp-solo-gen.cpp:14-28 | distinct paths have distinct escapes |
| SoloGen.Lookup | apcpp-solo-gen.cpp:58-62 | no contract; the file of a name, or none when it does not exist; used by `CompareZip` |
| SoloGen.CompareZip | apcpp-solo-gen.cpp:56-84 | true exactly when the file exists, opens and holds the bundled bytes |
| SoloGen.Disk.WriteZip | apcpp-solo-gen.cpp:50-53 | the file now holds the zip's bytes |
| SoloGen.Disk.UpdateZips | apcpp-solo-gen.cpp:87-98 | each zip is written, in order, exactly when it does not compare equal |
| SoloGen.UpdatedFiles | apcpp-solo-gen.cpp:87-98 | no contract; the folder after update_zips; `UpdatedFilesHoldZips`, `UpdateIdempotent` |
| SoloGen.ZipsWritten | apcpp-solo-gen.cpp:87-98 | no contract; the names update_zips writes, in order; `WrittenIffDiffered`, `NotWrittenOutside`, `AllSameNothingWritten` |
| SoloGen.UpdatedFilesHoldZips | apcpp-solo-gen.cpp:87-98 | afterwards every bundled zip is on disk with its bytes, and other files are unchanged |
| SoloGen.WrittenIffDiffered | apcpp-solo-gen.cpp:87-98 | a zip is written exactly when it differed beforehand |
| SoloGen.NotWrittenOutside | apcpp-solo-gen.cpp:87-98 | only the bundled zips' names are written |
| SoloGen.AllSameNothingWritten | apcpp-solo-gen.cpp:87-98 | when every zip already matches nothing is written |
| SoloGen.UpdateIdempotent | apcpp-solo-gen.cpp:87-98 | a second update writes nothing and changes nothing |
| SoloGen.Generator.Generate | apcpp-solo-gen.cpp:100-106 | the zips are updated on the first call only; later calls leave the disk alone |

## Left out

- All `AP_*` client-library calls (connecting, scouting, data storage, item and location queries) are not modelled; their answers are parameters.
- The busy-wait handshake in `rando_init_common` is left out: it only waits on the network and has no timeout.
- The Python embedding in `sologen::generate` is left out: it is a foreign runtime.
- Directory iteration, `last_write_time`, `time_point_to_time_t` and `format_file_time` are left out: the scan takes a list of entries with their times and date strings.
- Path joining (`/`, `parent_path`) is left out: the seed folder is a parameter, and the zip folder is a map keyed by file name.
- The `std::ifstream`/`std::ofstream` handling of apconnect.txt is left out, and so is Windows text mode: the file is a byte sequence. The memory side of the two apconnect handlers is the `CStrings` model.
- The data-storage handlers with try/catch and `std::stoi`, and the one-line option getters that forward `AP_GetSlotDataInt`, are left out.
- The internals of `MEM_B`/`MEM_W` live in headers that are not part of this model. Memory is a flat byte array, and a word is four bytes, most significant first.
- The numeric values of the `SI_*`, `GI_*`, `ITEM_*` and `ITEM_TYPE_*` constants are not modelled; they are symbolic.
- The `printf` logging in `update_zips` is left out.
- SoloGen.Disk.WriteZip: a failed open or write is not modelled; every write succeeds. The source never checks the `ofstream`, so in a folder it cannot write, the old file stays and `update_zips` carries on. `SoloGen.UpdatedFilesHoldZips` and `SoloGen.UpdateIdempotent` rely on writes succeeding.
- ConnectionFile.EndsLine: assumes a signed `char`, where byte 0xFF compares equal to EOF. With an unsigned `char` that comparison never holds, and 0xFF would not end a line.
- Items.ProgressiveSteps: holds only for lists of at most 0xFFFF_0000 received items, where `base + count` cannot wrap around in 32 bits.
- Items.ProgressiveMonotone: holds only for lists below 0xFFFF_0000 items, for the same reason.
- Locations.RemapSourceNeverReported: stated only for 24-bit arguments (class byte and slot), the form the game passes.
- Locations.UpperTierNeverReported: stated only for 24-bit arguments, as above.
- Scouts.UpperTierScoutsRemoved: the never-reported half is stated only for 24-bit arguments, as above.
- Prices.ParsePrices: requires at most `prices.Length` (36) values; more would write past the C array, which is undefined behaviour.
- Prices.GetShopPrice: requires an index inside the array; a read past it is undefined behaviour.
- SoloSeeds.SeedNameBetween: assumes a name shorter than 2^64 bytes, as every `std::u8string` is.
- SoloSeeds.SortNewestFirst: the order of seeds with equal timestamps is not specified, as `std::sort` does not specify it.
- CStrings.GetStr: requires a NUL at or after the pointer; the source reads until it finds one and does not bound the scan.
