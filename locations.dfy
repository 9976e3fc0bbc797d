/** Location identifiers: `fixLocation`, which collapses shop tiers and one
    special location onto the identifier the randomizer knows, and the full
    location id that every lookup, check and send uses. */
module Locations {
  import opened Common
  import opened Codes

  /** The game identifier occupying the high bits of every location and item id
      (0x3469420000000). Ids are int64_t in the client library; they are
      modelled as integers, and a mask `x & (2^k - 1)` as `x % 2^k`, which
      agrees with two's complement masking for negative values too. */
  const GameBase: int := 0x3469420000000

  /** GameBase | x for a 32-bit x. Of bits 0 to 31 of GameBase only bit 29 is
      set, so the OR adds that bit when x lacks it and GameBase's bits from 32
      up. */
  function OrGameBase(x: u32): (r: int)
    ensures r % 0x1000_0000 == x % 0x1000_0000
    ensures r % 0x100_0000 == x % 0x100_0000
    ensures 0 <= r - GameBase / 0x1_0000_0000 * 0x1_0000_0000 < 0x1_0000_0000
    ensures x < 0x1000_0000 ==> r == GameBase + x
  {
    var bit29: int := if x / 0x2000_0000 % 2 == 1 then 0 else 0x2000_0000;
    Bit29Room(x);
    var k := if bit29 == 0 then 0x34_6940 else 0x34_6942;
    Low28Kept(x, k);
    Low24Kept(x, 0x10 * k);
    0x3469400000000 + bit29 + x
  }

  /** A 32-bit value without bit 29 has room for it. */
  lemma Bit29Room(x: u32)
    ensures x / 0x2000_0000 % 2 == 0 ==> x + 0x2000_0000 < 0x1_0000_0000
  {
    var high := x / 0x2000_0000;
    assert 0 <= high < 8;
    assert x < high * 0x2000_0000 + 0x2000_0000;
  }

  /** Adding a multiple of 2^28 keeps the low 28 bits. */
  lemma Low28Kept(x: int, k: int)
    ensures (k * 0x1000_0000 + x) % 0x1000_0000 == x % 0x1000_0000
  {
    var q, m := x / 0x1000_0000, x % 0x1000_0000;
    assert k * 0x1000_0000 + x == (k + q) * 0x1000_0000 + m;
  }

  /** Adding a multiple of 2^24 keeps the low 24 bits. */
  lemma Low24Kept(x: int, k: int)
    ensures (k * 0x100_0000 + x) % 0x100_0000 == x % 0x100_0000
  {
    var q, m := x / 0x100_0000, x % 0x100_0000;
    assert k * 0x100_0000 + x == (k + q) * 0x100_0000 + m;
  }

  /** (arg & 0xFF0000) == 0x090000: bits 16 to 23 hold the shop class 0x09. */
  predicate IsShopLocation(arg: int)
  {
    arg / 0x1_0000 % 0x100 == 0x09
  }

  /** arg & 0xFFFF: the slot code of a shop location. */
  function Slot(arg: int): (r: int)
    ensures 0 <= r < 0x1_0000
  {
    arg % 0x1_0000
  }

  /** The case labels of fixLocation's switch on the slot code, in order,
      each with the slot whose code replaces it. */
  const TierCases: seq<(ShopItem, ShopItem)> := [
    (Nuts2, Nuts1), (Stick2, Stick1), (ArrowsLarge2, ArrowsLarge1),
    (ArrowsMedium2, ArrowsMedium1), (Fairy2, Fairy1), (PotionGreen3, PotionGreen2),
    (ShieldHero2, ShieldHero1), (PotionRed3, PotionRed2), (PotionRed6, PotionRed5),
    (ArrowsSmall3, ArrowsSmall2), (Bomb3, Bomb2)]

  /** The switch from case `i` on: the first label whose code is `code`
      selects the code of its replacement; no matching label leaves `code`. */
  function LowerTierFrom(c: Codes, code: Code, i: nat): Code
    requires i <= |TierCases|
    decreases |TierCases| - i
  {
    if i == |TierCases| then code
    else if code == c.shop(TierCases[i].0) then c.shop(TierCases[i].1)
    else LowerTierFrom(c, code, i + 1)
  }

  /** The shop-tier switch of fixLocation: the code of each tier-2/3/6 slot
      becomes the code of the tier below it; every other code is unchanged. */
  function LowerTier(c: Codes, code: Code): Code
  {
    LowerTierFrom(c, code, 0)
  }

  /** The tier collapse stated on the shop-item names themselves. */
  function Downgrade(s: ShopItem): ShopItem
  {
    match s
    case Nuts2 => Nuts1
    case Stick2 => Stick1
    case ArrowsLarge2 => ArrowsLarge1
    case ArrowsMedium2 => ArrowsMedium1
    case Fairy2 => Fairy1
    case PotionGreen3 => PotionGreen2
    case ShieldHero2 => ShieldHero1
    case PotionRed3 => PotionRed2
    case PotionRed6 => PotionRed5
    case ArrowsSmall3 => ArrowsSmall2
    case Bomb3 => Bomb2
    case _ => s
  }

  /** The upper-tier slots that the table collapses. */
  predicate IsUpperTier(s: ShopItem)
  {
    Downgrade(s) != s
  }

  /** fixLocation(arg), with the slot option `shopsanity` as a parameter. The
      C++ result is an int64_t; it always holds a 32-bit value. The OR of
      0x090000 with a 16-bit code is their sum. */
  function FixLocation(c: Codes, arg: u32, shopsanity: int): u32
  {
    if IsShopLocation(arg) && shopsanity == 1 then
      0x09_0000 + LowerTier(c, Slot(arg))
    else if arg == 0x05_481E && shopsanity != 2 then
      0x05_4D1E
    else
      arg
  }

  /** 0x3469420000000 | fixLocation(arg): the id handed to the client library. */
  function LocationId(c: Codes, arg: u32, shopsanity: int): int
  {
    OrGameBase(FixLocation(c, arg, shopsanity))
  }

  /** Each case of the table replaces a slot by the slot one tier down. */
  lemma TierCaseFollowsDowngrade(i: nat)
    requires i < |TierCases|
    ensures Downgrade(TierCases[i].0) == TierCases[i].1
  {
  }

  /** Every upper-tier slot is a case label of the table. */
  lemma UnlistedNotUpper(s: ShopItem)
    requires forall j :: 0 <= j < |TierCases| ==> TierCases[j].0 != s
    ensures Downgrade(s) == s
  {
    assert TierCases[0].0 != s && TierCases[1].0 != s && TierCases[2].0 != s && TierCases[3].0 != s;
    assert TierCases[4].0 != s && TierCases[5].0 != s && TierCases[6].0 != s && TierCases[7].0 != s;
    assert TierCases[8].0 != s && TierCases[9].0 != s && TierCases[10].0 != s;
  }

  /** From case `i` on, the code of a slot not among the earlier labels is
      replaced by the code of the slot one tier down. */
  lemma {:induction false} LowerTierFromFollowsDowngrade(c: Codes, s: ShopItem, i: nat)
    requires ShopCodesValid(c) && i <= |TierCases|
    requires forall j :: 0 <= j < i ==> TierCases[j].0 != s
    ensures LowerTierFrom(c, c.shop(s), i) == c.shop(Downgrade(s))
    decreases |TierCases| - i
  {
    if i == |TierCases| {
      UnlistedNotUpper(s);
    } else {
      var upper, lower := TierCases[i].0, TierCases[i].1;
      if c.shop(s) == c.shop(upper) {
        assert s == upper;
        TierCaseFollowsDowngrade(i);
        assert LowerTierFrom(c, c.shop(s), i) == c.shop(lower);
      } else {
        assert LowerTierFrom(c, c.shop(s), i) == LowerTierFrom(c, c.shop(s), i + 1);
        LowerTierFromFollowsDowngrade(c, s, i + 1);
      }
    }
  }

  /** A code that belongs to no shop slot passes the switch unchanged. */
  lemma {:induction false} LowerTierFromOther(c: Codes, code: Code, i: nat)
    requires i <= |TierCases|
    requires forall s :: c.shop(s) != code
    ensures LowerTierFrom(c, code, i) == code
    decreases |TierCases| - i
  {
    if i < |TierCases| {
      assert code != c.shop(TierCases[i].0);
      LowerTierFromOther(c, code, i + 1);
    }
  }

  /** The table agrees with the names: a shop code is mapped to the code of the
      slot one tier down, and only upper-tier codes move. */
  lemma {:induction false} LowerTierFollowsDowngrade(c: Codes, s: ShopItem)
    requires ShopCodesValid(c)
    ensures LowerTier(c, c.shop(s)) == c.shop(Downgrade(s))
  {
    LowerTierFromFollowsDowngrade(c, s, 0);
  }

  /** No code produced by the table is itself collapsed again. */
  lemma {:induction false} LowerTierIdempotent(c: Codes, code: Code)
    requires ShopCodesValid(c)
    ensures LowerTier(c, LowerTier(c, code)) == LowerTier(c, code)
  {
    if s :| code == c.shop(s) {
      LowerTierFollowsDowngrade(c, s);
      LowerTierFollowsDowngrade(c, Downgrade(s));
    } else {
      LowerTierFromOther(c, code, 0);
    }
  }

  /** The table never produces the code of an upper-tier slot. */
  lemma {:induction false} LowerTierNeverUpper(c: Codes, code: Code, s: ShopItem)
    requires ShopCodesValid(c) && IsUpperTier(s)
    ensures LowerTier(c, code) != c.shop(s)
  {
    if t :| code == c.shop(t) {
      LowerTierFollowsDowngrade(c, t);
      DowngradeIsLowerTier(t);
      assert Downgrade(t) != s;
    } else {
      LowerTierFromOther(c, code, 0);
    }
  }

  /** A slot one tier down is not itself an upper tier. */
  lemma DowngradeIsLowerTier(s: ShopItem)
    ensures !IsUpperTier(Downgrade(s))
  {
  }

  /** A shop location is its 0x09 class byte over its 16-bit slot code. */
  lemma ShopLocationBits(arg: u32)
    requires IsShopLocation(arg)
    ensures 0x09_0000 + Slot(arg) == arg % 0x100_0000
  {
  }

  /** A shop location is never the argument 0. */
  lemma ShopLocationNonZero(arg: u32)
    requires IsShopLocation(arg)
    ensures arg != 0
  {
  }

  /** Class byte and slot code can be read back from 0x090000 | code. */
  lemma ShopCodeBits(code: int)
    requires 0 <= code < 0x1_0000
    ensures IsShopLocation(0x09_0000 + code) && Slot(0x09_0000 + code) == code
  {
  }

  /** With shopsanity 1, a shop location keeps its 0x09 class byte, drops the
      bits above 23, and has its slot replaced by the slot one tier down. */
  lemma {:induction false} ShopTierCollapse(c: Codes, arg: u32, s: ShopItem)
    requires ShopCodesValid(c)
    requires IsShopLocation(arg) && Slot(arg) == c.shop(s)
    ensures FixLocation(c, arg, 1) == 0x09_0000 + c.shop(Downgrade(s))
    ensures !IsUpperTier(s) ==> FixLocation(c, arg, 1) == arg % 0x100_0000
  {
    LowerTierFollowsDowngrade(c, s);
    ShopLocationBits(arg);
  }

  /** With shopsanity 1, an upper-tier shop slot and the slot one tier down
      are the same location to the client library. */
  lemma {:induction false} UpperTierSharesLocation(c: Codes, arg: u32, s: ShopItem)
    requires ShopCodesValid(c)
    requires IsShopLocation(arg) && Slot(arg) == c.shop(s)
    ensures LocationId(c, arg, 1) == LocationId(c, 0x09_0000 + c.shop(Downgrade(s)), 1)
  {
    var d := Downgrade(s);
    var lower: int := 0x09_0000 + c.shop(d);
    ShopTierCollapse(c, arg, s);
    ShopCodeBits(c.shop(d));
    DowngradeIsLowerTier(s);
    assert Downgrade(d) == d;
    ShopTierCollapse(c, lower, d);
    assert FixLocation(c, arg, 1) == FixLocation(c, lower, 1);
  }

  /** A shop location whose slot is not one of the named shop items is kept,
      apart from the bits above 23. */
  lemma {:induction false} UnknownShopSlotKept(c: Codes, arg: u32)
    requires IsShopLocation(arg)
    requires forall s :: c.shop(s) != Slot(arg)
    ensures FixLocation(c, arg, 1) == arg % 0x100_0000
  {
    LowerTierFromOther(c, Slot(arg), 0);
    ShopLocationBits(arg);
  }

  /** Location 0x05481E is replaced by 0x054D1E exactly when shopsanity is not 2. */
  lemma SpecialLocationRemap(c: Codes, shopsanity: int)
    ensures FixLocation(c, 0x05_481E, shopsanity) == if shopsanity != 2 then 0x05_4D1E else 0x05_481E
  {
  }

  /** Every argument outside the two remappings passes through unchanged. */
  lemma OtherLocationsUnchanged(c: Codes, arg: u32, shopsanity: int)
    requires !IsShopLocation(arg) || shopsanity != 1
    requires arg != 0x05_481E
    ensures FixLocation(c, arg, shopsanity) == arg
  {
  }

  /** fixLocation is idempotent for every option value: no remap target is a
      remap source. */
  lemma {:induction false} FixLocationIdempotent(c: Codes, arg: u32, shopsanity: int)
    requires ShopCodesValid(c)
    ensures FixLocation(c, FixLocation(c, arg, shopsanity), shopsanity) == FixLocation(c, arg, shopsanity)
  {
    if IsShopLocation(arg) && shopsanity == 1 {
      ShopSlotIdempotent(c, arg);
    } else if arg == 0x05_481E && shopsanity != 2 {
      assert !IsShopLocation(0x05_4D1E);
    }
  }

  /** The shop branch of FixLocationIdempotent. */
  lemma {:induction false} ShopSlotIdempotent(c: Codes, arg: u32)
    requires ShopCodesValid(c) && IsShopLocation(arg)
    ensures FixLocation(c, FixLocation(c, arg, 1), 1) == FixLocation(c, arg, 1)
  {
    var slot := Slot(arg);
    var t: int := LowerTier(c, slot);
    var fix := 0x09_0000 + t;
    assert FixLocation(c, arg, 1) == fix;
    ShopCodeBits(t);
    LowerTierIdempotent(c, slot);
    assert FixLocation(c, fix, 1) == 0x09_0000 + LowerTier(c, t);
  }

  /** The library sees the remapped location in the low 24 bits of the id. */
  lemma LocationIdLowBits(c: Codes, arg: u32, shopsanity: int)
    ensures LocationId(c, arg, shopsanity) % 0x100_0000 == FixLocation(c, arg, shopsanity) % 0x100_0000
  {
  }


  /** A 24-bit argument (class byte over slot code) stays 24-bit, and its id
      is the game base plus the remapped location. */
  lemma LocationIdOf24Bit(c: Codes, arg: u32, shopsanity: int)
    requires arg < 0x100_0000
    ensures FixLocation(c, arg, shopsanity) < 0x100_0000
    ensures LocationId(c, arg, shopsanity) == GameBase + FixLocation(c, arg, shopsanity)
  {
  }

  /** For a 24-bit argument, the id of the remap source 0x05481E is never
      produced when shopsanity is not 2. */
  lemma {:induction false} RemapSourceNeverReported(c: Codes, arg: u32, shopsanity: int)
    requires arg < 0x100_0000 && shopsanity != 2
    ensures LocationId(c, arg, shopsanity) != GameBase + 0x05_481E
  {
    LocationIdOf24Bit(c, arg, shopsanity);
  }

  /** For a 24-bit argument and shopsanity 1, the id of an upper-tier shop
      slot is never produced: that slot always reports as the tier below. */
  lemma {:induction false} UpperTierNeverReported(c: Codes, arg: u32, s: ShopItem)
    requires ShopCodesValid(c) && IsUpperTier(s) && arg < 0x100_0000
    ensures LocationId(c, arg, 1) != GameBase + 0x09_0000 + c.shop(s)
  {
    LocationIdOf24Bit(c, arg, 1);
    if IsShopLocation(arg) {
      LowerTierNeverUpper(c, Slot(arg), s);
    } else {
      assert FixLocation(c, arg, 1) == arg || FixLocation(c, arg, 1) == 0x05_4D1E;
      ShopCodeBits(c.shop(s));
    }
  }
}
