/** The location scouts rando_init_common drops again after queueing a scout
    of every location: locations that do not exist, or are not randomized,
    under the slot's options. The result is the set of removed ids as a
    function of the option values. */
module Scouts {
  import opened Common
  import opened Codes
  import opened Locations
  import opened Bits

  /** The slot options the removal reads. */
  datatype SlotOptions = SlotOptions(
    skullsanity: int,
    startingHeartLocations: int,
    cowsanity: int,
    scrubsanity: int,
    shopsanity: int,
    curiosityShopTrades: int,
    introChecks: int)

  /** Skulltula tokens of the two spider houses, when skullsanity is 2; token
      3 of the first house stays scouted. */
  function SkullScouts(o: SlotOptions): set<int>
  {
    if o.skullsanity == 2 then
      (set i | 0x00 <= i <= 0x1E && i != 0x03 :: Or64(0x3469420062700, i))
      + (set i | 0x01 <= i <= 0x1E :: Or64(0x3469420062800, i))
    else {}
  }

  /** Heart-piece locations from `starting_heart_locations` up to 7. */
  function HeartScouts(o: SlotOptions): set<int>
  {
    set i | o.startingHeartLocations <= i < 8 :: Or64(0x34694200D0000, i)
  }

  /** The eight cows, when cowsanity is 0. */
  function CowScouts(o: SlotOptions): set<int>
  {
    if o.cowsanity == 0 then set i | 0x10 <= i <= 0x17 :: Or64(0x3469420BEEF00, i) else {}
  }

  /** The four business scrubs, when scrubsanity is 0. */
  function ScrubScouts(c: Codes, o: SlotOptions): set<int>
  {
    if o.scrubsanity == 0 then
      {Or64(0x3469420090100, c.getItem(MagicBeans)), Or64(0x3469420090100, c.getItem(BombBag40Gi)),
       Or64(0x3469420090100, c.getItem(PotionGreen)), Or64(0x3469420090100, c.getItem(PotionBlue))}
    else {}
  }

  /** The id of a shop slot: 0x3469420090000 | code. */
  function ShopScout(code: int): int
  {
    Or64(0x3469420090000, code)
  }

  /** Shop locations, unless shopsanity is 2: with shopsanity 1 the codes from
      SI_FAIRY_2 to SI_POTION_RED_3 and three more upper tiers; otherwise the
      codes from SI_POTION_RED_1 to SI_POTION_RED_6 except the two bomb bags,
      and six other shop locations. */
  function ShopScouts(c: Codes, o: SlotOptions): set<int>
  {
    if o.shopsanity == 2 then {}
    else
      {0x346942005481E, 0x3469420024234}
      + if o.shopsanity == 1 then
          (set i | c.shop(Fairy2) <= i <= c.shop(PotionRed3) :: ShopScout(i))
          + {ShopScout(c.shop(Bomb3)), ShopScout(c.shop(ArrowsSmall3)), ShopScout(c.shop(PotionRed6))}
        else
          (set i | c.shop(PotionRed1) <= i <= c.shop(PotionRed6)
                   && i != c.shop(BombBag20First) && i != c.shop(BombBag40) :: ShopScout(i))
          + {0x3469420090013, 0x3469420090015, 0x3469420026392,
             ShopScout(c.getItem(Chateau)), 0x3469420006792, 0x3469420000091}
  }

  /** The curiosity-shop trades, when they are not randomized. */
  function TradeScouts(o: SlotOptions): set<int>
  {
    if o.curiosityShopTrades == 0 then {0x346942007C402, 0x346942007C404, 0x346942007C405, 0x346942007C407} else {}
  }

  /** The intro check, when it is not randomized. */
  function IntroScouts(o: SlotOptions): set<int>
  {
    if o.introChecks == 0 then {0x3469420061A00} else {}
  }

  /** Every scout rando_init_common removes. */
  function RemovedScouts(c: Codes, o: SlotOptions): set<int>
  {
    SkullScouts(o) + HeartScouts(o) + CowScouts(o) + ScrubScouts(c, o)
    + ShopScouts(c, o) + TradeScouts(o) + IntroScouts(o)
  }

  /** The scouts finally sent: every location the library knows, less the
      removed ones. */
  function SentScouts(all: set<int>, c: Codes, o: SlotOptions): (sent: set<int>)
    ensures sent <= all
    ensures forall id :: id in all && id !in RemovedScouts(c, o) ==> id in sent
    ensures forall id :: id in RemovedScouts(c, o) ==> id !in sent
  {
    all - RemovedScouts(c, o)
  }

  /** With every check randomized, all heart locations starting, and
      advanced shops, no scout is removed. */
  lemma NothingRemovedWhenAllRandomized(c: Codes, o: SlotOptions)
    requires o.skullsanity != 2 && o.startingHeartLocations >= 8 && o.cowsanity != 0
    requires o.scrubsanity != 0 && o.shopsanity == 2 && o.curiosityShopTrades != 0 && o.introChecks != 0
    ensures RemovedScouts(c, o) == {}
  {
  }

  /** Heart location i is removed exactly from the starting value on: the
      ids below it are not among the removed heart ids. */
  lemma {:induction false} HeartScoutsFromStart(o: SlotOptions, i: int)
    requires 0 <= i < 8
    ensures 0x34694200D0000 + i in HeartScouts(o) <==> o.startingHeartLocations <= i
  {
    HeartId(i);
    if 0 <= o.startingHeartLocations && 0x34694200D0000 + i in HeartScouts(o) {
      var j :| o.startingHeartLocations <= j < 8 && Or64(0x34694200D0000, j) == 0x34694200D0000 + i;
      HeartId(j);
    }
  }

  /** 0x34694200D0000 | i for heart location i: the base plus i. */
  lemma HeartId(i: int)
    requires 0 <= i < 8
    ensures Or64(0x34694200D0000, i) == 0x34694200D0000 + i
  {
    Pow2Values();
    assert 0x34694200D0000 == 0x34694200D000 * Pow2(4);
    Or64Disjoint(0x34694200D000, i, 4);
  }

  /** Fewer starting heart locations remove more heart scouts. */
  lemma HeartScoutsAntitone(o: SlotOptions, o': SlotOptions)
    requires o.startingHeartLocations <= o'.startingHeartLocations
    ensures HeartScouts(o') <= HeartScouts(o)
  {
  }

  /** With skullsanity 2 every token id of both houses except token 3 of the
      first house is removed. */
  lemma {:induction false} SkullScoutsRemoved(o: SlotOptions, i: int)
    requires o.skullsanity == 2 && 0 <= i <= 0x1E
    ensures i != 0x03 ==> 0x3469420062700 + i in SkullScouts(o)
    ensures 0x3469420062703 !in SkullScouts(o)
    ensures i != 0 ==> 0x3469420062800 + i in SkullScouts(o)
  {
    Pow2Values();
    assert 0x3469420062700 == 0x34694200627 * Pow2(8);
    assert 0x3469420062800 == 0x34694200628 * Pow2(8);
    Or64Disjoint(0x34694200627, i, 8);
    Or64Disjoint(0x34694200628, i, 8);
    if 0x3469420062703 in SkullScouts(o) {
      if j :| 0x00 <= j <= 0x1E && j != 0x03 && Or64(0x3469420062700, j) == 0x3469420062703 {
        Or64Disjoint(0x34694200627, j, 8);
      } else {
        var j :| 0x01 <= j <= 0x1E && Or64(0x3469420062800, j) == 0x3469420062703;
        Or64Disjoint(0x34694200628, j, 8);
      }
    }
  }

  /** 0x3469420090000 | code for a 16-bit shop code: the base plus the code,
      which is the id of shop location 0x090000 + code. */
  lemma ShopScoutId(code: int)
    requires 0 <= code < 0x1_0000
    ensures ShopScout(code) == GameBase + 0x09_0000 + code
  {
    Pow2Values();
    assert 0x3469420090000 == 0x346942009 * Pow2(16);
    Or64Disjoint(0x346942009, code, 16);
  }

  /** With shopsanity 1 the scouts of the three explicitly listed upper-tier
      slots, and of every upper-tier slot in the SI_FAIRY_2 to
      SI_POTION_RED_3 range, are removed; and the game never reports those
      locations, since fixLocation moves them one tier down. */
  lemma {:induction false} UpperTierScoutsRemoved(c: Codes, o: SlotOptions, s: ShopItem, arg: u32)
    requires ShopCodesValid(c) && o.shopsanity == 1 && IsUpperTier(s)
    requires s == Bomb3 || s == ArrowsSmall3 || s == PotionRed6 || c.shop(Fairy2) <= c.shop(s) <= c.shop(PotionRed3)
    requires arg < 0x100_0000
    ensures GameBase + 0x09_0000 + c.shop(s) in RemovedScouts(c, o)
    ensures LocationId(c, arg, o.shopsanity) != GameBase + 0x09_0000 + c.shop(s)
  {
    assert GameBase + 0x09_0000 + c.shop(s) in ShopScouts(c, o) by {
      ShopScoutId(c.shop(s));
    }
    UpperTierNeverReported(c, arg, s);
  }

  /** Unless shopsanity is 2, the scout of location 0x05481E is removed; the
      game never reports it, since fixLocation moves it to 0x054D1E. */
  lemma RemapSourceScoutRemoved(c: Codes, o: SlotOptions, arg: u32)
    requires o.shopsanity != 2 && arg < 0x100_0000
    ensures GameBase + 0x05_481E in RemovedScouts(c, o)
    ensures LocationId(c, arg, o.shopsanity) != GameBase + 0x05_481E
  {
    assert 0x346942005481E in ShopScouts(c, o);
    RemapSourceNeverReported(c, arg, o.shopsanity);
  }
}
