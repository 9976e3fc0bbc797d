/** The game's enumeration constants used by the glue. Their numeric values
    live in headers that are not part of this model, so each enumeration is a
    datatype of the names the glue uses and a `Codes` value assigns each name
    its number. What the lemmas assume about those numbers is an assumption
    about the game's headers, not something C++ guarantees (two enumerators
    may share a value; only `case` labels of one switch must differ):
    - every code is a non-negative 16-bit value (the `Code` type);
    - distinct SI_*, GI_* and ITEM_* names have distinct values, and the two
      item-type classifications differ (`WellFormed`);
    - some lemmas also take an order or a bound on particular codes as a
      precondition, and say so in their `requires`. */
module Codes {

  /** SI_* shop items named by fixLocation and by the scout removal. */
  datatype ShopItem =
    | PotionRed1 | PotionRed2 | PotionRed3 | PotionRed5 | PotionRed6
    | PotionGreen2 | PotionGreen3
    | Fairy1 | Fairy2
    | ArrowsSmall2 | ArrowsSmall3 | ArrowsMedium1 | ArrowsMedium2 | ArrowsLarge1 | ArrowsLarge2
    | Bomb2 | Bomb3 | BombBag20First | BombBag40
    | Nuts1 | Nuts2 | Stick1 | Stick2 | ShieldHero1 | ShieldHero2

  /** GI_* get-item identifiers named by rando_get_item_id and the scout removal. */
  datatype GetItem =
    | SwordKokiri | SwordGilded | Quiver30 | Quiver50 | BombBag20 | BombBag40Gi
    | WalletAdult | WalletGiant
    | GiB2 | Gi46 | Gi47 | Gi48 | Gi49 | MagicJarSmall | Gi71 | Gi73
    | GiA2 | GiA3 | GiA5 | GiA6 | GiA7 | GiA8 | GiAC | GiAD | GiAE | GiAF
    | GiMax | ApFiller | ApUseful | ApProg
    | MagicBeans | PotionGreen | PotionBlue | Chateau

  /** ITEM_* identifiers compared with the low byte of a received item. */
  datatype Item =
    | SongTime | SongHealing | SongEpona | SongSoaring | SongStorms
    | SongSonata | SongLullaby | SongNova | SongElegy | SongOath
    | KeyBoss | KeySmall | DungeonMap | Compass

  /** The value of one enumerator. */
  type Code = x: int | 0 <= x < 0x1_0000

  /** The numeric value of every name, and the two item-type classifications
      (ITEM_TYPE_FILLER, ITEM_TYPE_USEFUL) of the client library. */
  datatype Codes = Codes(
    shop: ShopItem -> Code,
    getItem: GetItem -> Code,
    item: Item -> Code,
    typeFiller: int,
    typeUseful: int)

  /** Distinct SI_* enumerators have distinct values. */
  ghost predicate ShopCodesValid(c: Codes)
  {
    forall a, b :: c.shop(a) == c.shop(b) ==> a == b
  }

  /** Distinct GI_* enumerators have distinct values. */
  ghost predicate GetItemCodesValid(c: Codes)
  {
    forall a, b :: c.getItem(a) == c.getItem(b) ==> a == b
  }

  /** Distinct ITEM_* enumerators have distinct values. */
  ghost predicate ItemCodesValid(c: Codes)
  {
    forall a, b :: c.item(a) == c.item(b) ==> a == b
  }

  /** Every enumeration has distinct values, and the library's two item-type
      classifications differ. */
  ghost predicate WellFormed(c: Codes)
  {
    && ShopCodesValid(c)
    && GetItemCodesValid(c)
    && ItemCodesValid(c)
    && c.typeFiller != c.typeUseful
  }
}
