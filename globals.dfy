/**
 * Constant tables of the plugin: the guest food items, the map from the host's
 * shop-item enum to those items, the drink subset, the tile size and the cheat
 * settings, together with the guest preference store.
 */
module Globals {
  import opened Wrappers

  /** The 28 guest food and drink items the plugin tracks. */
  datatype Food =
    | BeefNoodles | Burger | Candyfloss | Chicken | Chips | Chocolate | Cookie
    | Doughnut | HotDog | FriedRiceNoodles | FunnelCake | IceCream | MeatballSoup
    | Pizza | Popcorn | Pretzel | RoastSausage | SubSandwich | Tentacle
    | ToffeeApple | WontonSoup
    | Coffee | Drink | FruitJuice | IcedTea | Lemonade | SoybeanMilk | Sujeonggwa

  /** The identifier the host uses for each item. */
  function Name(f: Food): string
  {
    match f
    case BeefNoodles => "beef_noodles"
    case Burger => "burger"
    case Candyfloss => "candyfloss"
    case Chicken => "chicken"
    case Chips => "chips"
    case Chocolate => "chocolate"
    case Cookie => "cookie"
    case Doughnut => "doughnut"
    case HotDog => "hot_dog"
    case FriedRiceNoodles => "fried_rice_noodles"
    case FunnelCake => "funnel_cake"
    case IceCream => "ice_cream"
    case MeatballSoup => "meatball_soup"
    case Pizza => "pizza"
    case Popcorn => "popcorn"
    case Pretzel => "pretzel"
    case RoastSausage => "roast_sausage"
    case SubSandwich => "sub_sandwich"
    case Tentacle => "tentacle"
    case ToffeeApple => "toffee_apple"
    case WontonSoup => "wonton_soup"
    case Coffee => "coffee"
    case Drink => "drink"
    case FruitJuice => "fruit_juice"
    case IcedTea => "iced_tea"
    case Lemonade => "lemonade"
    case SoybeanMilk => "soybean_milk"
    case Sujeonggwa => "sujeonggwa"
  }

  /** Reads an identifier back; None for a string that names no tracked item. */
  function FromName(s: string): Option<Food>
  {
    if s in NameTable then Some(NameTable[s]) else None
  }

  /** The item each identifier names. */
  const NameTable: map<string, Food> :=
    map["beef_noodles" := BeefNoodles,
        "burger" := Burger,
        "candyfloss" := Candyfloss,
        "chicken" := Chicken,
        "chips" := Chips,
        "chocolate" := Chocolate,
        "cookie" := Cookie,
        "doughnut" := Doughnut,
        "hot_dog" := HotDog,
        "fried_rice_noodles" := FriedRiceNoodles,
        "funnel_cake" := FunnelCake,
        "ice_cream" := IceCream,
        "meatball_soup" := MeatballSoup,
        "pizza" := Pizza,
        "popcorn" := Popcorn,
        "pretzel" := Pretzel,
        "roast_sausage" := RoastSausage,
        "sub_sandwich" := SubSandwich,
        "tentacle" := Tentacle,
        "toffee_apple" := ToffeeApple,
        "wonton_soup" := WontonSoup,
        "coffee" := Coffee,
        "drink" := Drink,
        "fruit_juice" := FruitJuice,
        "iced_tea" := IcedTea,
        "lemonade" := Lemonade,
        "soybean_milk" := SoybeanMilk,
        "sujeonggwa" := Sujeonggwa]


  /** Every item's identifier reads back as that item. */
  lemma NameRoundTrip(f: Food)
    ensures FromName(Name(f)) == Some(f)
  {
    match f
    case BeefNoodles | Burger | Candyfloss | Chicken => NameRoundTrip0(f);
    case Chips | Chocolate | Cookie | Doughnut => NameRoundTrip1(f);
    case HotDog | FriedRiceNoodles | FunnelCake | IceCream => NameRoundTrip2(f);
    case MeatballSoup | Pizza | Popcorn | Pretzel => NameRoundTrip3(f);
    case RoastSausage | SubSandwich | Tentacle | ToffeeApple => NameRoundTrip4(f);
    case WontonSoup | Coffee | Drink | FruitJuice => NameRoundTrip5(f);
    case IcedTea | Lemonade | SoybeanMilk | Sujeonggwa => NameRoundTrip6(f);
  }

  lemma NameRoundTrip0(f: Food)
    requires f.BeefNoodles? || f.Burger? || f.Candyfloss? || f.Chicken?
    ensures FromName(Name(f)) == Some(f)
  {
  }

  lemma NameRoundTrip1(f: Food)
    requires f.Chips? || f.Chocolate? || f.Cookie? || f.Doughnut?
    ensures FromName(Name(f)) == Some(f)
  {
  }

  lemma NameRoundTrip2(f: Food)
    requires f.HotDog? || f.FriedRiceNoodles? || f.FunnelCake? || f.IceCream?
    ensures FromName(Name(f)) == Some(f)
  {
  }

  lemma NameRoundTrip3(f: Food)
    requires f.MeatballSoup? || f.Pizza? || f.Popcorn? || f.Pretzel?
    ensures FromName(Name(f)) == Some(f)
  {
  }

  lemma NameRoundTrip4(f: Food)
    requires f.RoastSausage? || f.SubSandwich? || f.Tentacle? || f.ToffeeApple?
    ensures FromName(Name(f)) == Some(f)
  {
  }

  lemma NameRoundTrip5(f: Food)
    requires f.WontonSoup? || f.Coffee? || f.Drink? || f.FruitJuice?
    ensures FromName(Name(f)) == Some(f)
  {
  }

  lemma NameRoundTrip6(f: Food)
    requires f.IcedTea? || f.Lemonade? || f.SoybeanMilk? || f.Sujeonggwa?
    ensures FromName(Name(f)) == Some(f)
  {
  }

  /** The item list in declaration order (also the order of the statistics loop). */
  const GuestFoodItemTypes: seq<Food> :=
    [BeefNoodles, Burger, Candyfloss, Chicken, Chips, Chocolate, Cookie,
     Doughnut, HotDog, FriedRiceNoodles, FunnelCake, IceCream, MeatballSoup,
     Pizza, Popcorn, Pretzel, RoastSausage, SubSandwich, Tentacle,
     ToffeeApple, WontonSoup,
     Coffee, Drink, FruitJuice, IcedTea, Lemonade, SoybeanMilk, Sujeonggwa]

  /** Host shop-item enum value to tracked item. */
  const ShopItemFoodEnumMap: map<int, Food> :=
    map[5 := Drink, 6 := Burger, 7 := Chips, 8 := IceCream, 9 := Candyfloss,
        13 := Pizza, 15 := Popcorn, 16 := HotDog, 17 := Tentacle, 19 := ToffeeApple,
        21 := Doughnut, 22 := Coffee, 24 := Chicken, 25 := Lemonade, 35 := Pretzel,
        36 := Chocolate, 37 := IcedTea, 38 := FunnelCake, 40 := BeefNoodles,
        41 := FriedRiceNoodles, 42 := WontonSoup, 43 := MeatballSoup,
        44 := FruitJuice, 45 := SoybeanMilk, 46 := Sujeonggwa, 47 := SubSandwich,
        48 := Cookie, 52 := RoastSausage]

  /** The keys of ShopItemFoodEnumMap in property order (ascending integers). */
  const ShopItemFoodEnums: seq<int> :=
    [5, 6, 7, 8, 9, 13, 15, 16, 17, 19, 21, 22, 24, 25, 35, 36, 37, 38,
     40, 41, 42, 43, 44, 45, 46, 47, 48, 52]

  /** The drink subset of ShopItemFoodEnums. */
  const ShopItemDrinkEnums: seq<int> := [5, 22, 25, 37, 44, 45, 46]

  /** Pixels per map tile. */
  const TileSize: int := 32

  /** Half a tile, as the lure offsets use it. */
  const HalfTileSize: int := TileSize / 2

  /** Consecutive elements increase. */
  predicate StrictlyIncreasing(s: seq<int>)
  {
    forall i :: 0 < i < |s| ==> s[i - 1] < s[i]
  }

  predicate Distinct<T(==)>(s: seq<T>)
  {
    forall i, j :: 0 <= i < j < |s| ==> s[i] != s[j]
  }

  lemma DistinctCard<T>(s: seq<T>)
    requires Distinct(s)
    ensures |set x | x in s| == |s|
  {
    if s != [] {
      DistinctCard(s[1..]);
      assert (set x | x in s) == {s[0]} + (set x | x in s[1..]);
    }
  }

  /** The enum value of each item: the inverse of ShopItemFoodEnumMap. */
  function EnumOf(f: Food): int
  {
    match f
    case BeefNoodles => 40
    case Burger => 6
    case Candyfloss => 9
    case Chicken => 24
    case Chips => 7
    case Chocolate => 36
    case Cookie => 48
    case Doughnut => 21
    case HotDog => 16
    case FriedRiceNoodles => 41
    case FunnelCake => 38
    case IceCream => 8
    case MeatballSoup => 43
    case Pizza => 13
    case Popcorn => 15
    case Pretzel => 35
    case RoastSausage => 52
    case SubSandwich => 47
    case Tentacle => 17
    case ToffeeApple => 19
    case WontonSoup => 42
    case Coffee => 22
    case Drink => 5
    case FruitJuice => 44
    case IcedTea => 37
    case Lemonade => 25
    case SoybeanMilk => 45
    case Sujeonggwa => 46
  }

  lemma EnumOfInverts(e: int)
    requires e in ShopItemFoodEnumMap
    ensures EnumOf(ShopItemFoodEnumMap[e]) == e
  {
  }

  lemma EnumOfIsKey(f: Food)
    ensures EnumOf(f) in ShopItemFoodEnumMap && ShopItemFoodEnumMap[EnumOf(f)] == f
  {
    if Ordinal(f) < 10 {
      EnumOfIsKeyLow(f);
    } else if Ordinal(f) < 20 {
      EnumOfIsKeyMid(f);
    } else {
      EnumOfIsKeyHigh(f);
    }
  }

  lemma EnumOfIsKeyLow(f: Food)
    requires Ordinal(f) < 10
    ensures EnumOf(f) in ShopItemFoodEnumMap && ShopItemFoodEnumMap[EnumOf(f)] == f
  {
  }

  lemma EnumOfIsKeyMid(f: Food)
    requires 10 <= Ordinal(f) < 20
    ensures EnumOf(f) in ShopItemFoodEnumMap && ShopItemFoodEnumMap[EnumOf(f)] == f
  {
  }

  lemma EnumOfIsKeyHigh(f: Food)
    requires 20 <= Ordinal(f)
    ensures EnumOf(f) in ShopItemFoodEnumMap && ShopItemFoodEnumMap[EnumOf(f)] == f
  {
  }


  lemma FoodEnumsAreMapKeys()
    ensures (set e | e in ShopItemFoodEnums) == ShopItemFoodEnumMap.Keys
    ensures StrictlyIncreasing(ShopItemFoodEnums)
    ensures |ShopItemFoodEnumMap| == 28
  {
    assert forall e :: e in ShopItemFoodEnums ==> e in ShopItemFoodEnumMap;
    assert forall e :: e in ShopItemFoodEnumMap ==> e in ShopItemFoodEnums;
    assert |ShopItemFoodEnums| == 28;
    IncreasingIsDistinct(ShopItemFoodEnums);
    DistinctCard(ShopItemFoodEnums);
  }

  lemma IncreasingIsDistinct(s: seq<int>)
    requires StrictlyIncreasing(s)
    ensures forall i, j :: 0 <= i < j < |s| ==> s[i] < s[j]
    ensures Distinct(s)
  {
    forall i, j | 0 <= i < j < |s| ensures s[i] < s[j] {
      IncreasingBetween(s, i, j);
    }
  }

  lemma {:induction false} IncreasingBetween(s: seq<int>, i: int, j: int)
    requires StrictlyIncreasing(s) && 0 <= i < j < |s|
    ensures s[i] < s[j]
    decreases j - i
  {
    if i + 1 < j {
      IncreasingBetween(s, i + 1, j);
    }
  }

  /** Position of each item in GuestFoodItemTypes. */
  function Ordinal(f: Food): nat
  {
    match f
    case BeefNoodles => 0
    case Burger => 1
    case Candyfloss => 2
    case Chicken => 3
    case Chips => 4
    case Chocolate => 5
    case Cookie => 6
    case Doughnut => 7
    case HotDog => 8
    case FriedRiceNoodles => 9
    case FunnelCake => 10
    case IceCream => 11
    case MeatballSoup => 12
    case Pizza => 13
    case Popcorn => 14
    case Pretzel => 15
    case RoastSausage => 16
    case SubSandwich => 17
    case Tentacle => 18
    case ToffeeApple => 19
    case WontonSoup => 20
    case Coffee => 21
    case Drink => 22
    case FruitJuice => 23
    case IcedTea => 24
    case Lemonade => 25
    case SoybeanMilk => 26
    case Sujeonggwa => 27
  }

  lemma FoodItemTypesEnumerateFood()
    ensures |GuestFoodItemTypes| == 28 && Distinct(GuestFoodItemTypes)
    ensures forall f: Food :: Ordinal(f) < 28 && GuestFoodItemTypes[Ordinal(f)] == f
    ensures forall f: Food :: f in GuestFoodItemTypes
    ensures forall i :: 0 <= i < 28 ==> Ordinal(GuestFoodItemTypes[i]) == i
  {
    OrdinalsOfItemTypes();
    forall f: Food ensures Ordinal(f) < 28 && GuestFoodItemTypes[Ordinal(f)] == f {
      ItemTypeAtOrdinal(f);
    }
    forall f: Food ensures f in GuestFoodItemTypes {
      ItemTypeAtOrdinal(f);
    }
    forall i, j | 0 <= i < j < |GuestFoodItemTypes| ensures GuestFoodItemTypes[i] != GuestFoodItemTypes[j] {
      assert Ordinal(GuestFoodItemTypes[i]) == i && Ordinal(GuestFoodItemTypes[j]) == j;
    }
  }

  lemma OrdinalsOfItemTypes()
    ensures |GuestFoodItemTypes| == 28
    ensures forall i :: 0 <= i < 28 ==> Ordinal(GuestFoodItemTypes[i]) == i
  {
  }

  lemma ItemTypeAtOrdinal(f: Food)
    ensures Ordinal(f) < |GuestFoodItemTypes| && GuestFoodItemTypes[Ordinal(f)] == f
  {
  }

  predicate IsDrinkFood(f: Food)
  {
    f in {Coffee, Drink, FruitJuice, IcedTea, Lemonade, SoybeanMilk, Sujeonggwa}
  }

  lemma DrinkEnumsNameDrinks()
    ensures forall e :: e in ShopItemDrinkEnums <==> e in ShopItemFoodEnumMap && IsDrinkFood(ShopItemFoodEnumMap[e])
  {
    DrinkEnumsAreDrinkKeys();
    forall e | e in ShopItemFoodEnumMap && IsDrinkFood(ShopItemFoodEnumMap[e]) ensures e in ShopItemDrinkEnums {
      EnumOfInverts(e);
      DrinkEnumOf(ShopItemFoodEnumMap[e]);
    }
  }

  /** Each drink enum is a key naming a drink. */
  lemma DrinkEnumsAreDrinkKeys()
    ensures forall e :: e in ShopItemDrinkEnums ==> e in ShopItemFoodEnumMap && IsDrinkFood(ShopItemFoodEnumMap[e])
  {
  }

  /** A drink's enum is a drink enum. */
  lemma DrinkEnumOf(f: Food)
    requires IsDrinkFood(f)
    ensures EnumOf(f) in ShopItemDrinkEnums
  {
  }

  lemma DrinkEnumsAreFoodEnums()
    ensures forall e :: e in ShopItemDrinkEnums ==> e in ShopItemFoodEnums
  {
  }


  /** The enum map is a bijection from its 28 keys onto the 28 items. */
  lemma EnumMapIsBijection()
    ensures forall e1, e2 :: e1 in ShopItemFoodEnumMap && e2 in ShopItemFoodEnumMap && e1 != e2
              ==> ShopItemFoodEnumMap[e1] != ShopItemFoodEnumMap[e2]
    ensures forall f: Food :: f in ShopItemFoodEnumMap.Values
  {
    forall e1, e2 | e1 in ShopItemFoodEnumMap && e2 in ShopItemFoodEnumMap && e1 != e2
      ensures ShopItemFoodEnumMap[e1] != ShopItemFoodEnumMap[e2]
    {
      EnumOfInverts(e1);
      EnumOfInverts(e2);
    }
    forall f: Food ensures f in ShopItemFoodEnumMap.Values {
      EnumOfIsKey(f);
    }
  }


  /**
   * Cheat settings. Each field is a property that may be absent from the object;
   * only Some(true) and Some(item) are truthy.
   */
  datatype FoodCheats = FoodCheats(
    guestsIgnoreFavourite: Option<bool>,
    guestsOnlyLike: Option<Food>,
    showUnresearchedFood: Option<bool>)

  const NoCheats := FoodCheats(None, None, None)

  /** Object.assign(into, from): every property present in `from` overwrites; absent ones are kept. */
  function MergeCheats(into: FoodCheats, from: FoodCheats): (r: FoodCheats)
    ensures r.guestsIgnoreFavourite == if from.guestsIgnoreFavourite.Some? then from.guestsIgnoreFavourite else into.guestsIgnoreFavourite
    ensures r.guestsOnlyLike == if from.guestsOnlyLike.Some? then from.guestsOnlyLike else into.guestsOnlyLike
    ensures r.showUnresearchedFood == if from.showUnresearchedFood.Some? then from.showUnresearchedFood else into.showUnresearchedFood
  {
    FoodCheats(
      if from.guestsIgnoreFavourite.Some? then from.guestsIgnoreFavourite else into.guestsIgnoreFavourite,
      if from.guestsOnlyLike.Some? then from.guestsOnlyLike else into.guestsOnlyLike,
      if from.showUnresearchedFood.Some? then from.showUnresearchedFood else into.showUnresearchedFood)
  }

  /**
   * Merging is idempotent and associative, merging nothing or into nothing
   * changes nothing, and an argument that sets every option replaces the
   * old cheats outright.
   */
  lemma MergeCheatsLaws(a: FoodCheats, b: FoodCheats, c: FoodCheats)
    ensures MergeCheats(MergeCheats(a, b), b) == MergeCheats(a, b)
    ensures MergeCheats(MergeCheats(a, b), c) == MergeCheats(a, MergeCheats(b, c))
    ensures MergeCheats(a, NoCheats) == a && MergeCheats(NoCheats, b) == b
    ensures b.guestsIgnoreFavourite.Some? && b.guestsOnlyLike.Some? && b.showUnresearchedFood.Some? ==>
              MergeCheats(a, b) == b
  {
  }

  /** The guest preference store: guest id to favourite item, shared by reference. */
  class GuestDb {
    var prefs: map<nat, Food>

    constructor (prefs: map<nat, Food>)
      ensures this.prefs == prefs
    {
      this.prefs := prefs;
    }
  }
}
