/**
 * The helpers of util.ts. isValidGuest, getGuestsOnNeighbouringTile and
 * getFoodPrefStats also appear, identically, in guests.ts; they are modelled once, here.
 */
module Util {
  import opened Wrappers
  import opened Globals
  import opened Host

  /** isValidGuest: false exactly for null, an entity without id, or one without an inventory. */
  predicate IsValidGuest(g: Guest?)
  {
    g != null && g.id.Some? && g.items.Some?
  }

  /** createFavouriteFood with the random index drawn by the host. */
  function CreateFavouriteFood(foods: seq<Food>, draw: nat): (f: Food)
    requires draw < |foods|
    ensures f in foods
  {
    foods[draw]
  }

  method SetGuestDestination(g: Guest, coords: CoordsXY)
    modifies g
    ensures g.destination == coords
    ensures g.hunger == old(g.hunger) && g.thirst == old(g.thirst) && g.direction == old(g.direction)
  {
    g.destination := coords;
  }

  method SetGuestDirection(g: Guest, direction: int)
    modifies g
    ensures g.direction == direction
    ensures g.hunger == old(g.hunger) && g.thirst == old(g.thirst) && g.destination == old(g.destination)
  {
    g.direction := direction;
  }

  /** arrayIncludes: some element equals the value. */
  function ArrayIncludes<T(==)>(arr: seq<T>, v: T): (r: bool)
    ensures r <==> exists i :: 0 <= i < |arr| && arr[i] == v
  {
    if arr == [] then false
    else if arr[0] == v then true
    else
      var rest := ArrayIncludes(arr[1..], v);
      assert rest ==> exists i :: 0 <= i < |arr| && arr[i] == v by {
        if rest {
          var j :| 0 <= j < |arr[1..]| && arr[1..][j] == v;
          assert arr[j + 1] == v;
        }
      }
      rest
  }

  /** The ids of a list, in order, that do not name a valid guest. */
  function InvalidIds(ids: seq<EntityId>, world: HostMap): (r: seq<EntityId>)
    ensures forall x :: x in r <==> x in ids && !IsValidGuest(world.entity(x))
    ensures |r| <= |ids|
  {
    if ids == [] then []
    else
      var rest := InvalidIds(ids[1..], world);
      if IsValidGuest(world.entity(ids[0])) then rest else [ids[0]] + rest
  }

  /** The one tile getGuestsOnNeighbouringTile queries (pixel-style arithmetic as written). */
  function NeighbouringTile(origin: CoordsXYZD): Option<CoordsXY>
  {
    match origin.direction
    case 0 => Some(CoordsXY(origin.x - 1, origin.y))
    case 1 => Some(CoordsXY(origin.x, origin.y + TileSize + 1))
    case 2 => Some(CoordsXY(origin.x + TileSize + 1, origin.y))
    case 3 => Some(CoordsXY(origin.x, origin.y - 1))
    case _ => None
  }

  /** A tile is queried exactly for the four directions, and it lies along one axis from the origin. */
  lemma NeighbouringTileIsAdjacent(origin: CoordsXYZD)
    ensures NeighbouringTile(origin).Some? <==> 0 <= origin.direction < 4
    ensures NeighbouringTile(origin).Some? ==>
              var t := NeighbouringTile(origin).value;
              (t.x == origin.x) != (t.y == origin.y)
  {
  }

  /** The valid entities of a list, in order. */
  function ValidGuests(es: seq<Guest?>): (r: seq<Guest>)
    ensures forall i :: 0 <= i < |r| ==> IsValidGuest(r[i])
    ensures forall i :: 0 <= i < |r| ==> r[i] in es
    ensures forall i :: 0 <= i < |es| && IsValidGuest(es[i]) ==> es[i] in r
    ensures |r| <= |es|
  {
    if es == [] then []
    else
      var rest := ValidGuests(es[1..]);
      if IsValidGuest(es[0]) then
        var g: Guest := es[0];
        [g] + rest
      else rest
  }

  /** getGuestsOnNeighbouringTile: the valid entities on the one tile the direction selects. */
  function GetGuestsOnNeighbouringTile(origin: CoordsXYZD, world: HostMap): (r: seq<Guest>)
    ensures forall i :: 0 <= i < |r| ==> IsValidGuest(r[i])
    ensures !(0 <= origin.direction < 4) ==> r == []
    ensures NeighbouringTile(origin).Some? ==>
              var t := NeighbouringTile(origin).value;
              var there := world.guestsAt(t.x, t.y);
              (forall i :: 0 <= i < |r| ==> r[i] in there) &&
              (forall i :: 0 <= i < |there| && IsValidGuest(there[i]) ==> there[i] in r)
  {
    match NeighbouringTile(origin)
    case None => []
    case Some(t) => ValidGuests(world.guestsAt(t.x, t.y))
  }

  /** Result of util.ts checkGuestForVoucher: undefined, false, or the voucher's item. */
  datatype VoucherCheck = Undefined | NoVoucher | VoucherFor(food: Food)

  function CheckGuestForVoucher(g: Guest?): (r: VoucherCheck)
    ensures r.Undefined? <==> !IsValidGuest(g) || |g.items.value| != 1
    ensures r.VoucherFor? <==> IsValidGuest(g) && |g.items.value| == 1 && g.items.value[0].FoodDrinkVoucher?
    ensures r.VoucherFor? ==> r.food == g.items.value[0].item
  {
    if !IsValidGuest(g) || |g.items.value| != 1 then Undefined
    else
      match g.items.value[0]
      case FoodDrinkVoucher(item) => VoucherFor(item)
      case _ => NoVoucher
  }

  /** The two lists getAvailableFood can produce. */
  datatype FoodListKind = Researched | Scenario

  /** Whether a ride object contributes its item to the list of the given kind. */
  predicate Contributes(o: RideObject, kind: FoodListKind, researched: int -> bool)
  {
    o.shopItem != 255 && ArrayIncludes(ShopItemFoodEnums, o.shopItem) &&
    (kind == Scenario || (kind == Researched && researched(o.index)))
  }

  /** The item a ride object puts on the list of the given kind, if any. */
  function FoodOf(o: RideObject, kind: FoodListKind, researched: int -> bool): (r: Option<Food>)
    ensures r.Some? <==> Contributes(o, kind, researched)
    ensures r.Some? ==> o.shopItem in ShopItemFoodEnumMap && r.value == ShopItemFoodEnumMap[o.shopItem]
  {
    if Contributes(o, kind, researched) then
      EnumIsKey(o.shopItem);
      Some(ShopItemFoodEnumMap[o.shopItem])
    else None
  }

  /** The items getAvailableFood lists: one per contributing object, in object order. */
  function AvailableFood(objs: seq<RideObject>, kind: FoodListKind, researched: int -> bool): seq<Food>
  {
    FilterMap(objs, o => FoodOf(o, kind, researched))
  }

  /** getAvailableFood over the installed ride objects and the host's research state. */
  method GetAvailableFood(objs: seq<RideObject>, kind: FoodListKind, researched: int -> bool)
    returns (foods: seq<Food>)
    ensures foods == AvailableFood(objs, kind, researched)
  {
    foods := [];
    var i := 0;
    while i < |objs|
      invariant 0 <= i <= |objs|
      invariant foods == AvailableFood(objs[..i], kind, researched)
    {
      AvailableFoodSnoc(objs, kind, researched, i);
      foods := ListObject(foods, objs[i], kind, researched);
      i := i + 1;
    }
    assert objs[..i] == objs;
  }

  /** The body of getAvailableFood's loop for one object. */
  method ListObject(foods: seq<Food>, o: RideObject, kind: FoodListKind, researched: int -> bool)
    returns (foods': seq<Food>)
    ensures foods' == foods + Listed(FoodOf(o, kind, researched))
  {
    foods' := foods;
    if o.shopItem != 255 {
      if ArrayIncludes(ShopItemFoodEnums, o.shopItem) {
        EnumIsKey(o.shopItem);
        if kind == Scenario || (kind == Researched && researched(o.index)) {
          foods' := foods + [ShopItemFoodEnumMap[o.shopItem]];
        }
      }
    }
  }

  /** A listed shop-item enum is a key of the enum map. */
  lemma EnumIsKey(e: int)
    requires ArrayIncludes(ShopItemFoodEnums, e)
    ensures e in ShopItemFoodEnumMap
  {
    FoodEnumsAreMapKeys();
    assert e in ShopItemFoodEnums;
  }

  /** The list of one more object extends the list by that object's item, if it contributes. */
  lemma AvailableFoodSnoc(objs: seq<RideObject>, kind: FoodListKind, researched: int -> bool, i: nat)
    requires i < |objs|
    ensures AvailableFood(objs[..i + 1], kind, researched) ==
            AvailableFood(objs[..i], kind, researched) + Listed(FoodOf(objs[i], kind, researched))
  {
    FilterMapSnoc(objs, o => FoodOf(o, kind, researched), i);
  }

  /** a can be obtained from b by deleting elements. */
  ghost predicate IsSubsequence<T>(a: seq<T>, b: seq<T>)
  {
    if a == [] then true
    else if b == [] then false
    else (a[|a| - 1] == b[|b| - 1] && IsSubsequence(a[..|a| - 1], b[..|b| - 1])) ||
         IsSubsequence(a, b[..|b| - 1])
  }

  /** A test that keeps fewer elements, with the same values, lists a subsequence. */
  lemma {:induction false} FilterMapSubsequence<T, U>(xs: seq<T>, f: T -> Option<U>, g: T -> Option<U>)
    requires forall x :: f(x).Some? ==> g(x) == f(x)
    ensures IsSubsequence(FilterMap(xs, f), FilterMap(xs, g))
  {
    if xs != [] {
      var n := |xs| - 1;
      FilterMapSubsequence(xs[..n], f, g);
      var a := FilterMap(xs[..n], f);
      var b := FilterMap(xs[..n], g);
      match f(xs[n])
      case Some(y) =>
        assert FilterMap(xs, f) == a + [y] && FilterMap(xs, g) == b + [y];
        assert (a + [y])[..|a + [y]| - 1] == a;
        assert (b + [y])[..|b + [y]| - 1] == b;
      case None =>
        match g(xs[n])
        case Some(y) =>
          assert FilterMap(xs, f) == a && FilterMap(xs, g) == b + [y];
          assert (b + [y])[..|b + [y]| - 1] == b;
          assert IsSubsequence(a, b + [y]);
        case None =>
          assert FilterMap(xs, f) == a && FilterMap(xs, g) == b;
    }
  }

  /** The researched list is a subsequence of the scenario list. */
  lemma ResearchedIsSubsequence(objs: seq<RideObject>, researched: int -> bool)
    ensures IsSubsequence(AvailableFood(objs, Researched, researched), AvailableFood(objs, Scenario, researched))
  {
    FilterMapSubsequence(objs, o => FoodOf(o, Researched, researched), o => FoodOf(o, Scenario, researched));
  }

  /** An item is listed iff some contributing object of the list sells it. */
  lemma AvailableFoodIsSold(objs: seq<RideObject>, kind: FoodListKind, researched: int -> bool)
    ensures forall f :: f in AvailableFood(objs, kind, researched) <==>
              exists i :: 0 <= i < |objs| && FoodOf(objs[i], kind, researched) == Some(f)
  {
    FilterMapKeepsExactly(objs, o => FoodOf(o, kind, researched));
  }

  /** Number of guests whose favourite is f. */
  function Count(db: map<EntityId, Food>, f: Food): nat
  {
    |Fans(db, db.Keys, f)|
  }

  /** The guests among keys whose favourite is f. */
  function Fans(db: map<EntityId, Food>, keys: set<EntityId>, f: Food): set<EntityId>
  {
    set k | k in keys && k in db && db[k] == f
  }

  lemma CountBounded(db: map<EntityId, Food>, f: Food)
    ensures Count(db, f) <= |db|
  {
    SubsetCard(Fans(db, db.Keys, f), db.Keys);
    assert |db.Keys| == |db|;
  }

  lemma SubsetCard<T>(a: set<T>, b: set<T>)
    requires a <= b
    ensures |a| <= |b|
  {
    assert b == a + (b - a);
  }

  lemma {:induction false} MulLe(x: nat, y: nat, z: nat)
    requires x <= y
    ensures x * z <= y * z
  {
    if z > 0 {
      MulLe(x, y, z - 1);
      assert x * z == x * (z - 1) + x;
      assert y * z == y * (z - 1) + y;
    }
  }

  /** Math.round(n / d) for non-negative operands: halves round up. */
  function RoundHalfUp(n: nat, d: nat): (r: nat)
    requires d > 0
  {
    (2 * n + d) / (2 * d)
  }

  /** RoundHalfUp(n, d) is the integer r with r <= n/d + 1/2 < r + 1. */
  lemma RoundHalfUpIsNearest(n: nat, d: nat)
    requires d > 0
    ensures (2 * RoundHalfUp(n, d)) * d <= 2 * n + d < (2 * RoundHalfUp(n, d) + 2) * d
  {
    var q := (2 * n + d) / (2 * d);
    var m := (2 * n + d) % (2 * d);
    assert 2 * n + d == q * (2 * d) + m && 0 <= m < 2 * d;
    assert (2 * q) * d == q * (2 * d);
    assert (2 * q + 2) * d == q * (2 * d) + 2 * d;
  }

  /** The statistic for one item: 0 when nobody likes it, otherwise round(100 * count / total). */
  function Percent(count: nat, total: nat): nat
    requires count <= total
  {
    if count < 1 then 0 else RoundHalfUp(100 * count, total)
  }

  /** Statistics are percentages: at most 100, and 100 exactly when everybody likes the item. */
  lemma PercentBounds(count: nat, total: nat)
    requires count <= total
    ensures Percent(count, total) <= 100
    ensures count == total && total > 0 ==> Percent(count, total) == 100
    ensures count == 0 ==> Percent(count, total) == 0
  {
    if count >= 1 {
      var r := RoundHalfUp(100 * count, total);
      RoundHalfUpIsNearest(100 * count, total);
      MulLe(count, total, 200);
      if r > 100 {
        MulLe(202, 2 * r, total);
        assert false;
      }
      if count == total && r < 100 {
        MulLe(2 * r + 2, 200, total);
        assert false;
      }
    }
  }

  /** The first loop of getFoodPrefStats: a tally per item, starting from 0 for every item. */
  method TallyFavourites(db: map<EntityId, Food>) returns (tally: map<Food, int>)
    ensures forall f: Food :: f in tally && tally[f] == Count(db, f)
  {
    FoodItemTypesEnumerateFood();
    tally := map f | f in GuestFoodItemTypes :: 0;
    var done: set<EntityId> := {};
    while done != db.Keys
      invariant done <= db.Keys
      invariant forall f: Food :: f in tally && tally[f] == |Fans(db, done, f)|
      decreases |db.Keys - done|
    {
      var k :| k in db.Keys - done;
      FansStep(db, done, k);
      tally := tally[db[k] := tally[db[k]] + 1];
      done := done + {k};
    }
  }

  /** Counting one more key adds one to the tally of its item only. */
  lemma FansStep(db: map<EntityId, Food>, done: set<EntityId>, k: EntityId)
    requires k in db && k !in done
    ensures forall f: Food :: |Fans(db, done + {k}, f)| == |Fans(db, done, f)| + (if db[k] == f then 1 else 0)
  {
    forall f: Food
      ensures |Fans(db, done + {k}, f)| == |Fans(db, done, f)| + (if db[k] == f then 1 else 0)
    {
      if db[k] == f {
        assert Fans(db, done + {k}, f) == Fans(db, done, f) + {k};
      } else {
        assert Fans(db, done + {k}, f) == Fans(db, done, f);
      }
    }
  }

  /** The second loop of getFoodPrefStats: every non-zero tally of the listed items becomes a percentage. */
  method RoundTally(tally: map<Food, int>, foods: seq<Food>, n: nat) returns (stats: map<Food, int>)
    requires Distinct(foods)
    requires forall f: Food :: f in tally && 0 <= tally[f] <= n
    ensures forall f: Food :: f in stats &&
              stats[f] == if f in foods then Percent(tally[f], n) else tally[f]
  {
    stats := tally;
    var i := 0;
    while i < |foods|
      invariant 0 <= i <= |foods|
      invariant forall f: Food :: f in stats &&
                  stats[f] == if f in foods[..i] then Percent(tally[f], n) else tally[f]
    {
      var food := foods[i];
      assert foods[..i + 1] == foods[..i] + [food];
      assert food !in foods[..i];
      if stats[food] >= 1 {
        stats := stats[food := RoundHalfUp(100 * stats[food], n)];
      }
      i := i + 1;
    }
    assert foods[..i] == foods;
  }

  /** getFoodPrefStats: a percentage for every item. */
  method GetFoodPrefStats(db: map<EntityId, Food>) returns (stats: map<Food, int>)
    ensures forall f: Food :: f in stats
    ensures forall f: Food :: Count(db, f) <= |db| && stats[f] == Percent(Count(db, f), |db|)
  {
    FoodItemTypesEnumerateFood();
    var tally := TallyFavourites(db);
    forall f: Food ensures Count(db, f) <= |db| {
      CountBounded(db, f);
    }
    stats := RoundTally(tally, GuestFoodItemTypes, |db|);
  }

  /** The statistics example of the test suite: one burger fan among three guests gives 33. */
  lemma BurgerIsThirtyThree()
    ensures Count(map[1 := Burger, 2 := IceCream, 3 := Popcorn], Burger) == 1
    ensures Percent(1, 3) == 33
  {
    var db := map[1 := Burger, 2 := IceCream, 3 := Popcorn];
    assert Fans(db, db.Keys, Burger) == {1};
  }
}
