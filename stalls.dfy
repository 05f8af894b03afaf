/**
 * The stall-ping scheduler of stalls.ts. At the start of a game day it finds
 * the open food stalls; for the following ticks it steers the guests standing
 * in front of each stall towards it, makes them hungry or thirsty halfway
 * through the window, and restores their appetite at its end.
 */
module Stalls {
  import opened Wrappers
  import opened Globals
  import opened Host
  import Util

  /** A stall as findStalls returns it: the ride and its station tile, facing `coords.direction`. */
  datatype Stall = Stall(ride: Ride, coords: CoordsXYZD)

  /** A customer record: the guest and its hunger and thirst when the ping window began. */
  datatype Customer = Customer(guest: Guest, originalHunger: int, originalThirst: int)

  /** The four guest properties a ping writes. */
  datatype Vitals = Vitals(hunger: int, thirst: int, direction: int, destination: CoordsXY)

  function VitalsOf(g: Guest): Vitals
    reads g
  {
    Vitals(g.hunger, g.thirst, g.direction, g.destination)
  }

  // ---------------------------------------------------------------- findStalls

  /** The track elements of a tile that belong to the ride. */
  function MatchingTracks(elements: seq<TileElement>, rideId: int): (r: seq<TileElement>)
    ensures forall i :: 0 <= i < |r| ==> r[i].Track? && r[i].ride == rideId
    ensures forall e :: e in elements && e.Track? && e.ride == rideId ==> e in r
    ensures |r| <= |elements|
  {
    if elements == [] then []
    else
      var rest := MatchingTracks(elements[1..], rideId);
      if elements[0].Track? && elements[0].ride == rideId then [elements[0]] + rest else rest
  }

  /** getDirection: the direction of the ride's only track element on the tile, or -1. */
  function TrackDirection(elements: seq<TileElement>, rideId: int): int
  {
    var tracks := MatchingTracks(elements, rideId);
    if |tracks| == 1 then tracks[0].direction else -1
  }

  lemma TrackDirectionFound(elements: seq<TileElement>, rideId: int)
    requires TrackDirection(elements, rideId) != -1
    ensures Track(rideId, TrackDirection(elements, rideId)) in elements
    ensures |MatchingTracks(elements, rideId)| == 1
  {
    MatchingTracksIn(elements, rideId);
  }

  lemma {:induction false} MatchingTracksIn(elements: seq<TileElement>, rideId: int)
    ensures forall e :: e in MatchingTracks(elements, rideId) ==> e in elements
  {
    if elements != [] {
      MatchingTracksIn(elements[1..], rideId);
    }
  }

  /** The stall findStalls makes of a ride, if it keeps it. */
  function StallOf(ride: Ride, world: HostMap): Option<Stall>
  {
    if ride.classification == StallRide && ride.status == Open && Util.ArrayIncludes(ShopItemFoodEnums, ride.shopItem) then
      var c := ride.stationStart;
      var d := TrackDirection(world.tileAt(c.x / 32, c.y / 32), ride.id);
      if d == -1 then None else Some(Stall(ride, CoordsXYZD(c.x, c.y, c.z, d)))
    else None
  }

  /** The kept rides, in ride order. */
  function StallsOf(rides: seq<Ride>, world: HostMap): seq<Stall>
  {
    FilterMap(rides, r => StallOf(r, world))
  }

  /** What findStalls keeps: its stalls are exactly the rides StallOf keeps. */
  lemma StallsOfKeepsExactly(rides: seq<Ride>, world: HostMap)
    ensures forall s :: s in StallsOf(rides, world) <==> exists i :: 0 <= i < |rides| && StallOf(rides[i], world) == Some(s)
  {
    FilterMapKeepsExactly(rides, r => StallOf(r, world));
  }

  /** Every kept stall is an open stall ride selling a known food, located at its station, facing its track. */
  lemma StallOfProperties(ride: Ride, world: HostMap)
    requires StallOf(ride, world).Some?
    ensures var s := StallOf(ride, world).value;
            s.ride == ride && ride.classification == StallRide && ride.status == Open &&
            ride.shopItem in ShopItemFoodEnumMap &&
            s.coords.x == ride.stationStart.x && s.coords.y == ride.stationStart.y && s.coords.z == ride.stationStart.z &&
            Track(ride.id, s.coords.direction) in world.tileAt(ride.stationStart.x / 32, ride.stationStart.y / 32)
  {
    FoodEnumsAreMapKeys();
    var c := ride.stationStart;
    TrackDirectionFound(world.tileAt(c.x / 32, c.y / 32), ride.id);
  }

  /** Kept stalls keep ride order: the stalls of a concatenation concatenate. */
  lemma StallsOfAppend(a: seq<Ride>, b: seq<Ride>, world: HostMap)
    ensures StallsOf(a + b, world) == StallsOf(a, world) + StallsOf(b, world)
  {
    FilterMapAppend(a, b, r => StallOf(r, world));
  }

  // ------------------------------------------------------------- findCustomers

  /** The food a stall sells, undefined when its shop item is no food. */
  function ShopFood(s: Stall): Option<Food>
  {
    if s.ride.shopItem in ShopItemFoodEnumMap then Some(ShopItemFoodEnumMap[s.ride.shopItem]) else None
  }

  /** The guest's favourite, undefined when the db has no entry. */
  function Favourite(prefs: map<EntityId, Food>, g: Guest): Option<Food>
  {
    if g.id.Some? && g.id.value in prefs then Some(prefs[g.id.value]) else None
  }

  /**
   * likesFood: with guestsIgnoreFavourite every guest likes the stall, or only
   * the guestsOnlyLike item when that is set; otherwise a guest likes what the
   * db names as its favourite (both sides may be undefined).
   */
  predicate Likes(prefs: map<EntityId, Food>, g: Guest, shopFood: Option<Food>, cheats: FoodCheats)
  {
    if cheats.guestsIgnoreFavourite == Some(true) then
      cheats.guestsOnlyLike.None? || shopFood == cheats.guestsOnlyLike
    else
      Favourite(prefs, g) == shopFood
  }

  /** hasFood: the guest carries an item of one of the tracked food types. */
  function HoldsFood(items: seq<Item>): (r: bool)
    ensures r <==> exists i :: 0 <= i < |items| && items[i].FoodItem?
  {
    if items == [] then false
    else if items[0].FoodItem? then true
    else
      var rest := HoldsFood(items[1..]);
      assert rest ==> exists i :: 0 <= i < |items| && items[i].FoodItem? by {
        if rest {
          var j :| 0 <= j < |items[1..]| && items[1..][j].FoodItem?;
          assert items[j + 1].FoodItem?;
        }
      }
      rest
  }

  /** The guests findCustomers keeps. */
  predicate Qualifies(prefs: map<EntityId, Food>, g: Guest, shopFood: Option<Food>, cheats: FoodCheats)
  {
    g.happiness >= 41 && !g.leavingPark && Likes(prefs, g, shopFood, cheats) &&
    !(g.items.Some? && HoldsFood(g.items.value))
  }

  /** What the first loop of findCustomers records: each id names the last guest listed with it. */
  function LastById(gs: seq<Guest>): (m: map<EntityId, Guest>)
    requires forall i :: 0 <= i < |gs| ==> gs[i].id.Some?
    ensures forall k :: k in m ==> m[k].id == Some(k) && m[k] in gs
  {
    if gs == [] then map[]
    else
      var n := |gs| - 1;
      LastById(gs[..n])[gs[n].id.value := gs[n]]
  }

  /** The ids the second loop of findCustomers deletes: those of the guests that do not qualify. */
  function RejectedIds(gs: seq<Guest>, prefs: map<EntityId, Food>, shopFood: Option<Food>, cheats: FoodCheats): set<EntityId>
    requires forall i :: 0 <= i < |gs| ==> gs[i].id.Some?
  {
    set i | 0 <= i < |gs| && !Qualifies(prefs, gs[i], shopFood, cheats) :: gs[i].id.value
  }

  /** The potential customers of a stall, by id. */
  function Chosen(gs: seq<Guest>, prefs: map<EntityId, Food>, shopFood: Option<Food>, cheats: FoodCheats): map<EntityId, Guest>
    requires forall i :: 0 <= i < |gs| ==> gs[i].id.Some?
  {
    LastById(gs) - RejectedIds(gs, prefs, shopFood, cheats)
  }

  /** The potential customers of a stall on the current map. */
  function ChosenOf(prefs: map<EntityId, Food>, s: Stall, cheats: FoodCheats, world: HostMap): map<EntityId, Guest>
  {
    Chosen(Util.GetGuestsOnNeighbouringTile(s.coords, world), prefs, ShopFood(s), cheats)
  }

  lemma LastByIdKeys(gs: seq<Guest>)
    requires forall i :: 0 <= i < |gs| ==> gs[i].id.Some?
    ensures forall k :: k in LastById(gs) <==> exists i :: 0 <= i < |gs| && gs[i].id == Some(k)
  {
    forall i | 0 <= i < |gs|
      ensures gs[i].id.value in LastById(gs)
    {
      LastByIdHas(gs, i);
    }
  }

  /** Every nearby guest's id is recorded. */
  lemma {:induction false} LastByIdHas(gs: seq<Guest>, i: nat)
    requires forall j :: 0 <= j < |gs| ==> gs[j].id.Some?
    requires i < |gs|
    ensures gs[i].id.value in LastById(gs)
  {
    var n := |gs| - 1;
    if i < n {
      assert gs[..n][i] == gs[i];
      LastByIdHas(gs[..n], i);
    }
  }

  /**
   * findCustomers keeps an id exactly when some nearby guest has it and every
   * nearby guest with it qualifies; the record names a guest with that id.
   */
  lemma ChosenCharacterization(gs: seq<Guest>, prefs: map<EntityId, Food>, shopFood: Option<Food>, cheats: FoodCheats)
    requires forall i :: 0 <= i < |gs| ==> gs[i].id.Some?
    ensures forall k :: k in Chosen(gs, prefs, shopFood, cheats) <==>
              (exists i :: 0 <= i < |gs| && gs[i].id == Some(k)) &&
              (forall i :: 0 <= i < |gs| && gs[i].id == Some(k) ==> Qualifies(prefs, gs[i], shopFood, cheats))
    ensures forall k :: k in Chosen(gs, prefs, shopFood, cheats) ==>
              var g := Chosen(gs, prefs, shopFood, cheats)[k];
              g in gs && g.id == Some(k) && Qualifies(prefs, g, shopFood, cheats)
  {
    LastByIdKeys(gs);
    var m := Chosen(gs, prefs, shopFood, cheats);
    forall k | k in m
      ensures m[k] in gs && m[k].id == Some(k) && Qualifies(prefs, m[k], shopFood, cheats)
    {
      var i :| 0 <= i < |gs| && gs[i] == m[k];
      assert gs[i].id.value !in RejectedIds(gs, prefs, shopFood, cheats);
    }
    forall k ensures k in m <==>
              (exists i :: 0 <= i < |gs| && gs[i].id == Some(k)) &&
              (forall i :: 0 <= i < |gs| && gs[i].id == Some(k) ==> Qualifies(prefs, gs[i], shopFood, cheats))
    {
      if k in LastById(gs) && k in RejectedIds(gs, prefs, shopFood, cheats) {
        var i :| 0 <= i < |gs| && !Qualifies(prefs, gs[i], shopFood, cheats) && gs[i].id.value == k;
      }
    }
  }

  /**
   * For a guest whose id no other nearby guest shares: it becomes a customer
   * exactly when it is happy enough, not leaving, likes the item and holds no food.
   */
  lemma ChosenIffQualifies(gs: seq<Guest>, prefs: map<EntityId, Food>, shopFood: Option<Food>, cheats: FoodCheats, j: nat)
    requires forall i :: 0 <= i < |gs| ==> gs[i].id.Some?
    requires j < |gs| && forall i :: 0 <= i < |gs| && gs[i].id == gs[j].id ==> i == j
    ensures gs[j].id.value in Chosen(gs, prefs, shopFood, cheats) <==>
            gs[j].happiness >= 41 && !gs[j].leavingPark && Likes(prefs, gs[j], shopFood, cheats) &&
            !(gs[j].items.Some? && HoldsFood(gs[j].items.value))
    ensures gs[j].id.value in Chosen(gs, prefs, shopFood, cheats) ==> Chosen(gs, prefs, shopFood, cheats)[gs[j].id.value] == gs[j]
  {
    ChosenCharacterization(gs, prefs, shopFood, cheats);
    var k := gs[j].id.value;
    if k in Chosen(gs, prefs, shopFood, cheats) {
      var g := Chosen(gs, prefs, shopFood, cheats)[k];
      var i :| 0 <= i < |gs| && gs[i] == g;
    }
  }

  /** The like rule with no cheats active: the db's favourite decides, and a guest without entry likes nothing sold. */
  lemma LikesByFavourite(prefs: map<EntityId, Food>, g: Guest, f: Food, cheats: FoodCheats)
    requires cheats.guestsIgnoreFavourite != Some(true)
    ensures Likes(prefs, g, Some(f), cheats) <==> g.id.Some? && g.id.value in prefs && prefs[g.id.value] == f
  {
  }

  /** The like rule with guestsIgnoreFavourite: everybody, or exactly the guestsOnlyLike item, whatever the db says. */
  lemma LikesUnderCheats(prefs: map<EntityId, Food>, g: Guest, f: Food, cheats: FoodCheats)
    requires cheats.guestsIgnoreFavourite == Some(true)
    ensures cheats.guestsOnlyLike.None? ==> Likes(prefs, g, Some(f), cheats)
    ensures cheats.guestsOnlyLike.Some? ==> (Likes(prefs, g, Some(f), cheats) <==> f == cheats.guestsOnlyLike.value)
    ensures forall other: map<EntityId, Food> :: Likes(other, g, Some(f), cheats) == Likes(prefs, g, Some(f), cheats)
  {
  }

  // --------------------------------------------------------------- pingStalls

  /** What a tick of the window does to appetite: lure at pingInterval/2, restore at pingInterval. */
  datatype Phase = Lure | Restore | Steer

  /** `tick == pingInterval / 2` in the source is real division, so it holds iff 2 * tick == pingInterval. */
  function PhaseOf(tick: int, pingInterval: int): (p: Phase)
  {
    if 2 * tick == pingInterval then Lure
    else if tick == pingInterval then Restore
    else Steer
  }

  /** The lure fires only for an even interval, and the restore needs a non-zero one. */
  lemma PhaseLaws(tick: int, pingInterval: int)
    ensures PhaseOf(tick, pingInterval) == Lure <==> pingInterval % 2 == 0 && tick == pingInterval / 2
    ensures PhaseOf(tick, pingInterval) == Restore <==> tick == pingInterval && pingInterval != 0
  {
  }

  /** The direction a lured guest is given: the opposite of the stall's. */
  function Opposite(d: int): int
  {
    d + (if d < 2 then 2 else -2)
  }

  lemma OppositeLaws(d: int)
    requires 0 <= d < 4
    ensures Opposite(d) == (d + 2) % 4
    ensures 0 <= Opposite(d) < 4 && Opposite(d) != d
    ensures Opposite(Opposite(d)) == d
  {
  }

  /** The destination a lured guest is given: the stall's tile, offset by its direction. */
  function LureTarget(c: CoordsXYZD): CoordsXY
  {
    match c.direction
    case 0 => CoordsXY(c.x + TileSize, c.y + HalfTileSize)
    case 1 => CoordsXY(c.x + HalfTileSize, c.y + HalfTileSize)
    case 2 => CoordsXY(c.x - TileSize, c.y + HalfTileSize)
    case 3 => CoordsXY(c.x + HalfTileSize, c.y + 2)
    case _ => CoordsXY(c.x, c.y)
  }

  /** The destination lies within one tile of the stall, and on it for a direction out of range. */
  lemma LureTargetNearStall(c: CoordsXYZD)
    ensures -TileSize <= LureTarget(c).x - c.x <= TileSize
    ensures 0 <= LureTarget(c).y - c.y <= HalfTileSize
    ensures !(0 <= c.direction < 4) ==> LureTarget(c) == CoordsXY(c.x, c.y)
  {
  }

  /** The stall sells a drink. */
  predicate IsDrinkStall(s: Stall)
  {
    Util.ArrayIncludes(ShopItemDrinkEnums, s.ride.shopItem)
  }

  /** One guest visited by one stall's ping. */
  function Step(s: Stall, c: Customer, phase: Phase, v: Vitals): Vitals
  {
    var appetite :=
      match phase
      case Lure => if IsDrinkStall(s) then v.(thirst := 50) else v.(hunger := 50)
      case Restore => v.(hunger := c.originalHunger, thirst := c.originalThirst)
      case Steer => v;
    appetite.(direction := Opposite(s.coords.direction), destination := LureTarget(s.coords))
  }

  /** The record map lists the guest (under its own id). */
  predicate Lists(m: map<EntityId, Customer>, g: Guest)
  {
    g.id.Some? && g.id.value in m && m[g.id.value].guest == g
  }

  /** Every record is filed under its guest's id. */
  predicate WellKeyed(m: map<EntityId, Customer>)
  {
    forall k :: k in m ==> m[k].guest.id == Some(k)
  }

  /**
   * The guest's vitals after the stalls in order have each visited the
   * customers of their record map (plan[j] for stalls[j]), starting from v.
   */
  function Visit(stalls: seq<Stall>, plan: seq<map<EntityId, Customer>>, phase: Phase, g: Guest, v: Vitals): Vitals
    requires |plan| == |stalls|
  {
    if stalls == [] then v
    else
      var n := |stalls| - 1;
      var w := Visit(stalls[..n], plan[..n], phase, g, v);
      if Lists(plan[n], g) then Step(stalls[n], plan[n][g.id.value], phase, w) else w
  }

  /** A guest no stall lists keeps its vitals. */
  lemma {:induction false} VisitUnlisted(stalls: seq<Stall>, plan: seq<map<EntityId, Customer>>, phase: Phase, g: Guest, v: Vitals)
    requires |plan| == |stalls|
    requires forall j :: 0 <= j < |plan| ==> !Lists(plan[j], g)
    ensures Visit(stalls, plan, phase, g, v) == v
  {
    if stalls != [] {
      var n := |stalls| - 1;
      VisitUnlisted(stalls[..n], plan[..n], phase, g, v);
    }
  }

  /** Direction and destination come from the last stall that lists the guest. */
  lemma {:induction false} SteerLaw(stalls: seq<Stall>, plan: seq<map<EntityId, Customer>>, phase: Phase, g: Guest, v: Vitals, j: nat)
    requires |plan| == |stalls|
    requires j < |plan| && Lists(plan[j], g)
    requires forall i :: j < i < |plan| ==> !Lists(plan[i], g)
    ensures Visit(stalls, plan, phase, g, v).direction == Opposite(stalls[j].coords.direction)
    ensures Visit(stalls, plan, phase, g, v).destination == LureTarget(stalls[j].coords)
  {
    var n := |stalls| - 1;
    if j < n {
      SteerLaw(stalls[..n], plan[..n], phase, g, v, j);
    }
  }

  /** At the restore tick the last listing stall's record gives back the original hunger and thirst. */
  lemma {:induction false} RestoreLaw(stalls: seq<Stall>, plan: seq<map<EntityId, Customer>>, g: Guest, v: Vitals, j: nat)
    requires |plan| == |stalls|
    requires j < |plan| && Lists(plan[j], g)
    requires forall i :: j < i < |plan| ==> !Lists(plan[i], g)
    ensures Visit(stalls, plan, Restore, g, v).hunger == plan[j][g.id.value].originalHunger
    ensures Visit(stalls, plan, Restore, g, v).thirst == plan[j][g.id.value].originalThirst
  {
    var n := |stalls| - 1;
    if j < n {
      RestoreLaw(stalls[..n], plan[..n], g, v, j);
    }
  }

  /**
   * At the lure tick a guest becomes thirsty (50) if a drink stall lists it and
   * hungry (50) if another stall does; otherwise its appetite stays.
   */
  lemma {:induction false} LureLaw(stalls: seq<Stall>, plan: seq<map<EntityId, Customer>>, g: Guest, v: Vitals)
    requires |plan| == |stalls|
    ensures Visit(stalls, plan, Lure, g, v).thirst ==
            if exists j :: 0 <= j < |plan| && Lists(plan[j], g) && IsDrinkStall(stalls[j]) then 50 else v.thirst
    ensures Visit(stalls, plan, Lure, g, v).hunger ==
            if exists j :: 0 <= j < |plan| && Lists(plan[j], g) && !IsDrinkStall(stalls[j]) then 50 else v.hunger
  {
    if stalls != [] {
      var n := |stalls| - 1;
      LureLaw(stalls[..n], plan[..n], g, v);
      assert forall j :: 0 <= j < n ==> plan[..n][j] == plan[j] && stalls[..n][j] == stalls[j];
    }
  }

  /** On the other ticks of the window appetite is left alone. */
  lemma {:induction false} SteerKeepsAppetite(stalls: seq<Stall>, plan: seq<map<EntityId, Customer>>, g: Guest, v: Vitals)
    requires |plan| == |stalls|
    ensures Visit(stalls, plan, Steer, g, v).hunger == v.hunger
    ensures Visit(stalls, plan, Steer, g, v).thirst == v.thirst
  {
    if stalls != [] {
      SteerKeepsAppetite(stalls[..|stalls| - 1], plan[..|stalls| - 1], g, v);
    }
  }

  // ------------------------------------------------------------------ methods

  /** findStalls over the host's ride list. */
  method FindStalls(world: HostMap) returns (stalls: seq<Stall>)
    ensures stalls == StallsOf(world.rides, world)
  {
    stalls := [];
    var i := 0;
    while i < |world.rides|
      invariant 0 <= i <= |world.rides|
      invariant stalls == StallsOf(world.rides[..i], world)
    {
      var stall := world.rides[i];
      FilterMapSnoc(world.rides, r => StallOf(r, world), i);
      if stall.classification == StallRide && stall.status == Open {
        if Util.ArrayIncludes(ShopItemFoodEnums, stall.shopItem) {
          var tileCoords := stall.stationStart;
          var direction := TrackDirection(world.tileAt(tileCoords.x / 32, tileCoords.y / 32), stall.id);
          if direction != -1 {
            stalls := stalls + [Stall(stall, CoordsXYZD(tileCoords.x, tileCoords.y, tileCoords.z, direction))];
          }
        }
      }
      i := i + 1;
    }
    assert world.rides[..i] == world.rides;
  }

  /** One more rejected guest adds its id to the rejected ids. */
  lemma RejectedSnoc(gs: seq<Guest>, prefs: map<EntityId, Food>, shopFood: Option<Food>, cheats: FoodCheats, i: nat)
    requires forall j :: 0 <= j < |gs| ==> gs[j].id.Some?
    requires i < |gs|
    ensures RejectedIds(gs[..i + 1], prefs, shopFood, cheats) ==
            RejectedIds(gs[..i], prefs, shopFood, cheats) +
            (if Qualifies(prefs, gs[i], shopFood, cheats) then {} else {gs[i].id.value})
  {
    assert forall j :: 0 <= j < i ==> gs[..i + 1][j] == gs[..i][j];
    assert gs[..i + 1][i] == gs[i];
  }

  /**
   * findCustomers: the potential customers of the stall, each recorded under
   * its id with its hunger and thirst at call time. The db is only read.
   */
  method FindCustomers(db: GuestDb, stall: Stall, cheats: FoodCheats, world: HostMap)
    returns (potentialCustomers: map<EntityId, Customer>)
    ensures WellKeyed(potentialCustomers)
    ensures potentialCustomers.Keys == ChosenOf(db.prefs, stall, cheats, world).Keys
    ensures forall k :: k in potentialCustomers ==>
              var c := potentialCustomers[k];
              c.guest == ChosenOf(db.prefs, stall, cheats, world)[k] &&
              c.originalHunger == c.guest.hunger && c.originalThirst == c.guest.thirst
  {
    var nearbyGuests := Util.GetGuestsOnNeighbouringTile(stall.coords, world);
    var recorded := RecordGuests(nearbyGuests);
    potentialCustomers := SkimGuests(recorded, nearbyGuests, db.prefs, ShopFood(stall), cheats);
  }

  /** The first loop of findCustomers: a record per nearby guest, the last one per id winning. */
  method RecordGuests(nearbyGuests: seq<Guest>) returns (potentialCustomers: map<EntityId, Customer>)
    requires forall i :: 0 <= i < |nearbyGuests| ==> nearbyGuests[i].id.Some?
    ensures potentialCustomers.Keys == LastById(nearbyGuests).Keys
    ensures forall k :: k in potentialCustomers ==>
              var c := potentialCustomers[k];
              c.guest == LastById(nearbyGuests)[k] &&
              c.originalHunger == c.guest.hunger && c.originalThirst == c.guest.thirst
  {
    potentialCustomers := map[];
    var i := 0;
    while i < |nearbyGuests|
      invariant 0 <= i <= |nearbyGuests|
      invariant potentialCustomers.Keys == LastById(nearbyGuests[..i]).Keys
      invariant forall k :: k in potentialCustomers ==>
                  var c := potentialCustomers[k];
                  c.guest == LastById(nearbyGuests[..i])[k] &&
                  c.originalHunger == c.guest.hunger && c.originalThirst == c.guest.thirst
    {
      var guest := nearbyGuests[i];
      assert nearbyGuests[..i + 1][..i] == nearbyGuests[..i];
      assert nearbyGuests[..i + 1][i] == guest;
      potentialCustomers := potentialCustomers[guest.id.value := Customer(guest, guest.hunger, guest.thirst)];
      i := i + 1;
    }
    assert nearbyGuests[..i] == nearbyGuests;
  }

  /** The second loop of findCustomers: the ids of guests that do not qualify are deleted. */
  method SkimGuests(recorded: map<EntityId, Customer>, nearbyGuests: seq<Guest>, prefs: map<EntityId, Food>,
                    shopFood: Option<Food>, cheats: FoodCheats)
    returns (potentialCustomers: map<EntityId, Customer>)
    requires forall i :: 0 <= i < |nearbyGuests| ==> nearbyGuests[i].id.Some?
    ensures potentialCustomers == recorded - RejectedIds(nearbyGuests, prefs, shopFood, cheats)
  {
    potentialCustomers := recorded;
    var i := 0;
    while i < |nearbyGuests|
      invariant 0 <= i <= |nearbyGuests|
      invariant potentialCustomers == recorded - RejectedIds(nearbyGuests[..i], prefs, shopFood, cheats)
    {
      var guest := nearbyGuests[i];
      RejectedSnoc(nearbyGuests, prefs, shopFood, cheats, i);
      if guest.happiness < 41 || guest.leavingPark || !Likes(prefs, guest, shopFood, cheats) ||
         (guest.items.Some? && HoldsFood(guest.items.value)) {
        potentialCustomers := potentialCustomers - {guest.id.value};
      }
      i := i + 1;
    }
    assert nearbyGuests[..i] == nearbyGuests;
  }

  /** The guests a record map names. */
  function GuestsOf(m: map<EntityId, Customer>): set<Guest>
  {
    set k | k in m :: m[k].guest
  }

  lemma ListsIffNamed(m: map<EntityId, Customer>, g: Guest)
    requires WellKeyed(m)
    ensures Lists(m, g) <==> g in GuestsOf(m)
  {
    if g in GuestsOf(m) {
      var k :| k in m && m[k].guest == g;
    }
  }

  /** The body of pingStalls' customer loop for one record. */
  method VisitOne(stall: Stall, guestRecord: Customer, phase: Phase, coords: CoordsXY)
    requires coords == LureTarget(stall.coords)
    modifies guestRecord.guest
    ensures VitalsOf(guestRecord.guest) == Step(stall, guestRecord, phase, old(VitalsOf(guestRecord.guest)))
  {
    if phase == Lure {
      if Util.ArrayIncludes(ShopItemDrinkEnums, stall.ride.shopItem) {
        guestRecord.guest.thirst := 50;
      } else {
        guestRecord.guest.hunger := 50;
      }
    } else if phase == Restore {
      guestRecord.guest.hunger := guestRecord.originalHunger;
      guestRecord.guest.thirst := guestRecord.originalThirst;
    }
    Util.SetGuestDirection(guestRecord.guest, Opposite(stall.coords.direction));
    Util.SetGuestDestination(guestRecord.guest, coords);
  }

  /** The loop of pingStalls over one stall's customers, in ascending key order. */
  method VisitCustomers(stall: Stall, m: map<EntityId, Customer>, phase: Phase, coords: CoordsXY, ghost others: set<Guest>)
    requires WellKeyed(m)
    requires coords == LureTarget(stall.coords)
    modifies GuestsOf(m)
    ensures forall g :: g in GuestsOf(m) ==> VitalsOf(g) == Step(stall, m[g.id.value], phase, old(VitalsOf(g)))
    ensures forall g :: g in others ==>
              VitalsOf(g) == if Lists(m, g) then Step(stall, m[g.id.value], phase, old(VitalsOf(g))) else old(VitalsOf(g))
  {
    ghost var before := map k | k in m :: VitalsOf(m[k].guest);
    var remaining := m.Keys;
    while remaining != {}
      invariant remaining <= m.Keys
      invariant forall k :: k in m ==>
                  VitalsOf(m[k].guest) == if k in remaining then before[k] else Step(stall, m[k], phase, before[k])
      decreases |remaining|
    {
      var guestId := Least(remaining);
      var guestRecord := m[guestId];
      assert guestRecord.guest in GuestsOf(m);
      VisitOne(stall, guestRecord, phase, coords);
      remaining := remaining - {guestId};
    }
    forall g | g in GuestsOf(m)
      ensures VitalsOf(g) == Step(stall, m[g.id.value], phase, old(VitalsOf(g)))
    {
      ListsIffNamed(m, g);
    }
    forall g | g in others
      ensures VitalsOf(g) == if Lists(m, g) then Step(stall, m[g.id.value], phase, old(VitalsOf(g))) else old(VitalsOf(g))
    {
      ListsIffNamed(m, g);
    }
  }

  // ------------------------------------------------------------ the scheduler

  /** The customers map after the tick-0 snapshots: each stall files its record map under its ride id. */
  function Recorded(stalls: seq<Stall>, plan: seq<map<EntityId, Customer>>,
                    base: map<int, map<EntityId, Customer>>): map<int, map<EntityId, Customer>>
    requires |plan| == |stalls|
  {
    if stalls == [] then base
    else
      var n := |stalls| - 1;
      Recorded(stalls[..n], plan[..n], base)[stalls[n].ride.id := plan[n]]
  }

  /** Every stall's ride id is filed, and the last stall with that id decides its record map. */
  lemma {:induction false} RecordedLast(stalls: seq<Stall>, plan: seq<map<EntityId, Customer>>,
                                        base: map<int, map<EntityId, Customer>>, j: nat)
    requires |plan| == |stalls| && j < |stalls|
    requires forall i :: j < i < |stalls| ==> stalls[i].ride.id != stalls[j].ride.id
    ensures stalls[j].ride.id in Recorded(stalls, plan, base)
    ensures Recorded(stalls, plan, base)[stalls[j].ride.id] == plan[j]
  {
    var n := |stalls| - 1;
    if j < n {
      RecordedLast(stalls[..n], plan[..n], base, j);
    }
  }

  /** Filing keeps the old ids and adds the stalls' ids, and every filed map is well keyed. */
  lemma {:induction false} RecordedShape(stalls: seq<Stall>, plan: seq<map<EntityId, Customer>>,
                                         base: map<int, map<EntityId, Customer>>)
    requires |plan| == |stalls|
    requires forall r :: r in base ==> WellKeyed(base[r])
    requires forall j :: 0 <= j < |plan| ==> WellKeyed(plan[j])
    ensures forall r :: r in base ==> r in Recorded(stalls, plan, base)
    ensures forall j :: 0 <= j < |stalls| ==> stalls[j].ride.id in Recorded(stalls, plan, base)
    ensures forall r :: r in Recorded(stalls, plan, base) ==> WellKeyed(Recorded(stalls, plan, base)[r])
  {
    if stalls != [] {
      var n := |stalls| - 1;
      RecordedShape(stalls[..n], plan[..n], base);
      assert forall j :: 0 <= j < n ==> stalls[..n][j] == stalls[j];
    }
  }

  /**
   * The record maps as stored: stall j visits the customers filed under its
   * ride id (an empty map if nothing is filed there).
   */
  function RecordsOf(stalls: seq<Stall>, customers: map<int, map<EntityId, Customer>>): (p: seq<map<EntityId, Customer>>)
    ensures |p| == |stalls|
    ensures forall j :: 0 <= j < |stalls| && stalls[j].ride.id in customers ==> p[j] == customers[stalls[j].ride.id]
  {
    seq(|stalls|, j requires 0 <= j < |stalls| =>
      if stalls[j].ride.id in customers then customers[stalls[j].ride.id] else map[])
  }

  /** The potential customers of each stall, in stall order. */
  function ChosenSeq(stalls: seq<Stall>, prefs: map<EntityId, Food>, cheats: FoodCheats, world: HostMap)
    : (c: seq<map<EntityId, Guest>>)
    ensures |c| == |stalls|
    ensures forall j :: 0 <= j < |stalls| ==> c[j] == ChosenOf(prefs, stalls[j], cheats, world)
  {
    seq(|stalls|, j requires 0 <= j < |stalls| => ChosenOf(prefs, stalls[j], cheats, world))
  }

  /** V0 knows the vitals of every guest the maps name. */
  ghost predicate Covers(chosen: seq<map<EntityId, Guest>>, V0: map<Guest, Vitals>)
  {
    forall j, k :: 0 <= j < |chosen| && k in chosen[j] ==> chosen[j][k] in V0
  }

  /**
   * The record map a stall makes at tick 0: its potential customers, each
   * with the hunger and thirst it has once the earlier stalls have visited.
   */
  ghost function Snapshot(chosen: map<EntityId, Guest>, earlier: seq<Stall>, plan: seq<map<EntityId, Customer>>,
                          phase: Phase, V0: map<Guest, Vitals>): map<EntityId, Customer>
    requires |plan| == |earlier|
  {
    map k | k in chosen && chosen[k] in V0 ::
      var w := Visit(earlier, plan, phase, chosen[k], V0[chosen[k]]);
      Customer(chosen[k], w.hunger, w.thirst)
  }

  /**
   * The record maps the stalls make at tick 0, in stall order, from their
   * potential customers and the vitals V0 before the tick.
   */
  ghost function TickZeroPlan(stalls: seq<Stall>, chosen: seq<map<EntityId, Guest>>,
                              phase: Phase, V0: map<Guest, Vitals>): (p: seq<map<EntityId, Customer>>)
    requires |chosen| == |stalls|
    ensures |p| == |stalls|
    decreases |stalls|
  {
    if stalls == [] then []
    else
      var n := |stalls| - 1;
      var p := TickZeroPlan(stalls[..n], chosen[..n], phase, V0);
      p + [Snapshot(chosen[n], stalls[..n], p, phase, V0)]
  }

  /** The tick-0 plan of a prefix of the stalls is the prefix of the plan. */
  lemma {:induction false} TickZeroPlanPrefix(stalls: seq<Stall>, chosen: seq<map<EntityId, Guest>>,
                                              phase: Phase, V0: map<Guest, Vitals>, j: nat)
    requires |chosen| == |stalls|
    requires j <= |stalls|
    ensures TickZeroPlan(stalls, chosen, phase, V0)[..j] == TickZeroPlan(stalls[..j], chosen[..j], phase, V0)
    decreases |stalls|
  {
    if j < |stalls| {
      var n := |stalls| - 1;
      TickZeroPlanPrefix(stalls[..n], chosen[..n], phase, V0, j);
      assert stalls[..n][..j] == stalls[..j] && chosen[..n][..j] == chosen[..j];
    } else {
      assert stalls[..j] == stalls && chosen[..j] == chosen;
    }
  }

  /** Stall j's tick-0 record map is its snapshot after the stalls before it have visited. */
  lemma TickZeroPlanEntry(stalls: seq<Stall>, chosen: seq<map<EntityId, Guest>>,
                          phase: Phase, V0: map<Guest, Vitals>, j: nat)
    requires |chosen| == |stalls|
    requires j < |stalls|
    ensures TickZeroPlan(stalls, chosen, phase, V0)[j] ==
            Snapshot(chosen[j], stalls[..j], TickZeroPlan(stalls, chosen, phase, V0)[..j], phase, V0)
  {
    TickZeroPlanPrefix(stalls, chosen, phase, V0, j + 1);
    TickZeroPlanPrefix(stalls, chosen, phase, V0, j);
    assert stalls[..j + 1][..j] == stalls[..j] && chosen[..j + 1][..j] == chosen[..j];
    assert chosen[..j + 1][j] == chosen[j];
    var full := TickZeroPlan(stalls, chosen, phase, V0);
    assert full[..j + 1][j] == full[j] && full[..j + 1][..j] == full[..j];
  }

  /** Every potential customer is filed under its own id. */
  ghost predicate KeyedChoices(chosen: seq<map<EntityId, Guest>>)
  {
    forall j, k :: 0 <= j < |chosen| && k in chosen[j] ==> chosen[j][k].id == Some(k)
  }

  lemma ChosenSeqKeyed(stalls: seq<Stall>, prefs: map<EntityId, Food>, cheats: FoodCheats, world: HostMap)
    ensures KeyedChoices(ChosenSeq(stalls, prefs, cheats, world))
  {
  }

  /** Tick-0 record maps file every customer under its id. */
  lemma TickZeroPlanWellKeyed(stalls: seq<Stall>, chosen: seq<map<EntityId, Guest>>, phase: Phase, V0: map<Guest, Vitals>)
    requires |chosen| == |stalls| && KeyedChoices(chosen)
    ensures forall j :: 0 <= j < |stalls| ==> WellKeyed(TickZeroPlan(stalls, chosen, phase, V0)[j])
  {
    forall j | 0 <= j < |stalls|
      ensures WellKeyed(TickZeroPlan(stalls, chosen, phase, V0)[j])
    {
      TickZeroPlanEntry(stalls, chosen, phase, V0, j);
    }
  }

  /** The guests of a set, with their current vitals. */
  function VitalsMap(guests: set<Guest>): (r: map<Guest, Vitals>)
    reads guests
    ensures r.Keys == guests
  {
    map g | g in guests :: VitalsOf(g)
  }

  /** The tick counter and the active flag of a ping window. */
  datatype PingWindow = PingWindow(tick: int, active: bool)

  /** newTick's bookkeeping: advance, and tear the window down once past pingInterval. */
  function TickStep(w: PingWindow, pingInterval: int): PingWindow
  {
    if !w.active then w
    else if w.tick + 1 > pingInterval then PingWindow(0, false)
    else PingWindow(w.tick + 1, true)
  }

  function Run(w: PingWindow, pingInterval: int, calls: nat): PingWindow
    decreases calls
  {
    if calls == 0 then w else Run(TickStep(w, pingInterval), pingInterval, calls - 1)
  }

  lemma {:induction false} RunCounts(tick: nat, pingInterval: int, calls: nat)
    requires tick + calls <= pingInterval
    ensures Run(PingWindow(tick, true), pingInterval, calls) == PingWindow(tick + calls, true)
    decreases calls
  {
    if calls > 0 {
      RunCounts(tick + 1, pingInterval, calls - 1);
    }
  }

  /**
   * A window opened by newDay pings at ticks 0, 1, ..., pingInterval: the
   * k-th call of newTick sees tick k - 1, and the call after pingInterval + 1
   * calls finds the window closed again.
   */
  lemma WindowLength(pingInterval: nat)
    ensures forall k: nat :: k <= pingInterval ==> Run(PingWindow(0, true), pingInterval, k) == PingWindow(k, true)
    ensures Run(PingWindow(0, true), pingInterval, pingInterval + 1) == PingWindow(0, false)
    ensures Run(PingWindow(0, false), pingInterval, pingInterval + 1) == PingWindow(0, false)
  {
    forall k: nat | k <= pingInterval
      ensures Run(PingWindow(0, true), pingInterval, k) == PingWindow(k, true)
    {
      RunCounts(0, pingInterval, k);
    }
    RunCounts(0, pingInterval, pingInterval);
    RunIdle(pingInterval, pingInterval + 1);
    RunSplit(PingWindow(0, true), pingInterval, pingInterval, 1);
  }

  lemma {:induction false} RunIdle(pingInterval: int, calls: nat)
    ensures Run(PingWindow(0, false), pingInterval, calls) == PingWindow(0, false)
    decreases calls
  {
    if calls > 0 {
      RunIdle(pingInterval, calls - 1);
    }
  }

  lemma {:induction false} RunSplit(w: PingWindow, pingInterval: int, a: nat, b: nat)
    ensures Run(w, pingInterval, a + b) == Run(Run(w, pingInterval, a), pingInterval, b)
    decreases a
  {
    if a > 0 {
      RunSplit(TickStep(w, pingInterval), pingInterval, a - 1, b);
    }
  }

  /** For an even interval of at least 2 the window lures at its middle tick and restores at its last; tick 0 never restores. */
  lemma WindowPhases(pingInterval: int)
    ensures pingInterval >= 2 && pingInterval % 2 == 0 ==>
              PhaseOf(pingInterval / 2, pingInterval) == Lure && PhaseOf(pingInterval, pingInterval) == Restore
    ensures pingInterval % 2 == 1 ==> forall t :: PhaseOf(t, pingInterval) != Lure
    ensures PhaseOf(0, pingInterval) != Restore
  {
  }

  /** The guests a ping writes: the potential customers at tick 0, the recorded ones afterwards. */
  ghost function TargetsOf(stalls: seq<Stall>, customers: map<int, map<EntityId, Customer>>, tick: int,
                           cheats: FoodCheats, prefs: map<EntityId, Food>, world: HostMap): set<Guest>
  {
    if tick == 0 then
      var ch := ChosenSeq(stalls, prefs, cheats, world);
      set j, k | 0 <= j < |ch| && k in ch[j] :: ch[j][k]
    else
      set r, k | r in customers && k in customers[r] :: customers[r][k].guest
  }

  lemma TargetsCovered(stalls: seq<Stall>, customers: map<int, map<EntityId, Customer>>,
                       cheats: FoodCheats, prefs: map<EntityId, Food>, world: HostMap)
    ensures Covers(ChosenSeq(stalls, prefs, cheats, world), VitalsMap(TargetsOf(stalls, customers, 0, cheats, prefs, world)))
  {
  }

  /** The record maps a ping's stalls visit, given the vitals V0 before it. */
  ghost function PlanOf(stalls: seq<Stall>, customers: map<int, map<EntityId, Customer>>, tick: int, phase: Phase,
                        cheats: FoodCheats, prefs: map<EntityId, Food>, world: HostMap, V0: map<Guest, Vitals>)
    : (p: seq<map<EntityId, Customer>>)
    ensures |p| == |stalls|
  {
    if tick == 0 then TickZeroPlan(stalls, ChosenSeq(stalls, prefs, cheats, world), phase, V0)
    else RecordsOf(stalls, customers)
  }

  /** Every guest a planned record map names is among the targets. */
  lemma TargetsContain(stalls: seq<Stall>, customers: map<int, map<EntityId, Customer>>, tick: int, phase: Phase,
                       cheats: FoodCheats, prefs: map<EntityId, Food>, world: HostMap, V0: map<Guest, Vitals>, i: nat)
    requires i < |stalls|
    ensures GuestsOf(PlanOf(stalls, customers, tick, phase, cheats, prefs, world, V0)[i]) <=
            TargetsOf(stalls, customers, tick, cheats, prefs, world)
  {
    var m := PlanOf(stalls, customers, tick, phase, cheats, prefs, world, V0)[i];
    if tick == 0 {
      var ch := ChosenSeq(stalls, prefs, cheats, world);
      TickZeroPlanEntry(stalls, ch, phase, V0, i);
      forall g | g in GuestsOf(m)
        ensures g in TargetsOf(stalls, customers, tick, cheats, prefs, world)
      {
        var k :| k in m && m[k].guest == g;
        assert k in ch[i] && g == ch[i][k];
      }
    } else {
      forall g | g in GuestsOf(m)
        ensures g in TargetsOf(stalls, customers, tick, cheats, prefs, world)
      {
        var k :| k in m && m[k].guest == g;
        assert stalls[i].ride.id in customers && m == customers[stalls[i].ride.id];
      }
    }
  }

  /** A stall's findCustomers result at tick 0 is its planned snapshot. */
  lemma SnapshotMatches(stalls: seq<Stall>, chosen: seq<map<EntityId, Guest>>, phase: Phase, V0: map<Guest, Vitals>,
                        plan: seq<map<EntityId, Customer>>, i: nat, found: map<EntityId, Customer>)
    requires |chosen| == |stalls| && Covers(chosen, V0)
    requires plan == TickZeroPlan(stalls, chosen, phase, V0)
    requires i < |stalls|
    requires found.Keys == chosen[i].Keys
    requires forall k :: k in found ==>
               found[k].guest == chosen[i][k] &&
               found[k].originalHunger == Visit(stalls[..i], plan[..i], phase, found[k].guest, V0[found[k].guest]).hunger &&
               found[k].originalThirst == Visit(stalls[..i], plan[..i], phase, found[k].guest, V0[found[k].guest]).thirst
    ensures found == plan[i]
  {
    TickZeroPlanEntry(stalls, chosen, phase, V0, i);
  }

  /** The plan names only targets and files every record under its guest's id. */
  lemma PlanFacts(stalls: seq<Stall>, customers: map<int, map<EntityId, Customer>>, tick: int, phase: Phase,
                  cheats: FoodCheats, prefs: map<EntityId, Food>, world: HostMap, V0: map<Guest, Vitals>)
    requires V0.Keys == TargetsOf(stalls, customers, tick, cheats, prefs, world)
    requires forall r :: r in customers ==> WellKeyed(customers[r])
    ensures tick == 0 ==> Covers(ChosenSeq(stalls, prefs, cheats, world), V0)
    ensures forall j :: 0 <= j < |stalls| ==>
              GuestsOf(PlanOf(stalls, customers, tick, phase, cheats, prefs, world, V0)[j]) <= V0.Keys &&
              WellKeyed(PlanOf(stalls, customers, tick, phase, cheats, prefs, world, V0)[j])
  {
    var plan := PlanOf(stalls, customers, tick, phase, cheats, prefs, world, V0);
    if tick == 0 {
      var ch := ChosenSeq(stalls, prefs, cheats, world);
      TargetsCovered(stalls, customers, cheats, prefs, world);
      ChosenSeqKeyed(stalls, prefs, cheats, world);
      TickZeroPlanWellKeyed(stalls, ch, phase, V0);
    }
    forall j | 0 <= j < |stalls|
      ensures GuestsOf(plan[j]) <= V0.Keys && WellKeyed(plan[j])
    {
      TargetsContain(stalls, customers, tick, phase, cheats, prefs, world, V0, j);
    }
  }

  /**
   * A stall's findCustomers at tick 0, once the stalls before it have
   * visited, yields its planned snapshot.
   */
  method SnapshotStall(db: GuestDb, stall: Stall, cheats: FoodCheats, world: HostMap,
                       ghost stalls: seq<Stall>, ghost chosen: seq<map<EntityId, Guest>>, ghost phase: Phase,
                       ghost V0: map<Guest, Vitals>, ghost plan: seq<map<EntityId, Customer>>, ghost i: nat)
    returns (found: map<EntityId, Customer>)
    requires |chosen| == |stalls| && Covers(chosen, V0)
    requires plan == TickZeroPlan(stalls, chosen, phase, V0)
    requires i < |stalls| && stall == stalls[i] && IsChosen(chosen[i], db.prefs, stall, cheats, world)
    requires forall k :: k in chosen[i] ==>
               VitalsOf(chosen[i][k]) == Visit(stalls[..i], plan[..i], phase, chosen[i][k], V0[chosen[i][k]])
    ensures found == plan[i]
  {
    found := FindCustomers(db, stall, cheats, world);
    SnapshotMatches(stalls, chosen, phase, V0, plan, i, found);
  }

  /** One more stall's snapshot extends the filing by that stall's entry. */
  lemma RecordedSnoc(stalls: seq<Stall>, plan: seq<map<EntityId, Customer>>,
                     base: map<int, map<EntityId, Customer>>, i: nat)
    requires |plan| == |stalls| && i < |stalls|
    ensures Recorded(stalls[..i + 1], plan[..i + 1], base) ==
            Recorded(stalls[..i], plan[..i], base)[stalls[i].ride.id := plan[i]]
  {
    assert stalls[..i + 1][..i] == stalls[..i] && plan[..i + 1][..i] == plan[..i];
  }

  /** One more stall's visit extends the fold by that stall's step, for the guests it lists. */
  lemma VisitSnoc(stalls: seq<Stall>, plan: seq<map<EntityId, Customer>>, phase: Phase, g: Guest, v: Vitals, i: nat)
    requires |plan| == |stalls| && i < |stalls|
    ensures Visit(stalls[..i + 1], plan[..i + 1], phase, g, v) ==
            var w := Visit(stalls[..i], plan[..i], phase, g, v);
            if Lists(plan[i], g) then Step(stalls[i], plan[i][g.id.value], phase, w) else w
  {
    assert stalls[..i + 1][..i] == stalls[..i] && plan[..i + 1][..i] == plan[..i];
  }

  /** m is the stall's set of potential customers. */
  ghost predicate IsChosen(m: map<EntityId, Guest>, prefs: map<EntityId, Food>, s: Stall, cheats: FoodCheats, world: HostMap)
  {
    m == ChosenOf(prefs, s, cheats, world)
  }

  /**
   * What pingStalls' loop relies on about its plan: it names only targets,
   * files records under their guests' ids, and is the tick-0 plan of the
   * stalls' potential customers or the stored record maps.
   */
  ghost predicate PlanReady(prefs: map<EntityId, Food>, world: HostMap, stalls: seq<Stall>, cheats: FoodCheats, tick: int,
                            customers0: map<int, map<EntityId, Customer>>, phase: Phase, T: set<Guest>,
                            V0: map<Guest, Vitals>, ch: seq<map<EntityId, Guest>>, plan: seq<map<EntityId, Customer>>)
  {
    |plan| == |stalls| && V0.Keys == T &&
    (forall j :: 0 <= j < |stalls| ==> GuestsOf(plan[j]) <= T && WellKeyed(plan[j])) &&
    (tick == 0 ==>
       |ch| == |stalls| && Covers(ch, V0) && plan == TickZeroPlan(stalls, ch, phase, V0) &&
       forall j {:trigger IsChosen(ch[j], prefs, stalls[j], cheats, world)} :: 0 <= j < |stalls| ==>
         IsChosen(ch[j], prefs, stalls[j], cheats, world)) &&
    (tick != 0 ==>
       (forall j :: 0 <= j < |stalls| ==> stalls[j].ride.id in customers0) && plan == RecordsOf(stalls, customers0))
  }

  /** A ping's plan, from the scheduler's state between calls, is ready for the loop. */
  lemma PlanIsReady(prefs: map<EntityId, Food>, world: HostMap, stalls: seq<Stall>, cheats: FoodCheats, tick: int,
                    customers0: map<int, map<EntityId, Customer>>, phase: Phase, T: set<Guest>, V0: map<Guest, Vitals>)
    requires V0.Keys == T && T == TargetsOf(stalls, customers0, tick, cheats, prefs, world)
    requires forall r :: r in customers0 ==> WellKeyed(customers0[r])
    requires tick != 0 ==> forall j :: 0 <= j < |stalls| ==> stalls[j].ride.id in customers0
    ensures PlanReady(prefs, world, stalls, cheats, tick, customers0, phase, T, V0,
                      ChosenSeq(stalls, prefs, cheats, world), PlanOf(stalls, customers0, tick, phase, cheats, prefs, world, V0))
  {
    PlanFacts(stalls, customers0, tick, phase, cheats, prefs, world, V0);
    var ch := ChosenSeq(stalls, prefs, cheats, world);
    forall j | 0 <= j < |stalls|
      ensures IsChosen(ch[j], prefs, stalls[j], cheats, world)
    {
    }
  }

  /** pingStalls' loop body for stall i: the tick-0 snapshot, then the visit. */
  method PingStep(db: GuestDb, world: HostMap, stalls: seq<Stall>, cheats: FoodCheats, tick: int,
                  customers0: map<int, map<EntityId, Customer>>, phase: Phase, ghost T: set<Guest>,
                  ghost V0: map<Guest, Vitals>, ghost ch: seq<map<EntityId, Guest>>, ghost plan: seq<map<EntityId, Customer>>,
                  i: nat, customers: map<int, map<EntityId, Customer>>)
    returns (customers': map<int, map<EntityId, Customer>>)
    requires PlanReady(db.prefs, world, stalls, cheats, tick, customers0, phase, T, V0, ch, plan) && i < |stalls|
    requires tick == 0 ==> customers == Recorded(stalls[..i], plan[..i], customers0)
    requires tick != 0 ==> customers == customers0
    requires forall g :: g in T ==> VitalsOf(g) == Visit(stalls[..i], plan[..i], phase, g, V0[g])
    modifies T
    ensures tick == 0 ==> customers' == Recorded(stalls[..i + 1], plan[..i + 1], customers0)
    ensures tick != 0 ==> customers' == customers0
    ensures forall g :: g in T ==> VitalsOf(g) == Visit(stalls[..i + 1], plan[..i + 1], phase, g, V0[g])
  {
    var stall := stalls[i];
    customers' := customers;
    if tick == 0 {
      var customers_ := SnapshotStall(db, stall, cheats, world, stalls, ch, phase, V0, plan, i);
      RecordedSnoc(stalls, plan, customers0, i);
      customers' := customers'[stall.ride.id := customers_];
    }
    var coords := LureTarget(stall.coords);
    var m := customers'[stall.ride.id];
    assert m == plan[i];
    VisitCustomers(stall, m, phase, coords, T);
    forall g | g in T
      ensures VitalsOf(g) == Visit(stalls[..i + 1], plan[..i + 1], phase, g, V0[g])
    {
      VisitSnoc(stalls, plan, phase, g, V0[g], i);
    }
  }

  /**
   * pingStalls' loop over the stalls in order: at tick 0 each stall first
   * files its snapshot under its ride id; then it visits its record map.
   */
  method PingLoop(db: GuestDb, world: HostMap, stalls: seq<Stall>, cheats: FoodCheats, tick: int,
                  customers0: map<int, map<EntityId, Customer>>, phase: Phase, ghost T: set<Guest>,
                  ghost V0: map<Guest, Vitals>, ghost ch: seq<map<EntityId, Guest>>, ghost plan: seq<map<EntityId, Customer>>)
    returns (customers: map<int, map<EntityId, Customer>>)
    requires PlanReady(db.prefs, world, stalls, cheats, tick, customers0, phase, T, V0, ch, plan)
    requires forall g :: g in T ==> VitalsOf(g) == V0[g]
    modifies T
    ensures tick == 0 ==> customers == Recorded(stalls, plan, customers0)
    ensures tick != 0 ==> customers == customers0
    ensures forall g :: g in T ==> VitalsOf(g) == Visit(stalls, plan, phase, g, V0[g])
  {
    customers := customers0;
    var i := 0;
    while i < |stalls|
      invariant 0 <= i <= |stalls|
      invariant tick == 0 ==> customers == Recorded(stalls[..i], plan[..i], customers0)
      invariant tick != 0 ==> customers == customers0
      invariant forall g :: g in T ==> VitalsOf(g) == Visit(stalls[..i], plan[..i], phase, g, V0[g])
    {
      customers := PingStep(db, world, stalls, cheats, tick, customers0, phase, T, V0, ch, plan, i, customers);
      i := i + 1;
    }
    assert stalls[..i] == stalls && plan[..i] == plan;
  }

  class StallPingScheduler {
    var customers: map<int, map<EntityId, Customer>>
    var stalls: seq<Stall>
    var stallsFresh: bool
    const pingInterval: int
    var currentTick: int
    var activePing: bool
    var cheats: FoodCheats

    /**
     * Between calls: the tick stays within the window, an idle scheduler is at
     * tick 0 with no customers, and once tick 0 is past every stall's record
     * map is filed under its ride id.
     */
    ghost predicate Valid()
      reads this
    {
      0 <= currentTick && (currentTick == 0 || currentTick <= pingInterval) &&
      (!activePing ==> currentTick == 0) &&
      (currentTick == 0 ==> customers == map[]) &&
      (currentTick > 0 ==> forall j :: 0 <= j < |stalls| ==> stalls[j].ride.id in customers) &&
      (forall r :: r in customers ==> WellKeyed(customers[r]))
    }

    /** The guests the next ping writes. */
    ghost function Targets(prefs: map<EntityId, Food>, world: HostMap): set<Guest>
      reads this
    {
      TargetsOf(stalls, customers, currentTick, cheats, prefs, world)
    }

    /** The record maps the next ping's stalls visit, given the vitals V0 before it. */
    ghost function Plan(prefs: map<EntityId, Food>, world: HostMap, V0: map<Guest, Vitals>): (p: seq<map<EntityId, Customer>>)
      reads this
      ensures |p| == |stalls|
    {
      PlanOf(stalls, customers, currentTick, PhaseOf(currentTick, pingInterval), cheats, prefs, world, V0)
    }

    constructor (pingInterval: int, world: HostMap)
      ensures Valid()
      ensures this.pingInterval == pingInterval && stalls == StallsOf(world.rides, world) && stallsFresh
      ensures !activePing && currentTick == 0 && customers == map[] && cheats == NoCheats
    {
      var found := FindStalls(world);
      customers := map[];
      this.pingInterval := pingInterval;
      stalls := found;
      stallsFresh := true;
      currentTick := 0;
      activePing := false;
      cheats := NoCheats;
    }

    /** updateStalls: the stall cache is stale; nothing else changes. */
    method UpdateStalls()
      requires Valid()
      modifies this
      ensures Valid()
      ensures !stallsFresh
      ensures stalls == old(stalls) && customers == old(customers) && currentTick == old(currentTick)
      ensures activePing == old(activePing) && cheats == old(cheats)
    {
      stallsFresh := false;
    }

    /**
     * newDay: merges the cheats first; while a window is open nothing else
     * changes; otherwise refreshes a stale stall cache and opens a window.
     */
    method NewDay(cheats: FoodCheats, world: HostMap)
      requires Valid()
      modifies this
      ensures Valid()
      ensures this.cheats == MergeCheats(old(this.cheats), cheats)
      ensures customers == old(customers) && currentTick == old(currentTick)
      ensures old(activePing) ==> stalls == old(stalls) && stallsFresh == old(stallsFresh) && activePing
      ensures !old(activePing) ==> stalls == (if old(stallsFresh) then old(stalls) else StallsOf(world.rides, world))
      ensures !old(activePing) ==> stallsFresh && activePing
    {
      this.cheats := MergeCheats(this.cheats, cheats);
      if activePing {
        return;
      }
      if !stallsFresh {
        stalls := FindStalls(world);
        stallsFresh := true;
      }
      activePing := true;
    }

    /**
     * newTick: without an open window nothing happens; otherwise pings the
     * stalls, advances the tick and closes the window once past pingInterval.
     */
    method NewTick(db: GuestDb, world: HostMap)
      returns (ghost T: set<Guest>, ghost V0: map<Guest, Vitals>, ghost plan: seq<map<EntityId, Customer>>)
      requires Valid()
      modifies this, Targets(db.prefs, world)
      ensures T == old(Targets(db.prefs, world)) && V0 == old(VitalsMap(Targets(db.prefs, world)))
      ensures plan == old(Plan(db.prefs, world, V0))
      ensures Valid()
      ensures PingWindow(currentTick, activePing) == TickStep(old(PingWindow(currentTick, activePing)), pingInterval)
      ensures stalls == old(stalls) && stallsFresh == old(stallsFresh) && cheats == old(cheats)
      ensures forall g :: g in T ==>
                VitalsOf(g) == if old(activePing) then Visit(stalls, plan, PhaseOf(old(currentTick), pingInterval), g, V0[g])
                               else V0[g]
      ensures !old(activePing) ==> customers == old(customers)
      ensures old(activePing) && activePing ==>
                customers == if old(currentTick) == 0 then Recorded(stalls, plan, map[]) else old(customers)
      ensures !activePing ==> customers == map[]
    {
      if !activePing {
        T := Targets(db.prefs, world);
        V0 := VitalsMap(T);
        plan := Plan(db.prefs, world, V0);
        return;
      }
      T, V0, plan := PingStalls(db, world);
      AdvanceTick();
    }

    /** newTick's bookkeeping after a ping: the next tick, or a closed window once past pingInterval. */
    method AdvanceTick()
      requires activePing && 0 <= currentTick
      requires forall r :: r in customers ==> WellKeyed(customers[r])
      requires forall j :: 0 <= j < |stalls| ==> stalls[j].ride.id in customers
      modifies this
      ensures Valid()
      ensures PingWindow(currentTick, activePing) == TickStep(old(PingWindow(currentTick, activePing)), pingInterval)
      ensures stalls == old(stalls) && stallsFresh == old(stallsFresh) && cheats == old(cheats)
      ensures customers == if activePing then old(customers) else map[]
    {
      currentTick := currentTick + 1;
      if currentTick > pingInterval {
        activePing := false;
        currentTick := 0;
        customers := map[];
      }
    }

    /**
     * pingStalls: at tick 0 every stall snapshots its potential customers;
     * then each stall's customers get the phase's appetite change and are
     * sent to the stall.
     */
    method PingStalls(db: GuestDb, world: HostMap)
      returns (ghost T: set<Guest>, ghost V0: map<Guest, Vitals>, ghost plan: seq<map<EntityId, Customer>>)
      requires Valid()
      modifies this, Targets(db.prefs, world)
      ensures T == old(Targets(db.prefs, world)) && V0 == old(VitalsMap(Targets(db.prefs, world)))
      ensures plan == old(Plan(db.prefs, world, V0))
      ensures stalls == old(stalls) && stallsFresh == old(stallsFresh) && currentTick == old(currentTick)
      ensures activePing == old(activePing) && cheats == old(cheats)
      ensures currentTick == 0 ==> customers == Recorded(stalls, plan, old(customers))
      ensures currentTick != 0 ==> customers == old(customers)
      ensures forall j :: 0 <= j < |stalls| ==> stalls[j].ride.id in customers
      ensures forall r :: r in customers ==> WellKeyed(customers[r])
      ensures forall g :: g in T ==> VitalsOf(g) == Visit(stalls, plan, PhaseOf(currentTick, pingInterval), g, V0[g])
    {
      T := Targets(db.prefs, world);
      V0 := VitalsMap(T);
      ghost var ch := ChosenSeq(stalls, db.prefs, cheats, world);
      var phase := PhaseOf(currentTick, pingInterval);
      plan := Plan(db.prefs, world, V0);
      PlanIsReady(db.prefs, world, stalls, cheats, currentTick, customers, phase, T, V0);
      customers := PingLoop(db, world, stalls, cheats, currentTick, customers, phase, T, V0, ch, plan);
      if currentTick == 0 {
        RecordedShape(stalls, plan, old(customers));
      }
    }
  }
}
