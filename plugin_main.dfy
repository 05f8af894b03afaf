/**
 * The event handlers and startup of main.ts: the db written at startup and
 * when a guest spawns, the stall-cache invalidation on ride actions, the
 * cleanup callback handed to the window, and main's own food list.
 */
module PluginMain {
  import opened Wrappers
  import opened Globals
  import opened Host
  import Util
  import Guests
  import Stalls

  /** The interval the plugin's scheduler is created with. */
  const PingInterval: int := 120

  /**
   * The part of GameActionEventArgs the plugin reads: the action name,
   * whether it ran on this client only, and the result's error code
   * (absent when the action succeeded).
   */
  datatype GameActionEvent = GameActionEvent(action: string, isClientOnly: bool, error: Option<int>)

  /** `!e.result.error`: an absent error code and the code 0 are both falsy. */
  predicate Succeeded(e: GameActionEvent)
  {
    e.error.None? || e.error.value == 0
  }

  /** The ride actions after which the cached stall list may be out of date. */
  predicate ChangesStalls(e: GameActionEvent)
  {
    (e.action == "ridedemolish" || e.action == "ridesetstatus") && !e.isClientOnly && Succeeded(e)
  }

  /** A successful demolition run by the server marks the cache stale; a failed or client-only one does not. */
  lemma ChangesStallsCases(name: string, clientOnly: bool, code: int)
    ensures ChangesStalls(GameActionEvent("ridedemolish", false, None))
    ensures ChangesStalls(GameActionEvent("ridesetstatus", false, Some(0)))
    ensures code != 0 ==> !ChangesStalls(GameActionEvent(name, clientOnly, Some(code)))
    ensures !ChangesStalls(GameActionEvent(name, true, None))
    ensures name != "ridedemolish" && name != "ridesetstatus" ==> !ChangesStalls(GameActionEvent(name, clientOnly, None))
  {
  }

  /**
   * onActionExecuted: marks the scheduler's stall list stale exactly for
   * ChangesStalls events; nothing else about the scheduler changes.
   */
  method OnActionExecuted(scheduler: Stalls.StallPingScheduler, e: GameActionEvent)
    requires scheduler.Valid()
    modifies scheduler
    ensures scheduler.Valid()
    ensures scheduler.stallsFresh == (old(scheduler.stallsFresh) && !ChangesStalls(e))
    ensures scheduler.stalls == old(scheduler.stalls) && scheduler.customers == old(scheduler.customers)
    ensures scheduler.currentTick == old(scheduler.currentTick) && scheduler.activePing == old(scheduler.activePing)
    ensures scheduler.cheats == old(scheduler.cheats)
  {
    if (e.action == "ridedemolish" || e.action == "ridesetstatus") && !e.isClientOnly && !(e.error.Some? && e.error.value != 0) {
      scheduler.UpdateStalls();
    }
  }

  /**
   * cleanup: deletes exactly the listed ids; an empty list returns before
   * touching the db.
   */
  method Cleanup(db: GuestDb, rubbish: seq<EntityId>)
    modifies db
    ensures db.prefs == old(db.prefs) - (set x | x in rubbish)
    ensures forall k :: k in db.prefs <==> k in old(db.prefs) && k !in rubbish
    ensures forall k :: k in db.prefs ==> db.prefs[k] == old(db.prefs)[k]
    ensures |rubbish| < 1 ==> db.prefs == old(db.prefs)
  {
    if |rubbish| < 1 {
      return;
    }
    Guests.DeleteIds(db, rubbish);
  }

  /** A research state; main's food list does not depend on it. */
  predicate NothingResearched(index: int)
  {
    false
  }

  /**
   * main's own getAvailableFood: every food-stall object of the scenario in
   * object order, whatever has been researched (the list util.ts builds for
   * "scenario").
   */
  method GetAvailableFood(objs: seq<RideObject>) returns (foods: seq<Food>)
    ensures foods == Util.AvailableFood(objs, Util.Scenario, NothingResearched)
  {
    foods := [];
    var i := 0;
    while i < |objs|
      invariant 0 <= i <= |objs|
      invariant foods == Util.AvailableFood(objs[..i], Util.Scenario, NothingResearched)
    {
      Util.AvailableFoodSnoc(objs, Util.Scenario, NothingResearched, i);
      foods := ListStall(foods, objs[i]);
      i := i + 1;
    }
    assert objs[..i] == objs;
  }

  /** The body of main's loop for one object: its item is listed when it is a food stall's. */
  method ListStall(foods: seq<Food>, o: RideObject) returns (foods': seq<Food>)
    ensures foods' == foods + Listed(Util.FoodOf(o, Util.Scenario, NothingResearched))
  {
    foods' := foods;
    if o.shopItem != 255 && Util.ArrayIncludes(ShopItemFoodEnums, o.shopItem) {
      Util.EnumIsKey(o.shopItem);
      foods' := foods + [ShopItemFoodEnumMap[o.shopItem]];
    }
  }

  /** The scenario list does not depend on the research state. */
  lemma ScenarioIgnoresResearch(objs: seq<RideObject>, r1: int -> bool, r2: int -> bool)
    ensures Util.AvailableFood(objs, Util.Scenario, r1) == Util.AvailableFood(objs, Util.Scenario, r2)
  {
    FilterMapAgree(objs, o => Util.FoodOf(o, Util.Scenario, r1), o => Util.FoodOf(o, Util.Scenario, r2));
  }

  /** main's list holds exactly the items of the food-stall objects. */
  lemma ScenarioFoodIsSold(objs: seq<RideObject>, researched: int -> bool)
    ensures forall f :: f in Util.AvailableFood(objs, Util.Scenario, researched) <==>
              exists i :: 0 <= i < |objs| && objs[i].shopItem != 255 &&
                          Util.ArrayIncludes(ShopItemFoodEnums, objs[i].shopItem) &&
                          objs[i].shopItem in ShopItemFoodEnumMap && ShopItemFoodEnumMap[objs[i].shopItem] == f
  {
    Util.AvailableFoodIsSold(objs, Util.Scenario, researched);
  }

  /**
   * The db main builds at startup: entity i of the guest list, when it has an
   * id, is given the food at index pick(i).
   */
  function StartupPrefs(guests: seq<Guest>, foods: seq<Food>, pick: nat -> nat): (db: map<EntityId, Food>)
    requires forall i :: 0 <= i < |guests| && guests[i].id.Some? ==> pick(i) < |foods|
    ensures forall k :: k in db <==> exists i :: 0 <= i < |guests| && guests[i].id == Some(k)
    ensures forall k :: k in db ==> db[k] in foods
    decreases |guests|
  {
    if guests == [] then map[]
    else
      var n := |guests| - 1;
      var init := StartupPrefs(guests[..n], foods, pick);
      assert forall i :: 0 <= i < n ==> guests[..n][i] == guests[i];
      if guests[n].id.Some? then init[guests[n].id.value := Util.CreateFavouriteFood(foods, pick(n))] else init
  }

  /**
   * The startup loop of main: a fresh db with one entry per listed guest
   * that has an id.
   */
  method PopulateDb(guests: seq<Guest>, foods: seq<Food>, pick: nat -> nat) returns (db: GuestDb)
    requires forall i :: 0 <= i < |guests| && guests[i].id.Some? ==> pick(i) < |foods|
    ensures fresh(db)
    ensures db.prefs == StartupPrefs(guests, foods, pick)
  {
    db := new GuestDb(map[]);
    var i := 0;
    while i < |guests|
      invariant 0 <= i <= |guests|
      invariant db.prefs == StartupPrefs(guests[..i], foods, pick)
    {
      assert guests[..i + 1][..i] == guests[..i];
      var guest := guests[i];
      if guest.id != None {
        var favourite := Util.CreateFavouriteFood(foods, pick(i));
        db.prefs := db.prefs[guest.id.value := favourite];
      }
      i := i + 1;
    }
    assert guests[..i] == guests;
  }

  /**
   * The plugin's state after main in a park: the db, main's food list and
   * the scheduler; main does nothing outside normal mode.
   */
  method Startup(normalMode: bool, objs: seq<RideObject>, guests: seq<Guest>, world: HostMap, pick: nat -> nat)
    returns (db: GuestDb?, foodAvailable: seq<Food>, scheduler: Stalls.StallPingScheduler?)
    requires forall i :: 0 <= i < |guests| && guests[i].id.Some? ==>
               pick(i) < |Util.AvailableFood(objs, Util.Scenario, NothingResearched)|
    ensures !normalMode ==> db == null && scheduler == null && foodAvailable == []
    ensures normalMode ==> db != null && fresh(db) && scheduler != null && fresh(scheduler)
    ensures normalMode ==> foodAvailable == Util.AvailableFood(objs, Util.Scenario, NothingResearched)
    ensures normalMode ==> db.prefs == StartupPrefs(guests, foodAvailable, pick)
    ensures normalMode ==> scheduler.Valid() && scheduler.pingInterval == PingInterval && !scheduler.activePing
    ensures normalMode ==> scheduler.stalls == Stalls.StallsOf(world.rides, world) && scheduler.stallsFresh
    ensures normalMode ==> scheduler.currentTick == 0 && scheduler.customers == map[] && scheduler.cheats == NoCheats
  {
    db, foodAvailable, scheduler := null, [], null;
    if !normalMode {
      return;
    }
    foodAvailable := GetAvailableFood(objs);
    db := PopulateDb(guests, foodAvailable, pick);
    scheduler := new Stalls.StallPingScheduler(PingInterval, world);
  }

  /**
   * The favourite onPeepSpawn leaves for a guest: the voucher's item when the
   * entity's only item is a free food/drink voucher, otherwise the drawn food.
   */
  function SpawnFavourite(foods: seq<Food>, draw: nat, entity: Guest?): (f: Food)
    requires draw < |foods|
    ensures f in foods || (entity != null && entity.items.Some? && entity.items.value == [FoodDrinkVoucher(f)])
    ensures entity != null && entity.items.Some? && |entity.items.value| == 1 && entity.items.value[0].FoodDrinkVoucher? ==>
              f == entity.items.value[0].item
    ensures entity == null || entity.items.None? || |entity.items.value| != 1 ==> f == foods[draw]
  {
    if entity != null && entity.items.Some? && |entity.items.value| == 1 && entity.items.value[0].FoodDrinkVoucher? then
      assert entity.items.value == [FoodDrinkVoucher(entity.items.value[0].item)];
      entity.items.value[0].item
    else
      Util.CreateFavouriteFood(foods, draw)
  }

  /**
   * onPeepSpawn, with the delayed voucher check run straight after the
   * assignment. The validity guard tests the function itself and so never
   * returns. A missing entity makes the log line after the assignment
   * fail, before the check is scheduled; a missing inventory makes the
   * delayed check fail before it writes. Either way the drawn food stays.
   */
  method OnPeepSpawn(db: GuestDb, foodAvailable: seq<Food>, id: EntityId, world: HostMap, draw: nat)
    requires draw < |foodAvailable|
    modifies db
    ensures db.prefs == old(db.prefs)[id := SpawnFavourite(foodAvailable, draw, world.entity(id))]
  {
    var guestEntity := world.entity(id);
    db.prefs := db.prefs[id := Util.CreateFavouriteFood(foodAvailable, draw)];
    if guestEntity == null || guestEntity.items.None? {
      return;
    }
    if |guestEntity.items.value| != 1 {
      return;
    }
    var potentialVoucher := guestEntity.items.value[0];
    if potentialVoucher.FoodDrinkVoucher? {
      db.prefs := db.prefs[id := potentialVoucher.item];
    }
  }

  /** A spawn only ever writes the spawned guest's entry. */
  lemma SpawnWritesOneEntry(db: map<EntityId, Food>, foods: seq<Food>, id: EntityId, entity: Guest?, draw: nat)
    requires draw < |foods|
    ensures var db' := db[id := SpawnFavourite(foods, draw, entity)];
            db'.Keys == db.Keys + {id} && forall k :: k in db && k != id ==> db'[k] == db[k]
  {
  }
}
