/**
 * The guest-database routines of guests.ts: the scheduled cleanup, the
 * first-item voucher reader, and the filling of missing favourites. The
 * helpers this file shares with util.ts are modelled in module Util.
 */
module Guests {
  import opened Wrappers
  import opened Globals
  import opened Host
  import Util

  /** The entries of db whose ids still name valid guests. */
  function ValidEntries(db: map<EntityId, Food>, world: HostMap): map<EntityId, Food>
  {
    map k | k in db && Util.IsValidGuest(world.entity(k)) :: db[k]
  }

  /**
   * scheduledCleanup: exactly the entries for ids that are no longer valid
   * guests are deleted; the others keep their values.
   */
  method ScheduledCleanup(db: GuestDb, world: HostMap)
    modifies db
    ensures db.prefs == ValidEntries(old(db.prefs), world)
  {
    var ids := AscendingKeys(db.prefs.Keys);
    var rubbish := CollectRubbish(ids, world);
    RemovingRubbishKeepsValid(db.prefs, ids, rubbish, world);
    if |rubbish| < 1 {
      return;
    }
    DeleteIds(db, rubbish);
  }

  /** The scanning loop of scheduledCleanup: the invalid ids, in key order. */
  method CollectRubbish(ids: seq<EntityId>, world: HostMap) returns (rubbish: seq<EntityId>)
    ensures rubbish == Util.InvalidIds(ids, world)
  {
    rubbish := [];
    var i := 0;
    while i < |ids|
      invariant 0 <= i <= |ids|
      invariant rubbish == Util.InvalidIds(ids[..i], world)
    {
      InvalidIdsSnoc(ids[..i], ids[i], world);
      assert ids[..i + 1] == ids[..i] + [ids[i]];
      if !Util.IsValidGuest(world.entity(ids[i])) {
        rubbish := rubbish + [ids[i]];
      }
      i := i + 1;
    }
    assert ids[..i] == ids;
  }

  /** Deleting the invalid ids of all keys leaves exactly the valid entries. */
  lemma RemovingRubbishKeepsValid(db: map<EntityId, Food>, ids: seq<EntityId>, rubbish: seq<EntityId>, world: HostMap)
    requires forall x :: x in ids <==> x in db
    requires rubbish == Util.InvalidIds(ids, world)
    ensures db - (set x | x in rubbish) == ValidEntries(db, world)
    ensures rubbish == [] ==> db == ValidEntries(db, world)
  {
    assert (db - (set x | x in rubbish)).Keys == ValidEntries(db, world).Keys;
  }

  /** The deletion loop of scheduledCleanup. */
  method DeleteIds(db: GuestDb, rubbish: seq<EntityId>)
    modifies db
    ensures db.prefs == old(db.prefs) - (set x | x in rubbish)
  {
    var j := 0;
    while j < |rubbish|
      invariant 0 <= j <= |rubbish|
      invariant db.prefs == old(db.prefs) - (set x | x in rubbish[..j])
    {
      assert rubbish[..j + 1] == rubbish[..j] + [rubbish[j]];
      db.prefs := db.prefs - {rubbish[j]};
      j := j + 1;
    }
    assert rubbish[..j] == rubbish;
  }

  /** Extending the scanned ids by one appends it to the rubbish exactly when it is invalid. */
  lemma InvalidIdsSnoc(ids: seq<EntityId>, x: EntityId, world: HostMap)
    ensures Util.InvalidIds(ids + [x], world) ==
            Util.InvalidIds(ids, world) + (if Util.IsValidGuest(world.entity(x)) then [] else [x])
  {
    if ids != [] {
      assert (ids + [x])[1..] == ids[1..] + [x];
      InvalidIdsSnoc(ids[1..], x, world);
    }
  }

  /** When every id is valid the cleanup changes nothing. */
  lemma CleanupKeepsValidDb(db: map<EntityId, Food>, world: HostMap)
    requires forall k :: k in db ==> Util.IsValidGuest(world.entity(k))
    ensures ValidEntries(db, world) == db
  {
  }

  /**
   * guests.ts checkGuestForVoucher: the free food or drink voucher's item if
   * it is the first inventory item, however many items there are.
   */
  function CheckGuestForVoucher(g: Guest): (r: Option<Food>)
    requires g.items.Some?
    ensures r.Some? <==> |g.items.value| >= 1 && g.items.value[0].FoodDrinkVoucher?
    ensures r.Some? ==> r.value == g.items.value[0].item
  {
    if |g.items.value| == 0 then None
    else
      match g.items.value[0]
      case FoodDrinkVoucher(item) => Some(item)
      case _ => None
  }

  /** The two voucher readers agree on a valid guest carrying exactly one item ... */
  lemma VoucherReadersAgreeOnOneItem(g: Guest)
    requires Util.IsValidGuest(g) && |g.items.value| == 1
    ensures CheckGuestForVoucher(g).Some? <==> Util.CheckGuestForVoucher(g).VoucherFor?
    ensures CheckGuestForVoucher(g).Some? ==> CheckGuestForVoucher(g).value == Util.CheckGuestForVoucher(g).food
  {
  }

  /** ... and differ on a longer inventory that starts with a voucher, which only this reader sees. */
  lemma VoucherReadersDifferOnLongInventory(g: Guest)
    requires Util.IsValidGuest(g) && |g.items.value| > 1 && g.items.value[0].FoodDrinkVoucher?
    ensures CheckGuestForVoucher(g) == Some(g.items.value[0].item)
    ensures Util.CheckGuestForVoucher(g) == Util.Undefined
  {
  }

  /** The favourite given to a guest without an entry: the voucher's item, else the drawn food. */
  function Choice(g: Guest, foods: seq<Food>, draw: nat): (f: Food)
    requires g.items.Some? && (CheckGuestForVoucher(g).None? ==> draw < |foods|)
    ensures CheckGuestForVoucher(g).Some? ==> f == CheckGuestForVoucher(g).value
    ensures CheckGuestForVoucher(g).None? ==> f == foods[draw]
  {
    match CheckGuestForVoucher(g)
    case Some(v) => v
    case None => Util.CreateFavouriteFood(foods, draw)
  }

  /**
   * What addMissingFoodPrefs asks of the guests it is given: every guest has
   * an id, and a guest missing from db0 has an inventory and, when it holds
   * no voucher, a draw inside the food list.
   */
  predicate Fillable(db0: map<EntityId, Food>, guests: seq<Guest>, foods: seq<Food>, pick: nat -> nat)
  {
    forall i :: 0 <= i < |guests| ==> Ready(db0, guests[i], foods, pick(i))
  }

  /** One guest as addMissingFoodPrefs needs it, given its draw. */
  predicate Ready(db0: map<EntityId, Food>, g: Guest, foods: seq<Food>, draw: nat)
  {
    g.id.Some? && (g.id.value !in db0 ==> g.items.Some? && (CheckGuestForVoucher(g).None? ==> draw < |foods|))
  }

  /**
   * The db after addMissingFoodPrefs has seen the first n guests in order,
   * starting from db0; the i-th guest's random draw is pick(i). Membership
   * is checked against db0's keys, the snapshot taken before the loop.
   */
  function Fill(db0: map<EntityId, Food>, guests: seq<Guest>, n: nat, foods: seq<Food>, pick: nat -> nat): map<EntityId, Food>
    requires n <= |guests| && Fillable(db0, guests, foods, pick)
  {
    if n == 0 then db0
    else
      var db := Fill(db0, guests, n - 1, foods, pick);
      var g := guests[n - 1];
      if g.id.value in db0 then db else db[g.id.value := Choice(g, foods, pick(n - 1))]
  }

  /** addMissingFoodPrefs never changes an entry that existed before. */
  lemma {:induction false} FillKeepsExisting(db0: map<EntityId, Food>, guests: seq<Guest>, n: nat, foods: seq<Food>, pick: nat -> nat)
    requires n <= |guests| && Fillable(db0, guests, foods, pick)
    ensures forall k :: k in db0 ==> k in Fill(db0, guests, n, foods, pick) && Fill(db0, guests, n, foods, pick)[k] == db0[k]
  {
    if n > 0 {
      FillKeepsExisting(db0, guests, n - 1, foods, pick);
    }
  }

  /** Whether one of the first n guests has the id k. */
  predicate Seen(guests: seq<Guest>, n: nat, k: EntityId)
    requires n <= |guests|
  {
    exists i :: 0 <= i < n && guests[i].id == Some(k)
  }

  /** Afterwards the db holds exactly the old ids and the ids of the guests seen. */
  lemma {:induction false} FillKeys(db0: map<EntityId, Food>, guests: seq<Guest>, n: nat, foods: seq<Food>, pick: nat -> nat)
    requires n <= |guests| && Fillable(db0, guests, foods, pick)
    ensures forall k :: k in Fill(db0, guests, n, foods, pick) <==> k in db0 || Seen(guests, n, k)
  {
    if n > 0 {
      FillKeys(db0, guests, n - 1, foods, pick);
      FillKeysStep(db0, guests, n, foods, pick);
      SeenSnoc(guests, n);
    }
  }

  /** Seeing one more guest adds its id to the keys and nothing else. */
  lemma FillKeysStep(db0: map<EntityId, Food>, guests: seq<Guest>, n: nat, foods: seq<Food>, pick: nat -> nat)
    requires 0 < n <= |guests| && Fillable(db0, guests, foods, pick)
    ensures guests[n - 1].id.Some?
    ensures forall k :: k in Fill(db0, guests, n, foods, pick) <==>
              k in Fill(db0, guests, n - 1, foods, pick) || k == guests[n - 1].id.value
  {
    FillKeepsExisting(db0, guests, n - 1, foods, pick);
  }

  /** A guest among the first n is among the first n - 1 or is guest n - 1. */
  lemma SeenSnoc(guests: seq<Guest>, n: nat)
    requires 0 < n <= |guests|
    ensures forall k: EntityId :: Seen(guests, n, k) <==> Seen(guests, n - 1, k) || guests[n - 1].id == Some(k)
  {
  }

  /**
   * A guest absent beforehand ends with the choice made at its last listing:
   * a guest listed twice is assigned twice, and the later draw stays.
   */
  lemma {:induction false} FillLastListingWins(db0: map<EntityId, Food>, guests: seq<Guest>, n: nat, foods: seq<Food>,
                                              pick: nat -> nat, j: nat)
    requires n <= |guests| && Fillable(db0, guests, foods, pick)
    requires j < n && guests[j].id.value !in db0
    requires forall i :: j < i < n ==> guests[i].id != guests[j].id
    ensures guests[j].id.value in Fill(db0, guests, n, foods, pick)
    ensures Fill(db0, guests, n, foods, pick)[guests[j].id.value] == Choice(guests[j], foods, pick(j))
  {
    if j < n - 1 {
      FillLastListingWins(db0, guests, n - 1, foods, pick, j);
    }
  }

  /** A free food or drink voucher at the head of the inventory decides a new guest's favourite. */
  lemma VoucherTakesPrecedence(db0: map<EntityId, Food>, guests: seq<Guest>, foods: seq<Food>,
                               pick: nat -> nat, j: nat)
    requires Fillable(db0, guests, foods, pick)
    requires j < |guests| && guests[j].id.value !in db0
    requires forall i :: j < i < |guests| ==> guests[i].id != guests[j].id
    requires guests[j].items.value != [] && guests[j].items.value[0].FoodDrinkVoucher?
    ensures guests[j].id.value in Fill(db0, guests, |guests|, foods, pick)
    ensures Fill(db0, guests, |guests|, foods, pick)[guests[j].id.value] == guests[j].items.value[0].item
  {
    FillLastListingWins(db0, guests, |guests|, foods, pick, j);
  }

  /**
   * addMissingFoodPrefs: gives every listed guest without an entry a
   * favourite, from its voucher or drawn from the scenario's foods.
   */
  method AddMissingFoodPrefs(db: GuestDb, guests: seq<Guest>, objs: seq<RideObject>,
                             researched: int -> bool, pick: nat -> nat)
    requires Fillable(db.prefs, guests, Util.AvailableFood(objs, Util.Scenario, researched), pick)
    modifies db
    ensures db.prefs == Fill(old(db.prefs), guests, |guests|, Util.AvailableFood(objs, Util.Scenario, researched), pick)
  {
    var foodAvailable := Util.GetAvailableFood(objs, Util.Scenario, researched);
    FillLoop(db, guests, foodAvailable, pick);
  }

  /** The loop of addMissingFoodPrefs over the guests, given the scenario's foods. */
  method FillLoop(db: GuestDb, guests: seq<Guest>, foods: seq<Food>, pick: nat -> nat)
    requires Fillable(db.prefs, guests, foods, pick)
    modifies db
    ensures db.prefs == Fill(old(db.prefs), guests, |guests|, foods, pick)
  {
    var keys := AscendingKeys(db.prefs.Keys);
    ghost var db0 := db.prefs;
    var i := 0;
    while i < |guests|
      invariant 0 <= i <= |guests|
      invariant db.prefs == Fill(db0, guests, i, foods, pick)
    {
      FillOne(db, guests[i], keys, foods, pick(i), db0);
      i := i + 1;
    }
  }

  /** One pass of the loop of addMissingFoodPrefs: skip a guest in the key snapshot, else store its choice. */
  method FillOne(db: GuestDb, guest: Guest, keys: seq<EntityId>, foods: seq<Food>, draw: nat, ghost db0: map<EntityId, Food>)
    requires forall k :: k in keys <==> k in db0
    requires Ready(db0, guest, foods, draw)
    modifies db
    ensures db.prefs == if guest.id.value in db0 then old(db.prefs)
                        else old(db.prefs)[guest.id.value := Choice(guest, foods, draw)]
  {
    if Util.ArrayIncludes(keys, guest.id.value) {
      return;
    }
    var voucher := CheckGuestForVoucher(guest);
    var favourite := if voucher.Some? then voucher.value else Util.CreateFavouriteFood(foods, draw);
    db.prefs := db.prefs[guest.id.value := favourite];
  }
}
