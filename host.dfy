/**
 * What the plugin sees of the host game: guests (mutable heap objects), rides,
 * tile elements, ride objects, and the map queries, which enter the model as
 * plain functions in a HostMap value.
 */
module Host {
  import opened Wrappers
  import opened Globals

  /** Entity ids are non-negative integers, so object keys enumerate in ascending order. */
  type EntityId = nat

  datatype CoordsXY = CoordsXY(x: int, y: int)
  datatype CoordsXYZ = CoordsXYZ(x: int, y: int, z: int)
  datatype CoordsXYZD = CoordsXYZD(x: int, y: int, z: int, direction: int)

  /** Voucher kinds other than the free food or drink voucher. */
  datatype VoucherType = EntryFree | RideFree | EntryHalfPrice

  /** An item in a guest's inventory. */
  datatype Item =
    | FoodItem(food: Food)              // a tracked food or drink item
    | FoodDrinkVoucher(item: Food)      // type "voucher", voucherType "food_drink_free"
    | OtherVoucher(voucherType: VoucherType)
    | OtherItem                         // balloons, maps, empty cups, ...

  /**
   * A map entity as the plugin handles it. A non-guest entity has no inventory
   * (items == None). The plugin writes only hunger, thirst, direction and
   * destination; the other properties are fixed for the model's purposes.
   */
  class Guest {
    const id: Option<EntityId>
    const name: string
    const items: Option<seq<Item>>
    const happiness: int
    const leavingPark: bool
    var hunger: int
    var thirst: int
    var direction: int
    var destination: CoordsXY

    constructor (id: Option<EntityId>, name: string, items: Option<seq<Item>>,
                 happiness: int, leavingPark: bool, hunger: int, thirst: int,
                 direction: int, destination: CoordsXY)
      ensures this.id == id && this.name == name && this.items == items
      ensures this.happiness == happiness && this.leavingPark == leavingPark
      ensures this.hunger == hunger && this.thirst == thirst
      ensures this.direction == direction && this.destination == destination
    {
      this.id := id;
      this.name := name;
      this.items := items;
      this.happiness := happiness;
      this.leavingPark := leavingPark;
      this.hunger := hunger;
      this.thirst := thirst;
      this.direction := direction;
      this.destination := destination;
    }
  }

  datatype RideClassification = AttractionRide | StallRide | FacilityRide
  datatype RideStatus = Closed | Open | Testing | Simulating

  /** A ride: its object's shop item and the start of its first station. */
  datatype Ride = Ride(
    id: int,
    classification: RideClassification,
    status: RideStatus,
    shopItem: int,
    stationStart: CoordsXYZ)

  datatype TileElement = Track(ride: int, direction: int) | OtherElement

  /**
   * The host map queries:
   * rides = map.rides; tileAt(x, y) = map.getTile(x, y).elements;
   * guestsAt(x, y) = map.getAllEntitiesOnTile("guest", map.getTile(x, y));
   * entity(id) = map.getEntity(id), null for a removed entity.
   */
  datatype HostMap = HostMap(
    rides: seq<Ride>,
    tileAt: (int, int) -> seq<TileElement>,
    guestsAt: (int, int) -> seq<Guest?>,
    entity: EntityId -> Guest?)

  /** An installed ride object: its index and its shop item (255 for none). */
  datatype RideObject = RideObject(index: int, shopItem: int)

  predicate Increasing(s: seq<nat>)
  {
    forall i, j :: 0 <= i < j < |s| ==> s[i] < s[j]
  }

  lemma LeastExists(s: set<nat>)
    requires s != {}
    ensures exists m :: m in s && forall x :: x in s ==> m <= x
  {
    var m := MinOf(s);
  }

  /** A least element of a non-empty set, picked by removing an element at a time. */
  ghost function MinOf(s: set<nat>): (m: nat)
    requires s != {}
    ensures m in s && forall x :: x in s ==> m <= x
    decreases |s|
  {
    var y :| y in s;
    var rest := s - {y};
    if rest == {} then
      AllBelowOrRest(s, y, rest, y);
      y
    else
      var m := MinOf(rest);
      var least := if y < m then y else m;
      AllBelowOrRest(s, y, rest, least);
      least
  }

  lemma AllBelowOrRest(s: set<nat>, y: nat, rest: set<nat>, least: nat)
    requires rest == s - {y} && least <= y && forall x :: x in rest ==> least <= x
    ensures forall x :: x in s ==> least <= x
  {
    forall x | x in s ensures least <= x {
      if x != y { assert x in rest; }
    }
  }

  function Least(s: set<nat>): (m: nat)
    requires s != {}
    ensures m in s && forall x :: x in s ==> m <= x
  {
    LeastExists(s);
    var m :| m in s && forall x :: x in s ==> m <= x;
    m
  }

  /**
   * The order in which Object.keys / Object.getOwnPropertyNames list the
   * integer keys of an object: ascending.
   */
  function AscendingKeys(s: set<nat>): (r: seq<nat>)
    ensures Increasing(r)
    ensures forall x :: x in r <==> x in s
    ensures |r| == |s|
    decreases |s|
  {
    if s == {} then []
    else
      var m := Least(s);
      var rest := AscendingKeys(s - {m});
      assert forall x :: x in rest ==> m < x;
      [m] + rest
  }

  /** The one-element list of a present value, the empty list of an absent one. */
  function Listed<U>(o: Option<U>): seq<U>
  {
    match o
    case Some(y) => [y]
    case None => []
  }

  /**
   * The values f gives the elements of xs, in order, skipping the elements
   * it maps to None: the shape of every "loop, test, push" of the plugin.
   */
  function FilterMap<T, U>(xs: seq<T>, f: T -> Option<U>): seq<U>
  {
    if xs == [] then []
    else
      var n := |xs| - 1;
      FilterMap(xs[..n], f) + Listed(f(xs[n]))
  }

  /** One more element extends the list by its value, if it has one. */
  lemma FilterMapSnoc<T, U>(xs: seq<T>, f: T -> Option<U>, i: nat)
    requires i < |xs|
    ensures FilterMap(xs[..i + 1], f) == FilterMap(xs[..i], f) + Listed(f(xs[i]))
  {
    assert xs[..i + 1][..i] == xs[..i];
  }

  /** A value is listed iff some element is mapped to it. */
  lemma {:induction false} FilterMapKeepsExactly<T, U>(xs: seq<T>, f: T -> Option<U>)
    ensures forall y :: y in FilterMap(xs, f) <==> exists i :: 0 <= i < |xs| && f(xs[i]) == Some(y)
  {
    if xs != [] {
      var n := |xs| - 1;
      var init := xs[..n];
      FilterMapKeepsExactly(init, f);
      forall y ensures y in FilterMap(xs, f) <==> exists i :: 0 <= i < |xs| && f(xs[i]) == Some(y) {
        if y in FilterMap(init, f) {
          var i :| 0 <= i < |init| && f(init[i]) == Some(y);
          assert xs[i] == init[i];
        }
        if exists i :: 0 <= i < |xs| && f(xs[i]) == Some(y) {
          var i :| 0 <= i < |xs| && f(xs[i]) == Some(y);
          if i < n {
            assert init[i] == xs[i];
          }
        }
      }
    }
  }

  /** The list of a concatenation is the concatenation of the lists. */
  lemma {:induction false} FilterMapAppend<T, U>(a: seq<T>, b: seq<T>, f: T -> Option<U>)
    ensures FilterMap(a + b, f) == FilterMap(a, f) + FilterMap(b, f)
    decreases |b|
  {
    if b == [] {
      assert a + b == a;
    } else {
      var n := |b| - 1;
      assert (a + b)[..|a + b| - 1] == a + b[..n];
      assert (a + b)[|a + b| - 1] == b[n];
      FilterMapAppend(a, b[..n], f);
    }
  }

  /** Two tests that agree on every element give the same list. */
  lemma {:induction false} FilterMapAgree<T, U>(xs: seq<T>, f: T -> Option<U>, g: T -> Option<U>)
    requires forall x :: f(x) == g(x)
    ensures FilterMap(xs, f) == FilterMap(xs, g)
  {
    if xs != [] {
      FilterMapAgree(xs[..|xs| - 1], f, g);
    }
  }
}
