/**
 * The data scan behind the guest list of window.ts: which db ids become list
 * rows, what each row shows, the row-to-guest index and the ids handed to
 * the cleanup callback.
 */
module Window {
  import opened Wrappers
  import opened Globals
  import opened Host
  import Util
  import Guests
  import PluginMain

  /** One list row: the guest's name and its favourite as shown. */
  datatype Row = Row(name: string, favourite: string)

  /** The text shown for a favourite that is not in the researched list. */
  const Unknown: string := "unknown"

  lemma UnknownIsNoFood()
    ensures FromName(Unknown) == None
  {
  }

  /**
   * The row for a valid guest: its name, and its db entry's name when that
   * entry exists and is researched, "unknown" otherwise.
   */
  function RowOf(db: map<EntityId, Food>, g: Guest, foods: seq<Food>): (r: Row)
    requires g.id.Some?
    ensures r.name == g.name
  {
    var id := g.id.value;
    if id in db && Util.ArrayIncludes(foods, db[id]) then Row(g.name, Name(db[id])) else Row(g.name, Unknown)
  }

  /** The favourite column names an item exactly when the db holds that item for the guest and it is researched. */
  lemma RowOfFavourite(db: map<EntityId, Food>, g: Guest, foods: seq<Food>)
    requires g.id.Some?
    ensures forall f :: FromName(RowOf(db, g, foods).favourite) == Some(f) <==>
              g.id.value in db && db[g.id.value] == f && f in foods
    ensures FromName(RowOf(db, g, foods).favourite) == None <==> RowOf(db, g, foods).favourite == Unknown
  {
    var id := g.id.value;
    UnknownIsNoFood();
    if id in db && Util.ArrayIncludes(foods, db[id]) {
      NameRoundTrip(db[id]);
    }
  }

  /** The ids of a list, in order, that name valid guests. */
  function ValidIds(ids: seq<EntityId>, world: HostMap): (r: seq<EntityId>)
    ensures forall x :: x in r <==> x in ids && Util.IsValidGuest(world.entity(x))
    ensures forall x :: x in r ==> world.entity(x) != null && world.entity(x).id.Some?
  {
    if ids == [] then []
    else
      var rest := ValidIds(ids[1..], world);
      if Util.IsValidGuest(world.entity(ids[0])) then [ids[0]] + rest else rest
  }

  /** An id appended to the list is appended to its valid ids when it is valid. */
  lemma {:induction false} ValidIdsSnoc(ids: seq<EntityId>, x: EntityId, world: HostMap)
    ensures ValidIds(ids + [x], world) == ValidIds(ids, world) + (if Util.IsValidGuest(world.entity(x)) then [x] else [])
  {
    if ids != [] {
      assert (ids + [x])[1..] == ids[1..] + [x];
      ValidIdsSnoc(ids[1..], x, world);
    }
  }

  /** Each id of a list is either valid or rubbish, so the two lists together are as long as it. */
  lemma {:induction false} ValidIdsCount(ids: seq<EntityId>, world: HostMap)
    ensures |ValidIds(ids, world)| + |Util.InvalidIds(ids, world)| == |ids|
    decreases |ids|
  {
    if ids != [] {
      ValidIdsCount(ids[1..], world);
    }
  }

  /** The rows for a list of ids of guests with ids, one each, in order. */
  function Rows(db: map<EntityId, Food>, valid: seq<EntityId>, foods: seq<Food>, world: HostMap): (rows: seq<Row>)
    requires forall x :: x in valid ==> world.entity(x) != null && world.entity(x).id.Some?
    ensures |rows| == |valid|
    ensures forall i :: 0 <= i < |valid| ==> rows[i].name == world.entity(valid[i]).name
  {
    seq(|valid|, i requires 0 <= i < |valid| => RowOf(db, world.entity(valid[i]), foods))
  }

  /** The index from row number to the id of that row's guest. */
  function Index(valid: seq<EntityId>, world: HostMap): (index: map<nat, EntityId>)
    requires forall x :: x in valid ==> world.entity(x) != null && world.entity(x).id.Some?
    ensures forall i: nat :: i in index <==> i < |valid|
    ensures forall i :: 0 <= i < |valid| ==> index[i] == world.entity(valid[i]).id.value
  {
    map i: nat | i < |valid| :: world.entity(valid[i]).id.value
  }

  /**
   * The index of the list view has a key for each row and no other, and
   * sends row i to the id of a valid scanned guest whose row it is.
   */
  lemma IndexLocatesRows(db: map<EntityId, Food>, ids: seq<EntityId>, foods: seq<Food>, world: HostMap)
    ensures forall i: nat :: i in Index(ValidIds(ids, world), world) <==> i < |Rows(db, ValidIds(ids, world), foods, world)|
    ensures forall i: nat :: i in Index(ValidIds(ids, world), world) ==>
              exists x :: x in ids && Util.IsValidGuest(world.entity(x)) &&
                world.entity(x).id == Some(Index(ValidIds(ids, world), world)[i]) &&
                Rows(db, ValidIds(ids, world), foods, world)[i] == RowOf(db, world.entity(x), foods)
  {
    var valid := ValidIds(ids, world);
    forall i: nat | i in Index(valid, world)
      ensures exists x :: x in ids && Util.IsValidGuest(world.entity(x)) &&
                world.entity(x).id == Some(Index(valid, world)[i]) &&
                Rows(db, valid, foods, world)[i] == RowOf(db, world.entity(x), foods)
    {
      var x := valid[i];
      assert x in valid;
      assert Rows(db, valid, foods, world)[i] == RowOf(db, world.entity(x), foods);
    }
  }



  /**
   * Every id of the db is listed exactly once: a valid one as a row, an
   * invalid one as rubbish.
   */
  lemma ListPartitionsIds(db: map<EntityId, Food>, world: HostMap)
    ensures var ids := AscendingKeys(db.Keys);
            |ValidIds(ids, world)| + |Util.InvalidIds(ids, world)| == |db| &&
            (forall x :: x in db ==> (x in ValidIds(ids, world) <==> x !in Util.InvalidIds(ids, world))) &&
            (forall x :: x in ValidIds(ids, world) || x in Util.InvalidIds(ids, world) ==> x in db)
  {
    ValidIdsCount(AscendingKeys(db.Keys), world);
  }

  /** The scanning loop of createListViewOfGuests over the ids, in db order. */
  method ScanIds(db: map<EntityId, Food>, ids: seq<EntityId>, foods: seq<Food>, world: HostMap)
    returns (rows: seq<Row>, index: map<nat, EntityId>, rubbish: seq<EntityId>)
    ensures rows == Rows(db, ValidIds(ids, world), foods, world)
    ensures index == Index(ValidIds(ids, world), world)
    ensures rubbish == Util.InvalidIds(ids, world)
  {
    rows, index, rubbish := [], map[], [];
    ghost var valid: seq<EntityId> := [];
    var i := 0;
    while i < |ids|
      invariant 0 <= i <= |ids|
      invariant valid == ValidIds(ids[..i], world)
      invariant rows == Rows(db, valid, foods, world)
      invariant index == Index(valid, world)
      invariant rubbish == Util.InvalidIds(ids[..i], world)
    {
      ScanStep(ids, world, i);
      rows, index, rubbish := ScanOne(db, ids[i], foods, world, valid, rows, index, rubbish);
      if Util.IsValidGuest(world.entity(ids[i])) {
        valid := valid + [ids[i]];
      }
      i := i + 1;
    }
    assert ids[..i] == ids;
  }

  /**
   * One pass of the scanning loop: the id becomes a row after the rows of
   * the valid ids so far, or joins the rubbish.
   */
  method ScanOne(db: map<EntityId, Food>, id: EntityId, foods: seq<Food>, world: HostMap, ghost valid: seq<EntityId>,
                 rows: seq<Row>, index: map<nat, EntityId>, rubbish: seq<EntityId>)
    returns (rows': seq<Row>, index': map<nat, EntityId>, rubbish': seq<EntityId>)
    requires forall x :: x in valid ==> world.entity(x) != null && world.entity(x).id.Some?
    requires rows == Rows(db, valid, foods, world) && index == Index(valid, world)
    ensures Util.IsValidGuest(world.entity(id)) ==>
              rows' == Rows(db, valid + [id], foods, world) && index' == Index(valid + [id], world) && rubbish' == rubbish
    ensures !Util.IsValidGuest(world.entity(id)) ==> rows' == rows && index' == index && rubbish' == rubbish + [id]
  {
    var guest := world.entity(id);
    if !Util.IsValidGuest(guest) {
      return rows, index, rubbish + [id];
    }
    RowsSnoc(db, valid, id, foods, world);
    IndexSnoc(valid, id, world);
    var row := RowOf(db, guest, foods);
    rows' := rows + [row];
    index' := index[|rows'| - 1 := guest.id.value];
    rubbish' := rubbish;
  }

  /** One more scanned id joins the valid ids or the rubbish, by its validity. */
  lemma ScanStep(ids: seq<EntityId>, world: HostMap, i: nat)
    requires i < |ids|
    ensures Util.IsValidGuest(world.entity(ids[i])) ==>
              ValidIds(ids[..i + 1], world) == ValidIds(ids[..i], world) + [ids[i]] &&
              Util.InvalidIds(ids[..i + 1], world) == Util.InvalidIds(ids[..i], world)
    ensures !Util.IsValidGuest(world.entity(ids[i])) ==>
              ValidIds(ids[..i + 1], world) == ValidIds(ids[..i], world) &&
              Util.InvalidIds(ids[..i + 1], world) == Util.InvalidIds(ids[..i], world) + [ids[i]]
  {
    assert ids[..i + 1][..i] == ids[..i];
    Guests.InvalidIdsSnoc(ids[..i], ids[i], world);
    ValidIdsSnoc(ids[..i], ids[i], world);
    assert ids[..i + 1] == ids[..i] + [ids[i]];
  }

  /** An id appended to the list appends its row. */
  lemma RowsSnoc(db: map<EntityId, Food>, valid: seq<EntityId>, x: EntityId, foods: seq<Food>, world: HostMap)
    requires forall y :: y in valid ==> world.entity(y) != null && world.entity(y).id.Some?
    requires world.entity(x) != null && world.entity(x).id.Some?
    ensures Rows(db, valid + [x], foods, world) == Rows(db, valid, foods, world) + [RowOf(db, world.entity(x), foods)]
  {
    var long := Rows(db, valid + [x], foods, world);
    var short := Rows(db, valid, foods, world);
    forall i | 0 <= i < |valid| ensures long[i] == short[i] {
      assert (valid + [x])[i] == valid[i];
    }
  }

  /** An id appended to the list gives the next row number its guest's id. */
  lemma IndexSnoc(valid: seq<EntityId>, x: EntityId, world: HostMap)
    requires forall y :: y in valid ==> world.entity(y) != null && world.entity(y).id.Some?
    requires world.entity(x) != null && world.entity(x).id.Some?
    ensures Index(valid + [x], world) == Index(valid, world)[|valid| := world.entity(x).id.value]
  {
    assert forall i :: 0 <= i < |valid| ==> (valid + [x])[i] == valid[i];
  }

  /**
   * createListViewOfGuests, with the cleanup callback main hands the window
   * (cleanup on the same db). A missing db yields no rows and no index and
   * the callback is not called (cleaned is None); otherwise the invalid ids,
   * in db order, are passed to the callback once, which leaves the valid
   * entries.
   */
  method CreateListViewOfGuests(db: GuestDb?, foods: seq<Food>, world: HostMap)
    returns (rows: seq<Row>, index: map<nat, EntityId>, cleaned: Option<seq<EntityId>>)
    modifies db
    ensures db == null ==> rows == [] && index == map[] && cleaned == None
    ensures db != null ==>
              var ids := AscendingKeys(old(db.prefs).Keys);
              rows == Rows(old(db.prefs), ValidIds(ids, world), foods, world) &&
              index == Index(ValidIds(ids, world), world) &&
              cleaned == Some(Util.InvalidIds(ids, world)) &&
              |rows| + |cleaned.value| == |old(db.prefs)|
    ensures db != null ==> db.prefs == Guests.ValidEntries(old(db.prefs), world)
  {
    if db == null {
      return [], map[], None;
    }
    var ids := AscendingKeys(db.prefs.Keys);
    var rubbish;
    rows, index, rubbish := ScanIds(db.prefs, ids, foods, world);
    ListPartitionsIds(db.prefs, world);
    Guests.RemovingRubbishKeepsValid(db.prefs, ids, rubbish, world);
    PluginMain.Cleanup(db, rubbish);
    cleaned := Some(rubbish);
  }
}
