# Food preferences for OpenRCT2 guests — a Dafny model

The plugin gives every park guest a favourite food or drink and keeps these in a
guest database (guest id to item). Once per game day it runs a stall ping. It
finds the open food and drink stalls, takes the guests standing in front of
each one who are happy enough, not leaving, carry no food and like what the
stall sells, and steers them towards it for a window of ticks. Halfway through
the window it makes them hungry (or thirsty, at a drink stall). At the end it
gives them back their original appetite. The plugin also offers:

- helpers that list the foods a scenario offers;
- helpers that read a guest's free food voucher;
- helpers that compute the percentage of guests by favourite;
- helpers that drop database entries of guests who have left;
- a window listing guests with their favourites.

The model has eight modules, one per source file plus the host:

- `Globals` (`globals.dfy`) holds the item identifiers, the shop-item tables, the cheat options and the database object.
- `Host` (`host.dfy`) holds the host's entities: guests as heap objects, rides, tile elements, ride objects. It also holds the host queries as abstract inputs, collected in `HostMap`, and the ascending order in which JavaScript lists integer keys.
- `Util` (`util.dfy`) and `Guests` (`guests.dfy`) hold the helpers of util.ts and guests.ts.
- `Stalls` (`stalls.dfy`) holds the scheduler class `StallPingScheduler`.
- `PluginMain` (`plugin_main.dfy`) holds the handlers and startup of main.ts.
- `Window` (`window.dfy`) holds the list-view scan of window.ts.
- `Wrappers` (`wrappers.dfy`) holds `Option`.

Code that works by mutation is modelled imperatively:

- The scheduler is a class whose methods update its fields.
- Guests are objects whose `hunger`, `thirst`, `direction` and `destination` the ping writes through the references held in `customers`.
- Database writes and deletions reassign the `prefs` map of a `GuestDb` object.
- Each loop is a `while` loop whose invariant ties its progress to a specification function. The loops that test each element and push a value (`getAvailableFood`, `findStalls`) are specified by one generic `Host.FilterMap`, whose laws are proved once.

The ping is specified on values. `Plan` gives the record map each stall works on. `Step` gives what one stall does to one guest. `Visit` folds the stalls in order. Because one guest can stand in front of several stalls, the last stall that lists the guest decides its direction and destination.

JavaScript semantics are written out:

- `tick == pingInterval / 2` uses real division. It becomes `2 * tick == pingInterval`, so an odd interval never lures.
- `Math.floor(x / 32)` becomes Dafny's Euclidean `/`.
- `Math.round(100 * count / total)` is computed exactly in integers as round-half-up.
- `!e.result.error` treats both an absent error and the code 0 as success.
- `Object.assign` on cheats keeps the keys that the argument lacks.
- Object key order is ascending id.

Random draws (`context.getRandom`) are parameters: `draw` for one draw, `pick(i)` for the i-th guest of a loop.

The source and its test suite disagree in one place, and the model follows the code. The test at src/__tests__/guests.test.ts:32-37 expects `findCustomers` to write a voucher's item into the database. `findCustomers` never writes the database: `Stalls.FindCustomers` has no `modifies` clause.

## Model

| member | source | states |
|---|---|---|
| Globals.NameRoundTrip | src/globals.ts:21-50 | every item's identifier string reads back as that item, so the 28 identifiers are distinct |
| Globals.FoodItemTypesEnumerateFood | src/globals.ts:21-50 | GuestFoodItemTypes lists each of the 28 items exactly once, and item number i sits at index i |
| Globals.FoodEnumsAreMapKeys | src/globals.ts:52-86 | ShopItemFoodEnums holds exactly the keys of ShopItemFoodEnumMap, in increasing order, and there are 28 of them |
| Globals.EnumOfIsKey | src/globals.ts:52-83 | every item has a shop-item enum that the map sends back to it |
| Globals.EnumOfInverts | src/globals.ts:52-83 | for every key of the map, the enum of the item it names is that key |
| Globals.EnumMapIsBijection | src/globals.ts:52-83 | distinct enums name distinct items, and every item is named, so the map is a bijection onto the items |
| Globals.DrinkEnumsNameDrinks | src/globals.ts:88 | an enum is in ShopItemDrinkEnums iff it is a key of the map whose item is one of the seven drinks |
| Globals.DrinkEnumsAreFoodEnums | src/globals.ts:86-88 | every drink enum is also a food enum |
| Globals.IncreasingIsDistinct | src/globals.ts:86 | a strictly increasing list, such as the enum key list, has no repeated values |
| Globals.MergeCheatsLaws | src/stalls.ts:62 | merging is idempotent and associative; merging no cheats, or into no cheats, changes nothing; an argument that sets all three options replaces the old cheats |
| Host.FilterMapKeepsExactly | src/util.ts:83-89 | a value is listed iff some element of the list is mapped to it |
| Host.FilterMapAppend | src/stalls.ts:111-126 | the list of a concatenation is the concatenation of the lists, so the order of the input is kept |
| Host.AscendingKeys | src/guests.ts:42 | the key list is strictly increasing and holds exactly the db's ids, once each |
| Util.CreateFavouriteFood | src/util.ts:23-26 | the favourite drawn is one of the available foods |
| Util.SetGuestDestination | src/util.ts:32-34 | only the guest's destination changes |
| Util.SetGuestDirection | src/util.ts:36-38 | only the guest's direction changes |
| Util.ArrayIncludes | src/util.ts:73-77 | true iff some element equals the value |
| Util.InvalidIds | src/guests.ts:42-50 | the listed ids that do not name a valid guest, each kept, and nothing else |
| Util.NeighbouringTileIsAdjacent | src/util.ts:51-67 | a tile is queried iff the direction is 0 to 3, and that tile differs from the origin in exactly one coordinate |
| Util.ValidGuests | src/util.ts:68-70 | the filter keeps exactly the valid guests of the tile |
| Util.GetGuestsOnNeighbouringTile | src/util.ts:40-71 | only valid guests, all of those on the one neighbouring tile, and none for a direction outside 0 to 3 |
| Util.CheckGuestForVoucher | src/util.ts:94-101 | undefined iff the guest is invalid or has other than one item; otherwise the voucher's item iff that item is a free food/drink voucher, and false otherwise |
| Util.GetAvailableFood | src/util.ts:79-92 | the loop builds the item list of the contributing ride objects, in object order |
| Util.ResearchedIsSubsequence | src/util.ts:86 | the researched list is a subsequence of the scenario list |
| Util.AvailableFoodIsSold | src/util.ts:83-88 | an item is listed iff some object of the list contributes it: a shop item other than 255, among the food enums, researched for the researched list, mapped to that item |
| Util.CountBounded | src/util.ts:108-111 | no item has more fans than there are guests |
| Util.RoundHalfUpIsNearest | src/util.ts:114 | the rounded percentage is the nearest integer, with halves rounded up |
| Util.PercentBounds | src/util.ts:112-115 | a percentage is at most 100, is 100 when every guest agrees and 0 when none does |
| Util.TallyFavourites | src/util.ts:104-111 | after the counting loop, every item's counter is the number of guests whose favourite it is |
| Util.RoundTally | src/util.ts:112-115 | after the rounding loop, every item of the list holds its percentage of the total, and the others keep their counter |
| Util.GetFoodPrefStats | src/util.ts:103-117 | every item has a key whose value is its rounded percentage of the db; an empty db gives all zeros |
| Util.BurgerIsThirtyThree | src/__tests__/guests.test.ts:39-43 | with three guests, one of whom prefers burgers, burger gets 33 |
| Guests.ScheduledCleanup | src/guests.ts:40-57 | the db keeps exactly its entries for valid guests, with unchanged values |
| Guests.CollectRubbish | src/guests.ts:41-50 | the scan collects the invalid ids in key order |
| Guests.DeleteIds | src/guests.ts:54-56 | the deletion loop removes exactly the listed ids |
| Guests.RemovingRubbishKeepsValid | src/guests.ts:52-56 | deleting the collected ids leaves exactly the valid entries, and no rubbish means an unchanged db |
| Guests.CleanupKeepsValidDb | src/guests.ts:52 | when every id is valid the cleanup leaves the db as it was |
| Guests.CheckGuestForVoucher | src/guests.ts:104-111 | an item iff the inventory is non-empty and its first item is a free food/drink voucher, whatever the item count |
| Guests.VoucherReadersAgreeOnOneItem | src/guests.ts:104-111 | for a valid guest with a single item the two voucher readers give the same answer |
| Guests.VoucherReadersDifferOnLongInventory | src/guests.ts:105-109 | with several items and a voucher first, this reader returns the item while the util.ts reader returns undefined |
| Guests.FillKeepsExisting | src/guests.ts:133 | no entry that existed before the loop is changed |
| Guests.FillKeys | src/guests.ts:131-138 | afterwards the db has an entry exactly for the old ids and the listed guests |
| Guests.FillLastListingWins | src/guests.ts:131-136 | a guest that was absent before gets the choice made at its last listing, because membership is checked against the key snapshot taken before the loop |
| Guests.VoucherTakesPrecedence | src/guests.ts:134-136 | a new guest whose first item is a free food/drink voucher gets its item, not a draw |
| Guests.AddMissingFoodPrefs | src/guests.ts:129-139 | lists the scenario's foods, then leaves the db that Fill describes after all the guests; only a new guest without a voucher needs its draw inside the list |
| Guests.FillLoop | src/guests.ts:131-138 | the loop over the guests, checked against the key snapshot taken before it, leaves the db that Fill describes after all of them |
| Stalls.MatchingTracks | src/stalls.ts:105 | exactly the track elements of the tile that belong to the ride |
| Stalls.TrackDirectionFound | src/stalls.ts:103-110 | a found direction comes from the tile's one and only track element of the ride |
| Stalls.StallsOfKeepsExactly | src/stalls.ts:111-126 | a stall is found iff some ride of the list yields it |
| Stalls.StallOfProperties | src/stalls.ts:112-124 | a found stall is an open stall ride selling a known item, at its first station's start, facing the direction of the ride's track element on tile (x div 32, y div 32) |
| Stalls.StallsOfAppend | src/stalls.ts:112-125 | stalls are found ride by ride, in ride order |
| Stalls.FindStalls | src/stalls.ts:96-127 | the loop returns StallsOf of the host's rides |
| Stalls.HoldsFood | src/stalls.ts:150-154 | true iff some inventory item is a tracked food or drink |
| Stalls.LastById | src/stalls.ts:133-139 | every recorded id names a nearby guest with that id |
| Stalls.LastByIdKeys | src/stalls.ts:133-139 | an id is recorded iff some nearby guest has it |
| Stalls.ChosenCharacterization | src/stalls.ts:129-178 | an id is kept iff some nearby guest has it and every nearby guest with it qualifies; the record names a qualifying nearby guest with that id |
| Stalls.ChosenIffQualifies | src/stalls.ts:155-175 | a guest whose id is unique on the tile is kept iff its happiness is at least 41, it is not leaving, it likes the stall's item and it holds no food, and then its record is itself |
| Stalls.LikesByFavourite | src/stalls.ts:148 | without the ignore-favourite cheat a guest likes the item iff the db names it as its favourite; a missing entry means no |
| Stalls.LikesUnderCheats | src/stalls.ts:144-147 | with the ignore-favourite cheat every guest likes the item, or only the guestsOnlyLike item when that is set, whatever the db says |
| Stalls.FindCustomers | src/stalls.ts:129-178 | the records are exactly the chosen guests, filed under their ids, each with its hunger and thirst at call time |
| Stalls.RecordGuests | src/stalls.ts:133-139 | the first loop records the last nearby guest of each id with its current hunger and thirst |
| Stalls.SkimGuests | src/stalls.ts:155-175 | the second loop deletes exactly the ids of the guests that do not qualify |
| Stalls.PhaseLaws | src/stalls.ts:230-237 | the lure fires iff the interval is even and the tick is half of it; the restore fires iff the tick is the interval and the interval is not 0 |
| Stalls.OppositeLaws | src/stalls.ts:243-246 | the direction given is (d + 2) mod 4, different from d, and applying it twice gives back d |
| Stalls.LureTargetNearStall | src/stalls.ts:204-226 | the destination is within one tile of the stall in x and up to half a tile ahead in y, and is the stall's own point for a direction outside 0 to 3 |
| Stalls.VisitUnlisted | src/stalls.ts:228-248 | a guest that no stall lists keeps its hunger, thirst, direction and destination |
| Stalls.SteerLaw | src/stalls.ts:243-247 | a listed guest ends up with the opposite direction and the destination of the last stall that lists it |
| Stalls.RestoreLaw | src/stalls.ts:237-240 | at the end of the window a listed guest gets back the hunger and thirst recorded by the last stall that lists it |
| Stalls.LureLaw | src/stalls.ts:230-236 | halfway through, thirst becomes 50 iff some drink stall lists the guest, and hunger becomes 50 iff some other stall does |
| Stalls.SteerKeepsAppetite | src/stalls.ts:229-240 | on the other ticks hunger and thirst are left alone |
| Stalls.VisitOne | src/stalls.ts:229-247 | one record's guest gets exactly Step of its old vitals |
| Stalls.VisitCustomers | src/stalls.ts:228-248 | the customers loop applies Step to every listed guest and leaves every other guest unchanged |
| Stalls.RecordedLast | src/stalls.ts:200 | each stall's ride id ends up holding the record map of the last stall with that ride id |
| Stalls.RecordedShape | src/stalls.ts:194-201 | after the snapshot every stall's ride id has a record map, and every record is filed under its guest's id |
| Stalls.TickZeroPlanEntry | src/stalls.ts:194-201 | at tick 0 each stall's records are its chosen guests with their vitals as the earlier stalls of the same tick left them |
| Stalls.TickZeroPlanWellKeyed | src/stalls.ts:134 | every snapshot record is filed under its guest's id |
| Stalls.RunCounts | src/stalls.ts:85-86 | within the window each tick advances the counter by one |
| Stalls.WindowLength | src/stalls.ts:85-93 | a window opened at tick 0 lasts pingInterval + 1 ticks and then closes at tick 0, and an idle scheduler stays idle |
| Stalls.WindowPhases | src/stalls.ts:230-237 | an even interval of at least 2 has its lure at half the interval and its restore at the end; an odd one never lures; tick 0 never restores |
| Stalls.TargetsContain | src/stalls.ts:228-229 | every guest a stall visits is among the ping's targets |
| Stalls.SnapshotStall | src/stalls.ts:199-200 | the records found for a stall at tick 0 are its entry of the plan |
| Stalls.PingStep | src/stalls.ts:191-248 | one pass of the stall loop extends the snapshot and the visits by one stall |
| Stalls.PingLoop | src/stalls.ts:190-249 | the stall loop leaves every target with its Visit vitals and files the snapshot at tick 0 |
| Stalls.StallPingScheduler.constructor | src/stalls.ts:52-56 | a fresh, idle scheduler at tick 0 holding the stalls of the map |
| Stalls.StallPingScheduler.UpdateStalls | src/stalls.ts:180-183 | only the fresh flag changes, to false |
| Stalls.StallPingScheduler.NewDay | src/stalls.ts:58-75 | cheats are merged first; during a window nothing else changes; otherwise a stale stall list is refreshed and a window opens |
| Stalls.StallPingScheduler.NewTick | src/stalls.ts:77-94 | idle, nothing happens; otherwise the stalls are pinged, the tick advances, and after pingInterval the window closes with no customers |
| Stalls.StallPingScheduler.AdvanceTick | src/stalls.ts:86-93 | the tick advances; past the interval the window closes at tick 0 and the customers are dropped |
| Stalls.StallPingScheduler.PingStalls | src/stalls.ts:185-250 | every target guest ends with its Visit vitals, the snapshot is filed at tick 0 only, and nothing else of the scheduler changes |
| PluginMain.ChangesStallsCases | src/main.ts:51 | a successful server-side demolition or status change marks the cache stale; a failed, client-only or other action does not |
| PluginMain.OnActionExecuted | src/main.ts:50-54 | the stall list is marked stale exactly for those actions, and nothing else of the scheduler changes |
| PluginMain.Cleanup | src/main.ts:56-62 | exactly the listed ids are deleted and the other entries keep their values; an empty list leaves the db as it was |
| PluginMain.GetAvailableFood | src/main.ts:64-75 | the loop lists, in object order, the items of all food-stall objects skipping 255, whatever has been researched |
| PluginMain.ScenarioIgnoresResearch | src/main.ts:70 | the scenario list does not depend on the research state |
| PluginMain.ScenarioFoodIsSold | src/main.ts:66-73 | an item is on main's list iff some food-stall object sells it |
| PluginMain.StartupPrefs | src/main.ts:92-100 | the startup db has an entry exactly for the guests with ids, each holding an available food |
| PluginMain.PopulateDb | src/main.ts:92-100 | the startup loop builds a new db equal to StartupPrefs |
| PluginMain.Startup | src/main.ts:77-106 | outside normal mode nothing is set up; in a park, main's food list, the startup db and an idle scheduler with interval 120 at tick 0, holding the map's stalls, fresh, with no customers and no cheats |
| PluginMain.SpawnFavourite | src/main.ts:34-44 | the new favourite is an available food, or the item of the guest's only item when that is a free food/drink voucher |
| PluginMain.OnPeepSpawn | src/main.ts:32-48 | only the spawned guest's entry is written, with SpawnFavourite |
| PluginMain.SpawnWritesOneEntry | src/main.ts:34-41 | a spawn adds the guest's id and leaves every other entry unchanged |
| Window.UnknownIsNoFood | src/window.ts:77 | "unknown" is no item's identifier |
| Window.RowOf | src/window.ts:75-77 | the row shows the guest's name |
| Window.RowOfFavourite | src/window.ts:64-77 | the favourite column names an item iff the db holds that item for the guest and it is researched; otherwise it reads "unknown", which names no item |
| Window.ValidIds | src/window.ts:68-73 | the valid ids of the scan, each kept, and nothing else |
| Window.ValidIdsCount | src/window.ts:68-79 | valid ids and rubbish together are as many as the scanned ids |
| Window.ListPartitionsIds | src/window.ts:68-79 | every db id goes to exactly one of rows and rubbish, and rows plus rubbish equal the number of ids |
| Window.Rows | src/window.ts:76-77 | one row per valid id, in order, each showing that guest's name |
| Window.IndexLocatesRows | src/window.ts:68-78 | the index has a key for each row and no other, and sends row i to the id of the valid scanned guest shown in that row |
| Window.ScanIds | src/window.ts:68-79 | the loop builds exactly Rows, Index and the invalid ids in db order |
| Window.ScanOne | src/window.ts:69-78 | one pass appends a row and its index entry for a valid guest, or the id to the rubbish |
| Window.CreateListViewOfGuests | src/window.ts:41-83 | a missing db gives no rows, an empty index and no cleanup call; otherwise the rows, the index and one cleanup with the invalid ids in db order, leaving exactly the valid entries |

## Left out

- Event subscription and disposal (`context.subscribe`, `dispose`, stalls.ts:72-74, 88; main.ts:105-110): `activePing` is a flag, and ticks and days happen when a caller invokes `NewTick` and `NewDay`. Because of this, `NewTick` takes the db and the map as arguments instead of capturing them in a closure.
- Host queries (`map.rides`, `getTile`, `getAllEntitiesOnTile`, `getEntity`, `objectManager.getAllObjects`, `park.research`) are inputs: the fields of `HostMap`, a list of ride objects and a research predicate. `getGuestsOnNeighbouringTile` passes pixel-style coordinates to `getTile` while `findStalls` divides by 32. Both are reproduced as written, without the host's meaning of coordinates.
- Randomness (`context.getRandom`, util.ts:23-26) becomes a draw argument.
- Util.CreateFavouriteFood: requires the draw to lie inside the food list. With an empty list the source stores `undefined`, which the model's item type cannot hold.
- PluginMain.OnPeepSpawn: requires a draw inside the list, for the same reason.
- PluginMain.PopulateDb: requires a draw inside the list, for the same reason.
- PluginMain.Startup: requires a draw inside the list, for the same reason.
- Guests.AddMissingFoodPrefs: requires a draw inside the list, for the same reason, but only for a guest without an entry and without a voucher, the one case that draws.
- Guests.AddMissingFoodPrefs: requires every listed guest to have an id, and every new guest an inventory. A typed `Guest` always has both. `guest.id!` on a guest without an id would file it under the key "null", which the model's integer ids cannot hold.
- Guests.CheckGuestForVoucher: requires an inventory, as every typed `Guest` has. Without one, reading its length would throw.
- The voucher check of `onPeepSpawn` runs one second later through `context.setTimeout` (main.ts:47). The model runs it straight after the assignment.
- The guard at main.ts:36 tests the function `isValidGuest` itself, not a call of it, so it never returns early. A missing entity makes the log line at main.ts:35 throw right after the assignment, before the check is scheduled. A missing inventory makes the delayed check throw at main.ts:38 before it writes. Either way the drawn food stays, which is what the model renders.
- Park storage. `createGuestDb` (guests.ts:25-38) only loads and stores the db. The model starts from a given db.
- The UI: the rest of `createWindow`, the shortcut and the menu item. The window is modelled only through the data scan of `createListViewOfGuests`, called with the cleanup callback main hands it.
- Logging (logger.ts), packaging (plugin.ts, meta.ts), the test harness and the mocks.
- Floating point. `Math.round(stats / keys.length * 100)` is modelled as exact integer round-half-up of 100·count/total. The IEEE rounding of the float quotient is not modelled.
- Globals.MergeCheats: an option that the argument holds with the value `undefined` counts as absent. In JavaScript `Object.assign` would copy the `undefined` over the old value.
- A ride's `stations[0].start` is a field of `Ride` in the model. A ride without stations, which would throw in the source, is not modelled.
- Inventory items are reduced to four kinds: tracked food, a free food/drink voucher, another voucher, and any other item. `guest.hasItem({type: food})` for the 28 tracked types is "holds a tracked food item".
- The duplicate helpers of guests.ts (`isValidGuest`, `setGuestDestination`, `setGuestDirection`, `getGuestsOnNeighbouringTile`, `getFoodPrefStats`) match util.ts line for line. They are modelled once, in `Util`.
- Stalls.VisitCustomers: visits the records in ascending id order, as `Object.keys` lists integer keys. The result does not depend on that order, because each record names a different guest.
- The test at src/__tests__/guests.test.ts:32-37 expects `findCustomers` to write the db. It contradicts the code, and the model does not reproduce it.
