# eveconomy market mirror: a Dafny model

eveconomy mirrors the market data of EVE Online's ESI API into MongoDB. Its
cron jobs and build scripts apply sequential rules to what they fetch:

- **Region orders.** The region order reconciler (`cron/load_region_orders.js`)
  compares each page of a region's orders with the stored orders. It inserts
  new orders, updates changed prices and volumes, and deletes stored orders no
  page mentioned.
- **Rate gate.** The ESI rate gate (`util/assist.js`) picks a calls-per-second
  limit by time of day. It spaces call starts and retries 5xx answers a bounded
  number of times.
- **Entity information.** The refresher (`cron/update_information.js`) fetches
  one entity row at a time. The answer's status decides what is written back,
  and the entities the answer names are queued for their own refresh.
- **Market groups.** Two scripts build the market-group tree that is written
  to `groups.json`: `update_market_groups.js`, the enhanced version, and
  `populate_market_groups.js`. A third, `validate_market_groups.js`, checks the
  tree's shape and reports issues and statistics.
- **Helpers.**
  - `util/evesso.js` handles EVE single sign-on: the state string, the login
    URL, the callback's state check and character id, and the access-token
    cache.
  - `cron/load_universe.js` loads the list of regions once and shuffles it.

## How the model is built

- HTTP answers are input values. An answer is a status, a header value and a
  parsed body. `None` stands for a body that `JSON.parse` rejects.
- A sequence of requests meets a stream of attempts, `net: nat -> Attempt`.
- MongoDB collections and Redis keys are in-memory sequences and maps.
- Clocks are integer parameters.
- `util/entity.js` is not part of this model. Its `entity.add` calls, and the
  location side effects of the order reconciler, are recorded as a log of
  calls (`EntityAdd`, `LocationEffect`). They are never applied to the
  `information` rows, so a queued entity does not become a waiting row in a
  later round, and an `entity.add` that throws is not modelled.
- `Math.random()` is an oracle: a sequence of draws, each in [0, 1).
- JSON values are the datatype `JsValue.Js`. Objects and `Map`s are ordered
  association lists in insertion order. That is a `Map`'s order, and an
  object's order for keys that are not array indices. JavaScript lists an
  object's integer-like keys (`"123"`) first, in ascending order; the model
  does not (see "Left out").
- `common.dfy` and `js_value.dfy` hold the shared vocabulary:
  - `Option`;
  - association lists;
  - `split` and `join`;
  - decimal numerals;
  - slicing into batches;
  - JavaScript truthiness, `typeof`, `Object.keys` and `trim`.

Each core source file has a module:

| file | module |
|---|---|
| cron/load_region_orders.js | `RegionOrders` (region_orders.dfy) |
| util/assist.js | `Assist` (assist.dfy) |
| cron/update_information.js | `UpdateInformation` (one row: update_information.dfy), `InformationRounds` (the collection, rounds and `populateSet`: information_rounds.dfy), `EsiTables` (the job's constant tables: esi_tables.dfy) |
| shared by the two builders | `MarketGroups` (market_groups.dfy) |
| update_market_groups.js | `UpdateMarketGroups` (update_market_groups.dfy) |
| populate_market_groups.js | `PopulateMarketGroups` (populate_market_groups.dfy) |
| validate_market_groups.js | `ValidateMarketGroups` (validate_market_groups.dfy) |
| util/evesso.js | `EveSso` (evesso.dfy) |
| cron/load_universe.js | `LoadUniverse` (universe.dfy) |

Code that updates state step by step is modelled imperatively, proved against
a specification function:

- the region loader, rate gate, information collection, both builders and the
  validator are classes whose fields the methods update;
- the shuffle works in place on an `array`;
- the loops become `while` loops with invariants.

Pure lookups, the tree builders and the report are functions. Lemmas about
those specification functions state the properties.

## Model

| member | source | states |
|---|---|---|
| RegionOrders.InsertRecord | cron/load_region_orders.js:94-100 | an unknown order is inserted with the page's `region_id` and with `range` `solarsystem` rewritten to `system` (any other range kept); every other field is the fetched order's |
| RegionOrders.StageExistingExact | cron/load_region_orders.js:109-126 | for an order already stored, nothing is staged exactly when price and volume are both unchanged; otherwise one `updateOne` for that `order_id` whose `$set` holds exactly the differing fields, with their new values |
| RegionOrders.CountsSplitLast | cron/load_region_orders.js:89-127 | the last order popped adds one to exactly one of the new, changed and unchanged counts |
| RegionOrders.CountsPartition | cron/load_region_orders.js:89-127 | every order on a page is new, changed or unchanged: the three counts add up to the page's length |
| RegionOrders.PopAllCounts | cron/load_region_orders.js:89-128 | per page, `inserts`, `updates` and `untouched` grow by the new, changed and unchanged counts, together by the page's length; `bulk` grows by inserts plus updates; `removed` is untouched |
| RegionOrders.PopAllBulk | cron/load_region_orders.js:89-128 | the page's bulk is the staged operation of each order, in pop order (last order first) |
| RegionOrders.KnownIdsSplitLast | cron/load_region_orders.js:109-110 | the stored ids seen on a page grow by the last order's id exactly when it is stored |
| RegionOrders.PopAllStrikes | cron/load_region_orders.js:92-110 | a page removes from the candidate set exactly the ids of its orders the store already holds; with stored candidates, that is every id on the page |
| RegionOrders.EffectLocationsAppend | cron/load_region_orders.js:103-108 | one more location side effect adds exactly its location to the handled set |
| RegionOrders.PopAllLocationsOnce | cron/load_region_orders.js:103-108 | location side effects run at most once per `location_id` across pages; the effect log only grows; every new order's location is handled after its page |
| RegionOrders.ApplyBulkKeeps | cron/load_region_orders.js:129-135 | an ordered bulk write never removes a stored order or moves it to another region |
| RegionOrders.ApplyBulkAppend | cron/load_region_orders.js:129-135 | an ordered write of `a + b` writes `a`, then `b` on its result when `a` went through, and otherwise stops where `a` stopped |
| RegionOrders.ApplyBulkStops | cron/load_region_orders.js:129-135 | an `insertOne` of an id stored by then stops the write: the operations before it stay applied and none after it runs |
| RegionOrders.ApplyBulkFailed | cron/load_region_orders.js:129-135 | a write that does not go through stopped at such an insert, and leaves exactly the write of the operations before it |
| RegionOrders.StagedWriteOk | cron/load_region_orders.js:86-135 | a page's write goes through exactly when none of its new orders is already stored and none appears twice on the page |
| RegionOrders.StagedWriteKeys | cron/load_region_orders.js:86-135 | with every order on the page once, the write adds exactly the page's ids to the store |
| RegionOrders.StagedWriteOther | cron/load_region_orders.js:86-135 | with every order on the page once, a document whose id is not on the page is left as it was |
| RegionOrders.StagedWriteAt | cron/load_region_orders.js:86-135 | with every order on the page once, a new order ends up stored as its insert document and a known one with the page's `price` and `volume_remain`, its other fields kept |
| RegionOrders.StagedWriteStore | cron/load_region_orders.js:86-135 | the three statements above together, for the whole page |
| RegionOrders.PageWritesStaged | cron/load_region_orders.js:86-140 | a 200 page's new store is the store with the page's staged operations written in order, and the page returns its response exactly when that write went through |
| RegionOrders.PageWrite | cron/load_region_orders.js:86-144 | a 200 page returns its response exactly when no new order appears on it twice, and null otherwise; with every order once, new orders are stored as inserted, known ones carry the page's price and remaining volume, and nothing else changes; a stopped write leaves the page's operations up to the repeated insert applied |
| RegionOrders.ToInt32 | cron/load_region_orders.js:50 | the 32-bit conversion `\|` applies is in the signed 32-bit range and equal to its input modulo 2^32 |
| RegionOrders.OrOneArith | cron/load_region_orders.js:50 | `x \| 1` makes an even number odd by adding one and leaves an odd number alone |
| RegionOrders.PageCountOdd | cron/load_region_orders.js:50 | `x-pages \| 1` is always odd; it is at least 1 exactly when the header's 32-bit value is not negative; a missing header gives 1; an even header `2k` gives `2k + 1` pages |
| RegionOrders.PageSpecStrikes | cron/load_region_orders.js:76-147 | a page keeps every stored order of the region stored, removes exactly its orders' ids from the candidates, and leaves `removed` alone |
| RegionOrders.PagesFromStrikes | cron/load_region_orders.js:53-57 | pages `i..pages` remove from the candidates exactly the ids seen on their 200 pages and delete no stored order |
| RegionOrders.CycleNeedsPageOne | cron/load_region_orders.js:45-49 | when page 1 returns null or a status other than 200, the cycle is page 1's effect alone: no further page and no deletion |
| RegionOrders.RemovalPassExact | cron/load_region_orders.js:59-64 | the removal pass deletes exactly the remaining candidates, counts them in `removed`, touches no other document, and does nothing under `bailout` |
| RegionOrders.CandidatesLeft | cron/load_region_orders.js:37-57 | after all pages the candidates are the snapshot ids minus every id seen on a successful page |
| RegionOrders.CycleRemovesUnseen | cron/load_region_orders.js:33-66 | after a 200 on page 1, the cycle deletes exactly the region's snapshot ids that no successful page re-observed, including live orders whose page failed; `removed` counts them; no other document is touched; with `bailout` nothing is deleted |
| RegionOrders.RegionLoader.constructor | cron/load_region_orders.js:8 | the loader starts on the given store with no candidates, zero counters and `locations_added` empty |
| RegionOrders.RegionLoader.LoadRegionPage | cron/load_region_orders.js:76-147 | the loader's new state and the returned result are those of the page specification, and the state invariant is kept |
| RegionOrders.RegionLoader.LoadRegion | cron/load_region_orders.js:33-73 | one cycle leaves the state the cycle specification gives |
| RegionOrders.RegionLoader.StartCycle | cron/load_region_orders.js:37-43 | the region's stored ids become the candidates and the counters restart at zero |
| RegionOrders.RegionLoader.RemoveUnseen | cron/load_region_orders.js:59-64 | the store and `removed` become those of the removal pass |
| Assist.ScheduleBands | util/assist.js:13-29 | the schedule gives 0 calls per second from 10:59 to 11:09 UTC and 20 at every other minute; a positive override replaces it; a NaN or non-positive override is ignored |
| Assist.HhmmOf | util/assist.js:23-24 | the time of day read from epoch milliseconds is a valid `hhmm` in 0..2359 with minutes below 60 |
| Assist.NextRecompute | util/assist.js:33-35 | the next recomputation is 1 to 60000 ms away and falls on a minute boundary |
| Assist.ComputeRateLimit | util/assist.js:25-29 | the loop over the schedule's entries in key order, then the override, yields the effective limit of the schedule bands |
| Assist.SpacedSnoc | util/assist.js:53-55 | a call start more than `1000/rate` ms after the previous one keeps the sequence of starts spaced |
| Assist.RetryCalls | util/assist.js:58-61 | `doGet` makes between 1 and `attempts + 1` calls |
| Assist.RetryStopsRight | util/assist.js:58-62 | every call but the last answered 5xx, and the last either did not or was the final attempt |
| Assist.WaitForSlot | util/assist.js:53-54 | the 10 ms wait loop stops at the first time in its steps that is more than `1000/rate_limit` ms after the previous call, and no earlier |
| Assist.RateGate.constructor | util/assist.js:20-45 | the module starts with `rate_limit` -1, no call made, not initialized and an empty limit object |
| Assist.RateGate.SetRateLimit | util/assist.js:22-36 | `rate_limit` becomes the effective limit for the current UTC time, and the returned delay is the time to the next minute boundary |
| Assist.RateGate.CleanLimitObject | util/assist.js:4-9 | exactly the keys below `now` are deleted, in key order; the others stay in place |
| Assist.RateGate.DoGet | util/assist.js:37-63 | with a non-positive limit no call is made; otherwise the number of calls follows the retry rule, the result is the last status, every call start is recorded after the previous one with the rate's spacing, and `lastESICallEpoch` is the last start |
| UpdateInformation.UrlChoice | cron/update_information.js:140-143 | a location id above 69999999 is fetched from the structures template with its id filled in; a row whose type has no URL template has no URL |
| UpdateInformation.TemplateFill | cron/update_information.js:143 | any other row is fetched from its type's template with `:id` replaced by the row's id |
| UpdateInformation.MappedType | cron/update_information.js:186 | the entity type of a key is its entry in `maps` when it has one, else the key itself |
| UpdateInformation.AddEach | cron/update_information.js:191-194 | an array value queues one add per element, in order, each with the mapped type |
| UpdateInformation.AddsComeFromKeys | cron/update_information.js:181-199 | every queued add comes from a key of the body listed in `adds`, with that key's mapped type and either its value or an element of its array value |
| UpdateInformation.KeysYieldAdds | cron/update_information.js:181-199 | conversely every listed key of the body queues its value, or each element of its array value, under its mapped type |
| UpdateInformation.IssueAdds | cron/update_information.js:181-199 | the key loop issues exactly the expected adds, in body-key order |
| UpdateInformation.AddsForKey | cron/update_information.js:183-197 | one key's adds: one per element for an array, otherwise one, and none for an unlisted key |
| UpdateInformation.SetAllGet | cron/update_information.js:179 | after `$set` a key holds the last value set for it, or its old value when `$set` does not name it |
| UpdateInformation.SetAllObject | cron/update_information.js:179 | with an object's fields, every key `$set` names takes that value and every other key is kept |
| UpdateInformation.NormaliseThrows | cron/update_information.js:154-156 | normalising a 200 body fails exactly for a war whose aggressor or defender is null or missing |
| UpdateInformation.NormaliseIdentity | cron/update_information.js:174-175 | the written body carries the row's own type and id |
| UpdateInformation.NormaliseStamped | cron/update_information.js:149-152 | the written body is active, not waiting and stamped with `now` |
| UpdateInformation.WarTotals | cron/update_information.js:154-160 | a war whose kill total changed stores the new total and is flagged for `check_wars`; otherwise the answer's own fields stay. The branch is reachable only with a template table that lists `war_id`; the job's own table has none (see `EsiTables.EsiWarHasNoUrl`) |
| UpdateInformation.SearchFlagged | cron/update_information.js:161-163 | every entity but a war is flagged `update_search` |
| UpdateInformation.PlayerDefaults | cron/update_information.js:167-171 | characters, corporations and alliances get alliance and faction 0 when the answer's are falsy |
| UpdateInformation.LocationNameKept | cron/update_information.js:177-179 | a location answer without a name does not overwrite the name the row had |
| UpdateInformation.NormaliseDistinct | cron/update_information.js:148-177 | the normalised body keeps the distinct keys of a parsed object |
| UpdateInformation.Fetch | cron/update_information.js:129-242 | the dispatch with its key loop produces exactly the specified request, write and adds |
| UpdateInformation.OkFetch | cron/update_information.js:147-203 | a 200 with an object writes the normalised body over the row and queues the entities that body names |
| UpdateInformation.ObjectAnswer | cron/update_information.js:147-148 | a 200 with an object body is handled by the body path |
| UpdateInformation.OkWriteBack | cron/update_information.js:149-179 | after a 200 the row keeps its type and id and is active, not waiting and updated now |
| UpdateInformation.NoFetchNoRequest | cron/update_information.js:134-137 | a `no_fetch` row makes no request and only gets its stamp refreshed, whatever the network would answer |
| UpdateInformation.NotFoundWrite | cron/update_information.js:207-213 | a 404 sets `no_fetch` and `update_name`; a character also moves to corporation 1000001, loses alliance and faction, and is stamped with `app.now()` |
| UpdateInformation.NotFoundStopsFetching | cron/update_information.js:207-213 | after a 404 the next refresh of the row makes no request |
| UpdateInformation.NotFoundAnswer | cron/update_information.js:207-213 | a 404 writes the not-found update and queues nothing |
| UpdateInformation.AnswerWrite | cron/update_information.js:146-235 | every answer other than 200 is handled by the status switch alone and queues nothing |
| UpdateInformation.FailureRetried | cron/update_information.js:218-238 | after a failure the row becomes due again exactly 300 seconds after `app.now()` |
| UpdateInformation.FailedRetries | cron/update_information.js:230-237 | a failure writes `last_updated: app.now() - 86100` |
| UpdateInformation.EarlyRetries | cron/update_information.js:143-237 | a type with no URL template, or a request that throws, lands in the catch and writes the retry stamp |
| UpdateInformation.TransientRetries | cron/update_information.js:218-231 | a transient status on anything but a location writes the retry stamp |
| UpdateInformation.BodyRetries | cron/update_information.js:148-237 | a 200 whose body does not parse as an object, or a war without both sides, writes the retry stamp |
| UpdateInformation.TransientWrite | cron/update_information.js:218-232 | the status switch on a transient status: a location is named after its system, anything else gets the retry stamp |
| UpdateInformation.StructureFallbackName | cron/update_information.js:225-228 | a transient failure on a location names it `<system name or id> Structure` and stamps it with `app.now()` |
| UpdateInformation.UnhandledLeavesRow | cron/update_information.js:215-234 | a 400 or an unhandled status writes nothing when the row has a URL, so the row stays as it was |
| UpdateInformation.NotModifiedTouch | cron/update_information.js:204-206 | a 304 only refreshes the stamp, so the row is not due again until a day later |
| EsiTables.EsiStructureUrl | cron/update_information.js:140-142 | structures are fetched from `/latest/universe/structures/<id>/` |
| EsiTables.EsiCharacterUrl | cron/update_information.js:143 | characters are fetched from `/v5/characters/<id>/` |
| EsiTables.EsiWarHasNoUrl | cron/update_information.js:40-53 | the job's table has no `war_id` template, so a war row gets no URL and `urls[row.type].replace` throws |
| InformationRounds.SortBySorts | cron/update_information.js:95 | the `sort({last_updated: 1})` order is sorted and a permutation of its input |
| InformationRounds.SmallestFirst | cron/update_information.js:95 | `limit(n)` after the sort takes `min(n, count)` rows, sorted, drawn from the input, and none of them newer than a row left out |
| InformationRounds.OldestDueSelects | cron/update_information.js:91-95 | the stale batch is ten due rows of the type (all of them when fewer), oldest first, and every due row left out is no older than any row taken |
| InformationRounds.UpdateFirst | cron/update_information.js:179 | `updateOne` keeps the number of rows and touches no row different from the filter |
| InformationRounds.UpdateFirstWrites | cron/update_information.js:179 | exactly the first row equal to the filter gets the write |
| InformationRounds.UpdateFirstMissing | cron/update_information.js:179 | with no row equal to the filter nothing changes |
| InformationRounds.Ran | cron/update_information.js:108-121 | `iterate` fetches rows from the cursor up to the first bailout, or all of them |
| InformationRounds.RoundBounded | cron/update_information.js:87-102 | a round fetches at most ten rows and sleeps 15 s exactly when it fetched none |
| InformationRounds.WaitingFirst | cron/update_information.js:93-95 | when a waiting row of the type exists the round fetches waiting rows, in collection order, pauses 1 s and makes no stale query |
| InformationRounds.StaleWhenNoneWaiting | cron/update_information.js:93-95 | with no waiting row the round refreshes the oldest due rows, in that order, up to the first bailout |
| InformationRounds.RunKeepsOthers | cron/update_information.js:104-127 | fetching rows of one type leaves every row of another type, and the number of rows, unchanged |
| InformationRounds.RoundKeepsOthers | cron/update_information.js:87-102 | a round for one type never changes a row of another type nor the number of rows |
| InformationRounds.Information.constructor | cron/update_information.js:78-85 | the collection starts with the given rows and no queued adds |
| InformationRounds.Information.UpdateOne | cron/update_information.js:179 | the collection becomes its `updateOne` value |
| InformationRounds.Information.FetchOne | cron/update_information.js:129-242 | one fetch updates the collection and the add queue as the fetch specification says |
| InformationRounds.Information.Iterate | cron/update_information.js:104-127 | the loop fetches the rows up to the first bailout, returns their count and leaves the store as the sequential run of those fetches |
| InformationRounds.Information.PopulateSet | cron/update_information.js:87-102 | one round of `populateSet` returns the specified count and pause and leaves the specified store |
| MarketGroups.Serve | update_market_groups.js:98-182 | a request with `retries` retries makes between 1 and `retries + 1` attempts |
| MarketGroups.ServeRetriesOnly | update_market_groups.js:143-175 | every attempt but the last is one the script retries, the last is not retried or was the final one, and the request settles as the last attempt says |
| MarketGroups.ServeAll | update_market_groups.js:263-270 | requests made one after the other, one per id |
| MarketGroups.ResolvedCount | update_market_groups.js:264-266 | the counter is bumped at most once per request |
| MarketGroups.Values | update_market_groups.js:370 | `Array.from(map.values())` lists the map's values in insertion order |
| MarketGroups.ValuesHave | update_market_groups.js:370 | every stored value is among them |
| MarketGroups.DedupSpec | update_market_groups.js:306-315 | the `Set` keeps exactly the ids added to it, each once |
| MarketGroups.AllTypeIdsSpec | update_market_groups.js:307-311 | the ids added are exactly the type ids of the stored groups |
| MarketGroups.UniqueTypeIds | update_market_groups.js:305-315 | the collected ids are every type id of every stored group, each exactly once |
| MarketGroups.CollectTypeIds | update_market_groups.js:306-315 | the nested `forEach` loops over the groups collect exactly those ids |
| MarketGroups.NameLeTotal | update_market_groups.js:372 | the name order standing for `localeCompare` compares any two names |
| MarketGroups.NameLeTrans | update_market_groups.js:372 | the name order is transitive |
| MarketGroups.SortByNameSorts | update_market_groups.js:370-372 | the sort by name orders by name and loses or adds nothing |
| MarketGroups.ChildrenRanked | update_market_groups.js:395-396 | a reached group's children are exactly the stored groups whose parent is `=== group.id`; each is reached too and ranked below it |
| MarketGroups.RootsLive | update_market_groups.js:370-371 | every group with a falsy `parent_group_id` is one the builders reach |
| MarketGroups.UnreachableCycleRanked | update_market_groups.js:370-401 | a parent cycle that no root reaches (groups 1 and 2 each the other's parent, beside a root 3) still admits the rank the builders require |
| MarketGroups.Named | update_market_groups.js:375-377 | the object assignments one per element, keyed by its name |
| MarketGroups.ObjectKeys | update_market_groups.js:375-377 | the object built by assignment has a key exactly when some element has that name |
| MarketGroups.ObjectSorted | update_market_groups.js:375-377 | assigning in name order leaves the object's keys in name order |
| MarketGroups.ObjectValue | update_market_groups.js:375-377 | whatever the object holds under a key was assigned by an element of that name |
| UpdateMarketGroups.ParseIntPrinted | update_market_groups.js:538 | `parseInt` reads back a printed integer, also when text that cannot continue the numeral follows it |
| UpdateMarketGroups.ParseIntNaN | update_market_groups.js:538 | text with no digit before its first non-space, non-sign character is NaN |
| UpdateMarketGroups.RateArg | update_market_groups.js:538 | `parseInt(next) \|\| 150` is never 0: NaN and 0 give 150 |
| UpdateMarketGroups.ParseArgs | update_market_groups.js:521-541 | the argument loop builds the options the switch specifies |
| UpdateMarketGroups.ArgsFlags | update_market_groups.js:525-536 | `verbose` is set exactly when `--verbose` or `-v` is given; `createBackup` and `useCache` are false exactly when `--no-backup` or `--no-cache` is given |
| UpdateMarketGroups.StepRate | update_market_groups.js:537-539 | `--rate-limit` sets the rate from the next argument; any other argument leaves it |
| UpdateMarketGroups.ArgsRateLimit | update_market_groups.js:537-539 | the rate is set exactly when `--rate-limit` is given, by the last one, from the argument after it |
| UpdateMarketGroups.Admit | update_market_groups.js:74-93 | the window restarts after a full window; a full window waits out its remainder and restarts; the request is counted, so the count stays between 1 and the limit |
| UpdateMarketGroups.Classification | update_market_groups.js:115-181 | 404 resolves to null and 304 to `{notModified: true}`; 200 resolves to the parsed body or rejects when it does not parse; 5xx, 420 or a request error with retries left makes one more attempt; everything else, and a timeout, rejects |
| UpdateMarketGroups.StoreGroupRule | update_market_groups.js:287-299 | a group is stored exactly when the reply has a truthy `name`, with description defaulting to `''` and types to `[]`; no other entry changes |
| UpdateMarketGroups.StoreTypeRule | update_market_groups.js:345-359 | a type is stored exactly when the reply has a truthy `name`, and is published unless the reply says `published: false`; no other entry changes |
| UpdateMarketGroups.StoreGroupKeeps | update_market_groups.js:291-297 | every stored group stays keyed by its own id |
| UpdateMarketGroups.StoreTypeKeeps | update_market_groups.js:349-357 | every stored type stays keyed by its own id |
| UpdateMarketGroups.RecordAllTouches | update_market_groups.js:263-270 | the group loop only stores groups and counts the ones that resolved; the type loop likewise only types |
| UpdateMarketGroups.RecordAllKeeps | update_market_groups.js:259-270 | however the detail requests are answered, the maps stay keyed by their records' ids |
| UpdateMarketGroups.ServeAllAppend | update_market_groups.js:259-270 | `m + n` requests in a row are `m` requests and then `n` more from where they stopped |
| UpdateMarketGroups.RecordAllAppend | update_market_groups.js:259-270 | recording the requests for `xs + ys` is recording those for `xs` and then those for `ys` |
| UpdateMarketGroups.RecordAdvance | update_market_groups.js:259-260 | the requests for the ids up to a batch's end are those before the batch followed by the batch's own |
| UpdateMarketGroups.EnhancedMarketGroupsUpdater.constructor | update_market_groups.js:22-53 | `rateLimit \|\| 150`, the `!== false` flags and empty maps and zeroed counters |
| UpdateMarketGroups.EnhancedMarketGroupsUpdater.EnforceRateLimit | update_market_groups.js:74-93 | the fields become the admitted rate window |
| UpdateMarketGroups.EnhancedMarketGroupsUpdater.MakeRequest | update_market_groups.js:98-182 | the reply is what the attempt stream settles to; every attempt is counted in `apiCalls` and goes through the rate window |
| UpdateMarketGroups.EnhancedMarketGroupsUpdater.FetchOne | update_market_groups.js:263-269 | one detail request updates the maps and the counter as the store rule says |
| UpdateMarketGroups.EnhancedMarketGroupsUpdater.FetchBatch | update_market_groups.js:263-270 | a batch requests its ids in order and records every reply |
| UpdateMarketGroups.EnhancedMarketGroupsUpdater.FetchDetails | update_market_groups.js:257-279 | the ids are split into batches of the loop's size and every one is requested in order and recorded |
| UpdateMarketGroups.EnhancedMarketGroupsUpdater.FetchMarketGroups | update_market_groups.js:247-282 | it throws exactly when the id list does not resolve to an array, and then changes no map; otherwise every listed group is requested and recorded |
| UpdateMarketGroups.EnhancedMarketGroupsUpdater.FetchTypeInformation | update_market_groups.js:304-340 | every unique type id of the stored groups is requested and recorded, in `Set` order |
| UpdateMarketGroups.SortedChildrenSpec | update_market_groups.js:394-397 | the sorted children are exactly the groups whose parent is the group, in name order, each ranked below it |
| UpdateMarketGroups.ListedTypesSpec | update_market_groups.js:404-408 | a type is listed exactly when one of the group's ids has a stored record that is published and named |
| UpdateMarketGroups.ListedIds | update_market_groups.js:405-407 | a listed record carries the type id it was listed under |
| UpdateMarketGroups.NodeItemsSpec | update_market_groups.js:403-416 | a node's items are one per listed type, keyed by its name, in name order, each `{item_id, name}` |
| UpdateMarketGroups.NodeEntriesShape | update_market_groups.js:399-401 | the subgroup assignments are one per child, keyed by its name, each the child's own node |
| UpdateMarketGroups.RootEntriesShape | update_market_groups.js:375-377 | the hierarchy assignments are one per root, keyed by its name, each the root's own node |
| UpdateMarketGroups.SubgroupKeys | update_market_groups.js:386-401 | a node copies its group's id and name and items; its subgroups are keyed by the names of exactly its children |
| UpdateMarketGroups.SubgroupsSorted | update_market_groups.js:395-401 | a node's subgroups are in name order |
| UpdateMarketGroups.SubgroupValue | update_market_groups.js:399-401 | a child whose name no sibling shares is stored under its name as its own node |
| UpdateMarketGroups.RootsMembers | update_market_groups.js:369-372 | the roots are exactly the groups with a falsy `parent_group_id`, in name order |
| UpdateMarketGroups.RootKeys | update_market_groups.js:364-381 | the hierarchy is keyed by the names of exactly the root groups |
| UpdateMarketGroups.RootsSorted | update_market_groups.js:369-377 | the hierarchy's keys are in name order |
| UpdateMarketGroups.RootValue | update_market_groups.js:375-377 | a root whose name no other root shares is stored under its name as its own node |
| UpdateMarketGroups.LoadCache | update_market_groups.js:204-223 | a cache is handed back only when caching is on, the file was read, its timestamp coerces to a number less than a day old, and that number is a valid `Date` for the log line |
| UpdateMarketGroups.TimestampValue | update_market_groups.js:208 | a numeric timestamp is taken as it is; only numbers, `null` and booleans coerce to a number |
| UpdateMarketGroups.CacheRoundTrip | update_market_groups.js:204-242 | a cache written at a valid `Date` time is reused later exactly when caching is on and less than a day has passed, and then hands back the data saved |
| PopulateMarketGroups.ClassificationGet | populate_market_groups.js:80-127 | a GET resolves a 200 to its parsed body or rejects when it does not parse, resolves a 404 to null, retries a 5xx or a request error while retries remain, and rejects everything else and a timeout |
| PopulateMarketGroups.ClassificationPost | populate_market_groups.js:152-196 | a POST has no 404 case: it resolves exactly on a 200 whose body parses, unless it is retried |
| PopulateMarketGroups.Copies | populate_market_groups.js:70-71 | every attempt of one request is logged at the request's endpoint |
| PopulateMarketGroups.StoreGroupDataRule | populate_market_groups.js:243-259 | a group is stored exactly when the reply is truthy (a 404's null is not), with name, description and parent as they came and types defaulting to `[]`; no other entry changes |
| PopulateMarketGroups.StoreTypeDataRule | populate_market_groups.js:360-378 | a type is stored exactly when the reply is truthy, with `published` as it came; no other entry changes |
| PopulateMarketGroups.DetailsAppend | populate_market_groups.js:219-221 | the detail requests for `a + b` are those for `a` followed by those for `b` |
| PopulateMarketGroups.DetailsSplit | populate_market_groups.js:219-220 | the requests from a batch's start on are the batch's, then the rest's |
| PopulateMarketGroups.DetailsRequests | populate_market_groups.js:219-259 | the detail requests only add to the log, each id adds attempts at its own endpoint and nothing else is requested; the group loop leaves the types alone and the type loop the groups |
| PopulateMarketGroups.DetailsFrame | populate_market_groups.js:243-259 | detail requests only append to the log and leave the other map alone |
| PopulateMarketGroups.DetailStepLogs | populate_market_groups.js:245 | one detail request logs at least one attempt, all at its endpoint |
| PopulateMarketGroups.DetailsEndpoints | populate_market_groups.js:219-221 | the endpoints logged are exactly those of the ids requested |
| PopulateMarketGroups.StoreNamesThrows | populate_market_groups.js:316-317 | the `forEach` throws exactly when some item is null or undefined |
| PopulateMarketGroups.StoreNamesStops | populate_market_groups.js:316-328 | the items before the first null one are stored and none after it |
| PopulateMarketGroups.StoreNamesStored | populate_market_groups.js:316-328 | every entry afterwards was there before or was written for an accepted `inventory_type` item under its id, with the fixed defaults; a key no accepted item carries keeps its entry |
| PopulateMarketGroups.StoreNamesComplete | populate_market_groups.js:316-328 | when no item is null every accepted item's id ends up stored |
| PopulateMarketGroups.StoreNamesKeeps | populate_market_groups.js:316-328 | stored keys stay stored |
| PopulateMarketGroups.TypeBatchRequests | populate_market_groups.js:282-293 | a batch first logs bulk attempts for exactly that batch; when the bulk step throws, one request per id of the same batch follows, and otherwise nothing |
| PopulateMarketGroups.BulkEmpty | populate_market_groups.js:307-308 | an empty batch makes no request and changes nothing |
| PopulateMarketGroups.GroupPhaseRequests | populate_market_groups.js:207-238 | the list request comes first; it throws exactly when the list is not an array, and otherwise exactly the listed groups' details are requested; the types are never touched |
| PopulateMarketGroups.MarketGroupsUpdater.constructor | populate_market_groups.js:17-27 | the limit is 150 per 1000 ms and the maps are empty |
| PopulateMarketGroups.MarketGroupsUpdater.EnforceRateLimit | populate_market_groups.js:39-61 | the early `return` leaves the window untouched |
| PopulateMarketGroups.MarketGroupsUpdater.MakeRequest | populate_market_groups.js:66-128 | the reply is what the attempt stream settles to, and each attempt is logged at the endpoint |
| PopulateMarketGroups.MarketGroupsUpdater.MakeRequestPost | populate_market_groups.js:133-202 | likewise for the POST, with its own settling rule |
| PopulateMarketGroups.MarketGroupsUpdater.FetchDetail | populate_market_groups.js:243-259 | one detail request with its own catch is one step of the specification |
| PopulateMarketGroups.MarketGroupsUpdater.FetchBatch | populate_market_groups.js:221-224 | a batch's requests, taken in order |
| PopulateMarketGroups.MarketGroupsUpdater.FetchInBatches | populate_market_groups.js:219-235 | the ids are split into consecutive slices of the batch size, all requested in order |
| PopulateMarketGroups.MarketGroupsUpdater.FetchMarketGroups | populate_market_groups.js:207-238 | the group phase of the specification, throwing where it throws |
| PopulateMarketGroups.MarketGroupsUpdater.FetchTypesIndividually | populate_market_groups.js:341-355 | slices of 10, requested id by id |
| PopulateMarketGroups.MarketGroupsUpdater.FetchTypeNamesBulk | populate_market_groups.js:307-336 | the bulk step of the specification; an empty batch changes nothing |
| PopulateMarketGroups.MarketGroupsUpdater.FetchTypeInformation | populate_market_groups.js:264-302 | the unique type ids in slices of 1000, each tried in bulk with the individual fallback when it throws |
| PopulateMarketGroups.ItemEntriesSpec | populate_market_groups.js:420-430 | an item entry is written for each of the ids with a stored record that is not `published: false` |
| PopulateMarketGroups.NodeItemsSpec | populate_market_groups.js:420-430 | a node's items have a key for each such id, named by the record, holding `{item_id: typeId, name}` |
| PopulateMarketGroups.NodeEntriesShape | populate_market_groups.js:415-417 | the subgroup assignments are one per child, keyed by its name, each the child's own node |
| PopulateMarketGroups.RootEntriesShape | populate_market_groups.js:393-395 | the hierarchy assignments are one per root, keyed by its name, each the root's own node |
| PopulateMarketGroups.SubgroupKeys | populate_market_groups.js:403-417 | a node copies its group's id, name and items; its subgroups are keyed by the names of exactly its children |
| PopulateMarketGroups.SubgroupValue | populate_market_groups.js:415-417 | a child whose name no sibling shares is stored under its name as its own node |
| PopulateMarketGroups.SubgroupsInMapOrder | populate_market_groups.js:411-417 | with no sort, children with distinct names appear in the order they were stored |
| PopulateMarketGroups.RootKeys | populate_market_groups.js:383-398 | the hierarchy is keyed by the names of exactly the groups with a falsy `parent_group_id` |
| PopulateMarketGroups.RootValue | populate_market_groups.js:393-395 | a root whose name no other root shares is stored under its name as its own node |
| PopulateMarketGroups.RootsInMapOrder | populate_market_groups.js:389-395 | with no sort, roots with distinct names appear in the order they were stored |
| ValidateMarketGroups.MissingIssuesSpec | validate_market_groups.js:53-58 | exactly the absent properties are reported, each under its subject, at most one issue each |
| ValidateMarketGroups.GenerateReport | validate_market_groups.js:154-167 | the report is valid exactly when there are no issues, lists them with their count, and counts the duplicate ids |
| ValidateMarketGroups.NotObjectNode | validate_market_groups.js:44-51 | a node that is not an object gets one issue and no further check; only the depth is recorded |
| ValidateMarketGroups.NotObjectItem | validate_market_groups.js:110-113 | an item that is not an object gets one issue and changes nothing |
| ValidateMarketGroups.GroupChecks | validate_market_groups.js:53-68 | a group gets one issue per absent property, one for an id that is not a positive number and one for a blank or non-string name, and no others |
| ValidateMarketGroups.ItemChecks | validate_market_groups.js:115-130 | likewise for an item's properties, `item_id` and name |
| ValidateMarketGroups.ItemMismatch | validate_market_groups.js:132-135 | an item stored under a key other than its name gets a mismatch issue, and only then |
| ValidateMarketGroups.DuplicateRule | validate_market_groups.js:137-146 | an id seen for the first time is recorded with its name; a repeat under the same name reports nothing; a repeat under another name keeps the first name, adds the id to the duplicates and reports one conflict |
| ValidateMarketGroups.ItemsExtend | validate_market_groups.js:94-97 | the item loop only appends issues |
| ValidateMarketGroups.SubgroupsExtend | validate_market_groups.js:77-79 | the subgroup loop only appends issues |
| ValidateMarketGroups.NodeIssuesStart | validate_market_groups.js:41-101 | whatever happens below an object node, its issues open with its own checks |
| ValidateMarketGroups.EnterIssuesStart | validate_market_groups.js:70-80 | the subgroup walk keeps the node's own issues at the front |
| ValidateMarketGroups.VisitItemsExtend | validate_market_groups.js:82-98 | the item check only appends issues |
| ValidateMarketGroups.ItemsKeepCounters | validate_market_groups.js:94-97 | the item loop never throws and leaves the group counters alone |
| ValidateMarketGroups.NodeSummary | validate_market_groups.js:41-101 | a node's walk throws exactly when the reference walk finds a node whose items object is empty while its `subgroups` is null or undefined (so `Object.keys` throws at line 89), and otherwise advances the counters by the reference summary |
| ValidateMarketGroups.EnterWalksSubgroups | validate_market_groups.js:70-79 | an object node with object subgroups counts them and walks each at the next depth, starting from its own issues |
| ValidateMarketGroups.AddsCombine | validate_market_groups.js:74-91 | counters advanced by one summary and then another are advanced by their combination |
| ValidateMarketGroups.EnterSummary | validate_market_groups.js:70-98 | the walk of an object node agrees with the reference summary of its subgroups and items |
| ValidateMarketGroups.VisitItemsSummary | validate_market_groups.js:82-98 | the item check throws exactly when the reference says, and otherwise adds the item count and an empty group when both objects are empty |
| ValidateMarketGroups.VisitSomeItems | validate_market_groups.js:85-97 | the items case: the walk goes on through the items |
| ValidateMarketGroups.ForestSummary | validate_market_groups.js:77-79 | a sequence of subgroups throws exactly when the reference says, and otherwise advances the counters by the reference forest summary |
| ValidateMarketGroups.RunSummary | validate_market_groups.js:203-234 | a report exists exactly when the file parses to an object and no group throws; `totalGroups` is the number of top-level keys and the other counters follow the reference walk from depth 0 |
| ValidateMarketGroups.ItemRemembers | validate_market_groups.js:137-146 | an item check never replaces a recorded name, only adds duplicates, and every duplicate is a recorded id |
| ValidateMarketGroups.ItemsRemember | validate_market_groups.js:94-97 | so does the item loop |
| ValidateMarketGroups.NodeRemembers | validate_market_groups.js:41-101 | so does a whole node's walk |
| ValidateMarketGroups.EnterRemembers | validate_market_groups.js:70-98 | so does the walk below an object node |
| ValidateMarketGroups.VisitItemsRemember | validate_market_groups.js:82-98 | so does the item check |
| ValidateMarketGroups.ForestRemembers | validate_market_groups.js:77-79 | so does the subgroup loop |
| ValidateMarketGroups.MarketGroupsValidator.constructor | validate_market_groups.js:13-24 | all counters zero and no item recorded |
| ValidateMarketGroups.MarketGroupsValidator.ValidateItem | validate_market_groups.js:106-149 | the issues and the new item records are the item check's |
| ValidateMarketGroups.MarketGroupsValidator.CheckItemProperties | validate_market_groups.js:115-135 | the item's own issues, changing nothing |
| ValidateMarketGroups.MarketGroupsValidator.CheckGroupProperties | validate_market_groups.js:53-68 | the group's own issues, changing nothing |
| ValidateMarketGroups.MarketGroupsValidator.ValidateGroupNode | validate_market_groups.js:41-101 | the issues, counters and whether it threw are the node check's |
| ValidateMarketGroups.MarketGroupsValidator.EnterGroupNode | validate_market_groups.js:44-80 | an object node up to and including its subgroups |
| ValidateMarketGroups.MarketGroupsValidator.FinishGroupNode | validate_market_groups.js:82-100 | the node from the item check on |
| ValidateMarketGroups.MarketGroupsValidator.ValidateSubgroups | validate_market_groups.js:77-79 | the subgroup loop, each child at the next depth under `name > key` |
| ValidateMarketGroups.MarketGroupsValidator.ValidateItems | validate_market_groups.js:94-97 | the item loop |
| ValidateMarketGroups.MarketGroupsValidator.Validate | validate_market_groups.js:203-234 | the file passes exactly when a report exists and is valid; the report and the counters are the specified ones |
| EveSso.CharAt | util/evesso.js:9 | `charAt` gives one character inside the string and the empty string outside it |
| EveSso.PickedSpec | util/evesso.js:9 | each draw appends at most one character, always from the 62-character alphabet, and exactly one when `floor(r * 128)` is below 62 |
| EveSso.CreateState | util/evesso.js:7-11 | the loop stops at the first prefix of draws that has picked 128 characters, and the state is those 128 alphabet characters |
| EveSso.LoginUrlFields | util/evesso.js:13-22 | the URL is the login prefix followed by exactly the five `&`-separated fields, in order, when no value contains `&` |
| EveSso.ScopeField | util/evesso.js:18 | the scope field is `scope=` for no scopes, and otherwise the scopes joined by single spaces, which split back out |
| EveSso.NumberOf | util/evesso.js:44 | `Number` of a blank string is 0 |
| EveSso.NumberOfPrinted | util/evesso.js:44 | `Number` reads back a printed natural number |
| EveSso.CharacterIdOfSubject | util/evesso.js:44 | the subject `CHARACTER:EVE:<id>` gives back the id |
| EveSso.StateChecked | util/evesso.js:24-39 | the callback fails with an invalid state exactly when the state differs from the expected one, and then makes no token request; otherwise it makes one |
| EveSso.LoginFromClaims | util/evesso.js:40-51 | a 200 login carries the character id read from the `sub` claim, and the claimed name and scopes |
| EveSso.CacheRule | util/evesso.js:57-84 | a truthy cached token is returned with no request and no write; otherwise one request is made, a non-200 fails with its status, and a token is cached under `evesso:access_token:<refresh token>` for `expires_in - 1` seconds and only when it is returned |
| LoadUniverse.SwapPermutes | cron/load_universe.js:20 | the destructuring swap permutes the array |
| LoadUniverse.Partner | cron/load_universe.js:19 | `floor(random * (i + 1))` is an index from 0 to `i` |
| LoadUniverse.ShuffleDownSpec | cron/load_universe.js:18-21 | the remaining steps permute the elements and leave every position above the current index alone |
| LoadUniverse.ShuffledPermutes | cron/load_universe.js:17-23 | the shuffle yields a permutation of its input, of the same length |
| LoadUniverse.TopDrawsKeep | cron/load_universe.js:18-21 | draws that pick the current index swap each cell with itself, so the array is unchanged |
| LoadUniverse.SwapCells | cron/load_universe.js:20 | the array becomes the swap of its old contents |
| LoadUniverse.Shuffle | cron/load_universe.js:17-23 | the array is shuffled in place, as the specification says, into a permutation of itself, and the same array is returned |
| LoadUniverse.LoadGuarded | cron/load_universe.js:8-15 | `app.regions` changes only when it was nullish and the reply was a 200; a set value means no request; an array reply is stored as a permutation of itself |
| LoadUniverse.LoadOnce | cron/load_universe.js:9 | after a successful array load, the next run makes no request and changes nothing |
| LoadUniverse.App.constructor | cron/load_universe.js:9 | the application object starts with the given regions |
| LoadUniverse.App.Exec | cron/load_universe.js:8-15 | one run of the job leaves `app.regions`, the request count and the exception as the specification says |

## Left out

- Concurrency. `Promise.all` and `Promise.allSettled` fan-out is modelled as sequential calls, in order. Not modelled: the `region_calls` and `region_page_calls` spin counters, the `concurrent` counter of `cron/update_information.js`, and the Redis `evec:lock:orderinsert` lock.
- Timers and sleeps: `app.sleep`, the 15-minute region reschedule and the retry delays. Time is a parameter, so these only move it, except for the two effects on the next lines.
- `Assist.RateGate.DoGet` holds one `rate_limit` for the whole call. In the source, the minute timer that re-runs `doSetRateLimit` (util/assist.js lines 31-35) can change `rate_limit` between the attempts of one `doGet`. That matters for a retry that crosses 10:59 or 11:10 UTC.
- `UpdateMarketGroups.EnhancedMarketGroupsUpdater.MakeRequest`, `PopulateMarketGroups.MarketGroupsUpdater.MakeRequest` and `PopulateMarketGroups.MarketGroupsUpdater.MakeRequestPost` settle a request time-out as one rejected attempt. In the source, `req.destroy()` before a response also makes the request emit `'error'`. The `'error'` handler then starts a detached retry, which passes the rate limiter, adds to `apiCalls` and uses up attempts after the caller has seen the rejection.
- Key order of objects with integer-like keys. JavaScript lists such keys first, in ascending order. The model keeps insertion order. The contracts below state the source's order only when no group or type name is an array index such as `"123"`:
  - `MarketGroups.ObjectSorted`: the object's keys in name order;
  - `UpdateMarketGroups.RootsSorted`: the hierarchy's keys in name order;
  - `UpdateMarketGroups.SubgroupsSorted`: a node's subgroup keys in name order;
  - `UpdateMarketGroups.NodeItemsSpec`: a node's item keys in name order;
  - `PopulateMarketGroups.SubgroupsInMapOrder`: subgroups in stored order;
  - `PopulateMarketGroups.RootsInMapOrder`: roots in stored order.
- The rate schedule's keys are integer-like and are written in ascending order, so for it the two orders agree.
- The orchestration around the core:
  - `f` of `cron/load_region_orders.js` (lines 19-29);
  - `run()` of both builders;
  - the `exec` entry points;
  - process exit codes;
  - `init`'s timer arming in `util/assist.js`, except the `initialized` flag.
- The shuffle of `cron/load_region_orders.js` (lines 11-17) is the same code as the one in `cron/load_universe.js`, so `LoadUniverse.Shuffle` models both.
- All file and network I/O:
  - `https` and `phin`;
  - backup, cache and output files, and `loadGroupsFile`;
  - `printReport` and its `statSync`;
  - `generateStats`, `toFixed` and file sizes;
  - console logging.
- Floating point. `minWaitTime` is an integer cross-multiplication, `(t - last) * rate > 1000`. `Number` values are integers.
- `localeCompare` is replaced by code-point order on names, a total order.
- A region order page is assumed to parse to a list of order records. A body of any other shape is not modelled.
- A group's `types` value that is not an array counts as having no elements.
- `JSON.parse` and JWT decoding (`parseJwt`, `atob`) are oracles: the parsed body and the decoded claims are inputs.
- Validator issue messages are structured `Issue` values, not formatted strings.
- `EveSso.NumberOf` does not parse the `Number` forms a character id never takes: hex, exponents, decimals and `Infinity`. They read as `None`, which stands for NaN.
- `EveSso.HandleCallback` leaves out the entity add and the `scopes` upsert, because they are database writes.
- `getEsiCall` in `util/evesso.js` is not part of this model. It is a thin wrapper around one request.
- `EveSso.GetAccessToken`: a non-numeric `expires_in` is modelled as an unparsable answer. The source passes the resulting NaN or coerced value on to `setex`.
- `EveSso.CreateState` requires the draws to contain enough hits for the loop to finish. The source loop runs until `Math.random()` supplies them.
- `LoadUniverse.ShuffleValue`: an object body with a numeric `length` property is stored unshuffled. The source would swap its indexed properties.
- `LoadUniverse.App.Exec` stores the shuffled array as a value. The source stores the array object, which may be aliased.
- `UpdateMarketGroups.EnhancedMarketGroupsUpdater.MakeRequest` and `PopulateMarketGroups.MarketGroupsUpdater.MakeRequestPost` do not model request bodies (`postData`), headers or URLs beyond the endpoint.
- `MarketGroups.Ranked` is a precondition of the tree builders. It asks for a rank that drops from parent to child on the groups the builders reach from the roots, and only on those. The builders read their groups from the fetched group map, or from the cache. With such a rank the recursion ends. Without one, a parent cycle can be reached from a root, and the source recurses without end. Such a cycle needs a falsy or repeated group id. Cycles that no root reaches are allowed (`MarketGroups.UnreachableCycleRanked`).
- `UpdateMarketGroups.LoadCache` follows the timestamp's number coercion only for numbers, `null` and booleans. A string or array timestamp counts as `NaN`, while the source coerces it.
- `Assist.RateGate.DoGet` covers a non-positive `rate_limit` only by the waiting result. The source sleeps until the next recomputation makes the limit positive.
- The command-line `--rate-limit` value is taken as parsed; a negative value is stored as given.
- `Assist.RateGate.CleanLimitObject`: the `limit_object` keys are integers. The source compares string keys with `now` numerically. The model visits the keys in the order given, where JavaScript visits integer keys in ascending order. Which keys are deleted does not depend on the order.
- String lengths count code points, where JavaScript counts UTF-16 units.
- White space in `trim` is the full ECMAScript set, written out explicitly.
