# The live-view pipeline of geospatial-intel, modelled and proved in Dafny

The server keeps aircraft and ships from polled feeds in a multi-resolution H3 index, answers viewport
queries from it, and streams to each browser only the difference to what that browser was sent before.
The browser replays the differences and animates between them. Every layer has a simple meaning that the
code reaches by an incremental route:

| layer | route taken by the code | simple meaning proved equal to it |
|---|---|---|
| spatial index | id lists, counts, totals and four tables updated in place | a map from external id to (entity, five cells), and a multiset of ghost entries |
| query | three scans over id lists | a filter of that map |
| store | last-seen marks, added/updated split, two-miss eviction | a function of the last two polls |
| hub | a table of sent versions, a one-slot channel | the replica is what the table says |
| wire | a hand-written JSON printer | a value tree, read back by a parser for RFC 8259 |
| browser | a marker cache and an interpolating engine | agreement with the server's table |

The layers compose. `Protocol.RunsAgreeExactly` says that over any interleaving of polls, broadcasts,
viewport updates, writes, receptions and animation frames on one connection, the browser always ends up
with exactly what the server recorded as sent, if and only if no push was dropped that would have told it
something. `Protocol.EndToEnd` and `Protocol.BroadcastEndToEnd` say that on such a run a viewport update, or
a broadcast, whose listing was pushed before the next poll leaves the browser, once its messages have arrived
and with no later push, with everything in view and nothing but the entities of the last two polls, each as
last polled; and as long as no entity lost its cell, with exactly the entities in view.

Check it with `dafny verify dfyconfig.toml`. Nothing in this project was executed; all claims are proofs
about the model.

## How it is organised

- `Entities`, `Numerals`: records and positional numerals.
- `Geography`: the H3 calls as uninterpreted functions, the Rust batch function, viewport to cells, and
  the page's longitude arithmetic.
- `Layers`, `IndexTables`, `Contents`: one index layer as a value, the id tables as a value, and the
  abstract content. `Batches`: what a batch does to any layer, and the life of a ghost. `SpatialIndex`
  holds the class `Index`, whose methods are proved against them.
- `Queries`: the scans and their specification, for exact and for damaged layers.
- `Polls`, `History`, `Store`: one poll as a function, the closed form of any number of polls, and the
  class `Store`.
- `Deltas`, `Hub`: the difference computation and the classes `Client` and `Hub`, with the recycled deltas
  and query buffers that share cluster maps by reference.
- `Json`, `Wire`, `Reading`: RFC 8259 texts and their parser, the printer, and what reading a printed
  delta gives.
- `Engine`, `Browser`: the classes `RadarEngine` and `Page`.
- `Protocol`: the transition system. Its steps use the relations `Pushes` and `Replies` that the methods of
  `Client`, `Store` and `Index` guarantee, and the state function `After`: `Store.Apply` keeps the predicate
  `Follows`, which says that the store is what the polls make it, and `StoreFinds` turns a query of such a
  store into a query step.
  Counting a poll, storing it and publishing its event are three steps.
- `Backoff`: the polling loop of the seeder.

## Where the code departs from the ideal

These are results of the model, not assumptions hidden in it.

- **Lost cells.** An update that moves a placed entity to a position the Rust engine rejects (in the model,
  any real position for which `accepts` is false; which positions H3 rejects is not modelled) skips the
  layers but overwrites the recorded cells (`spatial/index.go:217-219`, `:263`), which leaves a ghost entry.
  `BatchUpdateRust` keeps an exact layer exact if and only if the batch contains no such update;
  `Contents.LosesCell` is the guard, `AcceptedKeepsCells` and `RejectedLosesCell` say which inputs meet it.
  A damaged layer lists the recorded cells plus its ghosts, and its total exceeds the placed entities by their
  number (`Layers.TotalDrift`). The damage need not last: the quadratic removal pass clears a ghost when its
  own entity is removed together with another one recorded in the ghost's cell (`Batches.GhostCleared`,
  `Batches.ClearedByOthers`).
  It does last once the entity has been removed without that (`Batches.ForgottenGhostStays`). Meanwhile a
  live entity with a ghost in view is listed although it is not in view (`Queries.HauntedAnswer`), and
  clusters and the out-of-view entry count ghosts (`Queries.HauntedClusters`, `Queries.HauntedOutOfView`).
  The protocol covers all this; the end-to-end theorems then still promise everything in view and nothing
  that was not in the last two polls.
- **Lost deltas.** The table of sent versions is changed before the send (`server/hub.go:210-226`), and a
  full channel drops the delta (`:244-251`, `:323-328`). `Protocol.DroppingStep` says exactly when that
  breaks agreement: when the delta added or removed an id, or updated one visibly. `Protocol.LostDelta` is a
  run from the start in which it happens.
- **Lost clusters.** A recycled delta still refers to the cluster map it was last used with and clears that
  map when it is used again (`server/hub.go:201-204`, `:283-286`). If it is the map of the very query being
  pushed, this client and the later ones of its group get no clusters, and a delta with nothing else in it is
  not sent at all (`Hub.Client.ComputeAndSend`, `Hub.ClearedClusters`). Even a lone client is affected, since
  the query buffer is recycled too. Entities are not: `Hub.Broadcast` serves every client its complete
  entities, with all or none of the clusters. In the protocol a push may carry any part of the clusters found,
  because another goroutine may clear the map at any moment.
- **Reconnects.** A new connection starts from an empty table while the browser keeps its markers
  (`server/server.go:433-436`). `Browser.ReconnectAgrees` says exactly when the two agree again.
- **Zoom 4** asks for resolution 5, which no layer holds; the answer is empty (`Queries.NothingToScan`).
- **Cluster mode** reports cells outside the viewport unless the viewport scan was chosen
  (`Queries.ClusterScansSum`, `Queries.ClusterPerCell`). In detail mode the choice of scan never shows.
- **Push spacing** holds between broadcast pushes only; viewport pushes are not held back
  (`server/hub.go:256-329`).
- **Backing off** reaches 60 seconds only from an interval of 2 ns to 60 s: one and a half nanoseconds
  truncate to one, and an interval above 60 s is never cut (`Backoff.ReachesMaximum`).
- **Headings** are printed with one decimal, so one just below 360 arrives as 360; the engine shows it as 0
  (`Browser.WireHeadings`, `Engine.MetExactlyInTime`).
- The zoom table in the repository's `README.md:93-98` names other resolutions than
  `spatial/viewport.go:9-20`; the model follows the code.
- The page clamps latitudes to 89.9 degrees (`server/server.go:386-387`), so no browser ever sends the
  global viewport for which `IsGlobal` (`entity/entity.go:28-30`) provides.

## Model

| member | source | states |
|---|---|---|
| Layers.TakeOutKeeps | spatial/index.go:173-197 | In any layer, damaged or not, swap-removing an id takes one entry of it out of that cell's list and nothing else, with counts and total in step; where there is no such entry nothing changes |
| Layers.PutInKeeps | spatial/index.go:239-246 | In any layer, appending puts exactly one entry in, with counts and total in step |
| Layers.LayerInvIs | spatial/index.go:43-45 | The invariant of a layer (each placed id listed once, in its cell; no empty list; counts equal list lengths; total equals the number of placed ids) says exactly that the layer lists the placement and nothing more |
| Layers.RelocateKeeps | spatial/index.go:207-262 | A layer that lists the recorded placement plus some ghosts does so after one report, with the same ghosts; a report at a rejected position of a placed entity adds exactly one ghost, in its old cell |
| Layers.TotalDrift | spatial/index.go:214-263 | The total exceeds the number of placed entities by exactly the number of ghosts, and a layer is exact if and only if it has none |
| Layers.CountOfMembers | spatial/index.go:239-261 | The count kept for a cell is the number of entities placed there, and zero for a cell never touched or emptied |
| Layers.CountWithGhosts | spatial/index.go:239-261 | In any layer, damaged or not, the count kept for a cell is the number of entities placed there plus the number of ghosts there |
| Layers.CountSumIs | spatial/index.go:43-45 | The kept counts of any set of cells sum to the number of entities placed in those cells |
| Layers.TotalIsSum | spatial/index.go:43-45 | The kept total of a layer is the sum of the counts of its populated cells |
| IndexTables.ForgetKeeps | spatial/index.go:198-204 | Removing an external id keeps the live-id tables consistent and removes exactly that id from the content, also when it is unknown |
| IndexTables.ForgetAllView | spatial/index.go:198-204 | A removal list, with duplicates and unknown ids, removes exactly its ids from the content |
| IndexTables.StoreKeeps | spatial/index.go:207-265 | Interning and storing one entity overwrites exactly its id in the content; no internal id changes its meaning or is handed out twice |
| IndexTables.StoreAllKeeps | spatial/index.go:206-265 | Storing a batch keeps the tables consistent, means overwriting the content left to right, and never hands an internal id out twice |
| Batches.TakenOutLists | spatial/index.go:174-197 | One job takes, from any layer, one entry of its cell for each mention of a removed id, as far as there are any, and nothing else |
| Batches.SweptLists | spatial/index.go:173-197 | The whole pass takes out what its jobs strike, as far as it is there, and leaves every other entry, count and total in step |
| Batches.StrikesCount | spatial/index.go:174-197 | The quadratic pass strikes an entry once for every job of its cell and every mention of its id |
| Batches.RemovalsFollow | spatial/index.go:173-204 | The removal pass takes every removed id out of its recorded cell exactly once, in any layer; strikes beyond that clear ghosts of removed ids, and no other id is touched, even when several removed ids share a cell or one is listed twice |
| Batches.InsertionsFollow | spatial/index.go:206-265 | The insertions keep every layer in step with the recorded cells; its ghosts are the old ones and those the batch leaves behind |
| Batches.LostByIs | spatial/index.go:217-219 | A batch leaves ghosts behind if and only if some placed entity is reported at a rejected position |
| Batches.BatchSound | spatial/index.go:107-266 | Across whole batches a layer lists the recorded cells plus its ghosts, and the ghosts afterwards are a stated function of those before; the layer is exact if and only if there are none |
| Batches.GhostCleared | spatial/index.go:174-197 | Which removals clear a ghost, for any removal list, repetitions included: only those that mention its entity, once for every job of its cell and every mention, less the one strike that the entity's own placement takes |
| Batches.ClearedByOthers | spatial/index.go:174-197 | In a removal list without repetitions, as the store makes them, that is once for every other removed entity recorded in the ghost's cell |
| Batches.ForgottenGhostStays | spatial/index.go:198-204 | A ghost whose entity has been removed stays for ever: no later batch clears it or adds to it |
| SpatialIndex.Index.constructor | spatial/index.go:61-89 | A new index is valid and empty |
| SpatialIndex.Index.GetInternalID | spatial/index.go:96-105 | A known id keeps its number; an unknown one gets the next number of the counter |
| SpatialIndex.Index.SwapRemoveFrom | spatial/index.go:181-195 | Searching a list and swap-removing the id is the take-out step on that layer and leaves the other four alone |
| SpatialIndex.Index.AppendTo | spatial/index.go:239-245 | Appending is the put-in step on that layer and leaves the other four alone |
| SpatialIndex.Index.PrecomputeRemovals | spatial/index.go:123-135 | At each resolution the jobs are the recorded cells of the known removed ids, in order and with repetitions; unknown ids have none |
| SpatialIndex.Index.ExecRemovalJob | spatial/index.go:174-197 | One job strikes the removed ids one by one from the list of the job's cell, and touches no other resolution |
| SpatialIndex.Index.ExecRemovalJobs | spatial/index.go:173-197 | The quadratic pass is, per resolution, all its jobs in order against all known removed ids; what that does is stated by Batches.RemovalsFollow |
| SpatialIndex.Index.ForgetRemoved | spatial/index.go:198-204 | The table pass is the removal of the ids one by one; IndexTables.ForgetAllView says what that means |
| SpatialIndex.Index.ExecDeletions | spatial/index.go:173-204 | Layers first, then tables: exactly the removed ids leave the content, each layer makes the removal pass specified for the tables as they were before, and an exact layer stays exact |
| SpatialIndex.Index.RelocateAll | spatial/index.go:212-262 | All five layers make the relocation step for one entity, whether it is new or known |
| SpatialIndex.Index.InsertOne | spatial/index.go:207-265 | One loop iteration stores the entity in the tables, and every layer follows it from the cell recorded before |
| SpatialIndex.Index.ExecInsertions | spatial/index.go:206-266 | The insertions store the batch left to right and every layer follows each entity in its turn, with the cells taken from the scratch buffers |
| SpatialIndex.Index.ResetWhenEmpty | spatial/index.go:115-121 | Replacing three tables of an empty index loses nothing |
| SpatialIndex.Index.GrowBuffers | spatial/index.go:139-147 | The scratch buffers stay separate, of one length, and large enough |
| SpatialIndex.Index.ComputeCells | spatial/index.go:137-171 | The first slots of the reused scratch buffers hold the cells of this batch, whatever they held before |
| SpatialIndex.Index.BatchUpdateRust | spatial/index.go:107-266 | For any batch and removal list, from any state that earlier batches can leave: the content afterwards is the old one minus the removed ids, overwritten left to right by the batch, each record in the cells of its own position; every layer lists the recorded cells plus exactly the specified ghosts; an exact layer stays exact if and only if no placed entity loses its cell; internal ids keep their meaning |
| SpatialIndex.Index.ListedWhere | spatial/index.go:206-265 | In exact layers a live entity is listed at each of the resolutions 2, 3, 4, 6 and 7 in the H3 cell of its own position at that resolution and in no other, or nowhere if the position is rejected |
| SpatialIndex.Index.Answer | spatial/index.go:304-407 | The query at the zoom's resolution lists what the content has in view and the live entities with a ghost in view; from an exact layer entities and clusters are what the content says |
| SpatialIndex.Index.Query | spatial/index.go:268-411 | A query fails exactly when the polygon cells of the viewport cannot be computed at the zoom's resolution; otherwise it appends after what the buffer held, without duplicates, exactly the entities that a filter of the content by cell selects, and the live entities with a ghost in view. From an exact layer: an entity is listed if and only if its position is accepted and its resolution-6 cell (zoom 5 to 7) or resolution-7 cell (zoom 8 and up) is in view, and none below zoom 5; below zoom 4 the clusters are the inhabited resolution-3 cells looked at, with their entities counted; from zoom 5 on the one entry counts the accepted entities not listed |
| Contents.AcceptedKeepsCells | spatial_engine/src/lib.rs:30-42 | A batch whose positions the engine accepts takes no entity's cell away |
| Contents.RejectedLosesCell | spatial/index.go:217-219 | A placed entity reported at a rejected position loses its cell at every resolution where it was placed |
| Contents.BatchLocated | spatial/index.go:206-265 | After any batch every record stands under its entity's id and has the H3 cells of the entity's own latitude and longitude at resolutions 2, 3, 4, 6 and 7, or zeros if the position is rejected |
| Geography.ComputeResolutionsBatch | spatial_engine/src/lib.rs:28-43 | Slot by slot, for an accepted position the five outputs are the H3 cells of exactly that latitude and longitude at resolutions 2, 3, 4, 6 and 7; for a rejected one all five are zero |
| Geography.ViewportToCells | spatial/viewport.go:24-88 | For a global viewport the result is all cells of the world; for west <= east it is the polygon call with the four corners; across the antimeridian it holds, without duplicates, exactly the cells of the two polygons west to 180 and -180 to east, and is an error exactly when one of the calls fails |
| Geography.ViewportCellsAre | spatial/viewport.go:24-88 | The cells a viewport selects in the specification are these, corner by corner |
| Geography.NormalizeTurns | server/server.go:391-395 | Normalising moves a longitude into [-180, 180) by a whole number of turns |
| Geography.SelectionIsWhatTheMapShows | server/server.go:385-401 | Client normalisation followed by the server's split selects exactly the longitudes p for which some p + 360 k lies between the map's west and east edges |
| Geography.ClientLatitudes | server/server.go:386-401 | The message keeps the map's latitudes except that it cuts them at 89.9 degrees, and rounds the zoom to the nearest integer, halves up |
| Geography.BrowserIsNeverGlobal | server/server.go:386-387 | No map bounds and zoom make the page send a global viewport |
| Queries.LayerIndex | spatial/viewport.go:9-20 | The layer a zoom is answered from is the one of resolution 3 below zoom 4, 6 for zooms 5 to 7 and 7 from zoom 8 on, and none at zoom 4 |
| Queries.ScanList | spatial/index.go:322-335 | Scanning one id list adds the live entities not met before, each once, and counts the ids, whatever the list repeats |
| Queries.ScanPopulated | spatial/index.go:364-387 | The populated-cell scan meets exactly the ids listed in cells that are in view, and records counts for all populated cells |
| Queries.ScanViewport | spatial/index.go:340-363 | The viewport scan meets exactly the ids listed in the viewport's cells, and records counts for those cells |
| Queries.ScanLayer | spatial/index.go:319-387 | Whichever scan the size comparison chooses, the same ids are met, each once, even in a damaged layer |
| Queries.EmitClusters | spatial/index.go:396-407 | The clusters added are the positive counts under the hexadecimal names of their cells, in whatever order the map is ranged over |
| Queries.SeenNames | spatial/index.go:321-387 | Through the id tables, the internal ids met by a scan are exactly the external ids the content has in view, equally many |
| Queries.SeenEntities | spatial/index.go:328-332 | The entities found for the ids in view are exactly the visible entities of the content |
| Queries.AnswerIsSpecified | spatial/index.go:316-407 | What a scan of valid layers found is exactly what the content answers: entities without repetition, and clusters |
| Queries.AnswerListsByPosition | spatial/viewport.go:9-20 | An answer lists an entity if and only if its position is accepted and its own cell, at resolution 6 for zooms 5 to 7 and at resolution 7 from zoom 8 on, is in view; below zoom 5 it lists none |
| Queries.AnswerClustersByPosition | spatial/index.go:336-407 | Below zoom 4 a cluster stands under a cell's hexadecimal name if and only if accepted positions lie in that resolution-3 cell and the cell is in view, or the viewport has no fewer cells than are inhabited, or is the world; it counts them and stands at the cell's centre |
| Queries.AnswerCountsOutside | spatial/index.go:389-394 | From zoom 5 on the cluster map has one entry at latitude and longitude zero that counts the accepted entities not listed, and no entry if there are none |
| Queries.HauntedSees | spatial/index.go:321-387 | A scan of a damaged layer meets exactly the placed ids in view and the ids of the ghosts in view |
| Queries.HauntedAnswer | spatial/index.go:316-394 | A damaged layer lists everything in view and, besides, exactly the live entities with a ghost in view |
| Queries.HauntedClusters | spatial/index.go:396-407 | A damaged layer reports a cluster for exactly the scanned cells that hold live entities or ghosts, and counts both |
| Queries.HauntedOutOfView | spatial/index.go:389-394 | The out-of-view entry of a damaged layer is all placed entities and all ghosts less the ids met, each id met once |
| Queries.NothingToScan | spatial/viewport.go:13-14 | Zoom 4 lists nothing and adds no cluster |
| Queries.DetailConserves | spatial/index.go:389-394 | From zoom 5 on, the number listed plus the out-of-view count (zero when absent) is the number of all placed entities, and no other cluster is reported |
| Queries.ClusterCountsSum | spatial/index.go:396-407 | The reported counts of any set of cells sum to the number of entities in them |
| Queries.ClusterScansSum | spatial/index.go:336-385 | Below zoom 4 the counts sum to the population in view when the viewport scan is chosen, and to the whole placed population otherwise |
| Queries.ClusterPerCell | spatial/index.go:396-407 | A cluster stands under a cell's name exactly when the cell is reported and populated; it counts the live entities of that cell and stands at the latitude and longitude of its centre |
| Numerals.DigitsRoundTrip | entity/entity.go:48 | Positional evaluation inverts printing, in base 10 and 16 |
| Numerals.NoLeadingZero | entity/entity.go:48 | A printed number has only digits and no leading zero, as JSON demands |
| Numerals.HexInjective | spatial/index.go:400 | Different cells have different names |
| Queries.CellNameReads | spatial/index.go:400 | A cell's name is its number in hexadecimal, lower case, without leading zeros |
| Polls.SplitKeepsOrder | store/store.go:198-208 | Added followed by updated keeps all occurrences of every id in their order in the poll |
| Polls.AddedAre | store/store.go:202-206 | The added entities have exactly the unknown ids of the poll, each once |
| Polls.InsertedIs | spatial/index.go:207-265 | Writing a batch over a content keeps for each id the last entity written and leaves the other ids alone |
| Polls.SplitKeepsContent | store/store.go:198-229 | The reordered batch leads to the same content as the poll in its own order, duplicates included |
| History.StoreHistory | store/store.go:181-229 | After any number of polls the tracked ids are those of the last two, each entity is its last occurrence in the newer of these polls that contains it, with that poll's number as version, and the index holds exactly these |
| History.PublishedAt | store/store.go:198-208 | What a poll publishes under an id is the last of its entities with that id, unchanged but for the version, which is the poll's number |
| History.StoreHolds | store/store.go:181-229 | The index holds an id if and only if one of the last two polls has an entity with it; it then holds the last such entity of the newer of these polls, with that poll's number as version, in the cells of its own position |
| History.EvictedIs | store/store.go:210-219 | The ids evicted by a poll are those of the poll before the previous one that both polls since have missed |
| History.RemovedExactly | store/store.go:210-219 | Over whole runs an id is reported removed by exactly the second consecutive poll that misses it, never earlier, never again |
| History.ChangedExactly | store/store.go:239-250 | The Changed list of each event holds exactly the ids of its poll |
| History.RemovedAlternates | store/store.go:239-251 | Between two events that report an id removed, some event reports it changed, and no event reports it both changed and removed |
| Store.Store.constructor | store/store.go:97-107 | A new store is the initial state with a valid, empty and exact index: what the empty series of polls makes it |
| Store.Store.SplitPoll | store/store.go:198-208 | The loop yields the added and updated lists, the set of polled ids and the new marks; an id repeated in one poll counts as updated from its second occurrence |
| Store.Store.Sweep | store/store.go:210-219 | The eviction loop, which changes the map it ranges over and subtracts in unsigned 64 bits, evicts exactly the ids missed for the second time, each once, and never wraps around |
| Store.Store.Absorb | store/store.go:188-229 | Stamping, splitting, eviction and the index batch together make the specified step, with the changed and the evicted ids in the buffers |
| Store.Store.Apply | store/store.go:181-259 | The state afterwards is the specified function of the old state and the poll, and store and index stay valid; an exact layer stays exact if and only if no entity loses its cell; a store that followed a series of polls follows it with this one added; the event lists exactly the changed and the evicted ids; each subscriber's one-slot channel keeps an older event instead |
| Store.Store.Query | store/store.go:282-284 | Into cleared buffers a query gives a complete answer from an exact layer, from a damaged one a listing of everything in view in which every entity is live and current; it fails exactly when the selection does |
| Store.FirstEventWaits | store/store.go:253-258 | Of the events published while a subscriber is busy it gets the oldest and no other |
| Deltas.ListsAre | server/hub.go:206-218 | Added are exactly the listed entities never sent, updated exactly those sent in an older version, none twice |
| Deltas.SeenAfterIs | server/hub.go:206-226 | Afterwards the table holds exactly the listed ids, each with the newer of the recorded and the listed version |
| Deltas.DeltaIsTidy | server/hub.go:206-226 | The three id lists of a delta are free of duplicates and pairwise disjoint; the removed are the sent ids no longer listed |
| Deltas.SeenNeverGoesBack | server/hub.go:206-226 | While an id stays in the table its version never decreases, however stale the listing |
| Deltas.Coalescing | server/hub.go:206-226 | When versions do not go back, passing through one listing to a second ends in the same table as going to the second directly |
| Hub.Client.ComputeDelta | server/hub.go:206-226 | The two loops over the live table compute the delta from the old table to the listing, and leave the new table |
| Hub.Client.DropUnlisted | server/hub.go:220-226 | Deleting from the map while ranging over it drops exactly the unlisted ids and reports each once |
| Hub.Client.Send | server/hub.go:228-251 | An empty delta is skipped, one for a full channel is lost without a trace, any other is queued as a text of that delta and the push time is recorded |
| Hub.Client.ComputeAndSend | server/hub.go:190-252 | One broadcast push is the push step of the protocol; its clusters are those of the query, unless the recycled delta still refers to the very map of this query: then they are gone, for this client and for those after it |
| Hub.Client.HandleViewportUpdate | server/hub.go:254-329 | A viewport update sets the viewport, and unless the query fails makes one push step with the complete entities for the new viewport, regardless of the push interval; the clusters go along unless the recycled delta refers to the buffer |
| Hub.ClearedClusters | server/hub.go:228-232 | Below zoom 5 a client that holds no entity is sent the clusters if they are still there, and nothing at all if they were cleared |
| Hub.Hub.Unregister | server/hub.go:112-117 | The client leaves and exactly its channel is closed; every remaining client's channel is open |
| Hub.Hub.GroupByViewport | server/hub.go:129-133 | Every client is in the group of its own viewport and in no other |
| Hub.Hub.PickEligible | server/hub.go:139-146 | Exactly those clients of a group are picked that were never pushed to or whose last push is at least their interval ago |
| Hub.Hub.PushAll | server/hub.go:170-177 | For the entities, one listing shared by a group serves each of its clients as if it were alone; of the clusters each gets all or none |
| Hub.Hub.ServeGroup | server/hub.go:139-179 | One query for a group serves each of its eligible clients and changes no other |
| Hub.Hub.Broadcast | server/hub.go:120-188 | One store event reaches exactly the clients that were never pushed to, or not for their interval, and whose viewport can be queried: each ends with the table of a reply with the complete entities for its own viewport and all or none of the clusters, and is told the difference if there is any and its channel is free; every other client stays exactly as it was |
| Hub.ServedIsReached | server/hub.go:139-177 | The push step in these terms: who is reached, what the table becomes, what is queued and when the push time moves |
| Json.QuotingIsExact | entity/entity.go:77-84 | A string written between quotes as it is reads back, whatever follows, if and only if it has no quote, backslash or control character |
| Json.ValueRoundTrip | entity/entity.go:46-136 | Parsing a printed value returns it together with the rest of the input |
| Json.TextRoundTrip | entity/entity.go:46-136 | A printed value is a whole JSON text (sections 2 to 7 of RFC 8259) and parses to that value |
| Wire.WriteEntityFast | entity/entity.go:112-136 | The string fragments of the source, written in order, are the JSON text of the entity's eleven members |
| Wire.WriteEntities | entity/entity.go:50-72 | A non-empty list is written as one more member, an empty one not at all |
| Wire.WriteRemoved | entity/entity.go:74-86 | The removed ids are written as an array of strings, or not at all |
| Wire.WriteClusters | entity/entity.go:88-108 | The cluster map is written as an object in whatever order it is ranged over, or not at all |
| Wire.WriteCluster | entity/entity.go:97-105 | One cluster is written as the JSON object of its three members |
| Wire.MarshalFast | entity/entity.go:46-110 | The one-pass output is the JSON text of the delta's value tree |
| Reading.FixedValue | entity/entity.go:117-126 | A number printed with one or six decimals is a JSON number with exactly so many decimals, negative exactly when the number is, and reads as the value rounded to those decimals |
| Reading.RoundedIsClose | entity/entity.go:117-126 | Printing moves a number by at most half a unit of the last printed place |
| Reading.RoundedToEven | entity/entity.go:117-126 | A printed number is the nearest whole number of units of its last place, and of two equally near ones the even one |
| Reading.OnWireIsClose | entity/entity.go:112-136 | The wire changes no string and no time of an entity, moves latitude and longitude by at most half a millionth and altitude, heading and speed by at most a twentieth, and drops the version |
| Reading.WholeValue | entity/entity.go:134 | A printed integer, negative ones included, reads back |
| Reading.EntityReads | entity/entity.go:112-136 | Reading the members of an entity by name gives the entity at the printed precision, without its internal version |
| Reading.DeltaReads | entity/entity.go:46-110 | Reading a delta's tree, absent members as empty, gives the delta at the printed precision, whatever the cluster order |
| Reading.WireRoundTrip | entity/entity.go:46-136 | Any text of a delta whose strings need no escape parses as JSON and reads back as that delta at the printed precision |
| Engine.RadarEngine.UpdateTargets | frontend_wasm/src/lib.rs:65-101 | The loops place the added, retarget the known updated and drop the removed aircraft, in that order, and touch no other |
| Engine.RadarEngine.Tick | frontend_wasm/src/lib.rs:103-118 | Every aircraft moves to its interpolated position |
| Engine.TurnIsShortest | frontend_wasm/src/lib.rs:110-113 | The turn is at most 180 degrees and leads from the start to the target heading |
| Engine.TickedHeading | frontend_wasm/src/lib.rs:110-116 | For reported headings in [0, 360] the shown heading lies in [0, 360) and is the reached point of the turn up to a full circle |
| Engine.AngleLeft | frontend_wasm/src/lib.rs:110-116 | The angle between shown and target heading is the part of the turn not yet made |
| Engine.NeverFurther | frontend_wasm/src/lib.rs:104-116 | As time advances between updates neither the distances nor the angle to the target grow |
| Engine.MetExactlyInTime | frontend_wasm/src/lib.rs:105-116 | Each coordinate is on target, and the heading shows the target's direction, if and only if the interval has passed or they started there |
| Engine.LastTickCounts | frontend_wasm/src/lib.rs:103-118 | An earlier tick leaves no trace in a later one |
| Engine.UpdateIsSmooth | frontend_wasm/src/lib.rs:80-95 | An update right after a tick, followed by a tick at the same instant, leaves the shown position and heading unchanged |
| Engine.CourseAfterUpdate | frontend_wasm/src/lib.rs:80-118 | After an update, a tick when a fraction f of the interval has passed shows a known aircraft f of the way on the straight line from where it was shown to where it was reported, and its angle to the reported heading reduced to 1 - f of what it was |
| Engine.ArrivalAfterUpdate | frontend_wasm/src/lib.rs:80-118 | From the moment the interval has passed since the update it is shown where it was reported, with the reported heading, speed and altitude |
| Engine.StandsBeforeUpdate | frontend_wasm/src/lib.rs:104-108 | At an instant not after the update it is shown where it was |
| Engine.OthersAfterUpdate | frontend_wasm/src/lib.rs:65-118 | After an update, new aircraft stand where they were reported at every instant, removed ones are gone, and those not mentioned move as before |
| Engine.NewTargetStandsStill | frontend_wasm/src/lib.rs:70-78 | A new aircraft is shown where and how it was reported at every instant until its next update, 360 degrees being shown as 0 |
| Engine.RunHeadings | frontend_wasm/src/lib.rs:65-118 | Over any run of updates and ticks, with reports in [0, 360], all headings stay in [0, 360], and after every tick below 360 |
| Engine.TickKeepsGoal | frontend_wasm/src/lib.rs:103-118 | Ticks change neither the set of aircraft nor where they are heading |
| Browser.Page.ProcessDelta | server/server.go:404-423 | Replaying a delta updates markers and engine to the specified replica |
| Browser.ReplayedIs | frontend_wasm/src/lib.rs:65-101 | A tidy delta puts in exactly the added and updated entities, takes out exactly the removed, and leaves everything else as it was, in markers and engine alike |
| Browser.ReplayAgrees | server/hub.go:190-226 | If the replica is what the table records, then after replaying the delta of any genuine listing, stale or not, it is what the new table records |
| Browser.ReconnectAgrees | server/server.go:433-436 | After a reconnect and the first listing, replica and table agree if and only if the kept replica held no id outside that listing |
| Browser.WireHeadings | entity/entity.go:124 | A heading in [0, 360] stays there on the wire, but 359.96 arrives as 360 |
| Protocol.InitialInv | server/hub.go:96-102 | A new connection with an empty replica agrees |
| Protocol.AnswersAreGenuine | server/hub.go:153-164 | Whatever a query finds, even in a damaged index, was published by the poll its version names, and its cluster names need no escape |
| Protocol.StoreFinds | store/store.go:282-284 | A store driven by a series of polls answers a query with what the protocol's query steps may find |
| Protocol.ReceivedSame | frontend_wasm/src/lib.rs:65-101 | When a message arrives, and how far the animation had come, does not change what the browser knows afterwards |
| Protocol.SettledStays | server/handler.go:54-71 | Writing, receiving, animating, polling and querying do not change what the browser will know once all messages have arrived; only pushes do |
| Protocol.StepKeepsInv | server/handler.go:53-71 | Every step except a drop keeps: with all queued and travelling messages received, the replica holds exactly the ids of the table, each in the recorded version's content |
| Protocol.RunsAgree | server/hub.go:190-329 | On every run that drops no harmful push, under every interleaving, with stale answers, old viewports, lost clusters and lost cells, that agreement holds in every state |
| Protocol.RunsAgreeExactly | server/hub.go:243-251 | Agreement holds in every state of a run if and only if every push it dropped was harmless |
| Protocol.LostDelta | server/hub.go:323-328 | It does happen, in every viewport from zoom 5 on that has latitude and longitude zero in view: with two polls of one entity each and two viewport updates, the second delta finds the channel full, and the replica misses an entity for which the table has a version |
| Protocol.SkippingIsHarmless | server/hub.go:139-150 | Two pushes and one push of the later listing end in the same table and the same knowledge, which justifies dropped store events and skipped clients |
| Protocol.DropCosts | server/hub.go:243-251 | Losing a delta breaks agreement if and only if it added or removed an id or updated one to a content different from the one sent before |
| Protocol.DroppingStep | server/hub.go:323-328 | A dropping step keeps the invariant if and only if its delta was harmless: it added and removed no id, and every update repeated what was sent before |
| Protocol.ViewportPushShows | server/hub.go:256-329 | A viewport push that keeps agreement leads, whatever was sent before, to a replica with everything in view and nothing but current entities of the last two polls, and to exactly the viewport's entities if the query found an answer |
| Protocol.BroadcastPushShows | server/hub.go:190-252 | A broadcast push does the same for the viewport that was queried |
| Protocol.CoveredShows | server/hub.go:206-226 | A table brought up to a listing from a damaged index still agrees with a replica that has everything in view, at most the last two polls, and every entity as last polled |
| Protocol.ShowsPositions | server/hub.go:206-226 | The expected picture, position by position: the markers are exactly the stored entities whose own cell at the zoom's resolution is in view, each as stored at the printed precision, and the animation heads for their positions |
| Protocol.EndToEnd | server/hub.go:256-329 | The end-to-end theorem stated above for a viewport update, on every run that drops no harmful push, with and without lost cells; without, the browser shows exactly the stored entities whose own position lies in a cell in view |
| Protocol.BroadcastEndToEnd | server/hub.go:120-252 | The same for a broadcast and the viewport it queried, even if the viewport was changed meanwhile |
| Protocol.VersionsNeverGoBack | server/hub.go:206-218 | On every run, drops included, the recorded version of an id does not decrease while the id stays |
| Protocol.StepKeepsPace | server/hub.go:139-177 | Every step keeps what the broadcaster knows about the time of its last accepted push |
| Protocol.BroadcastsAreSpaced | server/hub.go:40-44 | On every run any two accepted broadcast pushes are at least the push interval apart, however viewport pushes interleave |
| Protocol.AcceptedKeeps | spatial_engine/src/lib.rs:30-42 | Polls at accepted positions take no cell away, after any history |
| Protocol.AnswerExists | store/store.go:282-284 | Every viewport whose cells can be computed has a complete answer in every state, so no query step is stuck |
| Protocol.PushExists | server/hub.go:190-252 | Every listing can be pushed, and an empty channel never drops |
| Backoff.Run | seeder/seeder.go:37-77 | The wait after a success is the interval, after a rate limit the requested time, and after any other error the wait before it times one and a half, truncated and cut at 60 seconds, or the same again if it was not below 60 seconds; entities are handed on once per success |
| Backoff.ErrorsInARow | seeder/seeder.go:44-65 | A row of generic errors starts from the delay before it, whatever came earlier |
| Backoff.ErrorsGrow | seeder/seeder.go:51-57 | Generic errors in a row never shorten the delay and never push it past 60 seconds |
| Backoff.ErrorsAreMonotone | seeder/seeder.go:51-57 | A larger starting delay stays the larger one |
| Backoff.SlowestStart | seeder/seeder.go:51-57 | From 2 ns the maximum is reached at the 61st error and not before |
| Backoff.ReachesMaximum | seeder/seeder.go:51-57 | For every interval, from 61 errors on the delay is 60 seconds if and only if the interval lies between 2 ns and 60 s |
| Backoff.DelayIsBounded | seeder/seeder.go:47-57 | The delay never exceeds the largest of the interval, 60 seconds and the retry-after times received |
| Backoff.RetryAfterBounds | seeder/seeder.go:47-57 | After a rate limit, errors in a row wait at most the larger of 60 seconds and the last retry-after |

## Left out

- SpatialIndex.Index.BatchUpdateRust: assumes that the 32-bit id counter does not overflow in the batch; the code would reuse numbers after 2^32 new ids.
- SpatialIndex.Index.GetInternalID: same assumption on the 32-bit id counter.
- SpatialIndex.Index.InsertOne: same assumption on the 32-bit id counter.
- SpatialIndex.Index.ExecInsertions: same assumption on the 32-bit id counter.
- Store.Store.Apply: assumes that fewer than 2^64 polls have been applied, and the id counter has room for the poll.
- Reading.WireRoundTrip: only for strings without quote, backslash and control characters; for others the printer's output is not what was meant, see Json.QuotingIsExact.
- Protocol.EndToEnd: for polls whose strings need no escape, per connection, starting from an empty replica and while the client is registered; exact only for polls so far that took no cell away, or if the query found an answer.
- Protocol.BroadcastEndToEnd: the same conditions.
- Protocol.RunsAgree: the same strings and connection.
- Hub.Client.Send: requires an open channel, as the code panics on a closed one; so do the members that call it.
- Hub.Hub.Unregister: a push in progress to a client that is just being unregistered is not modelled.
- Hub.Hub.Broadcast: one point in time stands for a whole round, and the viewport of a client is read once; the protocol lets time pass and viewports change between its steps.
- Engine.RadarEngine.Tick: the interval is positive; for a zero interval the code divides by zero in floating point.
- Engine.RunHeadings: reported headings outside [0, 360] are not considered.
- Backoff.Run: processes a finite list of fetch outcomes instead of running until cancelled; the floating-point multiplication by 1.5 is exact for the delays that occur.
- H3 geometry: cell of a position, cells of a polygon and cell centres are uninterpreted functions; only "a cell is not zero" is used. A centre that H3 cannot compute is not distinguished.
- Rounding of floating-point numbers, infinities, not-a-number and negative zero: positions and times are reals, printing rounds half to even. The positions for which H3 reports an error are those for which `accepts` is false, an arbitrary set of reals here.
- HTTP, WebSocket transport, pings, feeds, tokens, route lookup and shutdown: input and output. A message that was written arrives, in order.
- Recycling through sync.Pool: modelled only for the cluster maps that recycled deltas and query buffers share; other recycled objects are fresh values.
- The SQLite history, its channel and its worker: their behaviour lies in the database.
- Locks: the index and store locks make each batch and query atomic, which is what the model's steps assume.
- The order of Seq numbers on deltas: the code does not guarantee one.
- The page's hash-to-id cache, side panel, map drawing, the engine's data buffer and raw pointers: no effect on the replica.
- The loop that swap-removes and the one that appends occur twice in the source and are one method each here; the global scan and the populated-cell scan differ in one test and are one method.
