# Order book aggregation, subscription gateway and routing: a verified model

This project models the stateful parts of a prediction-market aggregator and proves what they
guarantee over all inputs and all runs.

- **Order book and change feed** (`Levels`, `History`, `Ranking`, `Books`, `Store`, `Feed`, `Adapter`).
  A book keeps, per side, price -> platform -> size. Snapshots replace one platform's cells, deltas
  overwrite single cells, and after each message the service publishes the full aggregated level at
  every price the message names. Clients keep a replica from that feed.
- **Subscription gateway** (`Subjects`, `Registry`, `Gateway`). One relation, "client holds pattern",
  is stored four times. Lookups take a fast path through two of the copies.
- **Delivery** (`Delivery`). The first two together, with clients' requests and published events in any order:
  which change events reach a subscriber, and how its replica compares with the book.
- **Supervisor and workers** (`Protocol`, `Ownership`, `Supervision`, `Workers`, `Fleet`, `ReadOff`,
  `Interleaving`). A
  supervisor hands token ids to workers of bounded capacity over channels, while the workers' connections come and
  go, also in the middle of a call.
- **Best-price cache and router** (`Caching`, `FeedCache`, `Routing`). A cache follows change messages and a router
  picks a platform. `FeedCache` puts the cache behind the order book service's own feed.

`dafny verify dfyconfig.toml` checks everything.

## How the model is built

Types that the program updates in place are classes (`Books.Orderbook`, `Store.OrderbookStore`,
`Feed.OrderbookService`, `Gateway.ClientState`, `Gateway.ClientRegistry`, `Supervision.Supervisor`,
`Workers.PolymarketHandler`, `Workers.WsManager`, `Caching.BboCache`, `Routing.SmartRouter`). Each of their
methods states its whole effect as a function on values, and the lemmas are about those functions: besides what holds
between operations, they tell each operation's result from its raw input (`Levels.SnapshotCell`, `Levels.DeltaCell`,
`Feed.FeedTellsBook`, `Adapter.TransformedCell`, `Gateway.RegistryRefinesRequests`, `Protocol.ScriptOutcome`,
`ReadOff.FleetReadOff`). Iteration over
a hash map or hash set picks its elements in an arbitrary order. Prices and sizes are exact decimals; text is turned
into decimals by a parser that is a parameter, and failed parses are skipped or reported as the program does. The
one assumption about the decimal library, used only where published text is read back, is that printing a decimal
that was read from text and reading it back gives the same decimal (`Codec.Faithful`); `Schema.NaturalsAreFaithful`
exhibits a codec that meets it. Whether a send succeeds, whether a connection attempt
succeeds, and when a connection is lost are parameters or events.

## Where the program does not do what it says

- **Silent removals.** In the documented wire format a removed price level is published with no platforms. A snapshot that
  takes away a level of its platform without naming the price publishes nothing. `Feed.AgreementAfterMessage` gives
  the exact condition for one message, `Feed.ReplicaLag` the exact set of stale levels after any run from any start,
  `Feed.EmptySnapshotDrops` two messages that make it happen.
- **The search considers unregistered platforms.** The comment on the platform search says that only platforms
  with an executor are considered. The code picks the best price first and checks registration afterwards.
  `Routing.SearchIsAsDocumentedIff` gives the exact condition, `Routing.SearchIgnoresRegisteredRunnerUp` an input.
- **The cache does not see removals.** The executor's cache clears a price on an explicit zero size, which the order
  book service never publishes. On that feed the cache holds, whenever the executor was started, the best price it was
  shown a platform with since (`FeedCache.CacheIsBestEverShown`). This is the platform's best price if and only if it
  was shown and nothing better was (`FeedCache.CacheIsExactIff`). `FeedCache.CacheStaysExactIff` gives the exact
  condition for one message, `FeedCache.DepartureHappens` a run in which a platform leaves a level that another keeps.
- **One unreadable price hides the rest of a message.** The book skips entries it cannot parse, and publishes their
  prices all the same; the executor stops reading at the first of them. This is the second half of the condition in
  `FeedCache.CacheStaysExactIff`; `FeedCache.HiddenBidHappens` is a run in which the cache misses the only bid.
- **Runners-up are forgotten.** Even with explicit removals the cache is exact only until the cached price is
  removed while another one is live (`Caching.ExactnessAfterQuote`, an if-and-only-if; `Caching.RunnerUpIsForgotten`
  is an input).
- **Duplicates within one request.** The supervisor checks new ids against its workers only, so an id named
  twice in one request is owned twice (`Ownership.OwnedOnceAfterSubscribe`, an if-and-only-if), and the two ends of a
  channel then differ as lists (`Fleet.GiveKeepsOrderIff`), though never as sets (`Fleet.EndToEndAgreement`). Without
  such requests they never do (`Interleaving.EndToEndSequence`).
- **Shared subjects.** The gateway joins market and asset id with a dot and does not escape dots in either. A book
  shares its subject with another one if and only if one of its ids contains a dot (`Delivery.SubjectIsSharedIff`).
  The market wildcard `m.*` misses exactly those of the market's books; `m.>` misses none of them and also matches the
  books of markets whose id begins with `m` and a dot (`Delivery.PlainMarketWildcard`, and `Delivery.MarketWildcard`
  for market ids that contain dots themselves).
- **No capacity.** With a capacity of zero the spawn loop does not end (`Supervision.SpawnLoopEndsIff`).

## Model

| member | source | states |
|---|---|---|
| `Levels.SnapshotCell` | crates/orderbook_service/src/orderbook.rs:188-261 | After a snapshot its platform has a size at a price if and only if some listed entry of that side gives it this nonzero size and no later entry gives it one |
| `Levels.DeltaCell` | crates/orderbook_service/src/orderbook.rs:213-243 | After a delta the last update of the side that can be read and is about the price decides, zero removes, and without one the cell stays |
| `Levels.OthersKeepCells` | crates/orderbook_service/src/orderbook.rs:184-243 | A message leaves all other platforms' cells alone |
| `Levels.WrittenIsTold` | crates/orderbook_service/src/orderbook.rs:188-261 | The whole side, cell by cell, is told by the entries of the message |
| `Levels.MessageKeepsClean` | crates/orderbook_service/src/orderbook.rs:264-267 | No message leaves an empty level or a zero size |
| `History.RunRefinesLastWrite` | crates/orderbook_service/src/orderbook.rs:150-261 | After any run a cell holds what the entries of its platform's messages say, read backwards to its last snapshot |
| `History.InterleavingIndependence` | crates/orderbook_service/src/orderbook.rs:78-94 | Two interleavings of the same platform streams build the same side |
| `History.BookIsMergeOfSoloBooks` | crates/orderbook_service/src/orderbook.rs:78-94 | The aggregated side is the pointwise merge of the sides each platform would build alone |
| `History.SnapshotErasesHistory` | crates/orderbook_service/src/orderbook.rs:184-210 | Dropping all of a platform's messages older than its newest snapshot changes nothing |
| `History.ForgetLeavesOneEpoch` | crates/orderbook_service/src/orderbook.rs:184-210 | After that dropping, only the platform's first remaining message can be a snapshot |
| `Books.Orderbook.Apply` | crates/orderbook_service/src/orderbook.rs:150-182 | In place: platform list, both sides, both best prices and the counter after a message |
| `Books.ApplyTells` | crates/orderbook_service/src/orderbook.rs:150-182 | Cell by cell, both sides then hold what the entries of the message say |
| `Books.Orderbook.ApplySnapshotPlatform` | crates/orderbook_service/src/orderbook.rs:188-210 | In place: the platform is cleared from every level, then the listed levels are inserted in order, so that every cell holds what the entries say |
| `Books.Orderbook.ApplyDeltaPlatform` | crates/orderbook_service/src/orderbook.rs:213-219 | In place: the updates are applied in order, each to its own side |
| `Books.Orderbook.ApplyUpdatePlatform` | crates/orderbook_service/src/orderbook.rs:226-243 | In place: one cell gets the parsed size, zero meaning none, or nothing changes when a field does not parse |
| `Books.Orderbook.InsertLevelPlatform` | crates/orderbook_service/src/orderbook.rs:246-261 | In place: one cell gets the nonzero parsed size, or nothing changes |
| `Books.ApplyKeepsConsistent` | crates/orderbook_service/src/orderbook.rs:150-182 | Every message keeps the book consistent: no empty level, no zero size, exact best prices although they are computed before the cleanup, a duplicate-free platform list that covers every level |
| `Books.RunBookFields` | crates/orderbook_service/src/orderbook.rs:128-182 | After any run: the sides, the contributing platforms, the message count and the ids |
| `Books.SystemBestIsExtreme` | crates/orderbook_service/src/orderbook.rs:270-279 | After any run the system best bid is the highest price at which the history leaves somebody a nonzero bid, the best ask the lowest for asks, and absent when there is none |
| `Books.BookIsInterleavingIndependent` | crates/orderbook_service/src/orderbook.rs:150-182 | Bids, asks and both best prices are a function of the per-platform streams alone |
| `Books.BookForgets` | crates/orderbook_service/src/orderbook.rs:150-210 | Bids, asks and both best prices do not depend on messages older than a platform's newest snapshot |
| `Ranking.BestPriceIsExtreme` | crates/orderbook_service/src/orderbook.rs:270-279 | The first populated price in walking order is the extreme of all populated prices |
| `Ranking.TopIsBestLevels` | crates/orderbook_service/src/orderbook.rs:298-313 | The top N prices: their number, strict order, the system best price first, every omitted level worse than every listed one, and a prefix of any larger N |
| `Ranking.WithTotals` | crates/orderbook_service/src/orderbook.rs:302-302 | Each listed level carries the total of its platforms' sizes |
| `Ranking.TopSumsToDepth` | crates/orderbook_service/src/orderbook.rs:298-313 | Without a limit the listed sizes add up to the depth |
| `Ranking.DepthByPlatform` | crates/orderbook_service/src/orderbook.rs:396-403 | The depth is the sum over levels of platform totals and also the sum over platforms of their own sizes |
| `Ranking.DepthInAnyOrder` | crates/orderbook_service/src/orderbook.rs:53-55 | Both sums are the same whatever order the maps are visited in |
| `Ranking.DeltaMovesDepth` | crates/orderbook_service/src/orderbook.rs:213-243 | A delta changes the depth by the sum over its writes of new size minus the size found |
| `Ranking.SnapshotMovesDepth` | crates/orderbook_service/src/orderbook.rs:188-210 | A snapshot changes the depth by its listed sizes minus what its platform held |
| `Ranking.OthersKeepDepth` | crates/orderbook_service/src/orderbook.rs:184-210 | A message leaves every other platform's depth unchanged |
| `Store.OrderbookStore.Apply` | crates/orderbook_service/src/store.rs:100-121 | In place: the book under the message's key is created if needed and updated, all others are untouched, the matching counter goes up |
| `Store.StoreDecomposes` | crates/orderbook_service/src/store.rs:100-121 | Each book is the run of just the messages with its key, carries that key's ids, and exists once addressed |
| `Store.ForIsOwn` | crates/orderbook_service/src/store.rs:100-121 | The messages of a key are those with its market and its asset |
| `Store.CountersByKind` | crates/orderbook_service/src/store.rs:110-120 | Each counter has counted exactly the updates of its own kind that are no longer in flight |
| `Store.CountersLagByInFlight` | crates/orderbook_service/src/store.rs:110-120 | With book update and counting as separate steps of concurrent appliers, the books' update counts exceed the counters by exactly the applies in flight |
| `Feed.OrderbookService.ProcessMessage` | crates/orderbook_service/src/service.rs:175-229 | Applies, then publishes the event computed from the updated store when publishing is on |
| `Feed.OrderbookService.PublishChange` | crates/orderbook_service/src/service.rs:233-346 | Publishes for each affected price the full level, or a removal when there is none |
| `Feed.OrderbookService.CollectAffected` | crates/orderbook_service/src/service.rs:238-267 | The affected prices are everything the message lists, as text, with its side |
| `Feed.OrderbookService.AggregatedLevelAt` | crates/orderbook_service/src/orderbook.rs:353-393 | The level at a parsed price with its platforms and the sum of their sizes, or none exactly when nobody has a size there |
| `Feed.FeedTellsBook` | crates/orderbook_service/src/service.rs:233-346 | Told from the messages alone: every event of the feed has its message's ids and one change per affected entry; each change lists the platforms the history leaves a size at its price, those sizes, and their sum |
| `Feed.ListsIff` | crates/orderbook_service/src/service.rs:238-267 | The prices a message affects on a side are those of the listed bids, or asks, or updates of the side |
| `Feed.OrderbookService.AddUp` | crates/orderbook_service/src/orderbook.rs:53-55 | Adding sizes in any visiting order gives the level's total |
| `Feed.UnlistedLevel` | crates/orderbook_service/src/service.rs:241-267 | At a price the message does not name, a delta changes nothing and a snapshot takes its platform out |
| `Feed.AgreementAfterMessage` | crates/orderbook_service/src/service.rs:233-315 | A replica that agrees with the book agrees after a message if and only if the message is no snapshot that takes its platform out of a level without naming the price |
| `Feed.ReplicaLag` | crates/orderbook_service/src/service.rs:233-315 | From an agreed start at any point, after any further run, at every price, the replica's level contains the book's, and equals it if and only if no snapshot has silently dropped the price since the start and since it was last named |
| `Feed.JoiningLaterHeals` | crates/orderbook_service/src/service.rs:233-315 | A price that is stale for who starts later is stale for who started before |
| `Feed.ReplicaEqualsBook` | crates/orderbook_service/src/service.rs:233-315 | From an agreed start at any point, the whole replica equals the book if and only if no price is stale |
| `Feed.SilentRemoval` | crates/orderbook_service/src/service.rs:242-254 | A silently dropped level is gone from the book and still in the replica |
| `Feed.EmptySnapshotDrops` | crates/orderbook_service/src/service.rs:242-254 | Two concrete messages that produce a silent removal |
| `Feed.FeedInParts` | crates/orderbook_service/src/service.rs:317-329 | Who joins later is sent the rest of the same feed |
| `Feed.FollowOwnBook` | crates/orderbook_service/src/service.rs:317-329 | A client of one book that joins at any point and follows the feed of all books sees what it would see alone |
| `Adapter.TransformPriceChange` | crates/normalizer/src/polymarket/adapter.rs:246-301 | One delta per asset, each with that asset's changes in their original order, emitted in some map order |
| `Adapter.GroupByAsset` | crates/normalizer/src/polymarket/adapter.rs:250-257 | The groups are exactly the assets' own subsequences |
| `Adapter.GroupingPreservesBooks` | crates/normalizer/src/polymarket/adapter.rs:246-301 | Whatever order the groups are applied in, every book gets the levels, best prices and platforms that applying the changes one by one gives |
| `Adapter.TransformedCell` | crates/normalizer/src/polymarket/adapter.rs:246-301 | Told from the raw message alone: the exchange's cell in the book of the market and an asset is decided by the asset's last readable change at the price, bids being those whose side is BUY; a zero removes; all other cells and books stay |
| `Subjects.JoinSplit` | crates/gateway/src/subscription.rs:54-56 | Joining the segments gives the text back, so splitting is injective |
| `Subjects.SplitJoin` | crates/gateway/src/subscription.rs:54-61 | Splitting joined dot-free segments gives the segments back |
| `Subjects.MatchesParts` | crates/gateway/src/subscription.rs:23-51 | The two-index walk decides the declarative meaning of every pattern |
| `Subjects.MatchesSubject` | crates/gateway/src/subscription.rs:18-21 | The same for a pattern given as text |
| `Subjects.ValidPatternMatch` | crates/gateway/src/subscription.rs:7-17 | For accepted patterns: pointwise match with equal length, or a closing greedy wildcard that absorbs one or more segments |
| `Subjects.StarIsWeaker` | crates/gateway/src/subscription.rs:4-12 | Replacing a segment other than the greedy wildcard by a star loses no match |
| `Subjects.StarForGreedy` | crates/gateway/src/subscription.rs:4-12 | Replacing a closing greedy wildcard by a star keeps a match if and only if the subject is as long as the pattern |
| `Subjects.ExactPatternMatchesItself` | crates/gateway/src/client.rs:21-25 | A pattern without wildcard characters matches a subject if and only if it is that subject |
| `Subjects.ValidatePattern` | crates/gateway/src/subscription.rs:80-98 | Accepts exactly the valid patterns and otherwise reports the first fault |
| `Registry.SubscribeKeepsIndexed` | crates/gateway/src/client.rs:189-231 | Subscribing keeps all three indices the exact inverse of the clients' sets |
| `Registry.UnsubscribeKeepsIndexed` | crates/gateway/src/client.rs:234-271 | So does unsubscribing |
| `Registry.UnregisterKeepsIndexed` | crates/gateway/src/client.rs:153-181 | So does unregistering, although it clears the wildcard list wholesale |
| `Registry.RegisterKeepsIndexedIff` | crates/gateway/src/client.rs:145-150 | Registering does if and only if the client arrives holding what is already indexed under its id, which is nothing for an unused id |
| `Registry.IndexedMentionsOnlyClients` | crates/gateway/src/client.rs:153-181 | No index mentions an unregistered client |
| `Registry.FastLookupIsNaiveScan` | crates/gateway/src/client.rs:285-319 | The exact entry plus the matching wildcard entries give exactly the clients holding some matching pattern |
| `Gateway.ClientRegistry.Register` | crates/gateway/src/client.rs:145-150 | In place: inserts the client and touches no index |
| `Gateway.ClientRegistry.Subscribe` | crates/gateway/src/client.rs:189-231 | In place: every subject enters the client's set, the main index, and the exact or wildcard index; an unknown client changes nothing |
| `Gateway.ClientRegistry.Unsubscribe` | crates/gateway/src/client.rs:234-271 | In place: every subject leaves the four copies; an unknown client changes nothing |
| `Gateway.ClientRegistry.Unregister` | crates/gateway/src/client.rs:153-181 | In place: the client and its index entries go, in whatever order its set is walked |
| `Gateway.ClientRegistry.GetMatchingSubscribers` | crates/gateway/src/client.rs:290-319 | Returns each matching registered client once, and with consistent indices exactly the naive scan's clients |
| `Gateway.ClientRegistry.CleanupStaleClients` | crates/gateway/src/client.rs:355-370 | Exactly the clients idle for too long go, and consistent indices stay consistent |
| `Gateway.AppState.HandleClientMessage` | crates/gateway/src/ws_server.rs:174-226 | A subscribe with a bad subject changes nothing and fails with the first bad one; an unknown client fails; otherwise the request takes effect, even if the reply cannot be sent |
| `Gateway.HeldAfterSubscribe` | crates/gateway/src/client.rs:189-231 | Afterwards the client holds what it held plus the subjects, and nobody else changed |
| `Gateway.HeldAfterUnsubscribe` | crates/gateway/src/client.rs:234-271 | Afterwards the client holds what it held minus the subjects, and nobody else changed |
| `Gateway.ReachableRegistry` | crates/gateway/src/ws_server.rs:180-220 | After any run of connects, requests and disconnects the indices are exact and every held pattern is valid |
| `Gateway.ReachableLookup` | crates/gateway/src/client.rs:285-319 | After any such run the fast lookup equals the naive scan, for every subject |
| `Gateway.RequestsAreIsolated` | crates/gateway/src/ws_server.rs:174-226 | A request of one client changes neither what another holds nor which subjects reach it |
| `Gateway.RegistryRefinesRequests` | crates/gateway/src/ws_server.rs:174-226 | After any run the registry holds a pattern for a client if and only if the client's last word on it, read off the requests backwards, is an accepted subscribe on the current connection |
| `Gateway.LookupByRequests` | crates/gateway/src/client.rs:285-319 | After any run the fast lookup finds exactly the clients whose requests ask for some matching pattern |
| `Delivery.SubjectIsSharedIff` | crates/gateway/src/router.rs:138-140 | A book shares its routing subject with another book if and only if one of its ids contains a dot |
| `Delivery.MarketWildcard` | crates/gateway/src/router.rs:200-205 | For any market id, dots included: the greedy market wildcard matches the subjects that begin with the id and a dot, the star those of them with no further dot |
| `Delivery.PlainMarketWildcard` | crates/gateway/src/router.rs:200-205 | For a market id without dots: the star matches that market's books without dots in their ids, the greedy wildcard all its books and those of markets whose id goes on with a dot |
| `Delivery.ReachedIff` | crates/gateway/src/router.rs:138-144 | A client that holds one dot-free book's subject is reached by that book's events and no other book's, whatever its ids |
| `Delivery.DeliveredIsOwnFeed` | crates/gateway/src/router.rs:122-188 | With requests of all clients and events in any order: from whatever moment on a client wants a book's events, by whatever patterns, it gets from what it is sent the replica that following the whole feed from then on gives |
| `Delivery.NothingIsDelivered` | crates/gateway/src/router.rs:138-152 | As long as a client does not want a book it is sent none of its events |
| `Delivery.SubscriberLag` | crates/gateway/src/ws_server.rs:189-207 | End to end, snapshot and then changes: the replica of a client that starts at any moment with the book as it is then lags behind by exactly the levels a snapshot has dropped since without naming them |
| `Protocol.AppendAgreesIffFresh` | crates/polymarket/src/handler.rs:121-128 | Blind appending and deduplicating appending agree if and only if the new ids are distinct and not on the list |
| `Protocol.ObeySet` | crates/polymarket/src/handler.rs:240-262 | What a command does to the set of subscribed ids |
| `Protocol.ConnectSendsAll` | crates/polymarket/src/handler.rs:173-180 | The message sent after connecting amounts to exactly the current ids, and to the same list if and only if no id is on it twice |
| `Protocol.WorkerStepCovers` | crates/common/src/ws_manager.rs:189-275 | Every network event and command keeps the messages sent on a live connection equivalent to the worker's ids |
| `Protocol.AddIdsInParts` | crates/polymarket/src/handler.rs:121-128 | Ids are added one after the other |
| `Protocol.RemoveIdsInParts` | crates/polymarket/src/handler.rs:131-139 | What is left keeps its order |
| `Workers.PolymarketHandler.AddSubscriptions` | crates/polymarket/src/handler.rs:121-128 | In place: appends the ids not yet on the list |
| `Workers.PolymarketHandler.RemoveSubscriptions` | crates/polymarket/src/handler.rs:131-139 | In place: keeps the other ids in order |
| `Workers.PolymarketHandler.HandleCommand` | crates/polymarket/src/handler.rs:240-262 | In place: obeys the command and returns the message it calls for |
| `Workers.PolymarketHandler.OnConnectMessage` | crates/polymarket/src/handler.rs:173-180 | A fresh connection that gets this message is subscribed to exactly the current ids |
| `Protocol.ScriptOutcome` | crates/common/src/ws_manager.rs:75-277 | Read off any script: stopped, connected or disconnected according to the last event that mattered; the ids obey what was delivered over connections; while connected, sent are all the ids held when it connected and every command since |
| `Workers.WsManager.Run` | crates/common/src/ws_manager.rs:75-104 | Ends with that outcome for the whole script of events, and leaves a live connection covering the worker's ids |
| `Workers.WsManager.ConnectAndRunLoop` | crates/common/src/ws_manager.rs:106-277 | One attempt; if it succeeds, events are consumed up to the first that ends the connection (loss, failed write, shutdown), and a loop that is still connected has consumed all of them |
| `Ownership.WorkerNamesDiffer` | crates/aggregator/src/supervisor.rs:214-215 | Worker names of different counters differ |
| `Ownership.NextNameIsFree` | crates/aggregator/src/supervisor.rs:214-253 | A spawn never overwrites a worker |
| `Ownership.AllocationConserves` | crates/aggregator/src/supervisor.rs:132-167 | An allocation adds every new id to the lists exactly as often as it was asked for, even when sends fail and ids are put back |
| `Ownership.OwnedOnceAfterSubscribe` | crates/aggregator/src/supervisor.rs:118-122 | After it, every id has one owner if and only if that held before and the new ids are distinct |
| `Ownership.OwnedOnceMeansDisjoint` | crates/aggregator/src/supervisor.rs:206-210 | One owner per id means duplicate-free and pairwise disjoint worker lists |
| `Ownership.AllocationKeepsCapacity` | crates/aggregator/src/supervisor.rs:137-166 | No worker goes over capacity |
| `Ownership.SpawnCount` | crates/aggregator/src/supervisor.rs:160-167 | The number of spawned workers is the number of leftover ids divided by the capacity, rounded up |
| `Ownership.ChunksForRoundsUp` | crates/aggregator/src/supervisor.rs:160-167 | The chunk count used there is the quotient rounded up |
| `Ownership.UnsubscribedIds` | crates/aggregator/src/supervisor.rs:178-191 | A worker's list loses exactly the requested ids if the send succeeds, and nothing otherwise |
| `Ownership.MappingsAfterUnsubscribe` | crates/aggregator/src/supervisor.rs:186-195 | Forgotten are exactly the mappings of ids that some reachable worker drops; the others stay as they are |
| `Ownership.NewIdsInParts` | crates/aggregator/src/supervisor.rs:118-122 | The new ids of a request keep their order |
| `Ownership.UnsubscribeKeepsInvariant` | crates/aggregator/src/supervisor.rs:174-203 | Unsubscribing keeps names, capacity, one owner per id, and mappings only for subscribed ids, whichever sends fail |
| `Supervision.Supervisor.Subscribe` | crates/aggregator/src/supervisor.rs:118-171 | In place: live workers are topped up within their room, the rest goes to spawned workers in full chunks, and none is spawned while a live worker has room |
| `Supervision.Supervisor.SubscribeWithMappings` | crates/aggregator/src/supervisor.rs:53-114 | The same, after recording the mappings of the new ids |
| `Supervision.RecordedMappings` | crates/aggregator/src/supervisor.rs:57-63 | A new id then has the last mapping the request gives for it, and every other id the mapping it had |
| `Supervision.Supervisor.OfferTo` | crates/aggregator/src/supervisor.rs:137-157 | One worker takes as many ids as it has room for; on a closed channel they go back to the end |
| `Supervision.Supervisor.SpawnForRest` | crates/aggregator/src/supervisor.rs:160-167 | The remaining ids are cut into chunks in order, all full but possibly the last |
| `Supervision.Supervisor.SpawnWorker` | crates/aggregator/src/supervisor.rs:260-302 | In place: counts up and inserts a worker under the new name with its first ids |
| `Supervision.Supervisor.Unsubscribe` | crates/aggregator/src/supervisor.rs:174-203 | In place: every reachable worker drops the requested ids it holds and their mappings go; unreachable workers stay as they are |
| `Supervision.SupervisorRun` | crates/aggregator/src/supervisor.rs:24-37 | Over any run of calls: unique names, capacity, mappings only for subscribed ids, and one owner per id if requests name new ids once |
| `Supervision.RepeatedRequestBreaksOwnership` | crates/aggregator/src/supervisor.rs:57-63 | A request that names a new id twice breaks single ownership |
| `Supervision.SpawnLoopEndsIff` | crates/aggregator/src/supervisor.rs:104-110 | The spawn loop ends if and only if there is capacity or nothing to place |
| `Fleet.FleetAlwaysAgrees` | crates/common/src/ws_manager.rs:243-260 | In every interleaving of supervisor actions, deliveries, connects and losses, each worker has obeyed exactly the consumed part of its command log and its connection covers its ids |
| `ReadOff.FleetReadOff` | crates/common/src/ws_manager.rs:189-277 | From the events alone: which workers exist, what was sent to each and how much it consumed, what the supervisor lists for it, its ids, its connection and what was sent on it; no channel ever holds more than 32 commands |
| `Fleet.EndToEndAgreement` | crates/aggregator/src/supervisor.rs:144-150 | In every reachable state, obeying what is pending gives the worker the ids the supervisor lists for it, and what was sent on a live connection plus what is pending amounts to the same ids |
| `Fleet.LiveConnectionNamesAll` | crates/common/src/ws_manager.rs:189-193 | On a live connection every id of the worker has been named in a subscription message |
| `Fleet.DrainedAndConnected` | crates/common/src/ws_manager.rs:243-260 | A connected worker with an empty channel has subscribed, on this connection, to all ids the supervisor counts |
| `Fleet.GiveKeepsOrderIff` | crates/aggregator/src/supervisor.rs:144-150 | A send keeps the two lists equal as sequences if and only if its ids are distinct and new to the worker |
| `Fleet.AllocationsAreFresh` | crates/aggregator/src/supervisor.rs:118-158 | A request with distinct new ids produces only such sends |
| `Interleaving.CallIsActions` | crates/aggregator/src/supervisor.rs:118-203 | A whole call of either kind, unsubscribes in any map order included, has the effect of its sends and spawns one after the other |
| `Interleaving.CallIsFresh` | crates/aggregator/src/supervisor.rs:118-158 | Every send of a call for distinct new ids carries ids its worker does not have at that moment |
| `Interleaving.SystemAlwaysSound` | crates/aggregator/src/supervisor.rs:24-37 | With calls taken apart and interleaved with connects, losses and deliveries: agreement, order, and a supervisor that is or will be left sound |
| `Interleaving.EndToEndSequence` | crates/aggregator/src/supervisor.rs:144-150 | If no call asks for a new id twice, then at every moment, in the middle of a call too, obeying what is pending gives the worker the supervisor's list as a sequence |
| `Interleaving.DistinctIdsSuffice` | crates/aggregator/src/supervisor.rs:57-63 | Callers that name no id twice within one request meet that condition |
| `Interleaving.SoundBetweenCalls` | crates/aggregator/src/supervisor.rs:174-257 | Between calls of such a run: unique names, capacity, mappings only for subscribed ids, one owner per id |
| `Caching.BboCache.HandleChange` | crates/executor/src/bbo_cache.rs:71-139 | In place: the quotes before the first parse failure are applied to the entry, the cache stays the run of all messages received, and the result says whether there was a failure |
| `Caching.BboCache.ReadPlatforms` | crates/executor/src/bbo_cache.rs:83-135 | One change's platforms, up to the first size that does not parse |
| `Caching.QuotesOfOne` | crates/executor/src/bbo_cache.rs:78-131 | One entry is read as a bid for `buy` and as an ask for `sell` |
| `Caching.QuotesInParts` | crates/executor/src/bbo_cache.rs:77-135 | Changes are read one after the other up to the first that does not parse |
| `Caching.CachedIsLive` | crates/executor/src/bbo_cache.rs:87-131 | With explicit removals, a cached price is one its platform currently quotes |
| `Caching.ExactnessAfterQuote` | crates/executor/src/bbo_cache.rs:89-98 | An exact cache stays exact over a quote if and only if the quote does not remove the cached price while another is live |
| `Caching.RunnerUpIsForgotten` | crates/executor/src/bbo_cache.rs:92-97 | Three quotes after which it is not |
| `Caching.ExactnessIsLocal` | crates/executor/src/bbo_cache.rs:100-110 | Quotes of other platforms or the other side do not matter for that |
| `FeedCache.EventQuotes` | crates/orderbook_service/src/service.rs:270-315 | What the executor reads in a published event: exactly the platforms with a size at the prices before the first unreadable one, and never a zero size |
| `FeedCache.CacheIsBestEverShown` | crates/executor/src/bbo_cache.rs:71-139 | For an executor started at any point of the order book service's own feed, in any map order, a platform's cached price is the best it was shown with since |
| `FeedCache.CacheIsExactIff` | crates/executor/src/bbo_cache.rs:71-139 | Such a cache has a platform's best price in the book if and only if that price was shown since and nothing better was |
| `FeedCache.CacheStaysExactIff` | crates/executor/src/bbo_cache.rs:83-135 | An exact cached price stays exact over a message if and only if the message is another platform's, or keeps or improves the price and shows its new best readably |
| `FeedCache.ReadableMessagesShowAll` | crates/orderbook_service/src/service.rs:238-267 | The second half of that condition holds for every message whose prices all parse |
| `FeedCache.UnreadableEntryHidesRest` | crates/executor/src/bbo_cache.rs:79-81 | A message that fails it |
| `FeedCache.HiddenBidHappens` | crates/executor/src/bbo_cache.rs:79-81 | A received feed after which the book has a bid and the cache none |
| `FeedCache.CachedPriceStaysIff` | crates/executor/src/bbo_cache.rs:99-110 | A cached price stays, live or not, if and only if the message shows the platform with no better one |
| `FeedCache.DepartureIsMissed` | crates/executor/src/bbo_cache.rs:83-98 | A run after which the cache quotes a platform that has left a level another one keeps |
| `FeedCache.DepartureHappens` | crates/executor/src/bbo_cache.rs:83-98 | Such a run exists, with a feed that is received |
| `Caching.CacheIsBestKnown` | crates/executor/src/bbo_cache.rs:99-110 | Without zero sizes the cache keeps the best of what it had and what is quoted |
| `Caching.EntryIsCacheAfter` | crates/executor/src/bbo_cache.rs:71-139 | After any run of messages, for any keys and cut short wherever they do not parse, an entry is the cache of what was read for its key |
| `Routing.SmartRouter.BestCached` | crates/executor/src/bbo_cache.rs:144-167 | The extreme over all cached platforms, or none when there are none |
| `Routing.SmartRouter.FindBestPlatform` | crates/executor/src/router.rs:55-74 | For a buy the lowest cached ask, for a sell the highest cached bid, of a platform with an executor that quotes it now, and the best there is while the cache is exact; or none, when nothing is cached or a platform with that price has no executor |
| `Routing.SearchIsAsDocumentedIff` | crates/executor/src/router.rs:55-74 | The search considers registered platforms only, as documented, if and only if all platforms with the extreme price are registered or none of the cached ones is |
| `Routing.SearchIgnoresRegisteredRunnerUp` | crates/executor/src/router.rs:55-74 | An input on which it does not |
| `Routing.SmartRouter.SubmitOrder` | crates/executor/src/router.rs:80-138 | A named platform bypasses the search; otherwise the executor of the platform found gets the order under that platform, and its response is returned with the price found |
| `Routing.RoutedPriceIsLive` | crates/executor/src/router.rs:89-97 | After any run of change messages a routed price is quoted now, by explicit sizes and removals, on its registered platform, is never better than what there is, and is the best there is while the cache is exact |

## Left out

- Transport and start-up (NATS, Redis, HTTP, WebSocket, TLS, DNS, metrics, logging, configuration): only connect, lose, send, deliver and publish remain, as events or parameters.
- JSON decoding and the timestamp injection into raw messages: messages are values.
- Decimal overflow, rounding and scale: prices and sizes are exact; `mid_price` and `spread` are plain arithmetic on the two best prices.
- `PlatformSizes` is a map value owned by its level, not an object of its own: each level has exactly one, so replacing it is updating it in place.
- The store's two nested maps are one map keyed by market and asset: the inner map exists exactly as long as it has a book.
- Exchange-reported best prices, timestamps, metadata caches and response structs: copied, never computed with.
- `update_count` and the statistics counters are unbounded: the wrap-around of 64-bit counters is not modelled. `stats` and `list_all` only count and copy.
- Feed delivery: in order and without loss, from an agreed start on. How a client comes to start with the book as it is at some point of the feed (a fetched snapshot can arrive behind newer changes), and a client that is too slow and loses messages, are not modelled. Sizes inside a published level are carried as decimals and become text only where the executor reads them.
- `Delivery.SubscriberLag`: the client keeps books apart by the ids in each message.
- The executor's subscription: from its start on it receives every event of the service in order; what it misses while it is not connected is not modelled.
- The executor removes a cached price while it still holds a read guard on the same map (crates/executor/src/bbo_cache.rs:89-97): only the logical effect of the removal is modelled.
- A shutdown is sent between calls of the supervisor, not in the middle of one.
- Feed: price text is compared by the decimal it denotes, so a client that keys levels by text is not covered.
- Registry operations are atomic: the program's maps can be observed between two subjects of one request. A client object's set is changed through the registry only.
- The snapshots the gateway fetches after a subscribe, `broadcast`, `get_subscribers_exact` and `subscription_count` (which also counts emptied entries).
- Client ids are numbers, and a connection never arrives with an id in use: the program draws them at random from a space where a repetition is not expected.
- The handler's own token map, which nothing reads.
- A worker that ends because its channel was closed without a shutdown command, and the wait for workers at the end of `run`.
- What the exchange does with an unsubscription: the message has the form of a subscription, so nothing is claimed.
- The reconnect delay and ping timing.
- `Supervision.Supervisor.Subscribe` and `SubscribeWithMappings` require capacity or nothing to place, because otherwise the call does not return; `Supervision.SpawnLoopEndsIff` shows that this is exactly when it does.
- Executors, order signing and order types: an executor is a function from orders to responses.
