# Verification of the trading terminal's cores

This project models the decision-making and bookkeeping cores of a crypto-futures terminal in Dafny and proves
their properties for all inputs and all runs. `dafny verify dfyconfig.toml` checks everything.

| file | models |
|---|---|
| `orderbook.dfy`, `replication.dfy`, `unsequenced_feed.dfy` | local order books rebuilt from snapshots and deltas, against the exchange's true books: with sequence numbers, and without, as the live frames come |
| `rest_budget.dfy` | the two coupled token buckets in front of REST calls |
| `resync.dfy`, `resync_safety.dfy`, `resync_outcomes.dfy` | the repair protocol per pair: socket first, then REST, as steps between waits; its safety, and how each repair ends |
| `swing_pool_discovery.dfy`, `liquidity_pool_registry.dfy`, `liquidity_engine.dfy`, `liquidity_step.dfy`, `pool_return.dfy`, `liquidity_prices.dfy`, `liquidity_bars.dfy`, `discovery_terms.dfy`, `raid_run.dfy` | pivots, greedy clusters, pools, and the touched-swept-confirmed life of raid events; what each price, bar, discovery and refresh makes of them in terms of candles and prices, and a confirmed raid |
| `simulator.dfy`, `simulator_steps.dfy`, `metrics.dfy` | the backtest simulator, what each tick and bar does, its pessimistic and optimistic runs, and the one-pass statistics |
| `trade_plan.dfy`, `confluence_scorer.dfy`, `intent_validator.dfy`, `intent_terms.dfy`, `runtime_pipeline.dfy` | from a strategy signal to a routed or blocked decision with its plan |
| `risk_filter.dfy`, `risk_verdicts.dfy` | the composite risk filter and its rules over whole runs, and its verdict without its memory |
| `divergence.dfy`, `account_stores.dfy`, `reconciliation.dfy`, `sweep_results.dfy`, `account_runs.dfy` | comparing account rows, the stores, the sweeps that drive them to a fixpoint, what a sweep reports and leaves, and runs of updates and sweeps |
| `candle_pager.dfy`, `multi_timeframe_store.dfy`, `trade_flow.dfy`, `audit.dfy`, `outcome_resolution.dfy` | paging and streaming structures against simple specifications over unbounded histories |
| `common.dfy`, `candles.dfy`, `tables.dfy` | options, stable sort, candles, insertion-ordered keyed tables |

Numbers are reals, times are reals or integers in the source's unit, the clock is an argument of each call, and the
reading of decimal texts is a given function or already done. Code that changes state is written as classes and
loops; each method's contract ties the new state to a specification function, and the results are proved about those
functions and their runs. Asynchronous code is cut into steps at its waits, and runs range over all interleavings.

Where the code does less than one would expect, the exact condition is proved for all inputs, and a concrete input
shows that it can fail:

- The live socket frames and the REST snapshots carry no sequence numbers; only the replay of recordings passes them.
  Without numbers a lost or reordered delta is applied unseen. The levels stay true exactly as long as every delta taken
  meets levels that agree with its own base (`UnsequencedFeeds.StaysTrueIff`, witness
  `UnsequencedFeeds.LostDeltaGoesUnnoticed`), and the next snapshot restores them. Where deltas do have numbers, a
  snapshot without one leaves an old `lastSeq` next to newer levels (`Replication.UnsequencedSnapshot`).
- A negative quantity in a delta is stored (`OrderBooks.DeltaStoresPositiveIff`).
- An audit event can be lost without a report when the queue overflows during an insert (`Audits.NothingLostIff`), and a
  bound below one over-reports drops (`Audits.CountsAddUpIff`).
- Paging from an unaligned start can skip a bar after an empty first page: `CandlePagers.PagingIsComplete` under a
  condition on the range, `CandlePagers.OtherwiseACandleIsLost` wherever it fails.
- A late trade tick hides earlier ones inside a window (`TradeFlows.WindowIsFullHistoryIff`).
- With only a quote to take the entry from, the validator approves the middle price while the plan has entry zero and
  the decision is routed all the same: always then (`RuntimePipelines.QuoteOnlyPlansNothing`), and never otherwise
  (`RuntimePipelines.RoutedIsSound`).
- The volatile exception of the confluence gate never decides for scores the pipeline computes
  (`ConfluenceScorers.GateIsOneThreshold`).
- Flat rows from the exchange are reported as missing locally after every sweep (`Reconciliation.PositionsSettleIff`),
  and closed rows in the open-orders answer likewise (`Reconciliation.OrdersSettleIff`).
- A position that a sweep opens or closes by a row of its own is not reported, so opened and closed reports can fall out
  of step with what is held (`AccountRuns.ReportsFollowIff`).
- A neutral prediction outcome can still turn into a reached target or stop (`OutcomeResolution.NeutralStaysIff`).
- A touch strengthens a pool below 0.1 (`LiquidityPoolRegistry.TouchWeakensIffAboveFloor`), and an invalidated pool can be
  active again after a refresh (`LiquidityPoolRegistry.InvalidatedReturnsIff`).

## Model

| member | source | states |
|---|---|---|
| OrderBooks.SnapshotStoresPositive | src/marketdata/book/orderbook.ts:19-28 | Whatever a snapshot carries, every stored quantity is positive afterwards. |
| OrderBooks.DeltaStoresPositive | src/marketdata/book/orderbook.ts:30-60 | A delta keeps stored quantities positive even when it stops half-way at a gap, as long as no quantity is sent negative. |
| OrderBooks.DeltaStoresPositiveIff | src/marketdata/book/orderbook.ts:30-60 | For every delta on a book with positive quantities they all stay positive exactly when no price's last row, among the rows before the first unknown delete, is negative. |
| OrderBooks.NegativeRowIsStored | src/marketdata/book/orderbook.ts:42-44 | A witness: a negative quantity in a delta is stored, since only zero deletes. |
| OrderBooks.UnknownStays | src/marketdata/book/orderbook.ts:35-45 | Once a delete of an unknown price is met, the rest of the side is not looked at. |
| OrderBooks.DeltaMeans | src/marketdata/book/orderbook.ts:30-60 | For every book and delta: nothing happens before a snapshot, while one is awaited, or by a sequence mismatch, which is a gap; else the asks follow their last rows up to the first delete of a level that is not there, which is a gap and leaves bids, number and time; then the bids; only without a gap number and time are the delta's. |
| OrderBooks.SnapshotMeans | src/marketdata/book/orderbook.ts:19-28 | After a snapshot, whatever was before, the book is live, of its time and of its number if it has one, and holds exactly the last positive row of each price. |
| OrderBooks.ReachStops | src/marketdata/book/orderbook.ts:35-45 | Where the rows of a side stop: at the first zero row whose price has no level by the last row before it, or by the book. |
| OrderBooks.OrderBook.ApplySnapshot | src/marketdata/book/orderbook.ts:19-28 | The clear-and-fill loops produce exactly the snapshot book. |
| OrderBooks.OrderBook.ApplyDelta | src/marketdata/book/orderbook.ts:30-60 | Sequence check, early return at the first gap of either side, and the new levels, as one function of the old book. |
| OrderBooks.OrderBook.ApplyAskRows | src/marketdata/book/orderbook.ts:35-45 | The ask loop applies all rows, or those before the first unknown delete, which it reports. |
| OrderBooks.OrderBook.ApplyBidRows | src/marketdata/book/orderbook.ts:46-56 | The bid loop likewise. |
| OrderBooks.OrderBook.TopN | src/marketdata/book/orderbook.ts:62-72 | Each side lists min(n, size) stored levels, best first, and nothing left out is better than a listed one. |
| OrderBooks.OrderBook.SetState | src/marketdata/book/orderbook.ts:17 | Sets the state and nothing else. |
| OrderBooks.TopOfSide | src/marketdata/book/orderbook.ts:63-66 | The same for one side, by repeated choice of the best price. |
| OrderBooks.BookManager.OnDepthSnapshot | src/marketdata/book/book-manager.ts:29-34 | Creates the book if needed, applies the snapshot to it and to no other pair. |
| OrderBooks.BookManager.OnDepthDelta | src/marketdata/book/book-manager.ts:36-45 | Ignores deltas for books that are missing, initial or resyncing; otherwise changes that pair only. |
| Replication.SnapshotReadsSide | src/marketdata/book/orderbook.ts:22-23 | Loading all levels of a true side yields that side. |
| Replication.DeltaReachesNext | src/marketdata/book/orderbook.ts:35-56 | Applying a true delta to the book it was made from yields the next true book, without a gap. |
| Replication.DeltaOnFollowedBook | src/marketdata/book/orderbook.ts:31-34 | On a book that equals a true version, a delta either comes from that version and leads to the next, or is reported as a sequence mismatch and changes nothing. |
| Replication.StepMirrors | src/marketdata/book/book-manager.ts:29-45 | One delivered frame keeps every followed local book equal to the true book of its version; a gap is reported exactly when a delta comes from another version. |
| Replication.RunMirrors | src/marketdata/book/orderbook.ts:19-60 | Any run of frames, lost, repeated or reordered, keeps that invariant. |
| Replication.BookExistsIffSnapshot | src/marketdata/book/book-manager.ts:19-27 | A pair has a book exactly when some snapshot for it was delivered. |
| Replication.LocalBookIsTrueBook | src/marketdata/book/orderbook.ts:19-60 | After any run, a pair with a snapshot holds the true book of the version whose sequence number is `lastSeq`, with positive quantities only. |
| Replication.UnsequencedSnapshot | src/marketdata/integrity-controller.ts:109-112 | A REST snapshot carries no sequence number: the book then holds the true levels of its version under the old number, so it shows a true version exactly when both versions have the same levels. |
| Replication.UnsequencedSnapshotLosesTrack | src/marketdata/book/orderbook.ts:25-34 | A concrete book and snapshot after which the local book is no true version. |
| UnsequencedFeeds.DeltaArrivesIff | src/marketdata/book/orderbook.ts:30-60 | A delta made from version k, taken by a book with the levels of version v, leads to version k+1 without a gap exactly when v and k agree wherever the delta says nothing and v has every level it deletes. |
| UnsequencedFeeds.SnapshotRestores | src/marketdata/book/book-manager.ts:29-34 | Whatever happened before, the next delivered snapshot makes the levels true again, with or without a number. |
| UnsequencedFeeds.StaysTrueIff | src/marketdata/integrity-controller.ts:180-192 | Over every run of frames with the exchange's content, each with or without its numbers, lost, repeated or reordered: since its last snapshot the book shows the right levels without a gap exactly as long as every delta it takes bridges in that sense. |
| UnsequencedFeeds.InOrderStaysTrue | src/marketdata/integrity-controller.ts:180-192 | So a feed that loses and reorders nothing after a snapshot keeps the book true without any numbers. |
| UnsequencedFeeds.SequencedIsInOrder | src/marketdata/book/orderbook.ts:31-34 | With all numbers given, every delta that is taken is in order, and the version followed is the one of the abstract replica. |
| UnsequencedFeeds.QuantitiesStayPositive | src/marketdata/book/orderbook.ts:19-60 | In all these runs every stored quantity stays positive, on course or not. |
| UnsequencedFeeds.LostDeltaGoesUnnoticed | src/marketdata/integrity-controller.ts:186-192 | A witness: without numbers a lost delta is followed by one that is applied without a gap and leaves levels no version has. |
| RestBudgets.TokensStayInBounds | src/marketdata/rate-limit/rest-budget.ts:36-57 | After any run of attempts on a non-decreasing clock every token count lies between zero and its cap. |
| RestBudgets.DrawKeepsWindow | src/marketdata/rate-limit/rest-budget.ts:36-53 | One attempt keeps the window potential of a bucket: grants so far plus tokens left never exceed cap plus earnings. |
| RestBudgets.WindowPotential | src/marketdata/rate-limit/rest-budget.ts:43-57 | That potential holds over whole runs, for the global and for each pair bucket. |
| RestBudgets.RateBound | src/marketdata/rate-limit/rest-budget.ts:43-58 | In any interval of T seconds at most globalPerMin*(1+T/60) attempts are granted in all and pairPerMin*(1+T/60) per pair. |
| RestBudgets.GrantedIff | src/marketdata/rate-limit/rest-budget.ts:43-58 | Over every run: an attempt is granted exactly when, counted from every earlier attempt, the grants since then and this one stay within the capacity and what was earned since then, over all pairs and for its own. |
| RestBudgets.LevelIsRoom | src/marketdata/rate-limit/rest-budget.ts:36-57 | At any time a bucket holds at least x tokens exactly when there is room for x more in that sense, for every x. |
| RestBudgets.WaitingIsEnough | src/marketdata/rate-limit/rest-budget.ts:48-56 | Once both buckets have earned a whole token since their last attempt, the next attempt succeeds. |
| RestBudgets.RestBudget.AttemptAcquire | src/marketdata/rate-limit/rest-budget.ts:46-54 | One round of the acquire loop: both buckets refilled, one token taken from both or from neither. |
| Resync.AfterGap | src/marketdata/integrity-controller.ts:120-124 | Right after any gap the pair is in flight and its book is resyncing or was in flight already. |
| Resync.WaitingBookIgnoresDeltas | src/marketdata/book/book-manager.ts:36-42 | No delta changes a book in init or resyncing, nor starts anything. |
| Resync.OnlySnapshotsResume | src/marketdata/book/resync.ts:24-57 | Only a snapshot for the pair, from the socket or a REST reply, takes its book out of resyncing. |
| Resync.StepsAreMoves | src/marketdata/book/resync.ts:18-64 | Every step of the protocol is at most two moves of its control state. |
| Resync.ResyncOrchestrator.RequestResync | src/marketdata/book/resync.ts:18-39 | Returns at once for a pair in flight; otherwise marks it, sets the book resyncing and registers the listener. |
| Resync.ResyncOrchestrator.OnDepthSnapshot | src/marketdata/book/resync.ts:27-31 | A snapshot is applied and resolves the listeners of its pair. |
| Resync.ResyncOrchestrator.OnDepthDelta | src/marketdata/integrity-controller.ts:120-124 | A gap found by a delta requests a resync of its pair. |
| Resync.ResyncOrchestrator.AfterResubscribe | src/marketdata/book/resync.ts:39-40 | After the resubscription the task waits for its listener, or fails with it. |
| Resync.ResyncOrchestrator.AfterListener | src/marketdata/book/resync.ts:40-47 | With a frame the resync succeeds via the socket, without one it goes on to the budget. |
| Resync.ResyncOrchestrator.ListenerTimeout | src/marketdata/book/resync.ts:34-37 | A listener that has heard nothing hears the timeout; one that has keeps its frame. |
| Resync.ResyncOrchestrator.AfterBudgetRound | src/marketdata/book/resync.ts:46-54 | A grant clears the way to REST, an exhausted budget fails the resync. |
| Resync.ResyncOrchestrator.CallRest | src/marketdata/book/resync.ts:56 | A task with a grant fetches, once. |
| Resync.ResyncOrchestrator.AfterFetch | src/marketdata/book/resync.ts:56-63 | A REST reply is applied as a snapshot and reported, an error fails; either way the pair is released. |
| ResyncSafety.MoveOnePerPair | src/marketdata/book/resync.ts:19-20 | Every move keeps at most one task per pair, and `inFlight` exactly the pairs with a task. |
| ResyncSafety.MoveAccounted | src/marketdata/book/resync.ts:42-62 | Every move keeps the account: started once, no outcome while running, exactly one when gone, at most one fetch on a grant of its own. |
| ResyncSafety.MoveWellOrdered | src/marketdata/book/resync.ts:40-58 | Every move keeps the order of the log: a success follows a snapshot applied after its request, a fetch its own grant. |
| ResyncSafety.EveryRunIsSafe | src/marketdata/book/resync.ts:18-64 | All of this over every interleaving of frames, gaps, timeouts, budget rounds and REST replies. |
| ResyncSafety.FetchesNeverExceedGrants | src/marketdata/book/resync.ts:46-57 | In any window the REST fetches never exceed the grants of the budget. |
| ResyncSafety.FetchRateBound | src/marketdata/book/resync.ts:46-57 | So the resync fetches obey the rate bound, in all and per pair. |
| ResyncOutcomes.LogsIff | src/marketdata/book/resync.ts:18-64 | Each step only adds to the log, and a note exactly when the step, the phase of its task and the book call for it: failed by a refused subscription, by a budget round without a token at or after its deadline, or by a failed fetch; resynced over the socket by a listener that heard a frame, via REST by a reply. |
| ResyncOutcomes.LoggedIff | src/marketdata/book/resync.ts:18-64 | So over every run a note is in the log exactly when some step of the run logged it. |
| ResyncOutcomes.GrantedIff | src/marketdata/rate-limit/rest-budget.ts:46-56 | A budget round takes a token exactly when both buckets, refilled by the clock and capped, hold a whole one. |
| ResyncOutcomes.TaskMeans | src/marketdata/book/resync.ts:18-64 | A running resync is gone exactly after the step that logs its outcome; else it keeps its pair, hears the first of a snapshot and its timeout, and moves on from subscription to listener, from timeout to budget, from grant to fetch. |
| ResyncOutcomes.BeginsIff | src/marketdata/book/resync.ts:18-24 | A resync begins exactly with the step that logs its start, waiting for its subscription. |
| ResyncOutcomes.FallsBackToRest | src/marketdata/book/resync.ts:34-58 | Without a snapshot over the socket a subscribed resync times out, gets a token, fetches, and ends with the pair resynced via REST and its book live with the levels of the reply, whatever other steps come in between. |
| ResyncOutcomes.SocketIsEnough | src/marketdata/book/resync.ts:27-45 | With a snapshot over the socket in time it ends with the pair resynced over the socket. |
| ResyncOutcomes.Outwaits | src/marketdata/book/resync.ts:34-47 | A resync that waits stays as it is through any steps of others. |
| SwingPoolDiscovery.PivotsExact | src/marketdata/liquidity/swing-pool-discovery.ts:27-55 | The indices are exactly the strict five-bar extremes, in order, at least three bars apart. |
| SwingPoolDiscovery.PivotHighLowIndices | src/marketdata/liquidity/swing-pool-discovery.ts:27-55 | The loop returns those indices for highs and lows. |
| SwingPoolDiscovery.ClustersPartition | src/marketdata/liquidity/swing-pool-discovery.ts:57-83 | Each pivot lands in exactly one cluster, as often as it is given. |
| SwingPoolDiscovery.ClustersSeparate | src/marketdata/liquidity/swing-pool-discovery.ts:66-81 | Every member is near the first of its cluster, and first members of different clusters are not near each other. |
| SwingPoolDiscovery.ClusterPrices | src/marketdata/liquidity/swing-pool-discovery.ts:66-83 | The double loop with its used-set computes that clustering. |
| SwingPoolDiscovery.Gather | src/marketdata/liquidity/swing-pool-discovery.ts:71-79 | The inner loop takes exactly the unused later pivots near the leader. |
| SwingPoolDiscovery.CenterInHull | src/marketdata/liquidity/swing-pool-discovery.ts:89-92 | A cluster centre lies between the lowest and the highest price of its members. |
| SwingPoolDiscovery.SidePoolOrigin | src/marketdata/liquidity/swing-pool-discovery.ts:114-148 | Every pool comes from a cluster of at least two strict extremes of its side, all near the first, with its count, and priced inside their hull. |
| SwingPoolDiscovery.DiscoveredPools | src/marketdata/liquidity/swing-pool-discovery.ts:97-152 | Discovered pools: at most the maximum, all of that origin, and no candidate left out is stronger than one kept. |
| SwingPoolDiscovery.StrongestFirst | src/marketdata/liquidity/swing-pool-discovery.ts:150-151 | They are ordered by strength, and none dropped is stronger than one kept. |
| SwingPoolDiscovery.DiscoverLiquidityPools | src/marketdata/liquidity/swing-pool-discovery.ts:97-152 | The discovery as a method computes them. |
| DiscoveryTerms.CandidatesMean | src/marketdata/liquidity/swing-pool-discovery.ts:97-149 | The candidates are exactly the pools of the clusters of two pivots or more on either side: at the mean price, dated by the latest bar, of strength a half and a tenth for each pivot up to one, with the price in millionths as id. |
| DiscoveryTerms.DiscoveryMeans | src/marketdata/liquidity/swing-pool-discovery.ts:97-152 | Nothing is discovered in fewer than ten bars; else only candidates of the bars looked at, the lookback from the end, at most the maximum, and one is left out only for as many at least as strong. |
| DiscoveryTerms.WidthMeans | src/marketdata/liquidity/swing-pool-discovery.ts:103-106 | Prices cluster within the larger of the floor and a multiple of the average true range in percent of the last close, as a product. |
| DiscoveryTerms.NearMeans | src/marketdata/liquidity/swing-pool-discovery.ts:66-81 | Two prices belong together exactly when their distance is at most the percentage of the middle of their sizes, as a product. |
| LiquidityPoolRegistry.MergeWeakens | src/marketdata/liquidity/liquidity-pool-registry.ts:58-75 | Merging keeps the price; if it continues an earlier pool it takes that pool's id and touches and at most its strength. |
| LiquidityPoolRegistry.ReturnsIff | src/marketdata/liquidity/liquidity-pool-registry.ts:17-35 | For every id a pool of the timeframe had: after the refresh a pool of the timeframe has it again exactly when some discovered pool continues an earlier one with the id, its decayed strength is at least 0.05, and fewer pools than the maximum go before it; it is weakened only if an earlier one was, and never invalidated. |
| LiquidityPoolRegistry.InvalidatedReturnsIff | src/marketdata/liquidity/liquidity-pool-registry.ts:58-75 | In particular an invalidated pool, alone with its id, is active again exactly when a discovered pool continues it, its decayed strength is at least 0.05 and it comes through the cap. |
| LiquidityPoolRegistry.StrongestIff | src/marketdata/liquidity/liquidity-pool-registry.ts:31-33 | A pool comes through the cap exactly when fewer pools are stronger, or as strong and earlier in the list, than there is room for. |
| PoolReturns.BrokenPoolReturns | src/marketdata/liquidity/liquidity-engine.ts:280-285 | A witness: the pool of two equal peaks, broken out of and so invalidated, is active again after the next refresh from the same bars. |
| LiquidityPoolRegistry.RefreshHealthy | src/marketdata/liquidity/liquidity-pool-registry.ts:17-35 | After a refresh there are at most the maximum of pools, strengths in (0, 1]; an invalidated one can only be an older pool of another timeframe. |
| LiquidityPoolRegistry.RefreshOrigin | src/marketdata/liquidity/liquidity-pool-registry.ts:17-35 | After a refresh every pool is an unchanged one of another timeframe or a pool discovered just now, alone or continuing an earlier one of its timeframe at its decayed strength; ordered by strength. |
| DiscoveryTerms.RefreshMeans | src/marketdata/liquidity/liquidity-pool-registry.ts:17-75 | For every pool of the timeframe: it is there after the refresh exactly when some discovered pool becomes it (alone, or with id, touches and decayed strength of the first earlier one with its id, else near its price), it has a strength of at least 0.05, and it comes through the cap. |
| DiscoveryTerms.MergedMeans | src/marketdata/liquidity/liquidity-pool-registry.ts:58-75 | What a discovered pool becomes when it is merged, and which earlier pool it continues. |
| LiquidityPoolRegistry.TickHealthy | src/marketdata/liquidity/liquidity-pool-registry.ts:38-46 | Decay keeps that, and strengthens no pool. |
| LiquidityPoolRegistry.TickKeepsIdentity | src/marketdata/liquidity/liquidity-pool-registry.ts:38-46 | Decay changes only strength and status, not of invalidated pools; weakened are exactly those below 0.12 or weakened before. |
| DiscoveryTerms.TicksMean | src/marketdata/liquidity/liquidity-pool-registry.ts:38-46 | After any number of decays a live pool has the strength that is left and is weakened once that is below 0.12; an invalidated one is as it was. |
| DiscoveryTerms.LeftIsPower | src/marketdata/liquidity/liquidity-pool-registry.ts:43 | What is left after n decays is the strength times the n-th power of the factor. |
| LiquidityPoolRegistry.TouchHealthy | src/marketdata/liquidity/liquidity-pool-registry.ts:48-56 | A touch keeps that. |
| LiquidityPoolRegistry.TouchCountsOne | src/marketdata/liquidity/liquidity-pool-registry.ts:48-56 | A touch counts on the first pool with the id only and changes nothing else but its strength. |
| LiquidityPoolRegistry.TouchWeakensIffAboveFloor | src/marketdata/liquidity/liquidity-pool-registry.ts:53-54 | A touch never strengthens a pool exactly when the pool was not below the floor of 0.1. |
| LiquidityPoolRegistry.RegistryStaysHealthy | src/marketdata/liquidity/liquidity-pool-registry.ts:17-56 | So over every run of refreshes, decays and touches. |
| LiquidityPoolRegistry.Registry.RefreshFromClosedForTimeframe | src/marketdata/liquidity/liquidity-pool-registry.ts:17-35 | The method replaces the pair's pools by the refreshed ones and no other pair's. |
| LiquidityPoolRegistry.Registry.TickDecayPair | src/marketdata/liquidity/liquidity-pool-registry.ts:38-46 | The loop decays every live pool of the pair and no other. |
| LiquidityPoolRegistry.Registry.TouchPool | src/marketdata/liquidity/liquidity-pool-registry.ts:48-56 | Touches the first pool of the pair with the id, if there is one. |
| LiquidityEngine.ScoreIsSum | src/marketdata/liquidity/scoring.ts:28-47 | The score is the sum of the points of all names that apply. |
| LiquidityEngine.ScoreBounds | src/marketdata/liquidity/scoring.ts:28-47 | It lies between 0 and 13, is at least 3 with a displacement, and is 13 exactly when everything applies. |
| LiquidityEngine.OnBarGood | src/marketdata/liquidity/liquidity-engine.ts:264-382 | What one closed bar does to a swept event keeps the lifecycle invariant; a confirmation needs an earlier sweep and a rejecting close. |
| LiquidityEngine.OnBarDecides | src/marketdata/liquidity/liquidity-engine.ts:270-382 | In terms of the bars shown since the sweep and this one: breakout exactly when enough at the end close beyond the level; else confirmed exactly with an opposite displacement and some rejecting close among them; else out exactly after too many; the history grows by just this bar. |
| LiquidityEngine.BarPhaseGood | src/marketdata/liquidity/liquidity-engine.ts:251-384 | The same for all events of a pair at a new closed bar. |
| LiquidityEngine.BarPhaseShows | src/marketdata/liquidity/liquidity-engine.ts:264-382 | A closed bar adds to the histories of the pair only itself, with a pool of its timeframe as the pair holds it. |
| LiquidityEngine.OnPriceGood | src/marketdata/liquidity/liquidity-engine.ts:386-464 | What one price does to an event of a pool keeps the invariant. |
| LiquidityEngine.PricePhaseGood | src/marketdata/liquidity/liquidity-engine.ts:220-231 | The same for all pools of a step. |
| LiquidityEngine.PruneGood | src/marketdata/liquidity/liquidity-engine.ts:466-472 | Pruning keeps the invariant and leaves no event older than the maximum age. |
| LiquidityPrices.SignalsMean | src/marketdata/liquidity/liquidity-engine.ts:57-134 | What a price shows of a pool, from price, candles and ring: reached, fallen back half a percent, penetration in percent of the level; and a sweep exactly for a penetration in the band that the volatility widens, a last volume above the multiple of the mean before it, and enough speed since the oldest sample of the window, as products. |
| LiquidityPrices.PriceMeans | src/marketdata/liquidity/liquidity-engine.ts:386-472 | For every state between steps, every pool that alone has its id and every price: a pool reached without an event gets a touched one and one touch more; a touched event goes when the price falls back or the touch is too old, is swept exactly by such a sweep, and stays otherwise; a swept one goes after too many bars; any goes once too old. |
| LiquidityBars.ViewMeans | src/marketdata/liquidity/liquidity-engine.ts:103-134 | The opposite displacement and the score of a confirmation from candles, counts and prices: the last closed minute against the raid with a body above one and a half times the mean, and seven conditions with their points. |
| LiquidityBars.OnBarMeans | src/marketdata/liquidity/liquidity-engine.ts:264-382 | Each verdict of a closed bar on a swept event, exactly when it is reached: broken out, confirmed, run out, or kept with its counters moved on. |
| LiquidityBars.BarMeans | src/marketdata/liquidity/liquidity-engine.ts:251-384 | For every pair, bar and pool id: the event of that pool after the bar is what its own bar makes of it, whatever the other events do; its pool is invalidated exactly by a breakout; and exactly what the bar confirms of it is recorded. |
| LiquidityBars.ShownOnce | src/marketdata/liquidity/liquidity-engine.ts:190-212 | Each new closed bar is shown once: after a step no configured timeframe has a newer one, and the others are as they were. |
| LiquidityBars.QuietStep | src/marketdata/liquidity/liquidity-engine.ts:172-236 | A step without a newer bar shows none: the pools decay, and only the price is looked at. |
| LiquidityStep.StepPairGood | src/marketdata/liquidity/liquidity-engine.ts:172-236 | A full step keeps the lifecycle invariant. |
| LiquidityStep.RaidLifecycle | src/marketdata/liquidity/liquidity-engine.ts:172-464 | After every full step of every run: stored events are touched or swept, one per pool, young; the counters of swept ones are those of the bars shown since the sweep, within their limits; a confirmation comes with a bar of its step, in a later step than its sweep, after a rejecting close; the last report is exactly one of actionable and watchlist. Every bar in a history is the last closed candle of an input of the run, for a configured timeframe at that step, shown with a pool at the price and side of one discovered from that input. |
| RaidRuns.RaidIsConfirmed | src/marketdata/liquidity/liquidity-engine.ts:172-464 | A concrete run of three steps: the pool of two equal peaks is touched, then swept, then its raid is confirmed. |
| RaidRuns.SomeRaidIsConfirmed | src/marketdata/liquidity/liquidity-engine.ts:172-464 | So some run of the engine confirms a raid. |
| LiquidityStep.Engine.Step | src/marketdata/liquidity/liquidity-engine.ts:172-236 | The method computes that step for its pair and leaves the others. |
| LiquidityStep.Engine.OnNewClosedBar | src/marketdata/liquidity/liquidity-engine.ts:251-384 | The loop over events computes the bar phase. |
| LiquidityStep.Engine.ShowPrice | src/marketdata/liquidity/liquidity-engine.ts:214-233 | Ring, pools and pruning loops compute the price phase. |
| Simulator.NeverPendingAndOpen | src/strategy/backtest/simulator.ts:60-96 | After any events a pending intent and an open position never coexist. |
| Simulator.LedgerIsSound | src/strategy/backtest/simulator.ts:65-149 | With times that never go back every trade opens, may lock and closes in that order, and leaves at the price its reason names. |
| Simulator.RunsStayInLockstep | src/strategy/backtest/simulator.ts:60-149 | On the same events the pessimistic and the optimistic run keep identical clock, pending and position, and ledgers of equal length with twin trades. |
| Simulator.PnlOrder | src/strategy/backtest/simulator.ts:129-147 | The stop's profit is at most the target's exactly when the levels are in order; then so is the R multiple. |
| Simulator.PessimisticIsNeverBetter | src/strategy/backtest/simulator.ts:106-113 | Per trade: the pessimistic profit is at most the optimistic one exactly when the trades are the same or the levels in order. |
| Simulator.PositionsComeFromIntents | src/strategy/backtest/simulator.ts:60-88 | Every position carries side and levels of an intent that was applied. |
| Simulator.PessimisticRunIsDominated | src/strategy/backtest/simulator.ts:60-149 | With stops and targets on their proper sides, every pessimistic trade has profit and R multiple at most its twin's. |
| SimulatorSteps.TickMeans | src/strategy/backtest/simulator.ts:65-96 | For every state and price: a pending intent is filled, at its own entry or else the price; an open position leaves exactly when the price touches target or stop or its time is over, in that order and at that level or price; else it stays, its lock noted at the first touch of one risk unit. |
| SimulatorSteps.BarMeans | src/strategy/backtest/simulator.ts:98-117 | For every state and bar: a pending intent is filled at its entry or the middle; the position, new or old, leaves exactly when the bar touches a level or its time is over, at the stop before the target for the pessimist, the target first for the optimist; else it stays. |
| SimulatorSteps.OthersMean | src/strategy/backtest/simulator.ts:60-63 | An intent flips an open position out at its entry and waits; the clock alone moves nothing else. |
| SimulatorSteps.PendingIff | src/strategy/backtest/simulator.ts:60-88 | Over every run an intent waits exactly while nothing but clock ticks has come after it. |
| SimulatorSteps.OpenIff | src/strategy/backtest/simulator.ts:60-117 | Over every run, for both ways of settling: a position is open exactly when it is that of the intent last waiting when a price or bar came, no intent came since, no price or bar since touched its stop or target or came after its time, nor the bar that filled it; and its lock is the first time since then one risk unit in favour. |
| Simulator.Backtest.MarkToMarket | src/strategy/backtest/simulator.ts:65-96 | The method is the tick function of the old state. |
| Simulator.Backtest.MarkToMarketBar | src/strategy/backtest/simulator.ts:98-117 | The method is the bar function of the old state. |
| Simulator.Backtest.ApplyTradeIntent | src/strategy/backtest/simulator.ts:60-63 | An open position is flipped out at its entry before the intent waits. |
| Metrics.ComputeMetrics | src/strategy/backtest/metrics.ts:20-96 | The one-pass loop computes sums, counts, peak, maximum drawdown and the derived ratios described below. |
| Metrics.DrawdownStep | src/strategy/backtest/metrics.ts:52-55 | The running maximum drawdown is the maximum of equity_i - equity_j over all i <= j, with equity_0 = 0. |
| Metrics.PeakStep | src/strategy/backtest/metrics.ts:53 | The running peak is the maximum equity so far, zero included. |
| Metrics.SummaryDescribes | src/strategy/backtest/metrics.ts:68-95 | The summary's figures are those quadratic definitions and averages. |
| Metrics.MedianSplits | src/strategy/backtest/metrics.ts:108-114 | At least half of the values are at most the median and at least half are at least it. |
| Metrics.MedianMeans | src/strategy/backtest/metrics.ts:108-114 | It is the middle of the values of the two middle ranks, by counting smaller and no larger ones, zero without values. |
| Metrics.LockTimesMean | src/strategy/backtest/metrics.ts:40-77 | The times the median is of are exactly those of the trades that reached one risk unit, each as often. |
| Metrics.RankOnce | src/strategy/backtest/metrics.ts:108-114 | A rank names one value. |
| Metrics.Expectancy | src/strategy/backtest/metrics.ts:80-95 | winRate*avgWin - (1-winRate)*avgLoss = totalPnl/tradeCount for every non-empty ledger, all-win and all-loss included. |
| Metrics.GainsAndLosses | src/strategy/backtest/metrics.ts:50-51 | Gross gain minus gross loss is the total, and they are sums of the two kinds of trades. |
| Metrics.DominatedTotals | src/strategy/backtest/metrics.ts:49-51 | A ledger dominated trade by trade has the smaller total. |
| Metrics.PessimisticBacktest | src/strategy/backtest/simulator.ts:60-149 | So the pessimistic backtest never has the larger total profit nor more wins. |
| TradePlans.PlanWithinLimits | src/runtime/trade-plan.ts:115-131 | Whatever the inputs: quantity*risk <= risk capital, notional <= equity*cap, leverage between 1 and 10. |
| TradePlans.PlanCarriesSize | src/runtime/trade-plan.ts:126-140 | The plan carries that size; it is marked for the buffer exactly when the rule fails, and never for leverage. |
| TradePlans.LeverageTimesStop | src/runtime/trade-plan.ts:117-131 | Stop distance times notional per equity is the smaller of the risk fraction and the stop distance times the cap. |
| TradePlans.LiquidationBufferExact | src/runtime/trade-plan.ts:134-140 | Without a venue liquidation price the buffer rule holds exactly when the stop distance is at most 1/2 and either the risk fraction or stop distance times cap is. |
| TradePlans.LiquidationBuffer | src/runtime/trade-plan.ts:134-140 | In particular for a risk fraction and a stop distance of at most 1/2. |
| TradePlans.LadderInOrder | src/runtime/trade-plan.ts:98-143 | With the structural stop on the losing side of a positive entry: stop, entry, tp1, tp2 strictly ordered, one and three risk units away, the stop no nearer than the structural one. |
| TradePlans.BreakevenCoversCosts | src/runtime/trade-plan.ts:154-157 | Breakeven lies exactly the carry, fees for both ways and funding, from the entry, on the winning side. |
| TradePlans.OnlyCapAndBuffer | src/runtime/trade-plan.ts:93-140 | Such a plan for the preferred side can only be marked as capped, exactly when the cap binds, or as short of buffer. |
| TradePlans.StopWithinVolatility | src/runtime/trade-plan.ts:103-137 | Its stop distance is at most the structural one plus the volatility. |
| TradePlans.NoEntryNoPlan | src/runtime/trade-plan.ts:98-128 | Without an entry price nothing is bought, the plan is marked so, and a long ladder cannot be in order. |
| TradePlans.PlanLevels | src/runtime/trade-plan.ts:84-105 | In the fields of the input: the side the score prefers, entry or mark price, and the structural stop moved away by the volatility unless that leaves no price. |
| TradePlans.PlanSizing | src/runtime/trade-plan.ts:113-131 | In the fields of the input, given or by default: the risk capital; the quantity is the largest within risk capital, and within equity times the limit, which is the venue's leverage, else the market's, and at most ten; the leverage is what the notional takes, at least one, and at most the larger of one and that limit. |
| TradePlans.PlanTargets | src/runtime/trade-plan.ts:142-157 | Targets one and three risk units away, breakeven two fees and the funding away, on the winning side. |
| TradePlans.PlanBuffer | src/runtime/trade-plan.ts:133-140 | The buffer holds exactly when the given liquidation price is two risk units away, or, without one, two risk units times the leverage are within the entry. |
| TradePlans.PlanMarks | src/runtime/trade-plan.ts:84-140 | Each mark of a plan, exactly when it is set, in the fields of input and plan. |
| ConfluenceScorers.WeightsAddUpToOne | src/runtime/confluence-scorer.ts:52-88 | The weights of every regime are non-negative and add up to one. |
| ConfluenceScorers.RawInRange | src/runtime/confluence-scorer.ts:109-120 | A raw score lies between 0 and 100. |
| ConfluenceScorers.LongRawIs | src/runtime/confluence-scorer.ts:43-120 | The raw long score is the sum of five weights, literal per regime, times the share of their values: the confidence by side, overruled by a component of its name, and the microstructure by the given one; values cut to [-1, 1]. |
| ConfluenceScorers.ShortRawIs | src/runtime/confluence-scorer.ts:43-181 | The raw short score likewise, from own short components or the long values turned round. |
| ConfluenceScorers.ScoreMeans | src/runtime/confluence-scorer.ts:122-210 | Both scores are those points rounded; the gate opens exactly at 75 with a spread of 25, or, when volatile, with an extreme microstructure. |
| ConfluenceScorers.SidesAreAlike | src/runtime/confluence-scorer.ts:163-187 | Two calls with opposite sides and negated components and microstructure have raw scores that add up to 100. |
| ConfluenceScorers.DefaultShortMirrors | src/runtime/confluence-scorer.ts:174-181 | Without own short components, every short contribution is the long one negated. |
| ConfluenceScorers.RawScoresMirror | src/runtime/confluence-scorer.ts:183-187 | Then the raw scores add up to 100. |
| ConfluenceScorers.ScoresAddUp | src/runtime/confluence-scorer.ts:188-191 | The rounded ones add up to 100, or to 101 exactly when the raw score lies halfway between integers. |
| ConfluenceScorers.GateIsOneThreshold | src/runtime/confluence-scorer.ts:122-150 | Then spread and volatile exception never decide: the gate opens exactly outside (25.5, 74.5) of the long raw score, with a dominant side and a spread of at least 49. |
| ConfluenceScorers.ExplicitShortComponentsCanDecide | src/runtime/confluence-scorer.ts:138-148 | With explicit short components the volatile exception alone can open the gate, without a dominant side. |
| ConfluenceScorers.WeightedComponentScore | src/runtime/confluence-scorer.ts:109-120 | The loop computes the weighted raw score. |
| ConfluenceScorers.ConfluenceScorer.ScorePair | src/runtime/confluence-scorer.ts:163-210 | Stores and returns the score of the pair, no other changes. |
| IntentValidators.ApprovedIff | src/execution/intent-validator.ts:126-219 | Approved exactly when the intent is complete and alive, market and account are sound, all levels are there, strictly ordered for the side and worth taking (as products, without division); a rejection always names a code. |
| IntentValidators.NoMarketRejection | src/execution/intent-validator.ts:136-182 | The checks before the levels are silent exactly when intent, market and presence of levels are in order. |
| IntentValidators.NoLevelRejection | src/execution/intent-validator.ts:184-200 | The level checks are silent exactly when the levels are ordered and worth taking. |
| IntentTerms.CodesMean | src/execution/intent-validator.ts:126-219 | For every input: approved exactly when none of the twenty codes has an objection, and a rejection lists exactly the codes that have one, each spelled out in the fields of intent, market and options with the default limits as literals. |
| IntentTerms.MetricsMean | src/execution/intent-validator.ts:114-219 | An approval carries the intent, its levels, and what they measure: reward to risk, and both to the entry, as products. |
| IntentTerms.EntryMeans | src/execution/intent-validator.ts:91-103 | The entry judged on is the intent's own price, else the mark, else the middle of an uncrossed quote. |
| IntentValidators.SpreadOf | src/execution/intent-validator.ts:105-112 | Comparing the relative spread is comparing the gap with the share of the middle. |
| IntentValidators.ValidateTradeIntent | src/execution/intent-validator.ts:126-219 | The method collects the same rejections in the same order and approves with the same metrics. |
| IntentValidators.CollectMarketRejections | src/execution/intent-validator.ts:155-178 | The collected codes up to the spread check, in order. |
| RuntimePipelines.RoutedIff | src/runtime/runtime-pipeline.ts:120-236 | A trade signal is routed exactly when its side has 74.5 of 100 raw points and the validator's conditions hold; the confluence gate blocks exactly when the points are missing. |
| RuntimePipelines.IntentMeans | src/runtime/runtime-pipeline.ts:120-150 | Which signals become intents and what the intent says, field by field. |
| RuntimePipelines.DecisionUses | src/runtime/runtime-pipeline.ts:139-206 | Every decision on an intent carries the score and the plan computed from that intent, the market and the overrides, field by field. |
| RuntimePipelines.RoutedIsSound | src/runtime/runtime-pipeline.ts:139-236 | Intent, dominant and plan side agree; with an entry of its own the plan's levels are strictly ordered and it can only be marked as capped or short of buffer. |
| RuntimePipelines.QuoteOnlyPlansNothing | src/runtime/trade-plan.ts:98-101 | The condition is exact: with only a quote to take the entry from, the routed plan has entry and quantity zero, and a long ladder is out of order. |
| RuntimePipelines.QuoteOnlyIsRouted | src/execution/intent-validator.ts:98-100 | Such a call exists and is routed. |
| RuntimePipelines.RoutedKeepsBuffer | src/runtime/runtime-pipeline.ts:140-206 | If the validator's stop bound plus the volatility, and the risk fraction, are at most 1/2 and the venue names no liquidation price, a routed plan with its own entry never lacks its buffer. |
| RuntimePipelines.DefaultsHaveRoom | src/runtime/trade-plan.ts:50-59 | Without options and overrides that condition is just that the venue names no liquidation price. |
| RuntimePipelines.PendingIffLastBlocked | src/runtime/runtime-pipeline.ts:128-207 | After any run: a pair has a pending intent exactly when its last decision blocked it, and it is that intent; the router got exactly the routed intents in order; the stored score is the last used. |
| RuntimePipelines.CancelledIff | src/runtime/runtime-pipeline.ts:243-246 | A call reports a cancellation exactly when the regime changed while the pair's last decision was a block. |
| RuntimePipelines.CoreRuntimePipeline.Process | src/runtime/runtime-pipeline.ts:120-236 | The method returns the outcome and leaves the state of those functions. |
| RuntimePipelines.CoreRuntimePipeline.Conclude | src/runtime/runtime-pipeline.ts:152-236 | The two gates and the router for the score just stored. |
| RuntimePipelines.CoreRuntimePipeline.CancelPendingEntriesOnRegimeChange | src/runtime/runtime-pipeline.ts:243-246 | Deletes the pair's pending intent exactly when the regime changed. |
| RiskFilters.LiveIsHistory | src/strategy/risk/composite-filter.ts:69-71 | The live list the rules see is the whole accepted history without what has expired. |
| RiskFilters.CooldownSpaces | src/strategy/risk/rules/cooldown.ts:9-22 | With the cooldown rule, accepted trades of one strategy, side and pair are at least the cooldown apart. |
| RiskFilters.CapHolds | src/strategy/risk/rules/max-concurrent-signals.ts:8-17 | At every moment the trades alive and in the window never exceed the cap, in all; with the per-strategy rule, per strategy. |
| RiskFilters.RoomLeft | src/strategy/risk/rules/per-strategy-max-positions.ts:8-17 | An accepted trade found the count over the whole history below the cap. |
| RiskFilters.OpposingNeverOverlaps | src/strategy/risk/rules/correlation.ts:8-20 | An accepted trade opposes an earlier one on its pair only if that one has expired or left the window. |
| RiskFilters.PeakIsMaximum | src/strategy/risk/rules/drawdown-gate.ts:9-14 | The peak is the largest positive equity any trade signal came with, blocked or not. |
| RiskFilters.GateLimitsDrawdown | src/strategy/risk/rules/drawdown-gate.ts:11-20 | A trade let through with a known equity is less than the limit below that peak. |
| RiskFilters.BlockedChangesNothing | src/strategy/risk/composite-filter.ts:47-63 | A blocked trade changes nothing but expiry and the peak; a WAIT is never blocked and changes only expiry. |
| RiskVerdicts.VerdictMeans | src/strategy/risk/composite-filter.ts:33-63 | Over every run: a trade is let through exactly when every rule lets it, judged from all calls and the trades let through so far without any memory of the filter's own: confidence, trades in play below the cap, distance to every like trade, no trade in play against it, equity less than the limit below the highest so far; a WAIT always passes. |
| RiskFilters.CompositeRiskFilter.FilterSignal | src/strategy/risk/composite-filter.ts:33-63 | Verdict and new state of the filter, its cooldown memory and its peak. |
| RiskFilters.CompositeRiskFilter.ApplyRules | src/strategy/risk/composite-filter.ts:42-46 | All rules are asked, also after a block, so the peak is raised either way. |
| RiskFilters.CompositeRiskFilter.Expire | src/strategy/risk/composite-filter.ts:69-71 | The filter loop keeps exactly the live records in order. |
| RiskFilters.FindConflict | src/strategy/risk/rules/correlation.ts:12-14 | Finds a conflicting record exactly if there is one. |
| RiskFilters.PerPairCooldownRule.Apply | src/strategy/risk/rules/cooldown.ts:9-18 | The cooldown verdict on its own memory. |
| RiskFilters.DrawdownGateRule.Apply | src/strategy/risk/rules/drawdown-gate.ts:9-21 | Raises the peak and gives the drawdown verdict. |
| CandlePagers.NormalizeOrders | src/marketdata/candles/candle-history-ingestor.ts:149-158 | Normalising keeps exactly the last usable row of each opening time, in strictly increasing time. |
| CandlePagers.TimeframeSeconds | src/marketdata/candles/candle-history-ingestor.ts:6-14 | The step of every known timeframe is the number it spells times its unit. |
| CandlePagers.CursorAdvances | src/marketdata/candles/candle-history-ingestor.ts:107-110 | Whatever the API answers, the cursor strictly increases. |
| CandlePagers.PageIsWindow | src/marketdata/candles/candle-history-ingestor.ts:84-91 | One answer with precisely the window's candles, in any order with duplicates and junk, normalises to the window. |
| CandlePagers.PagingIsComplete | src/marketdata/candles/candle-history-ingestor.ts:79-111 | If the start is a multiple of the step, or the first multiple after a full first page is beyond the range, every existing candle of the range is handed on exactly once, in order. |
| CandlePagers.OtherwiseACandleIsLost | src/marketdata/candles/candle-history-ingestor.ts:92-95 | The condition is exact: where it fails, a lone candle at that multiple is never asked for. |
| CandlePagers.PagesBounded | src/marketdata/candles/candle-history-ingestor.ts:79-111 | Whatever the API answers: pages <= bars handed on + range/(maxBars*step) + 1. |
| CandlePagers.NormalizeCandles | src/marketdata/candles/candle-history-ingestor.ts:149-158 | The loop over a keyed table computes the normal form. |
| CandlePagers.CandleHistoryIngestor.Pages | src/marketdata/candles/candle-history-ingestor.ts:79-111 | The cursor loop hands on exactly what the recursive definition says, in as many pages. |
| CandlePagers.CandleHistoryIngestor.IngestRange | src/marketdata/candles/candle-history-ingestor.ts:70-120 | Seconds by flooring, unknown timeframes refused, counts as computed. |
| CandlePagers.CandleHistoryIngestor.constructor | src/marketdata/candles/candle-history-ingestor.ts:65-68 | A page size below one becomes one, above the maximum the maximum, any other stays. |
| MultiTimeframeStores.MergeKeeps | src/marketdata/candles/multi-timeframe-store.ts:123-138 | One merge keeps oldest-first order, the length bound, a newest time that never decreases, and all closed bars until eviction. |
| MultiTimeframeStores.MergeMeans | src/marketdata/candles/multi-timeframe-store.ts:123-136 | A merge leaves exactly the last candle to arrive for each time and the bars for whose time none arrives, oldest first; a candle arrives when it is not older than anything before it. |
| MultiTimeframeStores.CutMeans | src/marketdata/candles/multi-timeframe-store.ts:137-138 | The cut keeps the newest, as many as allowed. |
| MultiTimeframeStores.NoLengthNoBars | src/marketdata/candles/multi-timeframe-store.ts:137 | The bound must be at least one: with zero every bar is dropped. |
| MultiTimeframeStores.NewestIsLatest | src/marketdata/candles/multi-timeframe-store.ts:128-136 | The newest bar becomes the last candle that came for the latest time. |
| MultiTimeframeStores.RunKeeps | src/marketdata/candles/multi-timeframe-store.ts:98-140 | The same between any two moments of any run of merges from an oldest-first seed. |
| MultiTimeframeStores.MultiTimeframeStore.MergeCandles | src/marketdata/candles/multi-timeframe-store.ts:123-140 | The loop and splice compute the merge for one pair and timeframe; unseeded pairs are ignored. |
| MultiTimeframeStores.MultiTimeframeStore.ApplyWsCandle | src/marketdata/candles/multi-timeframe-store.ts:98-120 | Seconds become milliseconds, the configured length or 100 applies, all other lists stay. |
| MultiTimeframeStores.MultiTimeframeStore.Seed | src/marketdata/candles/multi-timeframe-store.ts:52-73 | Replaces all lists of the pair by what was fetched. |
| MultiTimeframeStores.MultiTimeframeStore.Unseed | src/marketdata/candles/multi-timeframe-store.ts:157-166 | Forgets the pair and no other. |
| TradeFlows.BufferIsRecentHistory | src/marketdata/trade-flow.ts:56-66 | For ticks in time a pair's buffer is its whole history cut at the largest window before the last tick. |
| TradeFlows.WindowIsFullHistory | src/marketdata/trade-flow.ts:109-120 | For a window no wider and a query no earlier than the last tick, the early-exit scan of the pruned buffer sees exactly the ticks of the whole history in the window. |
| TradeFlows.ScanIsFilterIff | src/marketdata/trade-flow.ts:109-120 | For every list of ticks, the early-exit scan is the filter by time exactly when no tick in the window is followed by one before the cutoff. |
| TradeFlows.WindowIsFullHistoryIff | src/marketdata/trade-flow.ts:56-66 | Over every run, for a window no wider than the largest and no tick later than now: the scan of the pruned buffer is the filter of the whole history exactly when no tick of it in the window is followed by one before the cutoff. |
| TradeFlows.LateTickHidesWindow | src/marketdata/trade-flow.ts:114-116 | A witness: one late tick hides an earlier one inside the window. |
| TradeFlows.CvdIsSignedSum | src/marketdata/trade-flow.ts:67-68 | The running delta is the signed sum of all ticks of the pair. |
| TradeFlows.MetricsMean | src/marketdata/trade-flow.ts:109-132 | Whatever the ticks: bought and sold add up to all quantities and differ by the signed ones, and the imbalance is the share of that difference in the total, zero without a positive total. |
| TradeFlows.ImbalanceInRange | src/marketdata/trade-flow.ts:121-131 | With positive quantities the imbalance lies in [-1, 1], and is 1 exactly when all ticks buy. |
| TradeFlows.WindowMetricsFromBuffer | src/marketdata/trade-flow.ts:109-132 | The backward loop computes count, volumes and imbalance of the scanned ticks. |
| TradeFlows.TradeFlow.IngestTick | src/marketdata/trade-flow.ts:56-69 | Push, prune and delta for one pair. |
| TradeFlows.TradeFlow.WindowMetricsFor | src/marketdata/trade-flow.ts:83-87 | None exactly for a pair without buffered ticks. |
| TradeFlows.TradeFlow.Ticks | src/marketdata/trade-flow.ts:95-107 | The collected and reversed ticks are the scanned ones in order. |
| Audits.AlwaysOneDrain | src/audit/audit.ts:54-76 | However steps interleave at most one drain is active, exactly while the flag is up, and then something is queued. |
| Audits.CountsAddUp | src/audit/audit.ts:41-48 | Inserted + reported drops + queued = recorded, plus a stated excess per event for a bound below one; the queue stays within a bound of at least one. |
| Audits.CountsAddUpIff | src/audit/audit.ts:42-46 | The counts agree exactly when the bound is at least one or nothing was recorded. |
| Audits.InOrderIffNoDrop | src/audit/audit.ts:41-76 | Table and queue together are the recorded sequence exactly when no drop was ever reported. |
| Audits.InsertAccountsIff | src/audit/audit.ts:59-67 | A finished insert keeps every event accounted for exactly when its event still heads the queue. |
| Audits.NothingLostQuietly | src/audit/audit.ts:41-76 | If overflow never meets an insert in flight, every event is inserted, queued or dropped as often as recorded. |
| Audits.NothingLostIff | src/audit/audit.ts:41-76 | Over every run that records different events: each is in the table, the queue or among the dropped ones, and none twice, exactly when every finished insert found its event at the head of the queue. |
| Audits.OverflowInFlightLosesAnEvent | src/audit/audit.ts:44-67 | A witness: with overflow in flight an event can vanish neither inserted nor reported. |
| Audits.RecordMeans | src/audit/audit.ts:41-48 | Of the queue with the new event the newest stay, as many as the bound allows and at least the new one; the older ones go and are reported, with the excess of a bound below one; nothing else changes. |
| Audits.DrainGetsThrough | src/audit/audit.ts:54-76 | After any run: a drain whose inserts do not fail writes the queue to the table in order, one event an insert, and then ends. |
| Audits.CatchesUp | src/audit/audit.ts:54-76 | So a run without drops that is left alone ends with everything recorded in the table, in order. |
| Audits.FailureKeeps | src/audit/audit.ts:68-75 | A failed insert gives up and leaves table and queue alone; the next drain begins with the same event. |
| Audits.Audit.RecordEvent | src/audit/audit.ts:41-48 | The record step. |
| Audits.Audit.DrainOnce | src/audit/audit.ts:54-61 | The step from the call to the first wait. |
| Audits.Audit.InsertReturned | src/audit/audit.ts:61-75 | The step after a wait: shift and go on, or give up. |
| OutcomeResolution.OutcomeMeans | src/prediction-outcomes/resolve-from-bars.ts:18-62 | Target first exactly when some completed bar touches the target and none up to and including it the stop; stop first exactly when some touches the stop and none before it the target; neutral or pending exactly when none touches, by the deadline. |
| OutcomeResolution.VerdictIsFinal | src/prediction-outcomes/resolve-from-bars.ts:39-58 | A target or stop verdict never changes as time passes, open bars change and new bars arrive. |
| OutcomeResolution.NeutralStaysIff | src/prediction-outcomes/resolve-from-bars.ts:39-61 | A neutral verdict stays exactly when no bar closing after it was given, and completed by now, touches stop or target; it becomes target first or stop first exactly as the first such bars decide. |
| OutcomeResolution.NeutralCanBeOverturned | src/prediction-outcomes/resolve-from-bars.ts:40-60 | A witness of such a change. |
| OutcomeResolution.SidesAreSymmetric | src/prediction-outcomes/resolve-from-bars.ts:45-57 | Negating prices (each bar's high and low change places) and changing sides changes neither outcome nor count. |
| OutcomeResolution.ScanDecides | src/prediction-outcomes/resolve-from-bars.ts:40-58 | What the early-exit scan over ordered bars decides. |
| OutcomeResolution.ResolvePredictionOn15mBars | src/prediction-outcomes/resolve-from-bars.ts:18-62 | Filter, sort and scan loops compute the resolution. |
| Divergences.DiffIsExact | src/account/divergence-detector.ts:56-83 | The list holds exactly the differences: each missing id each way, each differing compared field of a shared id, with its severity. |
| Divergences.DiffListsOnce | src/account/divergence-detector.ts:61-81 | No missing id and no differing field is listed twice. |
| Divergences.DiffEmptyIff | src/account/divergence-detector.ts:56-83 | Nothing is listed exactly when ids and all compared fields agree. |
| Divergences.DiffMaps | src/account/divergence-detector.ts:56-83 | The two loops compute the list in order. |
| Divergences.ToTable | src/account/divergence-detector.ts:51-52 | Rows become a table with the last row of each id. |
| AccountStores.PositionStore.ReplaceFromRest | src/account/stores/position-store.ts:41-52 | Vanished open positions are flattened in place and reported, then the rows are set; ids stay unique. |
| AccountStores.PositionStore.TakeSnapshot | src/account/stores/position-store.ts:54-56 | The non-flat rows in order. |
| AccountStores.BalanceStore.ReplaceFromRest | src/account/stores/balance-store.ts:15-19 | The rows' own table; the violation flag is up exactly while some balance is negative. |
| AccountStores.BalanceStore.ApplyWs | src/account/stores/balance-store.ts:7-13 | Sets one row and keeps the flag exact. |
| AccountStores.OrderStore.ReplaceFromRest | src/account/stores/order-store.ts:36-41 | Open rows are dropped, closed ones kept, the rows set; ids stay unique. |
| AccountStores.OrderStore.EvictExpired | src/account/stores/order-store.ts:56-80 | Expired closed orders are removed, and of the others the surplus that comes first by the text of its update time; ids stay unique. |
| Reconciliation.SnapshotIsRest | src/account/reconcile-controller.ts:169-171 | After the replacement the visible positions are exactly the exchange's that are not flat. |
| Reconciliation.PositionsSettleIff | src/account/reconcile-controller.ts:163-185 | Sweeping again with the same rows finds nothing exactly when the exchange reports no flat position. |
| Reconciliation.VanishedReportedOnce | src/account/reconcile-controller.ts:171-180 | Each open position absent from the exchange is reported exactly once and flat afterwards; a second identical sweep reports none. |
| Reconciliation.BalancesSettle | src/account/reconcile-controller.ts:187-201 | After a sweep comparing balances again finds nothing. |
| Reconciliation.SweepsListOnce | src/account/divergence-detector.ts:20-28 | With the fields each kind of row compares, no sweep lists a missing id or a differing field twice. |
| Reconciliation.OpenOrdersAreRest | src/account/reconcile-controller.ts:203-225 | After the whole sweep, eviction included, the open orders are exactly the exchange's open rows. |
| Reconciliation.OrdersSettleIff | src/account/reconcile-controller.ts:203-225 | Comparing the open orders again after the whole sweep finds nothing exactly when the exchange's rows are all open. |
| Reconciliation.UnfilledIsGone | src/account/reconcile-controller.ts:431-447 | An order reported as cancelled unfilled was open with a rest, is not at the exchange and is gone from the store after the whole sweep. |
| Reconciliation.UnfilledOnce | src/account/reconcile-controller.ts:431-447 | A second sweep with the same answer reports no order as cancelled. |
| Reconciliation.EvictsOldestClosed | src/account/stores/order-store.ts:56-80 | Eviction spares open orders, keeps no expired one, and takes an unexpired one only when there are too many, none later by the text of its update time than any kept. |
| Reconciliation.EvictsOldestInTime | src/account/stores/order-store.ts:62-73 | Where the order of the texts is the order of the times they denote, as for ISO timestamps, none evicted is later in time than any closed order kept. |
| Reconciliation.ClosedOrdersBounded | src/account/stores/order-store.ts:71-78 | Afterwards at most the allowed number of closed orders remains. |
| SweepResults.PositionDiffsMean | src/account/reconcile-controller.ts:169-170 | The list of a position sweep holds exactly: positions of the answer not held open, positions held open that the answer lacks, and named fields with different texts; a size is an alarm, a profit by how far it is off in absolute or relative terms, the rest is for information. |
| SweepResults.BalanceDiffsMean | src/account/reconcile-controller.ts:193-194 | The list of a balance sweep holds exactly the currencies one side lacks and the amounts that differ, each an alarm. |
| SweepResults.OrderDiffsMean | src/account/reconcile-controller.ts:208-209 | The list of an order sweep compares exactly the orders still working here with the answer, field by field. |
| SweepResults.AlarmingIs | src/account/divergence-detector.ts:85-97 | When a differing profit is an alarm, as a product. |
| SweepResults.SweptPositionsMean | src/account/stores/position-store.ts:41-52 | After the sweep the store holds exactly the last row of each id of the answer, and of every other id the row it held, flat. |
| SweepResults.ReportedMean | src/account/stores/position-store.ts:44-49 | Reported as closed are exactly the ids held open that the answer lacks. |
| SweepResults.ReplacedOrdersMean | src/account/stores/order-store.ts:37-42 | Before the eviction the store holds exactly the last row of each id of the answer and the settled orders of other ids. |
| SweepResults.EvictionMeans | src/account/stores/order-store.ts:56-80 | Eviction keeps exactly the working orders, and of the settled ones those in time with fewer than the allowed number of others behind them by text and place. |
| SweepResults.UnfilledMeans | src/account/reconcile-controller.ts:431-447 | Reported as cancelled unfilled are exactly the orders working here with a rest that the answer lacks. |
| AccountRuns.PositionsDistinct | src/account/stores/position-store.ts:33-52 | After every run of updates and sweeps each position id has one row. |
| AccountRuns.StoreHoldsLastWord | src/account/stores/position-store.ts:33-52 | After every run of socket updates and sweeps an id finds exactly what was last said about it, a sweep that lacks it flattening it. |
| AccountRuns.VisibleIsLastWord | src/account/stores/position-store.ts:54-56 | So the visible positions are the last words that are not flat. |
| AccountRuns.EverySweepSettles | src/account/reconcile-controller.ts:163-185 | After every run, a sweep makes the visible positions the exchange's and reports each vanished one once; a second one with the same answer reports none and finds no difference exactly when the exchange reports no flat row. |
| AccountRuns.UpdateReports | src/account/stores/position-store.ts:18-25 | After every run, a socket update is reported by the sizes before and after: flipped exactly when they have opposite signs, opened and closed exactly when one of them is zero. |
| AccountRuns.ReportsFollowIff | src/account/stores/position-store.ts:18-52 | Over every run of updates and sweeps, the opened and closed reports of an id tell at every moment whether it is held, exactly when no sweep opens or closes it by a row of its own; then opened and closed take turns, opened first, flips in between. |
| AccountRuns.UpdatesTakeTurns | src/account/stores/position-store.ts:33-39 | In particular over all runs of socket updates alone. |
| AccountRuns.FoundBySweepIsSilent | src/account/stores/position-store.ts:50 | A witness: a position that a sweep finds first is held without ever having been reported. |
| AccountRuns.OrdersDistinct | src/account/stores/order-store.ts:23-80 | After every run of updates and sweeps each order id has one row. |
| AccountRuns.OpenIsLastWord | src/account/stores/order-store.ts:23-41 | After every run the open orders held are exactly the last words that are open, a sweep that lacks an open order withdrawing it. |
| AccountRuns.EveryOrderSweepSettles | src/account/reconcile-controller.ts:203-225 | After every run, a sweep makes the open orders the exchange's; a second one reports none as cancelled and finds no difference exactly when the rows are all open; the closed orders are within their bound. |
| AccountRuns.ClosedOrdersStayBounded | src/account/stores/order-store.ts:56-80 | At every moment there are no more closed orders than allowed, plus one for each update since the last sweep. |
| Reconciliation.AccountReconcileController.SweepPositions | src/account/reconcile-controller.ts:168-180 | Diff, replacement and reports as those functions of the old store. |
| Reconciliation.AccountReconcileController.SweepBalances | src/account/reconcile-controller.ts:192-195 | Diff and replacement of the balances. |
| Reconciliation.AccountReconcileController.SweepOrders | src/account/reconcile-controller.ts:207-225 | Diff, replacement, unfilled reports and eviction of the orders. |

## Left out

- Floating-point rounding, NaN and infinities, decimal parsing, number formatting.
- Databases, sockets, HTTP, timers, logging and signals sent to the bus: replies are steps or arguments, reports are
  result values.
- Order book checksums, `buildSnapshot`, `latestFrame`, spread and mid price.
- `ResyncOrchestrator` durations and reasons; a rejected resubscription or fetch is one kind of failure.
- RestBudgets.RestBudget.AttemptAcquire: one round of the retry loop, with buckets as map values; the caller repeats
  rounds until success or the deadline, as the steps of the resync protocol do.
- The text of a pool identifier: an id is the timeframe, the side and the price in millionths.
- The engine's snapshot for display, indicator texts, and the market structure shift (it arrives as an
  input); the power in the tick decay is a given factor in (0, 1].
- Backtest intents without stop or target, and the text reasons of trades.
- Sharpe and Calmar ratios and the annualized return.
- The third target and display metadata of a trade plan; its violations are a set, not a list in order.
- Intent identifiers, metadata and reasons; the regime classifier (its answer is an argument of each call), evaluation
  timestamps, and the position life cycle switch that follows a routed order.
- Confluence components that are not finite numbers.
- Alerts of the risk filter; `resetPeak`; several instances of one stateful rule are one memory, since they see the
  same calls.
- Reading single candle rows (arrays or objects), persistence counts that differ from the bars handed over, and the
  sum over several timeframes.
- Poll timers, `getSnapshot`, and update events of the multi-timeframe store.
- Reading raw trade messages; ticks arrive read, with any quantity unless a contract says otherwise.
- `start` and `stop` of the audit queue: any task may call the drain at any step.
- Changed-field lists, order status regressions, deduplication of order events, changelog rows, fills, throttled and storm-suppressed signals of
  the account controller; socket updates between a sweep's replacement and its later writes.
- How update times are read and how texts compare: a given reading, and a given place of every text in their order.
- `evictFlat` and `linkToPosition` of the account stores.
- AI analyzer, TUI, configuration, migrations, schedulers and the remaining single-branch policies: they would add
  only easy members.
