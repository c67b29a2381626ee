# Order tracking, budgets, events and reports of a trading client, verified

This project models the stateful core of the client in Dafny and proves what it keeps over every run.

* **The client order tracker.** `Orders` holds the in-flight order, the two updates that change it and its
  JSON form. `TrackerModel` is the tracker as a state machine: three stores (active, bounded cache, lost), the
  not-found counters, the suspended FILLED updates and the log of emitted events. A step is the part of a call
  that runs without suspending; the environment chooses which suspended update resumes when, and which entries the
  bounded cache drops. `TrackerInvariant`, `TrackerRuns`, `TrackerEvents`, `TrackerCompletion` and `TrackerClosing`
  prove its properties over whole runs, `TrackerRestore` and `TrackerRestarts` those of saving and restoring, once and
  over any number of restarts, `TrackerSnapshots` those of a snapshot taken inside an event, and `StatusPolling` those
  of the polling rounds and error handlers that drive it. `ClientOrderTracker` is the object itself, tied to the state
  machine method by method.
* **PubSub.** Weakly held listeners, sweeps of dead references at random moments, and a dispatch that may be
  re-entered (`PubSub`, `PubSubRefinement`). `core/pubsub.cpp` is generated from `core/pubsub.pyx`; the rows cite
  the latter, whose functions are the lines 4663-5816 of the former. `CodeObjectCache` and `IntConversion` are the
  two algorithms of the generated file that have a specification of their own.
* **BudgetChecker.** `OrderCandidates` and `OrderSizing` model a spot candidate: the collateral, percent fee and
  fixed fees it needs, and how it shrinks to fit. `BudgetModel` is the greedy allocation over a batch and
  `BudgetChecker` holds the two objects that do this in place.
* **Performance report.** `PerformanceModel` and `Performance`: profit of spot trades, fills merged in place, and
  the pairing loop over two lists that it empties.
* **Time synchronizer, funding payments, volume metrics.** One file each: an error bound, payments announced once
  under any order of fetches, and conservation of events under any interleaving of collections.

Amounts, prices, rates, times and offsets are exact reals; identifiers are strings. Clocks, random draws, rates,
prices and answers of the exchange are parameters.

Properties that turned out not to hold without a condition are stated with the exact condition:

* Save and restore is the identity on the tracker's active and lost orders exactly when every order has a price, has
  no maker fill, and no lost order is FILLED (`SaveRestore`): a missing price is saved as a text that is no decimal,
  and reading a fill back ignores `is_taker`.
* A snapshot taken inside a closing event restores to the post-event stores exactly when every order that stays is read
  back, every lost order is another one and FAILED, and the closing order is not an active one that is read back and
  fails, which would come back as lost (`SnapshotInsideUpdate`). A FILLED update that was waiting when its order was
  declared lost breaks the second part when it resumes, and a run of four steps reaches that
  (`SnapshotMissesCompletedLost`).
* Fill events add up to the executed amount exactly when no recorded fill is negative (`FillConservation`).
* An order gets exactly one created event, plus one for every update applied to it that sends it back to PENDING_CREATE,
  minus the times it leaves that state by a cancellation or failure or is handed over past it, minus one while it is
  still pending (`CreatedExactly`); so at most one without such an update, and `CreatedTwice` is a run with two.
  Repeated FILLED updates complete an order again exactly when a later one brings its first
  exchange id (`RepeatedFilled`).
* A FAILED update of an order that is already fully executed emits a completed event, not a failure
  (`SubmissionFailure`). An order gets one cancelled or one completed event if all its updates agree on how it ends
  (`CancelledExactlyOnce`, `CompletedExactlyOnce`); if a CANCELED order is reported FILLED afterwards it gets both, as
  `EventsAsOwed` counts.
* With non-negative fees, a spot candidate always fits after adjusting exactly when no two positive fixed fees share a
  token (`AlwaysFitsIffUnshared`, `SharedTokenOvercommits`). A candidate of amount zero is not checked at all
  (`ZeroOrderUnchecked`). Of any two orders without fees and with the same collateral token, the first checked against
  the total and the second against the available balance, the second is returned with a negative amount exactly when
  the first locked at least one of its size steps' worth more than was available; under all-or-none, the default, it is
  emptied instead (`MixedSourcesFlip`, `FeelessFlips`).
* A dispatch calls every listener that was live and registered at entry unless a call hands back an exception outside
  `Exception`; it ends at the first such call, and only then hands an exception on (`TriggerEvent`, `AbortedByCall`).
* Without a rate the reported profit depends on the order of the trades unless the volumes cancel or the last prices
  agree (`ProfitIgnoresOrder`). After fills are merged, later sums over the same objects count every amount but the
  first of its order twice (`MergingCountsTwice`).
* A funding payment is announced once between two network stops, and again after a stop exactly when its timestamp is
  positive and the fetch fires (`RepeatedAfterStop`).

## Model

| member | source | states |
|---|---|---|
| `Orders.JsonRoundTrip` | core/data_type/in_flight_order.py:215-268 | an order survives `to_json` and `from_json` unchanged if and only if it has a price and all its fills are taker fills; a missing price makes reading fail, and nothing else does |
| `Orders.TakenByEitherId` | core/data_type/in_flight_order.py:315-359 | an update or trade is taken if and only if one of the two identifiers agrees, and a trade id counts once |
| `Orders.InFlightOrder.UpdateWithOrderUpdate` | core/data_type/in_flight_order.py:315-337 | the object becomes the updated order value; true exactly when state or exchange id is new |
| `Orders.InFlightOrder.UpdateWithTradeUpdate` | core/data_type/in_flight_order.py:339-359 | the object becomes the filled order value; true exactly when the trade id is new and an identifier agrees |
| `TrackerModel.CacheInsert` | connector/client_order_tracker.py:146-151 | the inserted id is in the cache, the capacity holds, nothing else enters, and nothing leaves before the cache is full; then one entry goes |
| `TrackerInvariant.StepKeeps` | connector/client_order_tracker.py:200-305 | every step keeps the three stores disjoint and duplicate free, active orders open, lost ones FAILED or FILLED, and counters on active orders within the limit |
| `TrackerInvariant.FinishEffect` | connector/client_order_tracker.py:290-295 | applying an update to an order in any store changes that order alone, files it in the cache exactly when it was active and is now closed, and only appends events |
| `TrackerInvariant.LostEffect` | connector/client_order_tracker.py:234-251 | the report over the limit moves the order from active to lost, leaves the cache without it, and keeps the invariant |
| `TrackerRuns.RunKeeps` | connector/client_order_tracker.py:200-305 | the invariant holds in every state of every run with fresh ids, over all interleavings of suspended updates and cache expiry |
| `TrackerRuns.StepMoves` | connector/client_order_tracker.py:143-151 | one step moves an id only from unseen to active, from active to cached or lost, and from those to gone; only its own not-found report makes it lost |
| `TrackerRuns.RunMoves` | connector/client_order_tracker.py:143-151 | over a run no id moves back, and none goes from the cache to the lost orders or back |
| `TrackerRuns.CounterOverRun` | connector/client_order_tracker.py:234-237 | while an order stays active its counter grows by exactly its not-found reports, whatever succeeds in between |
| `TrackerRuns.LostOnExactReport` | connector/client_order_tracker.py:234-251 | an order still active is declared lost by exactly its (limit + 1)-th report since it was started |
| `TrackerRuns.ReportOfLost` | connector/client_order_tracker.py:252-265 | the next report of a lost order drops it from every store |
| `TrackerRuns.DeletionMissesOnlyEmptyId` | connector/client_order_tracker.py:249-251 | the deletion from the cache raises exactly for an empty client id; for every other id the order is lost and its events are out |
| `TrackerEvents.StepEvents` | connector/client_order_tracker.py:203-305 | every step changes orders and event log exactly by the update it applies, to the order that update names |
| `TrackerEvents.TradeRecorded` | connector/client_order_tracker.py:203-221 | a trade with a new id of a tracked order, active, cached or lost, is appended to its fills and announced if its amount is positive; any other trade changes nothing |
| `TrackerEvents.NoKeyError` | connector/client_order_tracker.py:250 | no run raises the key error of the deletion |
| `TrackerEvents.BooksOverRun` | connector/client_order_tracker.py:203-221 | executed base and quote amounts, fills, filled events and distinct trade ids stay consistent as an order moves between the stores |
| `TrackerEvents.FillConservation` | connector/client_order_tracker.py:399-420 | in any run no trade id is announced twice, every filled event has its fill, and the amounts add up to the executed amount if and only if no fill is negative |
| `TrackerCompletion.CreationsOverRun` | connector/client_order_tracker.py:392-397 | created events, skipped ones and the one an order may still cause add up to the same number as the ones it was due and the times it was sent back, over any run |
| `TrackerCompletion.CreatedExactly` | connector/client_order_tracker.py:392-397 | the exact number of created events of an order in any run of a new tracker; at most one if no update sends it back to PENDING_CREATE |
| `TrackerCompletion.CreatedTwice` | connector/client_order_tracker.py:392-397 | a run in which an order that is sent back once is announced twice |
| `TrackerCompletion.EndingsOverRun` | connector/client_order_tracker.py:278-295 | an order changed only by FILLED updates, or only by CANCELED ones, gets the event of that end once, when the first of them is applied, no other closing event, and is never lost |
| `TrackerCompletion.CompletedExactlyOnce` | connector/client_order_tracker.py:278-295 | any number of FILLED updates of one active order with its exchange id, suspended and resumed in any order among any steps that neither update nor stop it otherwise, give exactly one completed event and no cancelled or failure event; the order is then in the cache or expired, and before that active |
| `TrackerCompletion.CancelledExactlyOnce` | connector/client_order_tracker.py:422-440 | likewise any number of CANCELED updates give exactly one cancelled event and no completed or failure event |
| `TrackerCompletion.RepeatedFilled` | connector/client_order_tracker.py:292-295 | a FILLED update of a FILLED order completes it again if and only if it brings the first exchange id |
| `TrackerClosing.UpdateOutcome` | connector/client_order_tracker.py:269-305 | an update that names an active or cached order and changes its state: it waits if it says FILLED of an order that is neither over nor executed; else state, first exchange id and timestamp are the update's, an active order stays so in the four open states and is cached in the others, and the log grows by exactly the events of that state: created, cancelled, completed with side and executed amounts, or failure |
| `TrackerClosing.EventsAsOwed` | connector/client_order_tracker.py:392-440 | over any run an order gets exactly as many created, completed, cancelled and failure events as the updates applied to it owe it, by their states and what was executed |
| `TrackerClosing.ExecutedFrom` | core/data_type/in_flight_order.py:182-183 | an order counts as fully executed exactly from a billionth below its amount |
| `TrackerClosing.FirstIsFound` | connector/client_order_tracker.py:172-184 | without a known client id an update goes to the first order listed with its exchange id |
| `TrackerClosing.NamedByExchangeId` | connector/client_order_tracker.py:172-184 | an update by an exchange id that one live order has alone does what an update by its client id does |
| `TrackerClosing.LearnedExchangeId` | core/data_type/in_flight_order.py:326-327 | after an update brings an order its first exchange id, that order is the live one with that id |
| `TrackerRestore.RestoreShape` | connector/client_order_tracker.py:153-164 | restoring saved orders gives the open ones back as active and the failed ones as lost, in order, up to the first that cannot be read |
| `TrackerRestore.SaveRestore` | connector/exchange_py_base.py:190-195 | between steps, save and restore is the identity on active and lost orders if and only if each can be read back unchanged and no lost order is FILLED |
| `TrackerRestore.SettledOverRun` | connector/client_order_tracker.py:279-295 | a lost order stays FAILED if no FILLED update was waiting when it was declared lost |
| `TrackerRestore.SaveRestoreAfterRun` | connector/client_order_tracker.py:153-164 | after any such run save and restore is the identity if and only if each order can be read back unchanged |
| `TrackerRestore.RestoredInv` | connector/client_order_tracker.py:153-164 | a tracker restored from a sound one satisfies the invariant, with empty cache, counters and waits, so every theorem about runs holds after a restart |
| `TrackerRestarts.SessionsKeep` | connector/client_order_tracker.py:153-164 | the invariant holds over any number of restarts, each followed by a run |
| `TrackerRestarts.FillConservationAcrossRestarts` | connector/client_order_tracker.py:203-221 | over a first run and any number of restarts no trade id of an order that comes back is announced twice, and the amounts announced in all sessions add up to its executed amount if and only if no fill is negative |
| `TrackerSnapshots.SnapshotInsideUpdate` | connector/client_order_tracker.py:422-440 | a snapshot taken inside a closing event restores to the post-event stores if and only if all orders that stay are read back, lost orders are other ones and FAILED, and the closing order is not an active one that is read back and fails |
| `TrackerSnapshots.SnapshotMissesCompletedLost` | connector/client_order_tracker.py:278-295 | the run that declares an order lost while its FILLED update waits, and the snapshot in the completed event that restores without the order the tracker keeps |
| `TrackerSnapshots.SnapshotInsideLoss` | connector/client_order_tracker.py:249-251 | a snapshot taken inside the event that declares an order lost restores to the stores after the report if and only if all active and lost orders are read back and the lost ones are FAILED |
| `TrackerSnapshots.SnapshotOrders` | connector/client_order_tracker.py:422-440 | every order such a snapshot brings back has the data it has after the event |
| `StatusPolling.FailingPollsEndActivity` | connector/exchange_py_base.py:966-1006 | an active order whose status request fails in more polling rounds than the limit allows is not active any more, whatever happens between the requests and the rounds; a cancellation ends a round and is no failure |
| `StatusPolling.RoundsCount` | connector/exchange_py_base.py:992-1006 | while it stays active, every round in which its request fails adds at least one report |
| `StatusPolling.StatusIsApplied` | connector/exchange_py_base.py:994-996 | a status received before a cancellation becomes an update of the tracker |
| `StatusPolling.CancellationCuts` | connector/exchange_py_base.py:997-998 | a cancellation ends the round, and no later request of it makes a step |
| `StatusPolling.StatusOfLost` | connector/client_order_tracker.py:296-303 | a status naming a lost order drops it if and only if it is terminal and no active or cached order has the exchange id it carries |
| `StatusPolling.LostPollDrops` | connector/exchange_py_base.py:984-990 | for a lost order an exception drops it if and only if it means "not found" |
| `StatusPolling.SubmissionFailure` | connector/exchange_py_base.py:509-516 | a failed submission caches the active order with exactly one event: completed if it is fully executed, else failure |
| `OrderTracking.ClientOrderTracker.constructor` | connector/client_order_tracker.py:49-63 | the new tracker stands for the empty state |
| `OrderTracking.ClientOrderTracker.StartTrackingOrder` | connector/client_order_tracker.py:143-144 | the object takes the start step |
| `OrderTracking.ClientOrderTracker.StopTrackingOrder` | connector/client_order_tracker.py:146-151 | the object takes the stop step |
| `OrderTracking.ClientOrderTracker.FindByExchangeId` | connector/client_order_tracker.py:179-182 | the loop returns the first order, in dictionary order, with the exchange id |
| `OrderTracking.ClientOrderTracker.ProcessTradeUpdate` | connector/client_order_tracker.py:203-221 | the object takes the trade step, mutating one order object |
| `OrderTracking.ClientOrderTracker.TriggerOrderCompletion` | connector/client_order_tracker.py:422-440 | the closing event goes out before the order leaves its store; which one, `TrackerClosing.UpdateOutcome` says state by state |
| `OrderTracking.ClientOrderTracker.ProcessOrderUpdate` | connector/client_order_tracker.py:269-305 | the object suspends, finishes or drops a lost order as the update step says |
| `OrderTracking.ClientOrderTracker.ResumeOrderUpdate` | connector/client_order_tracker.py:290-295 | any suspended update may resume, on the order it was waiting for |
| `OrderTracking.ClientOrderTracker.ProcessOrderNotFound` | connector/client_order_tracker.py:223-267 | the object takes the not-found step |
| `OrderTracking.ClientOrderTracker.ExpireCached` | connector/client_order_tracker.py:58 | entries that leave the cache change nothing else |
| `OrderTracking.ClientOrderTracker.TrackingStates` | connector/exchange_py_base.py:190-195 | the loop saves active then lost orders |
| `OrderTracking.ClientOrderTracker.RestoreTrackingStates` | connector/client_order_tracker.py:153-164 | the loop restores what the saved states say and raises exactly when one cannot be read |
| `PubSubs.PubSub.AddListener` | core/pubsub.pyx:73-88 | the listener joins its tag's set; a random sweep may follow |
| `PubSubs.PubSub.RemoveListener` | core/pubsub.pyx:90-103 | the listener leaves, dead ones are swept, and an empty tag disappears |
| `PubSubs.PubSub.CollectDead` | core/pubsub.pyx:115-120 | the first loop finds exactly the dead references |
| `PubSubs.PubSub.Erase` | core/pubsub.pyx:121-122 | the second loop removes exactly those |
| `PubSubs.PubSub.RemoveDeadListeners` | core/pubsub.pyx:105-124 | exactly the dead references go, and the tag with them if nothing is left |
| `PubSubs.PubSub.GetListeners` | core/pubsub.pyx:126-144 | each live registered listener is returned once, and no other |
| `PubSubs.EventListener.Call` | core/pubsub.pyx:164-165 | a call is recorded with the tag and caller the listener holds at that moment |
| `PubSubs.PubSub.CallListener` | core/pubsub.pyx:163-169 | one turn calls the listener once, with the event info of this tag and this object set, and leaves that info reset, whatever the call does; it hands back the listener's own exception, or one outside `Exception` exactly when a nested dispatch let one through |
| `PubSubs.PubSub.TriggerEvent` | core/pubsub.pyx:146-169 | a dispatch calls the listeners live and registered at entry, each once, although calls add, remove, trigger or raise; it misses some only behind a first call that hands back an exception outside `Exception`, never when no call, nested ones included, raises one; the registry and the number of calls, nested ones included, are those of its calls in turn |
| `PubSubs.PubSub.RunActions` | core/pubsub.pyx:165 | what a listener adds, removes and triggers takes effect in turn, up to a nested dispatch that is cut short |
| `PubSubs.AbortedByCall` | core/pubsub.pyx:163-169 | a dispatch is cut short if and only if one of its calls, in the registry left by those before it, hands back an exception outside `Exception` |
| `PubSubs.OrderlyCalls` | core/pubsub.pyx:166-167 | ordinary exceptions, at any depth of nesting, cut no dispatch short |
| `PubSubRefinement.StepRefines` | core/pubsub.pyx:73-144 | every operation refines the plain map from tag to live listeners |
| `PubSubRefinement.SweepsTheTag` | core/pubsub.pyx:73-124 | removing, asking and adding with a draw leave no dead reference under the tag; adding without one keeps them; other tags are untouched |
| `PubSubRefinement.RunRefines` | core/pubsub.pyx:73-144 | every run answers like that map, and no tag is left with an empty set |
| `PubSubRefinement.DrawsInvisible` | core/pubsub.pyx:87-88 | runs that differ only in the random draws cannot be told apart |
| `CodeObjectCaches.LowerBoundDecides` | core/pubsub.cpp:10826-10839 | on a sorted table the lower bound is unique and decides whether a line is cached |
| `CodeObjectCaches.Bisect` | core/pubsub.cpp:10805-10825 | on a non-empty sorted table the bisection returns the lower bound |
| `CodeObjectCaches.InsertedLists` | core/pubsub.cpp:10874-10881 | inserting at the lower bound keeps the order and adds one pair to the map |
| `CodeObjectCaches.CodeObjectCache.Find` | core/pubsub.cpp:10826-10839 | finds exactly the mapped object; nothing for line 0 |
| `CodeObjectCaches.CodeObjectCache.Insert` | core/pubsub.cpp:10840-10883 | is a map update, or changes nothing for line 0 or failed memory; capacity grows by 64 when full |
| `CodeObjectCaches.CodeObjectCache.ShiftIn` | core/pubsub.cpp:10876-10881 | shifting the tail in place inserts the entry at its position |
| `IntConversion.MaskIsRemainder` | core/pubsub.cpp:11282-11350 | masking with 2^k - 1 is the remainder by 2^k |
| `IntConversion.OrAboveIsSum` | core/pubsub.cpp:11282-11350 | a bitwise or with digits shifted above is their sum |
| `IntConversion.ChunkStep` | core/pubsub.cpp:11282-11350 | one round turns the low bits of the value into the next longer low bits |
| `IntConversion.AsInt64` | core/pubsub.cpp:11282-11350 | returns exactly the value for every integer in [-2^63, 2^63) and fails for every other, with chunks of 30 and of 62 bits |
| `IntConversion.CombineExact` | core/pubsub.cpp:11191-11254 | shifting and or-ing digits in a machine word gives their value when the word is wide enough |
| `IntConversion.FastPathExact` | core/pubsub.cpp:11191-11254 | wherever the multi-digit fast path returns, it returns the value, as the chunked conversion does |
| `IntConversion.FastPathTakes` | core/pubsub.cpp:11191-11254 | the fast path takes exactly the values of two to four digits whose bits leave room for the sign |
| `OrderCandidates.ScaledVariable` | core/data_type/order_candidate.py:251-267 | scaling an order scales what it needs in every token |
| `OrderCandidates.AdjustedPasses` | core/data_type/order_candidate.py:82-88 | adjusting only shrinks an order, the amount decides everything else, and what is left passes every check |
| `OrderCandidates.FixedFeesFit` | core/data_type/order_candidate.py:197-217 | every fixed fee the loop has passed still fits after later ones shrink the order |
| `OrderCandidates.FitsWhenFeesFit` | core/data_type/order_candidate.py:44-53 | with at most one positive fixed fee per token the whole collateral dictionary fits |
| `OrderSizing.GreatestFit` | connector/budget_checker.py:88-91 | before quantizing, the adjusted amount is the greatest part of the order that the balances can provide for |
| `BudgetModel.GreatestMultiple` | connector/budget_checker.py:88-105 | what is returned without all-or-none is the whole order if it fits, and else, or if it was already marked as resized, the greatest multiple of the size step that does |
| `OrderSizing.LeftAloneIffFits` | connector/budget_checker.py:99-100 | an order is left alone if and only if all of its collateral fits |
| `OrderSizing.AlwaysFitsIffUnshared` | core/data_type/order_candidate.py:197-217 | the adjusted order fits for all balances if and only if no two positive fixed fees share a token |
| `OrderSizing.ZeroOrderUnchecked` | core/data_type/order_candidate.py:82-88 | an order of amount zero is left as it is, and fits if and only if its fixed fees do |
| `BudgetModel.QuantizedToward` | connector/connector_base.pyx:473-481 | quantizing moves an amount toward zero by less than one quantum |
| `BudgetModel.PartPasses` | connector/budget_checker.py:148-157 | a quantized part of an order that passes every check passes them too |
| `BudgetModel.CollateralIsCharge` | core/data_type/order_candidate.py:57-123 | the collateral of a filled order is amount times price in quote for a purchase and the amount in base for a sale, plus the maker's or taker's percent fee in its token at its rate, plus its fixed fees |
| `BudgetModel.FitsIffPaid` | core/data_type/order_candidate.py:44-53 | an order fits exactly when the balances cover that cost |
| `BudgetModel.CandidateOutcome` | connector/budget_checker.py:82-105 | a candidate becomes nothing, the whole order or a part of it, never more, and fits what is left; all or none gives only the first two |
| `BudgetModel.BatchWithin` | connector/budget_checker.py:60-80 | after any batch the locks hold exactly the collateral handed out and are within the balances, and every result is its order with an amount cut toward zero, under all or none the whole one or none |
| `BudgetModel.NeverOvercommits` | connector/budget_checker.py:38-58 | for a batch of any length with one balance source, what the results cost, summed over sides, prices, amounts and fees, is at most what the exchange holds of every token; no amount grows, and under all or none each is the original one or zero |
| `BudgetModel.BatchInParts` | connector/budget_checker.py:53-56 | a batch runs like its first part and then the rest on the locks left behind, so outcomes depend only on earlier candidates |
| `BudgetModel.WholeIffCovered` | connector/budget_checker.py:101-102 | all or none: an order is kept whole if and only if what the earlier ones leave covers all of it and it was not already marked as resized |
| `BudgetModel.SharedTokenOvercommits` | core/data_type/order_candidate.py:197-217 | with two positive fixed fees in one token there are non-negative balances, total and available, on which even a batch of one order takes more than the balance |
| `BudgetModel.FeelessAdjusted` | core/data_type/order_candidate.py:181-186 | without fees an order becomes what the balance buys, also when that is negative, or stays as it is when the balance covers it |
| `BudgetModel.FeelessRaises` | core/data_type/order_candidate.py:181-186 | without fees the adjustment raises exactly when a non-zero order needs nothing of a token that is overdrawn |
| `BudgetModel.FeelessFlips` | connector/budget_checker.py:122-157 | whatever is locked, an order without fees is returned negative if and only if its balance is at least one size step's worth short of the locks; all or none empties it or keeps it |
| `BudgetModel.MixedSourcesFlip` | connector/budget_checker.py:122-157 | of any two orders without fees on one collateral token, checked against the total and then the available balance, the second returned is negative if and only if the first locked at least one of its size steps' worth more than was available; all or none empties it or keeps it |
| `BudgetCheckers.OrderCandidate.PopulateCollateralEntries` | core/data_type/order_candidate.py:73-123 | the object becomes the populated candidate; what its entries amount to, `BudgetModel.CollateralIsCharge` says |
| `BudgetCheckers.OrderCandidate.ScaleOrder` | core/data_type/order_candidate.py:251-267 | the object becomes the scaled candidate; at zero it loses its entries |
| `BudgetCheckers.OrderCandidate.AdjustForFixedFeeCollaterals` | core/data_type/order_candidate.py:197-217 | the loop, which reads the amounts again only after scaling, adjusts fee by fee and stops at zero |
| `BudgetCheckers.OrderCandidate.AdjustFromBalances` | core/data_type/order_candidate.py:82-88 | the object is adjusted, or raises exactly when a negative balance meets a zero need |
| `BudgetCheckers.BudgetChecker.GetAvailableBalances` | connector/budget_checker.py:122-146 | balances minus locks for exactly the tokens the candidate needs |
| `BudgetCheckers.BudgetChecker.LockAvailableCollateral` | connector/budget_checker.py:159-161 | every token's lock grows by the candidate's collateral in it |
| `BudgetCheckers.BudgetChecker.QuantizeAdjustedOrder` | connector/budget_checker.py:148-157 | an amount that is no multiple of its pair's size step is cut and the entries are populated anew; raises exactly without a usable step |
| `BudgetCheckers.BudgetChecker.AdjustCandidate` | connector/budget_checker.py:82-105 | returns a fresh candidate with the specified outcome; the given one is untouched |
| `BudgetCheckers.BudgetChecker.AdjustCandidates` | connector/budget_checker.py:38-58 | the loop returns the specified batch in fresh objects and leaves no lock, unless it raises |
| `PerformanceModel.ProfitIsGain` | client/performance.py:305-320 | the profit is amount times (current - price) over buys plus amount times (price - current) over sells minus the deducted fees, whatever the balances are |
| `PerformanceModel.CashOfTrade` | client/performance.py:219-236 | a deducted percent fee is taken off what a sale brings and added to what a purchase costs |
| `PerformanceModel.ListedByType` | client/performance.py:184-195 | every trade is listed under its own type, as often as it was given |
| `PerformanceModel.NetIgnoresOrder` | client/performance.py:184-209 | the volumes do not depend on the order of the trades |
| `PerformanceModel.ProfitIgnoresOrder` | client/performance.py:311-320 | reordering the trades keeps the profit if and only if there is a rate, the volumes cancel or the last prices agree |
| `PerformanceModel.AverageBuyWithin` | client/performance.py:202-207 | the average buy price lies between the lowest and the highest price paid |
| `PerformanceModel.BaseShareOfWorth` | client/performance.py:311-316 | a balance ratio is the base token's part of what the balances are worth, and zero when they are worth nothing |
| `PerformanceModel.AggregationConserves` | client/performance.py:95-115 | aggregating fills keeps their total amount |
| `PerformanceModel.AggregatedAt` | client/performance.py:95-115 | one order for each order id in order of first appearance: its first fill, with its group's amount and a price within the group's prices |
| `PerformanceModel.MergedPrice` | client/performance.py:109-113 | the merged price is the mean of the fills' prices, each with the same weight |
| `PerformanceModel.MergingCountsTwice` | client/performance.py:110-112 | a sum over the same fills after the merge counts every amount but the first of its order twice |
| `PerformanceModel.ZipAt` | client/performance.py:75-93 | the i-th opening order is paired with the i-th closing one, up to the shorter side |
| `PerformanceModel.GainsAddUp` | client/performance.py:131-144 | the list of profits sums to the profit of the long and the short pairs |
| `PerformanceModel.ProceedsLessCost` | client/performance.py:131-144 | a long pair gains what closing brings less what opening that amount cost, a short pair the reverse |
| `PerformanceModel.ClosedPositionsEarnCash` | client/performance.py:269-285 | when every position is closed in full, the paired profit is the turnover of the sells less that of the buys |
| `PerformanceModel.SwappedSidesLose` | client/performance.py:131-144 | the other side of all positions gains what this side loses |
| `Performances.AggregateOrders` | client/performance.py:96-115 | the two loops give the aggregated orders and overwrite exactly the first fill of each order |
| `Performances.PositionOrder` | client/performance.py:75-93 | takes the first order that opens and the first that closes, or leaves both lists alone |
| `Performances.PairPositions` | client/performance.py:274-283 | the interleaved loop ends, and its two result lists are two plain first-in-first-out zips |
| `Performances.DerivativePnl` | client/performance.py:131-144 | returns one profit for each pair, the long pairs first |
| `Performances.PositionsPnl` | client/performance.py:269-285 | the profit is that of the zipped pairs of aggregated orders |
| `Performances.DerivativesIff` | client/performance.py:177-182 | trades count as derivatives if and only if they are fills and all buys, or all sells, of which there are some, have a position |
| `Performances.PerformanceMetrics.PreprocessTradesAndGroupByType` | client/performance.py:184-209 | the loop splits the trades and accumulates the volumes, deducted fees included, and the average prices are those of the volumes |
| `Performances.PerformanceMetrics.ValueHoldings` | client/performance.py:305-320 | current minus hold value is the gain of the trades |
| `Performances.PerformanceMetrics.InitializeMetrics` | client/performance.py:298-321 | raises exactly without trades; else counts, start and current price, starting balances and balance ratios are those of the trades and balances, and the profit is that of the zipped pairs for derivatives and the trades' gain otherwise |
| `TimeSynchronization.SortedIs` | connector/time_synchronizer.py:38 | sorting the samples is a permutation into ascending order |
| `TimeSynchronization.MedianHalves` | connector/time_synchronizer.py:38 | at least half of the samples are at or below the median, at least half at or above it, and it is midway between the two middle ones |
| `TimeSynchronization.WeightOf` | connector/time_synchronizer.py:39 | the sample at position i weighs 2 i + 1 |
| `TimeSynchronization.OddWeightsMakeSquares` | connector/time_synchronizer.py:39 | the weights of n samples add up to n squared |
| `TimeSynchronization.EstimateIsMidway` | connector/time_synchronizer.py:39-40 | the point from which the estimate is midway to the median is the one where the samples balance with their weights |
| `TimeSynchronization.EstimateWithin` | connector/time_synchronizer.py:33-42 | median, weighted average and their mean lie between the samples' bounds |
| `TimeSynchronization.ErrorBound` | connector/time_synchronizer.py:64-70 | if every sampled time was read between its two local readings, the estimate is off by at most half the longest round trip |
| `TimeSynchronization.WindowErrorBound` | connector/time_synchronizer.py:24 | after any number of queries only the last five round trips bound the error |
| `TimeSynchronization.PushedIsLast` | connector/time_synchronizer.py:44-45 | the bounded deque holds the last five samples added |
| `TimeSynchronization.TimeSynchronizer.AddTimeOffsetMsSample` | connector/time_synchronizer.py:44-45 | the window stays the last five of all samples added since the last clear |
| `TimeSynchronization.TimeSynchronizer.ClearTimeOffsetMsSamples` | connector/time_synchronizer.py:47-48 | the window is empty |
| `TimeSynchronization.TimeSynchronizer.TimeOffsetMs` | connector/time_synchronizer.py:33-42 | the estimate of the window, or the local clocks without samples |
| `TimeSynchronization.TimeSynchronizer.Time` | connector/time_synchronizer.py:50-55 | the local counter moved by the estimate |
| `TimeSynchronization.TimeSynchronizer.UpdateServerTimeOffsetWithTimeProvider` | connector/time_synchronizer.py:57-76 | adds the server's time minus the middle of the two local readings; a failed query changes nothing |
| `TimeSynchronization.TimeSynchronizer.UpdateServerTimeIfNotInitialized` | connector/time_synchronizer.py:78-90 | adds a sample only when there is none |
| `FundingPayments.RisingBetweenStops` | connector/perpetual_derivative_py_base.py:417-438 | between two stops the events of a pair carry rising timestamps, and the latest is the one stored |
| `FundingPayments.AboveStored` | connector/perpetual_derivative_py_base.py:420-435 | all of them are above the timestamp stored before |
| `FundingPayments.BaselineStored` | connector/perpetual_derivative_py_base.py:378-438 | the first fetch of a pair sets its baseline, also when it must not fire: only newer payments are announced after it |
| `FundingPayments.StoredIsFetched` | connector/perpetual_derivative_py_base.py:434-438 | a pair has a stored timestamp exactly when it was fetched, and it is that of its first fetch or of one that fired |
| `FundingPayments.AnnouncedIffNewer` | connector/perpetual_derivative_py_base.py:420-433 | a fetch is announced if and only if it fires and its timestamp is above the stored one, or above 0 without one |
| `FundingPayments.AnnouncedOnce` | connector/perpetual_derivative_py_base.py:386-438 | no payment is announced twice between two stops, whatever order the fetches finish in |
| `FundingPayments.NewestIsKept` | connector/perpetual_derivative_py_base.py:417-438 | after a firing fetch the stored timestamp is at least the one it brought |
| `FundingPayments.RepeatedAfterStop` | connector/perpetual_derivative_py_base.py:205-212 | a payment fetched after a stop is announced if and only if its timestamp is positive and the fetch fires |
| `FundingPayments.FundingPaymentMonitor.EmitFundingPaymentEvent` | connector/perpetual_derivative_py_base.py:417-438 | the stored timestamps and the announced events stay those of the history, which `BaselineStored` and `AnnouncedIffNewer` describe |
| `FundingPayments.FundingPaymentMonitor.UpdateFundingPayment` | connector/perpetual_derivative_py_base.py:399-415 | a failed fetch changes nothing but the history |
| `FundingPayments.FundingPaymentMonitor.StopNetwork` | connector/perpetual_derivative_py_base.py:205-212 | a stop forgets every stored timestamp |
| `MetricsCollection.StepConserves` | connector/connector_metrics_collector.py:110-141 | a step moves events between the places they can be in and loses none |
| `MetricsCollection.RunConserves` | connector/connector_metrics_collector.py:104-141 | in any interleaving of fills, ticks and collections the registered events are the waiting, running, finished and cancelled ones; without cancellation none is lost |
| `MetricsCollection.DispatchedOnce` | connector/connector_metrics_collector.py:116-141 | no registered event is part of two dispatched volumes, and each volume is positive and the value of its events at their rates |
| `MetricsCollection.DispatchedIsAll` | connector/connector_metrics_collector.py:136-137 | the dispatched volumes are the whole volume of the finished collections if and only if none of these is negative |
| `MetricsCollection.VolumeAtOneRate` | connector/connector_metrics_collector.py:120-134 | at one rate for all events the volume is their turnover at the quote token's rate, without one their amount at the base token's, and else zero |
| `MetricsCollection.TicksApart` | connector/connector_metrics_collector.py:104-108 | ticks start collections at least one activation interval apart |
| `MetricsCollection.TickStarts` | connector/connector_metrics_collector.py:104-114 | a tick hands all waiting events to a new collection if and only if the interval has passed |
| `MetricsCollection.TradeVolumeMetricCollector.RegisterFillEvent` | connector/connector_metrics_collector.py:168-169 | the event waits behind those registered before |
| `MetricsCollection.TradeVolumeMetricCollector.ProcessTick` | connector/connector_metrics_collector.py:104-108 | the object takes the tick step |
| `MetricsCollection.TradeVolumeMetricCollector.TriggerMetricsCollectionProcess` | connector/connector_metrics_collector.py:110-114 | the waiting events become a collection and the list is empty |
| `MetricsCollection.TradeVolumeMetricCollector.RateNextEvent` | connector/connector_metrics_collector.py:120-134 | a running collection adds the value of its next event |
| `MetricsCollection.TradeVolumeMetricCollector.FinishCollection` | connector/connector_metrics_collector.py:136-137 | a finished collection dispatches its volume exactly when it is positive |
| `MetricsCollection.TradeVolumeMetricCollector.AbortCollection` | connector/connector_metrics_collector.py:138-141 | an exception puts the events back behind newer ones, a cancellation does not |

## Left out

- ClientOrderTracker.StartTrackingOrder: client ids are fresh; starting a second order under a used id, which would replace the first one, is not modelled.
- ClientOrderTracker.RestoreTrackingStates: restores into a tracker that does not know the saved ids, as after a restart.
- CacheInsert: which entry the bounded, time-limited cache drops is left to the environment, because the cache is a library; its time to live and order of eviction are not modelled.
- ClientOrderTracker.ResumeOrderUpdate: how long the wait for fills lasts is not modelled; an update may resume at any time.
- TriggerEvent: the listeners of the tracker's own events are assumed not to call the tracker back, and no listener dies during a dispatch.
- AdjustFromBalances: NaN amounts, the potential returns and the percent fee's value are not modelled; they do not enter the collateral.
- OrderCandidate.PopulateCollateralEntries: the token amounts are values, so a percent fee entry shared by a candidate and its shallow copy is not captured.
- NeverOvercommits: needs one balance source, no zero order that owes fixed fees, no percent fee entry left from an earlier fill under other fees (the source shares such an entry between the candidate and its copy), no two positive fixed fees in one token for the orders of the batch, and a positive size step for their pairs; MixedSourcesFlip, ZeroOrderUnchecked and SharedTokenOvercommits say why. Perpetual candidates, with leverage and position closing, are not modelled.
- CandidateOutcome: for the candidates NeverOvercommits admits, as is BatchWithin.
- WholeIffCovered: for positive amounts and non-negative prices, percentages, rates and fees.
- GreatestMultiple: for positive amounts and non-negative prices, percentages, rates and fees, as is GreatestFit.
- FailingPollsEndActivity: a status is applied at once; in the program it is scheduled and applied at the next suspension, which other steps between the requests cover.
- FillConservationAcrossRestarts: for an order that comes back at every restart; one that was cached, or saved behind an order without a price, is forgotten.
- PerformanceMetrics.InitializeMetrics: fee totals, and the total profit and return percentage that need them, are not modelled.
- FindByExchangeId: the maps by exchange id that other callers use are not modelled.
- AsInt64: the objects and error indicators of the interpreter are not modelled; a failed conversion is `None`.
- CodeObjectCache.Find: reference counts are not modelled, and neither is the bisection of an empty table, which no caller asks for.
- Decimal contexts, float rounding and the texts of logs and messages.
- REST and websocket calls, polling schedules, retries and authentication; only the calls that become tracker steps are modelled.
- Database tables, data feeds, the gateway, configuration and user interface.
- `smart_round` and the rollback of a failed position-mode change.
