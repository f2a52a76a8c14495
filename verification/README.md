# A verified model of the trading core

This project models the stateful algorithms at the centre of the trading bot in Dafny and proves
what they promise over every input or every run. `dafny verify dfyconfig.toml` checks all of it.

- **DBSCAN** (`Dbscan*`, with `Ordering` and `Counting`): the work-queue algorithm over an array of
  labels, proved against the declarative definition by chains of cores.
- **Order book** (`OrderBook`, `BookModel`, `BookLaws`): the mutable two-sided book, and the exact
  condition under which the batch path refines one-change-at-a-time processing.
- **Signal bus** (`SignalBus`, `SignalBusLaws`): re-entrant publishing with a deferred queue; handlers
  may publish, subscribe, unsubscribe and throw.
- **Trace times** (`SeqLock`, `TraceTimeBuffer`): one writer and any number of readers as interleaved
  atomic steps, and the sequential object they implement.
- **Kalman filter, Welford accumulators, t-digest, zigzag, trade stream**: online numerics over `real`
  with invariants of unbounded runs.
- **Paper executor** (`PaperModel`, `PaperExecutor`, `PaperLaws`): a ledger explains every position;
  conservation laws are proved over it.
- **Risk gate** (`RiskModel`, `RiskManager`, `Increments`): sizing bounds, the sliding trade-rate
  window and the loss-streak breaker over runs.
- **Start-up recovery** (`StartupRecovery`): reconciliation of persisted trades with the exchange.
- **Live executor** (`LiveModel`, `LiveHistory`, `LiveStops`, `LiveReconcile`, `LiveExecutor`): the
  trade life cycle against a gateway whose answer to the k-th request is arbitrary, with the books,
  requests and standing stops of whole runs.

## How it is modelled

`double` is `real`, Kahan sums are exact sums, prices in the book are integer ticks, times are
integer nanoseconds. Objects whose methods update fields are classes; each method is tied to a
specification function or predicate over the old and new state, and the properties are lemmas about
those. Calls into code outside the core are inputs: quotes of a book, membership of the universe,
clock readings, square roots, the exchange's answers. In `LiveExecutor` the k-th request is answered
by `gateway(k)`, an arbitrary constant function, so every theorem holds for every sequence of
successes and failures. Where the source walks an ordered map of tickers, the model visits the
tickers in an arbitrary order, so its results hold for the source's order too.

Ghost fields keep what runs are about: every stored pair, every acceptance, outcome and trip of the
breaker, every fill and close, and how often each live trade was closed by force since the last
cancellation of its ticker. `Valid()` ties them to the real fields. `LiveExecutor` keeps every book
it has had, the move from each to the next, and for each request the book and trade it was sent for.
Its `Valid()` says that the books form such a chain up to the present one, that each order that is
not a submission reduces the trade it was sent for as that book held it, and that a trade was closed
by force at most once between cancellations and then is still being closed. It also says that every
stop the exchange accepted under an id and has not taken back is the one its trade knows, but for
the stops in `lost`; each public method says which stops it adds to them, and by which moves it
changed the book. `ExitsWithinExecuted`, `OnlyFillsChangeSize`, `ClosedThroughRun`,
`GoneOnlyIfClosed`, `ForcedThroughRun` and `OneStop` then hold over every run.

Where the code does less than its comments say, the model follows the code:

- a batch of 64 or more changes that crosses itself, holds sizes that round to zero or changes
  without a side can end differently from the sequential path (`CrossedBatchDiffers`, `DustDiffers`,
  `PassingDustDiffers`, `UnsidedFirstDiffers`); `BatchMatchesSequentialIff` says exactly when batches
  of sided changes agree, `BatchIsReorderedIff` for every batch what it does instead;
- `TDigest::total_weight()` counts unmerged points twice (`TotalWeight`);
- a zigzag low need not be the minimum up to the next high (`LowsAreNotMinima`, `LowIsSafeIff`);
- a trade window that is nearly full loses agreement with the ring (`ArriveAgreesIff`);
- a trade-history cap below the limit switches the rate rule off (`RateRuleCanFireIff`, `Overfill`);
- the position cap may raise the size of a ticker without price increment (`CapNeverRaisesIff`);
- a run of losses trips the breaker only as far as it was recorded since the losses were last
  forgotten and fits the history (`RecordTradeEnd`): `MissRun` gives a run inside the window that
  does not trip, `TripAtZero` a trip that does not hold because time 0 means "not tripped";
- the id of a break-even stop is not kept, so a trade can get a second stop for its whole size
  (`SecondStopIff`, `TwoStops`); `OneStop` holds for all stops but the lost ones;
- an answer about an unclear submission may settle one of another ticker (`OwnTickerIff`,
  `AnswerCrosses`);
- the stop of a first partial fill is asked for before the fill is counted, so a fresh trade gets none
  (`FreshPartialFillIsBare`); `FirstPartialFillProtectedIff` says exactly when one is placed.

## Model

| member | source | states |
|---|---|---|
| `Dbscan.FindRange` | core/src/numeric/Clustering.hpp:96-104 | the half-open position range holds exactly the points within eps of the value |
| `Dbscan.Seed` | core/src/numeric/Clustering.hpp:52-62 | the first fill of the queue is the whole neighbourhood except the seed, without duplicates, each entry marked with the current generation |
| `Dbscan.PushNeighbours` | core/src/numeric/Clustering.hpp:71-76 | every unlabelled neighbour ends up queued, nothing is queued twice, and nothing outside the neighbourhood is added |
| `Dbscan.Visit` | core/src/numeric/Clustering.hpp:64-80 | one queue turn keeps: queue entries are distinct and within eps of a core joined to the seed; processed ones carry the cluster id; processed cores have their whole neighbourhood labelled or queued |
| `Dbscan.Expand` | core/src/numeric/Clustering.hpp:49-80 | expansion terminates; what it labels is within eps of a core that a chain of cores joins to the seed, no core it labels has an unlabelled neighbour left, and earlier labels stay |
| `Dbscan.LabelFrom` | core/src/numeric/Clustering.hpp:41-81 | one turn of the outer loop keeps: labels so far are the density-reachable sets of the seeds so far |
| `Dbscan.Label` | core/src/numeric/Clustering.hpp:36-81 | after the outer loop the labels satisfy the declarative labelling: each cluster is what is reachable from its seed, seeds ascend, leftovers have no core near |
| `Dbscan.Collect` | core/src/numeric/Clustering.hpp:84-90 | the grouping pass equals the per-cluster filter of the sorted points, in order |
| `Dbscan.Cluster` | core/src/numeric/Clustering.hpp:21-91 | for every input (also the empty one) the result groups a sorted permutation of the values by a labelling that satisfies the declarative definition |
| `Dbscan.ClusteringUnique` | core/src/numeric/Clustering.hpp:21-91 | values and parameters determine the returned clusters: anything that satisfies the definition is the result |
| `Dbscan.ClusteringConserves` | core/src/numeric/Clustering.hpp:21-91 | clusters and noise together hold every value as often as the input |
| `Dbscan.ClustersAndNoiseAreThePoints` | core/src/numeric/Clustering.hpp:83-90 | for every labelling, each value occurs in clusters and noise together as often as among the points |
| `DbscanModel.CoresShareClusterIffConnected` | core/src/numeric/Clustering.hpp:41-81 | two cores have the same cluster if and only if a chain of cores with steps of at most eps joins them |
| `DbscanModel.LabelledBesideOwnCore` | core/src/numeric/Clustering.hpp:64-80 | every clustered point is a core or lies within eps of a core of its own cluster |
| `DbscanModel.NoiseIffNoCoreNear` | core/src/numeric/Clustering.hpp:41-81 | a point is left out if and only if it is no core and no core lies within eps of it |
| `DbscanModel.CoresInClusterOrder` | core/src/numeric/Clustering.hpp:41-51 | cluster ids of cores follow the order of the sorted points |
| `DbscanModel.LabelsInOrder` | core/src/numeric/Clustering.hpp:31-81 | cluster ids never decrease along the sorted points, border points included |
| `DbscanModel.ClustersContiguous` | core/src/numeric/Clustering.hpp:31-81 | a point between two members of a cluster is a member: clusters are contiguous runs |
| `DbscanModel.LabellingUnique` | core/src/numeric/Clustering.hpp:36-81 | points and parameters determine labels and seeds: two runs cannot differ |
| `DbscanResult.ClusterIsSlice` | core/src/numeric/Clustering.hpp:84-90 | each returned cluster is one non-empty slice of the sorted input |
| `DbscanResult.ClustersOrdered` | core/src/numeric/Clustering.hpp:84-90 | clusters come in the order of their values |
| `DbscanResult.PairSharesIffTied` | core/src/numeric/Clustering.hpp:41-81 | for min_pts = 2 sorted neighbours share a cluster if and only if their gap is at most eps |
| `DbscanResult.PairClustersAreLongRuns` | core/src/numeric/Clustering.hpp:21-91 | for min_pts = 2 the result equals splitting the sorted list at gaps above eps and keeping runs of length at least 2 |
| `OrderBook.OrderBook.RefreshTopOfBook` | core/src/marketdata/OrderBook.cpp:224-227 | the cached ticks become the extreme keys of the two maps |
| `OrderBook.OrderBook.EraseCrossedAsks` | core/src/marketdata/OrderBook.cpp:206-209 | erasing from the front removes exactly the asks at or below the tick |
| `OrderBook.OrderBook.EraseCrossedBids` | core/src/marketdata/OrderBook.cpp:211-214 | erasing from the front removes exactly the bids at or above the tick |
| `OrderBook.OrderBook.ApplyOne` | core/src/marketdata/OrderBook.cpp:183-222 | one change, with side inference from a fresh top, acts as the one-change specification |
| `OrderBook.OrderBook.ApplySnapshot` | core/src/marketdata/OrderBook.cpp:69-89 | the book becomes exactly the positive levels of the snapshot with an exact top |
| `OrderBook.OrderBook.ApplyUpdate` | core/src/marketdata/OrderBook.cpp:91-104 | an update is the fold of its changes, then a fresh top |
| `OrderBook.OrderBook.ApplyUpdateBatch` | core/src/marketdata/OrderBook.cpp:106-181 | a batch is the fold below 64 changes and the two-phase fast path from 64 on |
| `OrderBook.OrderBook.ApplyUnsided` | core/src/marketdata/OrderBook.cpp:118-122 | changes without a side are applied first, in order |
| `OrderBook.OrderBook.UpdateMaps` | core/src/marketdata/OrderBook.cpp:129-138 | inserts and erases of each side reach their own map in order, without eviction |
| `OrderBook.OrderBook.Extremes` | core/src/marketdata/OrderBook.cpp:140-157 | the highest new bid and the lowest new ask of positive size |
| `BookModel.Lowest` | core/src/marketdata/OrderBook.cpp:224-227 | the first key of an ordered map is its least key |
| `BookLaws.ChangeKeepsUncrossed` | core/src/marketdata/OrderBook.cpp:183-222 | every change keeps all bids below all asks |
| `BookLaws.BatchKeepsUncrossed` | core/src/marketdata/OrderBook.cpp:106-181 | a batch keeps the book uncrossed with an exact top even when the batch crosses itself or carries inferred sides |
| `BookLaws.SnapshotUncrossedIff` | core/src/marketdata/OrderBook.cpp:69-89 | after a snapshot the book is uncrossed if and only if the snapshot is |
| `BookLaws.EveryRunAtRest` | core/src/marketdata/OrderBook.cpp:69-227 | in every run of snapshots, updates and batches whose snapshots are uncrossed, after every call max bid < min ask and the cached ticks are the extreme keys |
| `BookLaws.OneSideHolds` | core/src/marketdata/OrderBook.cpp:200-221 | a level stands after changes applied one by one if and only if it was put, or there from the start, and no later change of either side cleared it; changes without a side are passed over |
| `BookLaws.BatchTrimsSequential` | core/src/marketdata/OrderBook.cpp:113-169 | for every batch, each side of the fast path is what applying the sided changes one by one gives, without the levels the furthest opposing order of the batch reaches; sizes that round to zero count as deletions |
| `BookLaws.SideAgreesIff` | core/src/marketdata/OrderBook.cpp:113-169 | for every batch, per side, that trimming changes nothing if and only if no order put by the batch and not cleared later lies within reach of the other side |
| `BookLaws.BatchIsReorderedIff` | core/src/marketdata/OrderBook.cpp:106-181 | for every batch of 64 or more and every book between calls: the fast path ends as its changes applied one by one, those without a side first and sizes that round to zero as deletions, if and only if no order lingers within reach of the other side |
| `BookLaws.BatchMatchesSequentialIff` | core/src/marketdata/OrderBook.cpp:106-181 | for every batch of 64 or more changes with a side, whatever their sizes, and every book: fast path equals sequential path if and only if every level agrees, which its last own order decides: a deletion always agrees; a positive order must be cleared later if it rounds to zero or an opposing order reaches it, and must not be otherwise; without one, no order rounded to zero alone may clear a level the book holds |
| `BookLaws.LevelAgreesIff` | core/src/marketdata/OrderBook.cpp:106-181 | the same for one level of one side, for every batch and book |
| `BookLaws.ExactBatchMatchesIff` | core/src/marketdata/OrderBook.cpp:106-181 | without sizes that round to zero, and from every starting book, the paths agree if and only if no order of the batch lingers within reach of the other side |
| `BookLaws.UncrossedBatchMatches` | core/src/marketdata/OrderBook.cpp:113-179 | a batch whose positive bids lie below its positive asks gives the same bids, asks and top on both paths |
| `BookLaws.CrossedBatchDiffers` | core/src/marketdata/OrderBook.cpp:159-169 | a concrete internally crossed batch ends differently on the two paths, whatever the book was |
| `BookLaws.DustDiffers` | core/src/marketdata/OrderBook.cpp:129-134 | one family of disagreement, for every book: a level last touched by a positive size that rounds to zero is a level of size 0 on one path and erased on the other |
| `BookLaws.PassingDustDiffers` | core/src/marketdata/OrderBook.cpp:129-169 | another: a bid that rounds to zero and is deleted later has evicted the asks of the book it crosses on one path only |
| `BookLaws.RoundedSizesDiffer` | core/src/marketdata/OrderBook.cpp:129-134 | a concrete batch of positive sizes that round to zero ends differently on the two paths, whatever the book was |
| `BookLaws.UnsidedFirstDiffers` | core/src/marketdata/OrderBook.cpp:118-122 | a concrete batch whose order without a side becomes a bid one by one and is lost on the fast path, which takes it first |
| `SignalBus.SignalBus.AddSubscriber` | core/src/signals/SignalBus.cpp:6-11 | a new id above all earlier ones joins the end of the roster |
| `SignalBus.SignalBus.RemoveSubscriber` | core/src/signals/SignalBus.cpp:13-18 | exactly the entry with this id leaves the roster |
| `SignalBus.SignalBus.PublishSignal` | core/src/signals/SignalBus.cpp:20-55 | inside a handler it only queues; outside it terminates for rank-lowering handlers, returns idle with an empty queue (also when a handler throws), and the rounds run are complete and in breadth-first order |
| `SignalBus.SignalBus.Drain` | core/src/signals/SignalBus.cpp:50-54 | the drain loop terminates and leaves nothing queued |
| `SignalBus.SignalBus.Turn` | core/src/signals/SignalBus.cpp:51-53 | one queue turn keeps the breadth-first account of rounds, calls and subscribers, and lowers the generation measure |
| `SignalBus.SignalBus.DispatchOne` | core/src/signals/SignalBus.cpp:30-46 | one uninterrupted round over a snapshot of the subscribers; on a throw the flag is reset and the queue dropped |
| `SignalBus.SignalBus.Handle` | core/src/signals/SignalBus.cpp:38 | one handler call queues what it publishes, in order, and may change the roster |
| `SignalBusLaws.DispatchIsDeterministic` | core/src/signals/SignalBus.cpp:20-55 | two complete breadth-first dispatches of the same signal are equal: the order leaves no choice |
| `SignalBusLaws.EachPublishedOnceInOrder` | core/src/signals/SignalBus.cpp:20-55 | the dispatched signals are exactly the outer signal followed by everything published, each once, in publication order |
| `SignalBusLaws.SubscribersHearTheSame` | core/src/signals/SignalBus.cpp:30-55 | subscribers present throughout hear the same sequence: the outer signal and everything published |
| `SeqLock.SlotAlwaysOk` | core/src/perf/TraceTimeBuffer.hpp:41-57 | at every moment of every interleaving a slot with an even number of ticks holds its last stored pair, and an odd one is mid-store |
| `SeqLock.SlotStable` | core/src/perf/TraceTimeBuffer.hpp:48-56 | between two moments with the same even tick count a slot has not changed |
| `SeqLock.ReaderAlwaysOk` | core/src/perf/TraceTimeBuffer.hpp:66-87 | what a reader has loaded is what the slot held at the loads it remembers |
| `SeqLock.LookupLinearizes` | core/src/perf/TraceTimeBuffer.hpp:66-87 | a returned time was stored with this id and was the committed content of the slot at some instant inside the lookup, for any interleaving in which the 32-bit word does not wrap during it |
| `SeqLock.MissExplained` | core/src/perf/TraceTimeBuffer.hpp:72-86 | a miss saw another id committed in the slot inside the lookup, or its third attempt failed |
| `SeqLock.FailedAttemptSawStore` | core/src/perf/TraceTimeBuffer.hpp:73-80 | an attempt fails only because a store was under way or moved the sequence word |
| `SeqLock.UndisturbedFirstAttempt` | core/src/perf/TraceTimeBuffer.hpp:72-84 | without a store to the slot the first attempt decides |
| `SeqLock.QuietLookupExact` | core/src/perf/TraceTimeBuffer.hpp:66-87 | an undisturbed lookup returns exactly the slot's last store if it had this id, and nothing otherwise |
| `TraceTimeBuffer.TraceTimeBuffer.Store` | core/src/perf/TraceTimeBuffer.hpp:41-57 | a store with a non-zero id appends to the stored history and takes over its slot |
| `TraceTimeBuffer.TraceTimeBuffer.Lookup` | core/src/perf/TraceTimeBuffer.hpp:66-87 | a lookup at rest finds the last store of the slot if it has this id |
| `TraceTimeBuffer.FoundIffNotEvicted` | core/src/perf/TraceTimeBuffer.hpp:41-87 | at rest, lookup agrees with the last store of the id if and only if no later store used the same slot |
| `TraceTimeBuffer.LastStoredIsLastCompleted` | core/src/perf/TraceTimeBuffer.hpp:41-57 | the interleaved machine and the sequential object agree on the content of every slot |
| `Kalman.KalmanLagEstimator.Reset` | core/src/marketdata/KalmanLagEstimator.cpp:14-21 | state and covariance return to the configured prior |
| `Kalman.KalmanLagEstimator.Update` | core/src/marketdata/KalmanLagEstimator.cpp:23-88 | one call is one step of the filter: jump guard, prediction, gating, correction, clamps |
| `Kalman.KalmanLagEstimator.PredictInPlace` | core/src/marketdata/KalmanLagEstimator.cpp:30-48 | the in-place prediction is F P F^T + Q on matrices |
| `Kalman.KalmanLagEstimator.CorrectInPlace` | core/src/marketdata/KalmanLagEstimator.cpp:65-87 | the in-place correction is the observation step |
| `Kalman.KalmanLagEstimator.JosephInPlace` | core/src/marketdata/KalmanLagEstimator.cpp:72-83 | the four unrolled lines are the Joseph form (I - KH) P (I - KH)^T + K R K^T, floored and evened out |
| `Kalman.KalmanLagEstimator.Confidence` | core/src/marketdata/KalmanLagEstimator.cpp:90-93 | confidence is 0 without a scale, and otherwise equal to scale / (scale + p00), in (0, 1] for every covariance; only p00 equal to minus the scale divides by zero |
| `Kalman.UnrolledIsJoseph` | core/src/marketdata/KalmanLagEstimator.cpp:76-79 | the unrolled entries equal the matrix product for every covariance and gain |
| `KalmanLaws.PredictKeepsCovariance` | core/src/marketdata/KalmanLagEstimator.cpp:30-48 | prediction keeps the covariance symmetric and positive semidefinite |
| `KalmanLaws.JosephKeepsCovariance` | core/src/marketdata/KalmanLagEstimator.cpp:72-79 | the Joseph form keeps it positive semidefinite for any gain |
| `KalmanLaws.EveryRunKeepsCovariance` | core/src/marketdata/KalmanLagEstimator.cpp:14-88 | in every run of updates and resets the covariance stays symmetric and positive semidefinite, floors included |
| `KalmanLaws.OptimalJoseph` | core/src/marketdata/KalmanLagEstimator.cpp:65-79 | with the gain used, the Joseph form equals the textbook update (I - KH) P and p00 becomes k0 R |
| `KalmanLaws.JosephSharpens` | core/src/marketdata/KalmanLagEstimator.cpp:65-79 | before the floors, the gain used increases the variance in no direction of the state |
| `KalmanLaws.ObservationSharpens` | core/src/marketdata/KalmanLagEstimator.cpp:65-83 | an accepted observation, floors included, increases the variance in no direction of the state where neither floor acts, and by at most 1e-9 times the squared length of the direction otherwise |
| `KalmanLaws.AcceptedObservationBounds` | core/src/marketdata/KalmanLagEstimator.cpp:65-87 | after an accepted observation p00 <= max(1e-9, R) and p00 <= max(1e-9, predicted p00), and the state is within its limits |
| `Matrices.CovarianceIffDeterminant` | core/src/marketdata/KalmanLagEstimator.cpp:81-83 | positive semidefiniteness in every direction is equivalent to non-negative diagonal and p00 p11 >= p01^2 |
| `Welford.WelfordAccumulator.Update` | core/src/numeric/Welford.hpp:15-21 | after every sample m2 is the two-pass sum of squared deviations and mean the arithmetic mean |
| `Welford.WelfordAccumulator.Variance` | core/src/numeric/Welford.hpp:25-30 | the unbiased sample variance by the two-pass definition; it is never negative, so the clamp is idle |
| `Welford.TwoPassGrows` | core/src/numeric/WelfordCorrelation.hpp:15-23 | adding a pair raises the two-pass sum of products by (x - new mean x)(y - old mean y) |
| `Welford.WelfordCorrelation.Update` | core/src/numeric/WelfordCorrelation.hpp:15-23 | c_xy stays the two-pass sum of products of deviations, m2 of each side its two-pass sum |
| `Welford.CauchySchwarz` | core/src/numeric/WelfordCorrelation.hpp:26-32 | for all inputs c_xy^2 <= M2x M2y |
| `Welford.WelfordCorrelation.Correlation` | core/src/numeric/WelfordCorrelation.hpp:26-32 | the Pearson correlation by its definition; 0 for fewer than two samples or a side that does not vary; always within [-1, 1] |
| `WeightedWelford.WeightedWelfordAccumulator.Update` | core/src/numeric/Welford.hpp:48-60 | weighted mean and m2 stay the two-pass values; a sample whose weight is not positive changes nothing |
| `WeightedWelford.WeightedWelfordAccumulator.Variance` | core/src/numeric/Welford.hpp:64-67 | the two-pass weighted variance |
| `WeightedWelford.SampleAdded` | core/src/numeric/Welford.hpp:50-55 | adding a weighted sample moves total weight, first moment and sum of squared deviations as the update does |
| `TDigest.TDigest.Add` | core/src/numeric/TDigest.hpp:32-41 | total_weight_ stays the weight of all added points; weights and moments of centroids plus unmerged points stay those of the added points |
| `TDigest.TDigest.Merge` | core/src/numeric/TDigest.hpp:43-78 | a merge keeps both sums, leaves nothing unmerged, and centroids sorted and inside every interval that contains the data |
| `TDigest.Compress` | core/src/numeric/TDigest.hpp:56-77 | the merge pass keeps weight and moment, order and range, and no merged centroid exceeds max(1, total / delta) |
| `TDigest.TDigest.TotalWeight` | core/src/numeric/TDigest.hpp:104 | the accessor is the true weight if and only if no point is waiting to be merged |
| `TDigest.TDigest.Quantile` | core/src/numeric/TDigest.hpp:80-102 | nothing for q outside [0, 1] or no data, otherwise the interpolation of the merged digest |
| `TDigest.WalkAlong` | core/src/numeric/TDigest.hpp:86-101 | the search loop computes the interpolation at the centroid that reaches the target weight |
| `TDigest.QuantileMonotone` | core/src/numeric/TDigest.hpp:80-102 | quantile is non-decreasing in q and stays between the first and last centroid means |
| `TDigest.QuantileEnds` | core/src/numeric/TDigest.hpp:80-102 | the 0 and 1 quantiles are the first and last centroid means |
| `ZigZag.Calculate` | core/src/numeric/ZigZag.hpp:22-62 | the loop computes the pivots of the state machine |
| `ZigZag.PivotsAlternate` | core/src/numeric/ZigZag.hpp:32-59 | for every input highs and lows alternate at strictly increasing positions, with the prices at those positions |
| `ZigZag.PivotsAreExtremes` | core/src/numeric/ZigZag.hpp:32-59 | for positive prices and swing: consecutive pivots differ by at least the swing; a high is the maximum from the low before to the low after; a low is the minimum back to the high before, and bounds prices up to the next high within the square of the swing |
| `ZigZag.LowIsSafeIff` | core/src/numeric/ZigZag.hpp:38-57 | while a high is looked for, no continuation of positive prices can undercut the low before the next high if and only if a whole swing down from the current candidate stays at or above the low (or a swing is the whole price) |
| `ZigZag.LowsAreNotMinima` | core/src/numeric/ZigZag.hpp:48-58 | a concrete series in which a price below a low precedes the next high |
| `TradeStream.TradeStream.OnTrade` | core/src/marketdata/TradeStream.cpp:14-50 | the ring holds the last trades; every window moves as the code moves it, and each window that kept count and has room keeps count: its volumes stay the sums over the trades it covers |
| `TradeStream.TradeStream.Update` | core/src/marketdata/TradeStream.cpp:64-94 | every window drops its expired front; for trades in time order and a clock that did not go back, the volumes of each window that kept count are those of the trades aged at most 1, 5 and 30 s |
| `TradeStream.TradeStream.Evict` | core/src/marketdata/TradeStream.cpp:78-89 | the loop moves the tail of one window past exactly the expired front, whatever the window holds |
| `TradeStream.DroppedTracks` | core/src/marketdata/TradeStream.cpp:77-94 | dropping the expired front keeps count, and leaves exactly the trades of bounded age if timestamps are in order and the clock did not go back |
| `TradeStream.ArriveTracks` | core/src/marketdata/TradeStream.cpp:24-50 | a window that kept count still does after a trade if it had room |
| `TradeStream.ArriveKeepsCounts` | core/src/marketdata/TradeStream.cpp:24-50 | a trade arriving with room keeps a window's volumes equal to the naive sums |
| `TradeStream.ArriveAgreesIff` | core/src/marketdata/TradeStream.cpp:35-50 | with positive sizes a window agrees with the ring after a trade if and only if it had room, or was empty over a full ring and the overwritten trade equals the new one in side and size |
| `TradeStream.RecentIsTail` | core/src/marketdata/TradeStream.cpp:77-94 | for ordered timestamps the trades of bounded age are exactly a tail of the history |
| `PaperExecutor.PaperExecutor.Submit` | core/src/executor/PaperExecutor.cpp:17-22 | the plan joins the queue, nothing else changes |
| `PaperExecutor.PaperExecutor.CloseTrade` | core/src/executor/PaperExecutor.cpp:24-67 | a requested close settles the whole position at the quote, or at the entry price without one, with slippage; exactly one record |
| `PaperExecutor.PaperExecutor.CancelAll` | core/src/executor/PaperExecutor.cpp:69-76 | queued plans and position of the ticker are dropped, without a record |
| `PaperExecutor.PaperExecutor.InjectRecovered` | core/src/executor/PaperExecutor.cpp:386-394 | per ticker the last recovered open trade becomes the position; the ledger gains, trade by trade, the drop of a position held before and the recovered one |
| `PaperExecutor.PaperExecutor.PriceNow` | core/src/executor/PaperExecutor.cpp:164-187 | a plan fills exactly under the fill rules, at the touch or the protected price |
| `PaperExecutor.PaperExecutor.Enter` | core/src/executor/PaperExecutor.cpp:197-218 | an open position is not overwritten |
| `PaperExecutor.PaperExecutor.FillPending` | core/src/executor/PaperExecutor.cpp:152-222 | the erase-while-iterating loop leaves exactly the plans that neither expired nor filled, in order; the first fill becomes the position if there was none, and is all the ledger gains |
| `PaperExecutor.PaperExecutor.CheckExit` | core/src/executor/PaperExecutor.cpp:224-353 | the exit due first (stop, target, timeouts) closes the position with exactly one record; a target exit with a proper fraction leaves the rest at break-even |
| `PaperExecutor.PaperExecutor.TickTicker` | core/src/executor/PaperExecutor.cpp:149-354 | one ticker's turn writes exactly its fill, if it had no position, and the exit then due into the ledger, and leaves the position they leave |
| `PaperExecutor.PaperExecutor.Tick` | core/src/executor/PaperExecutor.cpp:129-147 | whichever the ticker order: a plan is still queued if and only if it neither expired nor filled, each position is its own ticker's turn of the old state, and the ledger gains exactly those turns |
| `PaperExecutor.PaperExecutor.PopClosedTrades` | core/src/executor/PaperExecutor.cpp:356-361 | closed trades are handed out once |
| `PaperExecutor.PaperExecutor.Record` | core/src/executor/PaperExecutor.cpp:217-218 | ledger, position and closed trades move together |
| `PaperModel.RecordKeepsExplains` | core/src/executor/PaperExecutor.cpp:310-350 | the ledger keeps explaining positions and closed trades: every position is what its ticker's fills and closes left |
| `PaperModel.WaitingTwice` | core/src/executor/PaperExecutor.cpp:144-146 | turns of several tickers compose, so the order of tickers does not matter for the queue |
| `PaperModel.EnteredAmongWaiting` | core/src/executor/PaperExecutor.cpp:144-146 | turns of other tickers do not change what a ticker's queued plans do |
| `PaperLaws.Conservation` | core/src/executor/PaperExecutor.cpp:24-67 | in every run, per ticker: size filled = size closed + dropped + open, and booked profit = net cash flow + cost basis of what is open or dropped |
| `PaperLaws.FillHasItsCloses` | core/src/executor/PaperExecutor.cpp:315-350 | each fill ends in at most two closes, the first of two a partial target exit and the second none, with sizes that sum to the filled size |
| `PaperLaws.NeverOverwritten` | core/src/executor/PaperExecutor.cpp:210-217 | a ticker is filled again only after the closes of its last fill sum to the filled size |
| `PaperLaws.FillKeepsDistances` | core/src/executor/PaperExecutor.cpp:201-208 | stop and target distances survive slippage and gaps |
| `PaperLaws.FillsAtTheTouch` | core/src/executor/PaperExecutor.cpp:172-187 | a plan fills exactly if it is a market plan or the touch is within its limit, and always at the touch: the gap protection never improves on it |
| `PaperLaws.ExitsAtTheQuote` | core/src/executor/PaperExecutor.cpp:233-308 | stop and timeout exits are at the closing side of the quote, target exits at the other; stop before target before timeouts |
| `PaperLaws.RestNeverGainsAtStop` | core/src/executor/PaperExecutor.cpp:342-346 | after a partial target, a stop exit of the rest closes all of it and never books a profit |
| `RiskManager.RiskManager.Evaluate` | core/src/risk/RiskManager.cpp:19-361 | the decision is that of the rules in their order; histories move exactly as the rules say; on an orderly run nothing is accepted in the cool-off of any trip of the breaker |
| `RiskManager.RiskManager.Admit` | core/src/risk/RiskManager.cpp:255-360 | R10 on: rate limit, breaker, blackouts, slippage; acceptances stay spaced, expired trips clear the losses |
| `RiskManager.RiskManager.Breaker` | core/src/risk/RiskManager.cpp:272-282 | the breaker holds during the cool-off; the first call after it forgets the losses, and no cool-off of any trip is then left |
| `RiskManager.RiskManager.PruneTrades` | core/src/risk/RiskManager.cpp:258-265 | pruning keeps the account of acceptances |
| `RiskManager.RiskManager.Prune` | core/src/risk/RiskManager.cpp:258-265 | the two loops leave the newest entries without those too old at the front |
| `RiskManager.RiskManager.Accept` | core/src/risk/RiskManager.cpp:357-360 | an acceptance joins the history at the second clock reading |
| `RiskManager.RiskManager.RecordTradeEnd` | core/src/risk/RiskManager.cpp:380-404 | on an orderly run the breaker trips at ts if and only if, of all outcomes recorded so far, the last max_consecutive_losses are losses inside the window, all recorded since the losses were last forgotten, and no more than the history cap |
| `RiskManager.RiskManager.PruneLosses` | core/src/risk/RiskManager.cpp:385-391 | the two loops leave the newest outcomes without those too old at the front |
| `RiskManager.WindowHoldsAtMost` | core/src/risk/RiskManager.cpp:258-270 | spaced acceptances put at most the limit into any closed window |
| `RiskManager.RateLimitHolds` | core/src/risk/RiskManager.cpp:258-270 | in every orderly run with a history cap at least the limit, any closed window of trades_window_min holds at most max_trades_per_window acceptances |
| `RiskManager.RateRuleCanFireIff` | core/src/risk/RiskManager.cpp:259-270 | the rate rule can fire for some history if and only if the history cap is at least the limit |
| `RiskManager.Overfill` | core/src/risk/RiskManager.cpp:258-270 | with a history cap below the limit, any number of plans that pass the other rules is accepted at one and the same instant |
| `RiskManager.RateGrows` | core/src/risk/RiskManager.cpp:266-270 | an acceptance below the limit keeps acceptances spaced by more than the window |
| `RiskManager.TripsIff` | core/src/risk/RiskManager.cpp:383-403 | for outcomes in time order the kept run reaches the limit if and only if the last that many outcomes are losses, fit the cap and lie in the window |
| `RiskManager.LossesRecord` | core/src/risk/RiskManager.cpp:383-391 | over every orderly run the loss history is what pruning all outcomes recorded since the last clear would keep, in time order |
| `RiskManager.KeptGoesOn` | core/src/risk/RiskManager.cpp:383-391 | pruning at every record keeps the same outcomes as pruning once at the last |
| `RiskManager.MissRun` | core/src/risk/RiskManager.cpp:273-282 | losses at minutes 0, 1, 2 trip; a call at 12.5 forgets them; with the loss at 13 three losses are in the window again, but a plan at 13.5 is accepted |
| `RiskManager.TripAtZero` | core/src/risk/RiskManager.cpp:272-282 | a trip recorded at time 0 does not hold: a plan is accepted one nanosecond later |
| `RiskManager.TripsExpire` | core/src/risk/RiskManager.cpp:273-282 | when the breaker is not cooling, the cool-off of every recorded trip is over |
| `RiskModel.ScreenedPlan` | core/src/risk/RiskManager.cpp:25-204 | a plan past R1 to R7 has stop, entry and target in order for its side, and a stop within 100 bps |
| `RiskModel.SizeByRiskBounds` | core/src/risk/RiskManager.cpp:206-227 | sizing by risk meets the risk target up to a billionth of an increment above and less than one increment below, in whole increments |
| `RiskModel.CapBounds` | core/src/risk/RiskManager.cpp:234-245 | the capped value is within the cap up to the slack; the cap never raises a size already rounded |
| `RiskModel.SizingBounds` | core/src/risk/RiskManager.cpp:206-253 | for every plan that passes: risk = size x stop distance <= target, value <= cap (each up to 1e-9 of an increment), whole increments, margin within the safety ratio |
| `RiskModel.CapNeverRaisesIff` | core/src/risk/RiskManager.cpp:213-245 | the cap step never raises a size, over all inputs, if and only if the ticker has a price increment or no size increment |
| `RiskModel.RaisedByCap` | core/src/risk/RiskManager.cpp:213-245 | a concrete plan whose size the cap raises for a ticker with a size but no price increment |
| `Increments.WholeBounds` | core/src/risk/RiskManager.cpp:214-216 | rounding to increments loses less than one and gains at most a billionth of one |
| `StartupRecovery.RecoverTicker` | core/src/executor/StartupRecovery.cpp:43-129 | a ticker with a position yields the persisted trade, or a new one for an orphan, opened with the reported size and prices; drift is flagged exactly for orphan, vanished or size-drifted tickers; exactly an orphan gets a reduce-only opposite stop of its size |
| `StartupRecovery.SettleOrders` | core/src/executor/StartupRecovery.cpp:137-170 | for every list of orders, repeated or zero ids included: exactly which orders are assigned to a free place of the ticker's trade and which cancelled; only missing ids are filled in |
| `StartupRecovery.Turn` | core/src/executor/StartupRecovery.cpp:43-171 | one ticker's turn keeps everything said about the tickers done |
| `StartupRecovery.Run` | core/src/executor/StartupRecovery.cpp:17-179 | exactly one open trade per ticker with a position above tolerance, and one protective stop per orphan; with sound ids and the cancel policy every fetched order is referred to or cancelled, never both, and no stop order is cancelled while its trade lacks a stop; auto_ack if and only if configured and no ticker drifts |
| `StartupRecovery.TurnDone` | core/src/executor/StartupRecovery.cpp:43-171 | the account of recovered trades, orders and cancels extends from the tickers done to the next |
| `StartupRecovery.MoreDecided` | core/src/executor/StartupRecovery.cpp:141-170 | referred-or-cancelled extends to the orders of the next ticker and stays true of the others |
| `StartupRecovery.RecoveredMirrors` | core/src/executor/StartupRecovery.cpp:101-110 | whatever exits it adopts, a recovered trade is open with the size and the entry prices the exchange reports |
| `StartupRecovery.EmergencyStopProtects` | core/src/executor/StartupRecovery.cpp:77-80 | the emergency stop is within half a tick of the configured distance, and on the protecting side whenever that distance is wider |
| `StartupRecovery.UsedElsewhere` | core/src/executor/StartupRecovery.cpp:142-148 | a ticker's turn does not change which orders of other tickers are referred to |
| `StartupRecovery.MoreStopsKept` | core/src/executor/StartupRecovery.cpp:150-155 | no stop order is left to nobody while its trade lacks a stop |
| `LiveExecutor.LiveExecutor.Submit` | core/src/executor/LiveExecutor.cpp:52-139 | one entry order; the trade joins as pending or unclear, not yet closed by force; the reservation stays only if the exchange answered |
| `LiveExecutor.LiveExecutor.CancelAll` | core/src/executor/LiveExecutor.cpp:141-158 | if the call succeeds every trade that is not closed is cancelling, pending reservations are released and the ticker's forced counts restart; if it fails nothing changes |
| `LiveExecutor.LiveExecutor.InjectRecovered` | core/src/executor/LiveExecutor.cpp:160-168 | recovered trades join as they are, with forced counts of zero |
| `LiveExecutor.LiveExecutor.PopClosedTrades` | core/src/executor/LiveExecutor.cpp:204-217 | records are handed out once and exactly the closed trades disappear |
| `LiveExecutor.LiveExecutor.OnOrderUpdate` | core/src/executor/LiveExecutor.cpp:233-444 | an update acts on the first trade it concerns and on no other, sends orders for no other, only its fill changes an executed size, and it loses track of no stop but those of LostByUpdate; closed and force-closing trades are never touched |
| `LiveExecutor.LiveExecutor.Handle` | core/src/executor/LiveExecutor.cpp:307-442 | what one matched update does in place, for every gateway answer: ids, fills, protection, aborts, break-even, records and reservations |
| `LiveExecutor.LiveExecutor.ProtectOrAbort` | core/src/executor/LiveExecutor.cpp:358-385 | a filled entry that slipped too far is closed by one market order, otherwise it is protected |
| `LiveExecutor.LiveExecutor.AfterTarget` | core/src/executor/LiveExecutor.cpp:386-420 | after the first target fill the stop moves to break-even for the rest; if the exchange refuses that, the whole executed size is closed and recorded, the part the target took included |
| `LiveExecutor.LiveExecutor.Trail` | core/src/executor/LiveExecutor.cpp:398-418 | the rest gets a break-even stop; if the exchange refuses it, one market order and one record for the whole executed size follow |
| `LiveExecutor.LiveExecutor.EnterPartly` | core/src/executor/LiveExecutor.cpp:308-324 | a partial fill: the first opens the trade and asks for its protection, then it is counted |
| `LiveExecutor.LiveExecutor.EnterWhole` | core/src/executor/LiveExecutor.cpp:349-385 | a final fill sets the size, then the trade is protected or closed |
| `LiveExecutor.LiveExecutor.OnPositionUpdate` | core/src/executor/LiveExecutor.cpp:446-459 | exactly the unclosed trades of that side take the new average |
| `LiveExecutor.LiveExecutor.CollectCloses` | core/src/executor/LiveExecutor.cpp:507-589 | exactly the trades that must close become force-closing, each with one action and its count raised by one |
| `LiveExecutor.LiveExecutor.CollectIn` | core/src/executor/LiveExecutor.cpp:509-588 | the same for the trades of one ticker, in order |
| `LiveExecutor.LiveExecutor.ExecuteCloses` | core/src/executor/LiveExecutor.cpp:602-643 | each action sends its cancels, one market order and one record, whatever the exchange answers, for a trade in the book with that size |
| `LiveExecutor.LiveExecutor.Rearm` | core/src/executor/LiveExecutor.cpp:650-663 | exactly the open trades without a stop and older than five seconds are protected, in order: the requests sent and the new exits are determined by the exchange's answers |
| `LiveExecutor.LiveExecutor.RearmAll` | core/src/executor/LiveExecutor.cpp:648-671 | the second half of a tick, ticker by ticker: answers are settled one after the other, or the trades short of a stop are protected; requests, trades, records and reservations are exact |
| `LiveExecutor.LiveExecutor.HandleReconciled` | core/src/executor/LiveExecutor.cpp:673-728 | one answer settles the first unclear submission of its side and size, in the order the map is walked, whatever its ticker: pending again, or closed with a zero-size record and its reservation released |
| `LiveReconcile.FirstMatchIff` | core/src/executor/LiveExecutor.cpp:681-695 | an answer settles a submission if and only if it has the answer's side and size and none before it in the walk has |
| `LiveReconcile.OwnTickerIff` | core/src/executor/LiveExecutor.cpp:681-695 | the submission settled belongs to the answer's own ticker if and only if that ticker has a matching one and no ticker before it does |
| `LiveReconcile.AnswerCrosses` | core/src/executor/LiveExecutor.cpp:681-695 | a concrete answer about one ticker that settles the submission of another |
| `LiveReconcile.QuietlyAttended` | core/src/executor/LiveExecutor.cpp:648-671 | without unclear submissions records and reservations stay, and every trade gets just the exits it was short of |
| `LiveExecutor.LiveExecutor.Tick` | core/src/executor/LiveExecutor.cpp:476-671 | the requests of a tick are exactly: for each trade that must close its cancels and one market order, then the protections of the trades short of a stop, in ticker order; forced trades end force-closing and their count rises by one; records, reservations and every trade are determined by the answers, with or without unclear submissions |
| `LiveExecutor.LiveExecutor.CloseTrade` | core/src/executor/LiveExecutor.cpp:730-744 | each open trade with size gets one market order and one record; it is closed if the exchange answers; the only stops lost track of are those whose cancel the exchange refuses |
| `LiveExecutor.LiveExecutor.RecordClose` | core/src/executor/LiveExecutor.cpp:746-768 | one record at the mark price, or the entry price without a mark |
| `LiveExecutor.LiveExecutor.EmergencyClose` | core/src/executor/LiveExecutor.cpp:770-797 | known exits are cancelled, then one reduce-only market order for the executed size |
| `LiveExecutor.LiveExecutor.TakeBackExits` | core/src/executor/LiveExecutor.cpp:820-845 | a stop that cannot be cancelled ends the attempt, a target that cannot does not |
| `LiveExecutor.LiveExecutor.PlaceStops` | core/src/executor/LiveExecutor.cpp:799-906 | no new stop before the old one was taken back; nothing for a trade without size; stop for the executed size, target in whole increments |
| `LiveExecutor.LiveExecutor.Ask` | core/src/executor/LiveExecutor.cpp:617-625 | a request is sent for a trade the book holds at that moment; an order has to reduce it; origin and book are noted |
| `LiveModel.ClaimKeepsKnownIds` | core/src/executor/LiveExecutor.cpp:254-301 | an id once known is never replaced by an update, and one update names at most one new order |
| `LiveModel.ClaimDecidesRouting` | core/src/executor/LiveExecutor.cpp:254-301 | after its first update every later update of an order takes the same roles, by its id alone |
| `LiveModel.TargetReduces` | core/src/executor/LiveExecutor.cpp:867-886 | a target order is reduce-only, opposite, and within its fraction up to a billionth of an increment |
| `LiveModel.ReducesWithinSize` | core/src/executor/LiveExecutor.cpp:867-886 | with a fraction of at most one no closing order exceeds the executed size by more than that |
| `LiveModel.FirstPartialFillProtectedIff` | core/src/executor/LiveExecutor.cpp:308-324 | the partial fill that opens a trade is protected by a stop if and only if size was executed before it and no earlier stop is stuck at the exchange |
| `LiveModel.FreshPartialFillIsBare` | core/src/executor/LiveExecutor.cpp:308-324 | a concrete pending trade and partial fill: the trade opens with size and nothing is sent |
| `LiveHistory.ClosedThroughRun` | core/src/executor/LiveExecutor.cpp:141-252 | over every run of calls, cancellations included: a closed trade never changes until a clean-up drops it |
| `LiveHistory.GoneOnlyIfClosed` | core/src/executor/LiveExecutor.cpp:204-217 | over every run of calls: a trade disappears only by a clean-up of its ticker that found it closed |
| `LiveHistory.ForcedThroughRun` | core/src/executor/LiveExecutor.cpp:249-252 | over every run until its ticker is cancelled: a force-closing trade stays so, with its size, in the book |
| `LiveHistory.ExitsWithinExecuted` | core/src/executor/LiveExecutor.cpp:386-906 | over every run, every order that is no submission is reduce-only, opposite to its plan, and no larger than what was executed of a trade that was in the book when it was sent, up to a billionth of an increment |
| `LiveHistory.OnlyFillsChangeSize` | core/src/executor/LiveExecutor.cpp:321-351 | over every run, an executed size is what the fills of its trade reported: a final one sets it, a partial one adds to it, nothing else changes it |
| `LiveStops.OneStop` | core/src/executor/LiveExecutor.cpp:820-864 | over every run, no trade has two stops accepted and not taken back, but for the lost ones |
| `LiveStops.HandledStops` | core/src/executor/LiveExecutor.cpp:307-442 | after any update each stop of the trade that is not taken back is the one the trade knows, or one of LostByUpdate: of a target fill, the accepted break-even stop and an old stop whose cancel was refused |
| `LiveStops.ProtectedStops` | core/src/executor/LiveExecutor.cpp:799-864 | protection takes the known stop back before it places and knows a new one |
| `LiveStops.ForcedOutStops` | core/src/executor/LiveExecutor.cpp:770-780 | a forced close loses a stop only if its cancel is refused |
| `LiveStops.KnownFollows` | core/src/executor/LiveExecutor.cpp:799-906 | stops that follow their trade keep the account of all standing stops |
| `LiveStops.PurgedKnown` | core/src/executor/LiveExecutor.cpp:204-217 | a clean-up keeps the account of all standing stops |
| `LiveStops.SecondStopIff` | core/src/executor/LiveExecutor.cpp:397-420 | after a target fill with an accepted break-even stop the trade knows no stop, and a tick sends a second stop, for all of the executed size, if and only if the trade is open and its entry more than five seconds old |
| `LiveStops.TwoStops` | core/src/executor/LiveExecutor.cpp:397-420 | a concrete trade: a stop for 0.5 stands, and after five seconds one for 1.0 is sent |
| `LiveHistory.AskingKeeps` | core/src/executor/LiveExecutor.cpp:617-906 | noting a request that reduces a trade of the book keeps the account of all orders |
| `LiveHistory.WritingKeeps` | core/src/executor/LiveExecutor.cpp:233-459 | writing the book by one of its moves keeps the account of all orders |
| `LiveModel.ForcingKeeps` | core/src/executor/LiveExecutor.cpp:507-589 | force-closing the trades that must close keeps the count of forced closes at one at most |
| `LiveModel.ReplaceKeeps` | core/src/executor/LiveExecutor.cpp:233-444 | an update of one trade keeps closed and force-closing trades and the forced counts |
| `LiveModel.ProtectionIsNoMarket` | core/src/executor/LiveExecutor.cpp:847-905 | protection never sends a market order |

## Left out

- IEEE rounding, NaN and infinities: `real` arithmetic throughout; divisions by zero that the code can reach are written out where they decide a branch.
- 64-bit overflow of tick counts in sizing (`static_cast<int64_t>`): sizes are unbounded integers there; `OrderBook` ticks keep their clamp to 1e15.
- Mutexes and calls from other threads: each method is one atomic step, except in `SeqLock`; releasing the lock inside `LiveExecutor.submit` and `tick` is not modelled.
- Weak memory orders in `TraceTimeBuffer`: steps are sequentially consistent. Two writers at once are not modelled.
- SeqLock.LookupLinearizes: the 32-bit sequence word must not wrap during the lookup; the code has the same window.
- TDigest.TDigest.Add: takes positive weights only, which every promise of the digest needs; the source accepts any weight.
- TDigest.TDigest.constructor: needs a delta other than 0, where the source divides by it.
- BookLaws.BatchMatchesSequentialIff: for changes with a side; a change without one takes a side from the top of the book at its turn, and `BatchIsReorderedIff` covers batches with such changes.
- ZigZag.PivotsAreExtremes: a low bounds later prices only within the square of the swing, because the exact minimum claim is false; `LowIsSafeIff` says when it holds.
- LiveStops.OneStop: a stop answered with the id 0, which the code reads as no stop, does not count as standing.
- Welford.WelfordCorrelation.Correlation: the square root is any function that squares back.
- TradeStream.TradeStream.Update: needs arrival-ordered timestamps and a clock that does not go back for the exact window sums; without them, and for a window that lost count, only the volumes the code computes are stated.
- RiskManager.RiskManager.Evaluate: the window and cool-off promises are about runs whose clock readings and record times do not go back and in which the breaker does not trip at time 0; the decision itself is stated for every call.
- Hawkes intensities, size statistics and `get_stats` of the trade stream: they depend on exp and only mirror sums.
- `volume_at_range`, depth queries, copy and move of the order book: read-only walks.
- Mark prices, unrealized profit and `get_active_trades` of both executors: views for the dashboard.
- Error streak counters, alerts, metrics, logs and latency correlation: no influence on trades.
- The reconciliator's polling and back-off: its answers are inputs of `LiveExecutor.Tick`.
- News, funding and universe rules of the risk gate: their verdicts are inputs of `RiskManager.Evaluate`, in the order the code asks for them.
- Exceptions of cancel calls in start-up recovery, and of fetching positions and orders: they end the run in the source.
- Ticker name normalisation: plans and positions carry the internal name.
- StartupRecovery.Run: start-up order accounting assumes ids name one order each and persisted ids belong to their ticker; it makes no claim about orders otherwise.
- Strategies, indicators, configuration, transport, dashboard, KDE, HMM and clocks: outside the core.
