# Verified model of the document parser and its job platform

This project models the parts of the repository whose correctness is hardest to see from
the code, and proves what each of them is for. Everything is Dafny; `dafny verify
dfyconfig.toml` checks the whole project. Source code that updates things step by step is
modelled by loops, and by classes where an object keeps the state (the cycle search, the
Redis store, the job stream, the artifact directory, the hash state with its arrays, the
connection and the caches), proved against specification functions or predicates; vectors
that a function sorts or fills are sequences, of which each step builds the next. Protocols
are modelled as transition systems whose steps are the atomic script or transaction the
source performs, and their guarantees hold for every list of steps.

**Reading order** (`ReadingOrderModel`, `CycleSearch`, `TopologicalOrder`,
`ConstraintGraph`, `BandGraph`, `BandOrder`, `BandDivision`, `GroupTrace`, `GroupOrder`,
`BodyOrder`, `PageOrder`, `ReadingGeometry`). The blocks of a page are split at full-width separators into
bands; each band becomes a weighted constraint graph that a priority topological sort turns
into an order, giving up the weakest edge of a cycle whenever nothing is ready. The graph is
characterised exactly, the sort is shown to end with every element once, its last-resort
branch is shown dead, and a potential along geometric edges shows that only column-flow and
model-hint edges are ever given up. The trace is that of the very runs that gave the order.
`ReadingGeometry` says what the comparisons mean in the coordinates of the page.

**Fenced job delivery** (`RunProjection`, `JobScripts`, `RedisJobStore`, `JobProtocol`,
`JobGuarantees`, `JobProgress`). `JobScripts` gives each Lua script as one transition on the keys of one
message; `RedisJobStore` is the store with many messages whose methods do what the scripts
do, statement by statement, and are shown to be those transitions on one message and
nothing on the others. `JobProtocol` adds workers that crash, pause and lose replies,
renewal threads, the projector, and delivery and cleanup of the cancellation marker.
`JobGuarantees` holds the theorems about what never happens, `JobProgress` those about what
the steps achieve.

**Dispatch** (`JobQueue`, `Dispatch`, `DispatchProgress`). The enqueue script with its trimming, and the
transactional outbox around it, with consumer groups that read and acknowledge.

**Artifact retention** (`ArtifactDirectory`, `Retention`). Shared and exclusive directory
locks, the expiry marker and the two timestamps, with workers, downloads and cleaners that
may stop anywhere, and commits that take effect after their cleaner is gone.

**Layout recovery** (`LayoutModel`, `LayoutBlocks`, `TextGeometry`, `PageGeometry`,
`LineGroups`, `GridGeometry`, `GridSearch`, `GridMerge`, `LineColumns`, `LineRecovery`,
`PageStructure`, `TableStage`, `LayoutMeasures`). Text lines no block owns are grouped, merged where they form
a grid, attached or given blocks of their own, and reread column by column; figures that
repeat a table disappear into it. Lines are counted as multisets over blocks. The geometric
thresholds are the source's, stated in `PageGeometry`, `GridGeometry`, `LineColumns` and
`LineRecovery` and, by edges alone, in `LayoutMeasures`; most lemmas hold for any thresholds, and `TableStage.RecognizePage` puts the
source's in. What remains an arbitrary function is what the source finds out by reading text.

**Fingerprints** (`Sha256Standard`, `StreamingSha256`, `DigestText`). FIPS 180-4 as a
specification, with its constants derived from the primes they come from and its word
functions from rotations, the streaming class, and the digest's text.

**Redis protocol** (`Resp`). The buffered reader against a parser of the whole stream, and
the command encoder as its inverse; and every reply a server can spell.

**Smaller stateful parts**: `WarningAggregation`, `VerticalCoverage`, `EngineCache`,
`PageImageCache`, and `DocumentModel` with `DocumentAssembly` (the assembler against the
exporter's validator). `Wrappers`, `Sequences`, `Sorting`, `Decimal` and `FirstSeen` are
shared helpers.

Conventions. Coordinates are exact reals; sizes, clocks and sequences are unbounded
numbers, with the wrap-around of SHA-256's words and bit length and the saturation of
warning counts written out. A stable sort stands for `std::stable_sort`, and for
`std::sort` where the order leaves no ties. Text patterns and the reading order's column
inference are arbitrary function values: the results hold whatever they answer.

Findings. Three things one would expect of the source hold only under a condition, which
is proved exactly. The dispatcher's idempotency marker prevents a second
append unless a script that timed out in the client reaches Redis after the retry has
committed and its marker was cleaned, while the stream has room:
`Dispatch.DuplicatesExactlyWhenStale` shows that a run queues a job twice exactly when this
happens in it, and `Dispatch.LateScriptQueuesTwice` gives such a run. Everything else about
the queue holds on every run, late scripts included. And a consumer group created after
others have acknowledged entries does not get those entries:
`Dispatch.NewGroupMissesExactlyWhenTrimmed` says that it misses an entry exactly when the
stream holds fewer entries than were ever added, `Dispatch.LateGroupMissesAJob` gives a run,
`Dispatch.NoEntryIsLost` speaks of the groups that were there in time, and
`Dispatch.StoredWhileNeeded` of every group and what is stored once it is there. Lastly, a
caption copies the first placement recorded under its target's id, and headers are recorded
first: when a figure or table shares its id with a header, its caption is recorded among
the headers. `PageOrder.GroupsFitExactlyWhen` says that the groups in the trace fit the
kinds of the blocks exactly when this does not happen, `PageOrder.SharedNameMisleads` gives
such a page, and with distinct ids it cannot happen (`PageOrder.PlacementShowsKind`).

## Model

| member | source | states |
|---|---|---|
| `CycleSearch.Search.CloseCycle` | cpp/reading_order/docling_like_reading_order_backend.cpp:394-407 | Walking parent edges down from the top of the path always reaches the closing edge's target, so the give-up branch inside the walk is dead and the list is a closed walk of live edges |
| `CycleSearch.Search.Visit` | cpp/reading_order/docling_like_reading_order_backend.cpp:382-411 | A visit that finds something leaves a genuine cycle of live edges; one that finds nothing finishes the element, keeps every earlier finished element and strictly shrinks the unvisited set |
| `CycleSearch.LastFinishedIsUnblocked` | cpp/reading_order/docling_like_reading_order_backend.cpp:409-418 | When the search fails everywhere, the last element in finishing order has no live edge leading to it |
| `CycleSearch.FindCycleEdges` | cpp/reading_order/docling_like_reading_order_backend.cpp:377-419 | A non-empty answer is a genuine cycle of live edges; an empty answer means that everything is emitted or some element is not blocked |
| `TopologicalOrder.SelectReady` | cpp/reading_order/docling_like_reading_order_backend.cpp:436-444 | The element chosen is ready and no ready element precedes it in priority order; none is chosen exactly when every element left is blocked |
| `TopologicalOrder.WeakestCycleEdge` | cpp/reading_order/docling_like_reading_order_backend.cpp:447-457 | When every element left is blocked there is a cycle, and the edge given up lies on it with no weaker edge on it; the fallback that emits just anything is never reached |
| `TopologicalOrder.BreakCycle` | cpp/reading_order/docling_like_reading_order_backend.cpp:459-470 | Giving the edge up keeps the in-degree bookkeeping true and strictly lowers the number of active edges, which is why the loop ends |
| `TopologicalOrder.StuckMeansBlocked` | cpp/reading_order/docling_like_reading_order_backend.cpp:446-478 | Whenever nothing is ready, every element not yet emitted has an active incoming edge from another such element |
| `TopologicalOrder.EmissionKeepsOrder` | cpp/reading_order/docling_like_reading_order_backend.cpp:480-486 | Emitting the chosen element keeps every remaining edge respected and every position held by a first ready element |
| `TopologicalOrder.CurrentCycleIsOriginal` | cpp/reading_order/docling_like_reading_order_backend.cpp:447-457 | A cycle of edges still active is a cycle of the given graph, and its weakest edge is weakest there too |
| `TopologicalOrder.StableTopologicalOrder` | cpp/reading_order/docling_like_reading_order_backend.cpp:421-490 | The sort ends with every element exactly once; each edge not given up is respected, each position holds a first ready element, each break in the trace names a different edge that was weakest on a cycle, and breaks happen only when everything left was blocked |
| `ReadingGeometry.EarliestReadyReadsFirst` | cpp/reading_order/docling_like_reading_order_backend.cpp:351-369 | In the coordinates of the page: the element emitted is, of those ready, in the leftmost column when there are several, then the topmost, then the leftmost, then the first in layout order |
| `ReadingGeometry.SacrificeIsLeastConfident` | cpp/reading_order/docling_like_reading_order_backend.cpp:447-457 | The edge given up has the least confidence on its cycle; among equals the first reason in the alphabet, then the lowest ends |
| `ReadingGeometry.TextsCompareWhereTheyPart` | cpp/reading_order/docling_like_reading_order_backend.cpp:450-454 | Reasons are compared like words: at the first place where they part, or by length where one begins the other |
| `ConstraintGraph.AddEdge` | cpp/reading_order/docling_like_reading_order_backend.cpp:334-349 | A repeated pair keeps one edge, which only ever gets stronger; a loop is ignored; nothing else changes |
| `ConstraintGraph.GeometricWalkRises` | cpp/reading_order/docling_like_reading_order_backend.cpp:552-598 | Along any walk of same-column and spanning edges the key (centre, spanning first, left edge, index) strictly rises |
| `ConstraintGraph.GeometricEdgesAreNeverSacrificed` | cpp/reading_order/docling_like_reading_order_backend.cpp:446-470 | Hence every cycle contains a column-flow or model-hint edge, and only such edges are ever given up |
| `ConstraintGraph.GeometricConstraintsHold` | cpp/reading_order/docling_like_reading_order_backend.cpp:421-490 | Every same-column and spanning constraint of the graph shows in the final order |
| `BandGraph.SortVertically` | cpp/reading_order/docling_like_reading_order_backend.cpp:539-550 | The result is the same blocks in strictly rising vertical order |
| `ReadingGeometry.ColumnReadsDown` | cpp/reading_order/docling_like_reading_order_backend.cpp:539-550 | In the coordinates of the page: the middles of the blocks go down, and at equal height the left edges go right, then by layout index |
| `BandGraph.ColumnEdges` | cpp/reading_order/docling_like_reading_order_backend.cpp:552-571 | Every column is complete and vertically sorted; neighbours further apart than the tolerance are constrained, the bottom of each column flows into the top of the next column that holds a block, and every edge is one of these two kinds |
| `BandGraph.LinkSpanning` | cpp/reading_order/docling_like_reading_order_backend.cpp:573-576 | Consecutive spanning blocks are constrained from top to bottom, and every edge added or changed joins two that are consecutive |
| `BandGraph.SplitColumns` | cpp/reading_order/docling_like_reading_order_backend.cpp:577-598 | In each column a spanning block touches, the last block above it is constrained before it and the first other block after it; every edge added or changed is one of these |
| `BandGraph.SortHinted` | cpp/reading_order/docling_like_reading_order_backend.cpp:600-609 | All hinted blocks by hint, equal hints in their original order |
| `BandGraph.HintEdges` | cpp/reading_order/docling_like_reading_order_backend.cpp:610-617 | Neighbouring hinted blocks with different hints are constrained, at the lowest confidence, and every edge added or changed joins such a pair |
| `BandGraph.RecordEdgeCounts` | cpp/reading_order/docling_like_reading_order_backend.cpp:371-375 | Each reason's count grows by the number of edges with that reason |
| `BandGraph.BuildGraph` | cpp/reading_order/docling_like_reading_order_backend.cpp:527-617 | The graph has an edge for exactly the pairs some rule relates, with the reason and confidence of the strongest such rule, and no pair twice |
| `BandGraph.BandGraphIsUnique` | cpp/reading_order/docling_like_reading_order_backend.cpp:527-617 | Blocks and columns leave no choice: two graphs that satisfy the description have the same edges |
| `BandGraph.GraphOrdersBand` | cpp/reading_order/docling_like_reading_order_backend.cpp:527-621 | Any permutation that shows the geometric edges reads all spanning blocks from top to bottom, column neighbours that are apart from top to bottom, and each spanning block between its column neighbours |
| `BandOrder.LocateColumns` | cpp/reading_order/docling_like_reading_order_backend.cpp:301-332 | The range runs from the first to the last column the block matches; without a match it is the first nearest column |
| `BandOrder.LocatedIsUnique` | cpp/reading_order/docling_like_reading_order_backend.cpp:301-332 | That description leaves exactly one range |
| `ReadingGeometry.MatchesByRatio` | cpp/reading_order/docling_like_reading_order_backend.cpp:306-316 | A block matches a column exactly when their common width is at least a tenth of the block's or a fifth of the column's, as ratios |
| `ReadingGeometry.OverlapIsSharedLength` | cpp/reading_order/docling_like_reading_order_backend.cpp:81-83 | That common width, case by case of how the two extents lie |
| `BandOrder.SortBand` | cpp/reading_order/docling_like_reading_order_backend.cpp:527-626 | The order is a permutation, obeys the geometry of the band, is the sort of the band's one constraint graph, and the trace holds its edge counts and its breaks, all of low confidence |
| `BandOrder.OrderBand` | cpp/reading_order/docling_like_reading_order_backend.cpp:492-627 | The same for the positions handed in, for whatever columns inference proposes, with one placement per block appended to the trace, under its own id, number and located columns |
| `BandDivision.SpansAllColumns` | cpp/reading_order/docling_like_reading_order_backend.cpp:629-637 | A block is a separator exactly when there are several columns, it reaches from the first to the last and is wide enough |
| `ReadingGeometry.SeparatorExactlyWhen` | cpp/reading_order/docling_like_reading_order_backend.cpp:629-637 | In the coordinates of the page: a separator matches the first and the last of at least two columns and is at least 55 hundredths of the width between them |
| `BandDivision.SortByPosition` | cpp/reading_order/docling_like_reading_order_backend.cpp:122-135 | The same elements in strictly rising page position |
| `ReadingGeometry.PageOrderReadsDown` | cpp/reading_order/docling_like_reading_order_backend.cpp:122-135 | In the coordinates of the page: the top edges go down, and at equal height the left edges go right, then by layout index |
| `GroupOrder.CollectBand` | cpp/reading_order/docling_like_reading_order_backend.cpp:675-684 | The k-th scan collects, in order, exactly the elements whose first separator below is the k-th, the last scan those with none below, and has then consumed exactly the elements of the bands so far |
| `BandDivision.GroupIsPermuted` | cpp/reading_order/docling_like_reading_order_backend.cpp:664-706 | Bands and separators together hold each element of the group exactly once |
| `BandDivision.SeparatorsDivideGroup` | cpp/reading_order/docling_like_reading_order_backend.cpp:675-706 | Separators come in page order, and any other element comes before a separator if and only if its centre is above it or above an earlier one |
| `BandDivision.FirstSeparatorBelow` | cpp/reading_order/docling_like_reading_order_backend.cpp:675-684 | Which band an element falls into, told by the separators above and below it alone |
| `GroupOrder.PredictGroupOrder` | cpp/reading_order/docling_like_reading_order_backend.cpp:639-707 | The group is a permutation made of sorted separators and of bands ordered as above; the trace records them band after band with rising numbers, each band with its placements, edge counts and breaks, and only weak edges are broken |
| `GroupTrace.GroupPlacedOnce` | cpp/reading_order/docling_like_reading_order_backend.cpp:639-707 | Ordering a group adds exactly one placement for each of its elements; band numbers never fall and stay in the range the group took |
| `BodyOrder.FindTarget` | cpp/reading_order/docling_like_reading_order_backend.cpp:715-732 | An element has a target exactly when it is a caption of the first block with that id, another one that is a figure or table |
| `BodyOrder.CollectCaptions` | cpp/reading_order/docling_like_reading_order_backend.cpp:715-742 | Each element is either a root or in the caption list of its one target, the lists ascending and the roots in order |
| `BodyOrder.AppendCaptions` | cpp/reading_order/docling_like_reading_order_backend.cpp:758-765 | Each caption repeats its target's placement under its own id with the target as parent, and is counted |
| `BodyOrder.BodyIsPermutation` | cpp/reading_order/docling_like_reading_order_backend.cpp:733-767 | Roots and captions together hold each body element exactly once |
| `BodyOrder.CaptionsFollowTheirTargets` | cpp/reading_order/docling_like_reading_order_backend.cpp:748-767 | All captions of a figure or table, and nothing else, stand directly behind it in page position |
| `BodyOrder.PlacementsById` | cpp/reading_order/docling_like_reading_order_backend.cpp:746-750 | The lookup gives the first placement recorded for an id |
| `BodyOrder.InsertCaptions` | cpp/reading_order/docling_like_reading_order_backend.cpp:751-767 | Each root is followed by its captions, whose placements copy the root's first one under their own ids; nothing else in the trace changes but the count of captions |
| `BodyOrder.BodyPlacedOnce` | cpp/reading_order/docling_like_reading_order_backend.cpp:709-768 | Ordering the body adds exactly one placement for each element, captions included |
| `BodyOrder.BodyGroups` | cpp/reading_order/docling_like_reading_order_backend.cpp:743-765 | Everything the body adds to the trace is recorded under "body" if and only if no caption's target shares its id with a header placed before |
| `BodyOrder.OrderBody` | cpp/reading_order/docling_like_reading_order_backend.cpp:709-768 | The body's order is a permutation: the roots ordered as a group of their own, each followed by its captions; the placement lookup never fails |
| `PageOrder.CollectElements` | cpp/reading_order/docling_like_reading_order_backend.cpp:783-800 | All blocks of one part of the page and no others, told by their kinds: headers, footers, or neither; in layout order |
| `PageOrder.AppendItems` | cpp/reading_order/docling_like_reading_order_backend.cpp:770-781 | Items carry consecutive sequence numbers and the ids of the blocks they index |
| `PageOrder.PageIsPermutation` | cpp/reading_order/docling_like_reading_order_backend.cpp:814-836 | The page lists each layout block exactly once; every block of kind Header precedes all others, and every block of kind Footer follows all others |
| `PageOrder.PartsPlacedOnce` | cpp/reading_order/docling_like_reading_order_backend.cpp:822-834 | The trace of headers, body and footers places each of their elements exactly once |
| `PageOrder.GroupsFitExactlyWhen` | cpp/reading_order/docling_like_reading_order_backend.cpp:743-765 | Every placement says "header", "footer" or "body" as its block's kind does if and only if no caption in the body has a target whose id is also the id of a header |
| `PageOrder.PlacementShowsKind` | cpp/reading_order/docling_like_reading_order_backend.cpp:818-834 | With distinct ids, then, a block's placement says "header" exactly for a header, "footer" exactly for a footer, and else "body" |
| `PageOrder.SharedNameMisleads` | cpp/reading_order/docling_like_reading_order_backend.cpp:746-762 | A page of three blocks on which a caption is recorded among the headers |
| `PageOrder.OrderBlocks` | cpp/reading_order/docling_like_reading_order_backend.cpp:814-836 | The items are the page order, and the trace is that of the runs that gave it: one placement for each block of the page, under the group of its kind exactly when no caption's figure or table shares its id with a header |
| `PageOrder.Order` | cpp/reading_order/docling_like_reading_order_backend.cpp:804-837 | No answer if and only if some coordinate is not finite; otherwise the page order above by the kinds of the blocks, numbered from zero, with only weak edges broken, one placement in the trace for each block, and groups as above |
| `RunProjection.ProjectReflects` | platform/api/app/database.py:199-229 | One more delivery, old or new, keeps the row on the newest state event delivered so far: Succeeded, Failed or Cancelled exactly for job_succeeded, job_failed and job_cancelled, and Running for any other |
| `RunProjection.DeliveryDecides` | platform/api/app/projector.py:21-31 | What one delivery does: configured and warning events, other attempts, events that are not newer and those behind a different final outcome change nothing; any other is shown, with its sequence and execution, and never touches the cancellation fields |
| `RunProjection.DetailsAreReported` | platform/api/app/database.py:210-217 | The stage and the error a row shows were reported by events of the execution it shows, and a cancelled row shows no error |
| `RunProjection.ProjectionIsOrderInsensitive` | platform/api/app/projector.py:115-179 | After any list of deliveries, in any order and with repetitions, the row shows sequence, execution and outcome of the newest state event delivered; configured and warning events leave no mark |
| `RunProjection.ProjectionConverges` | platform/api/app/projector.py:152-179 | Two lists that deliver the same events end with the same sequence and status |
| `RunProjection.TerminalStatusIsFinal` | platform/api/app/database.py:219-220 | A terminal status survives every further event, even one out of order |
| `RedisJobStore.Store.ScanPage` | platform/worker/redis_job_scripts.h:10-22 | One page of the scan passes only entries that are busy or still leased, and stops at the first that may be claimed |
| `RedisJobStore.Store.Reclaim` | platform/worker/redis_job_scripts.h:7-23 | A claim is the claim transition on that message alone and comes after the cursor; every entry passed over was busy or leased; without a claim nothing changes and the cursor moves on |
| `RedisJobStore.Store.PagesJoin` | platform/worker/redis_job_scripts.h:10-22 | Scans that go on from each other's cursor leave no entry between their pages unseen |
| `RedisJobStore.Store.Acquire` | platform/worker/redis_job_scripts.h:25-51 | The acquisition transition on that message alone: refused unless pending with this consumer and unleased, acknowledged when already finished, else a new generation that resumes behind the last event |
| `RedisJobStore.Store.Renew` | platform/worker/redis_job_scripts.h:53-61 | The renewal transition on that message alone; what a renewal achieves is stated under `JobGuarantees` |
| `RedisJobStore.Store.Publish` | platform/worker/redis_client.cpp:326-366 | The publication transition on that message alone: fence, order and cancellation first, then event, cached state and, for a terminal event, acknowledgement and deletion |
| `RedisJobStore.Store.RequestCancellation` | platform/api/app/cancellation.py:12-19 | The cancellation transition on that message alone: a marker, unless the cached run is over |
| `JobProtocol.WorkerStepKeepsInv` | platform/worker/main.cpp:327-447 | Every worker step keeps the protocol invariant: reading, claiming, acquiring, renewing, starting, publishing, giving up or crashing, with the reply seen, lost, or the command never applied |
| `JobProtocol.ServiceStepKeepsInv` | platform/api/app/database.py:149-229 | Every service step keeps it: requests, the three stages of delivery and of cleanup of the marker, time-outs, projection |
| `JobProtocol.RunKeepsInv` | platform/worker/main.cpp:327-447 | Hence the invariant holds after every interleaving of any length |
| `JobProtocol.PublishedKeeps` | platform/worker/redis_client.cpp:337-364 | The publication script accepted an event: sequences, generations, terminal-last, cached state and the workers' own counters still agree |
| `JobProtocol.AcquireKeeps` | platform/worker/redis_job_scripts.h:25-51 | After an acquisition, generations are exactly the acquisitions so far although the hash is deleted at the end |
| `JobGuarantees.EveryLogIsOrderly` | platform/worker/redis_client.cpp:337-364 | In every reachable state sequences strictly rise, generations never fall, and at most one terminal event exists, at the end |
| `JobGuarantees.LogOnlyGrows` | platform/worker/redis_client.cpp:352-364 | Published events are never taken back, and a finished log never changes again |
| `JobGuarantees.AcquisitionsAreFresh` | platform/worker/redis_job_scripts.h:30-50 | Every acquisition gets a generation no earlier one had, a sequence behind all events, and never on a finished job |
| `JobGuarantees.SupersededWorkerIsInert` | platform/worker/redis_client.cpp:335-347 | A worker whose generation was superseded or whose lease ran out changes nothing in Redis any more |
| `JobGuarantees.LostLeaseStaysLost` | platform/worker/worker_job_lease.cpp:21-39 | A lease that does not hold never holds again, however often anybody renews |
| `JobGuarantees.RenewalHolds` | platform/worker/redis_job_scripts.h:53-61 | After a renewal that answered yes the lease holds, for that generation and consumer, until the whole duration has passed |
| `JobGuarantees.GrantHolds` | platform/worker/redis_job_scripts.h:38-50 | The same after an acquisition |
| `JobGuarantees.LeaseExcludes` | platform/worker/redis_job_scripts.h:7-31 | While a lease holds, nobody's claim and nobody's acquisition succeeds |
| `JobGuarantees.RenewingWorkerIsNeverSuperseded` | platform/worker/worker_job_lease.cpp:21-39 | Over every run: a worker whose renewals come before each deadline keeps message, generation and lease until the job is finished, whatever the others do |
| `JobGuarantees.ProcessorStartsAreBounded` | platform/worker/main.cpp:411-422 | However often the job is redelivered, the processor starts at most the configured number of times, each time in a generation announced by job_started |
| `JobGuarantees.OutcomesAreHonest` | platform/worker/main.cpp:411-445 | A fenced job_succeeded comes from an execution that was allowed to run, a job_cancelled only after a request |
| `JobGuarantees.OnlyCancellationFollowsTheMarker` | platform/worker/redis_client.cpp:348-350 | Once the marker is set on an open job, nothing but one job_cancelled is ever published |
| `JobGuarantees.DeliveredRequestIsBinding` | platform/api/app/database.py:158-173 | A durable, delivered request on an open job can only end in job_cancelled |
| `JobGuarantees.CleanedMarkerStaysAway` | platform/api/app/cancellation.py:12-19 | A cleaned marker is not set again, not even by a delivery that arrives late, as long as the cached run lasts |
| `JobGuarantees.DurableOutcomeIsFinal` | platform/api/app/database.py:199-229 | A terminal row is Succeeded, Failed or Cancelled exactly as the last event ever published is job_succeeded, job_failed or job_cancelled, and stays so |
| `JobGuarantees.CachedOutcomeIsTrue` | platform/worker/redis_client.cpp:352-364 | In every reachable state the cached status is final exactly when the log is, and then names the outcome of its last event |
| `JobGuarantees.EveryJobCanFinish` | platform/worker/main.cpp:327-447 | No reachable state is stuck: one spare worker can bring the job to its end with five steps |
| `JobProgress.EveryJobCanSucceed` | platform/worker/main.cpp:409-441 | An open job without a cancellation marker, acquired less often than allowed, can still succeed from any reachable state: a spare worker takes the next generation, publishes job_started, starts the processor once and publishes job_succeeded |
| `JobProgress.WorkEndsExactlyWhen` | platform/worker/main.cpp:424-445 | A worker stops working on its lease exactly by crashing, giving up, or reporting the end without being answered with a cancellation; a lost progress event never stops it |
| `JobProgress.RequestIsDelivered` | platform/api/app/database.py:149-173 | A request on an open, unlocked row is taken and delivered by its transaction: the marker is set unless the cached run is over, and nothing else changes |
| `JobProgress.LateRequestIsDelivered` | platform/api/app/database.py:158-173 | A request whose run ended first counts as delivered without touching Redis |
| `JobProgress.MarkerIsCleaned` | platform/api/app/database.py:175-191 | Once the outcome is durable, cleanup removes the marker and records it |
| `JobProgress.LockedRowIsStable` | platform/api/app/database.py:158-191 | While a cancellation transaction holds the row, only its own commit changes the row |
| `JobProgress.RequestsAreInOrder` | platform/api/app/database.py:149-191 | On every run a request is made before it is delivered and delivered before it is cleaned up |
| `JobProgress.RequestsComeInTime` | platform/api/app/database.py:149-156 | A request is never withdrawn, and a run that ended without one gets none any more |
| `JobQueue.FloorIsLeastBound` | platform/api/app/dispatcher.py:33-45 | The trim floor is the bound of some group and below the bound of every group |
| `JobQueue.TrimKeepsNeeded` | platform/api/app/dispatcher.py:33-47 | Trimming never removes an entry some group has pending or has not been given |
| `JobQueue.TrimIsTight` | platform/api/app/dispatcher.py:33-47 | And nothing below every group's bound stays |
| `JobQueue.EnqueueKeepsValid` | platform/api/app/dispatcher.py:25-53 | The script keeps identifiers rising, pending entries stored, and a stream within its limit within its limit |
| `JobQueue.Stream.TrimFloor` | platform/api/app/dispatcher.py:34-45 | The loop over the groups computes that floor |
| `JobQueue.Stream.Enqueue` | platform/api/app/dispatcher.py:17-54 | The script is the enqueue transition: the marker's answer if there is one, else trim, refuse when full, else append and mark |
| `Dispatch.RunKeepsInv` | platform/api/app/dispatcher.py:74-85 | The stream holds what was appended and not trimmed, nothing trimmed is missing to a group that was there in time, and markers, rows and open transactions are true, over every interleaving of transactions, scripts however late, crashes, lost replies, consumer groups and marker cleanups |
| `Dispatch.EachJobIsQueuedOnce` | platform/api/app/database.py:116-132 | On every run the stream stays within its limit and every job marked or committed as published was appended; and each job is appended at most once as long as no late script queues one again |
| `Dispatch.NoEntryIsLost` | platform/api/app/dispatcher.py:33-47 | On every run an entry that a group which was there in time has pending or has not been given is still stored |
| `Dispatch.StoredWhileNeeded` | platform/api/app/dispatcher.py:33-47 | For any group, in time or late: an entry that is stored now is still stored after any further steps if the group then still needs it |
| `DispatchProgress.RowIsPublishedExactlyWhen` | platform/api/app/database.py:116-132 | A transaction on a pending row publishes it if and only if the job has a marker or the stream, once trimmed, has room; without a marker it adds exactly the one entry |
| `DispatchProgress.GroupCatchesUp` | platform/worker/redis_client.cpp:193-217 | A group that reads on is given every stored entry it has not had, each once and oldest first, and nothing else |
| `DispatchProgress.CleanedExactlyWhenPublished` | platform/api/app/dispatcher.py:83-85 | Only the marker of a job committed as published is removed and recorded |
| `Dispatch.FirstGroupIsInTime` | platform/api/app/dispatcher.py:33-47 | The first consumer group is in time, whatever happened before |
| `Dispatch.NewGroupMissesExactlyWhenTrimmed` | platform/worker/redis_client.cpp:184-191 | A new consumer group misses an entry if and only if the stream holds fewer entries than were ever added |
| `Dispatch.LateGroupMissesAJob` | platform/worker/redis_client.cpp:184-191 | A concrete run: the first group acknowledges a job, the next enqueue trims it, and a second group never gets it |
| `Dispatch.DuplicatesExactlyWhenStale` | platform/api/app/dispatcher.py:25-53 | A run appends some job twice if and only if, at some step of it, a script sent by a transaction that is over runs when the marker is already cleaned and the stream has room |
| `Dispatch.LateScriptQueuesTwice` | platform/api/app/dispatcher.py:61-67 | A concrete run that does so: the first script times out in the client, the retry commits and is cleaned up, then the first script reaches Redis |
| `ArtifactDirectory.RunDirectory.RemoveEntry` | platform/api/app/artifact_storage.py:118-127 | Each operation unlinks one file of the entry, and none of another, until none is left or the operations run out |
| `ArtifactDirectory.RunDirectory.RemoveGeneratedEntries` | platform/api/app/artifact_storage.py:105-128 | The marker precedes every removal, entries go in order, kept files stay, and the removal is complete if and only if it had more operations than generated files |
| `Retention.NextKeepsInv` | platform/api/app/retention.py:28-57 | Every step of workers, downloads and cleaners keeps the invariant, including stopping anywhere and commits that take effect late or never |
| `Retention.RunKeepsInv` | platform/api/app/retention.py:28-57 | Hence it holds after every interleaving |
| `Retention.SharedLockProtects` | platform/api/app/artifact_storage.py:68-102 | While a worker or a download holds the directory nothing is removed or marked, and expiry is not recorded except by a commit of a cleaner that is already gone |
| `Retention.InsideSeesEverything` | platform/api/app/main.py:391-406 | A reader or worker past its checks keeps its place and sees every file until it leaves, whatever the others do |
| `Retention.AccessIsSafe` | platform/worker/run_artifact_lock.cpp:13-51 | From any start, nothing was removed before a worker or reader got in, and nothing is removed before it leaves |
| `Retention.WorkerGetsInExactlyWhen` | platform/worker/run_artifact_lock.cpp:13-46 | A worker gets in if and only if no cleaner is at work and the directory is not marked |
| `Retention.ReaderGetsInExactlyWhen` | platform/api/app/main.py:391-406 | A download gets in if and only if besides that the row is not expired |
| `Retention.SelectedExactlyWhen` | platform/api/app/retention.py:17-36 | A cleaner takes up exactly a finished, not yet cleaned run that is old or already expired and whose row nobody holds |
| `Retention.RowLockHolds` | platform/api/app/retention.py:34-52 | While somebody holds the row or an expiry is on its way, no other commit changes what is recorded |
| `Retention.RemovalIsRecorded` | platform/api/app/retention.py:45-52 | Removal starts only after expiry is durable and marked, takes generated files only, and stays due until it is recorded |
| `Retention.CleanedForGood` | platform/api/app/retention.py:51-52 | A recorded cleanup is complete and final |
| `Retention.CleanupCanComplete` | platform/api/app/retention.py:28-57 | From any reachable state an eligible run can still be cleaned: everybody lets go, a commit in flight is rolled back, and one cleaner does it |
| `TextGeometry.RowWiseKeepsLines` | cpp/layout/layout_postprocessing.cpp:160-183 | Row-wise sorting keeps every line as often as it was there |
| `TextGeometry.RowWiseIsInRows` | cpp/layout/layout_postprocessing.cpp:160-183 | The result consists of rows: each holds the lines within the tolerance of its first line's top, from left to right, and the rows come from top to bottom |
| `TextGeometry.SortRowWise` | cpp/layout/layout_postprocessing.cpp:160-183 | Sorting by position and then row after row, as the loop does it, computes that order |
| `PageGeometry.MedianIsMiddle` | cpp/layout/layout_postprocessing.cpp:71-83 | At least half of the values are not above the median and at least half are not below it; it is the middle value, or midway between the two in the middle |
| `PageGeometry.MedianLineHeight` | cpp/layout/layout_postprocessing.cpp:535-545 | The loop takes the median over the visible lines with a height |
| `PageGeometry.MedianLineHeightIsPositive` | cpp/layout/layout_postprocessing.cpp:535-545 | It is positive exactly when some line shows text and has a height |
| `LineGroups.NearestIsNearest` | cpp/layout/layout_postprocessing.cpp:185-222 | The group a line joins is the first nearest of those it may join; it starts its own exactly when it may join none |
| `LineGroups.PlacedLines` | cpp/layout/layout_postprocessing.cpp:185-222 | Placing the lines one by one loses none and doubles none |
| `LineGroups.GroupFallbackLines` | cpp/layout/layout_postprocessing.cpp:185-222 | Each given line is in one group, placed in position order; before the last sort each line behind the first of its group may join the line placed directly before it; each group reads in rows and its box is the hull of its lines |
| `LineGroups.PlacedIsChained` | cpp/layout/layout_postprocessing.cpp:194-218 | The last box of a group is that of its last line, and each line behind the first may join the one placed directly before it |
| `LayoutMeasures.JoinsExactlyWhen` | cpp/layout/layout_postprocessing.cpp:116-141 | Two lines join exactly when both have a height and the second lies beside the first, half in its row and at most three quarters of a height away, or below it, within 1.6 heights and with enough of its width or indentation; by their edges alone |
| `GridGeometry.AlignedClusterCount` | cpp/layout/layout_postprocessing.cpp:353-377 | The two loops count the clusters of at least two sorted values around a running mean |
| `GridGeometry.ClusterIsNearItsMean` | cpp/layout/layout_postprocessing.cpp:362-373 | A cluster goes on exactly as long as each value lies within the tolerance of the mean of the cluster so far |
| `GridGeometry.AlignedInAnyOrder` | cpp/layout/layout_postprocessing.cpp:353-377 | Whether groups are aligned does not depend on the order in which they are listed |
| `GridGeometry.PageGridRulesAreSymmetric` | cpp/layout/layout_postprocessing.cpp:423-432 | With the source's thresholds neighbourhood goes both ways between groups with proper boxes |
| `LayoutMeasures.NeighboursExactlyWhen` | cpp/layout/layout_postprocessing.cpp:423-432 | Neighbours by their edges alone: in one row or in one column, and not too far apart |
| `LayoutMeasures.AbsorbedExactlyWhen` | cpp/layout/layout_postprocessing.cpp:461-474 | Which other groups a grid draws in: plain ones of at most four lines, not too high, whose centre lies within two line heights of its box |
| `LayoutMeasures.CandidateExactlyWhen` | cpp/layout/layout_postprocessing.cpp:394-403 | Which groups may be cells of a grid |
| `GridSearch.Component` | cpp/layout/layout_postprocessing.cpp:411-437 | From one unvisited candidate exactly what neighbours reach is collected and marked, nothing visited before and nothing else |
| `GridSearch.PartIsComponent` | cpp/layout/layout_postprocessing.cpp:408-443 | What is collected is a connected component of the candidates: closed under neighbourhood, with no smaller closed part |
| `GridSearch.SelectGrid` | cpp/layout/layout_postprocessing.cpp:391-453 | Nothing is selected if and only if no connected component is large and aligned enough; otherwise such a component, before every other one |
| `GridSearch.EarliestIsUnique` | cpp/layout/layout_postprocessing.cpp:410-450 | That leaves no choice but the order of the members |
| `GridMerge.MergeFlags` | cpp/layout/layout_postprocessing.cpp:455-475 | Merged are the selected groups and exactly the small plain groups around the selected groups' common box |
| `GridMerge.MergeChosen` | cpp/layout/layout_postprocessing.cpp:477-486 | The merged group has all their lines in rows from top to bottom and their hull as its box |
| `GridMerge.ReducedLines` | cpp/layout/layout_postprocessing.cpp:488-499 | Putting the merged group in place of the chosen ones loses no line and doubles none |
| `GridMerge.ReducedDescends` | cpp/layout/layout_postprocessing.cpp:488-499 | Every group that is not merged survives unchanged and in order, and every other one went whole into the merged group |
| `GridMerge.MergeGrid` | cpp/layout/layout_postprocessing.cpp:455-499 | One round keeps lines, boxes and rows, and takes at least five groups away |
| `GridMerge.CoalesceDenseGridGroups` | cpp/layout/layout_postprocessing.cpp:379-502 | The endless loop ends; lines and rows are kept, unmerged groups survive unchanged and in order, the counter adds up, no grid is left, and a list without a grid is left alone, so that a second pass changes nothing |
| `LineColumns.BestIsBest` | cpp/layout/layout_postprocessing.cpp:914-925 | The column a line joins is the first it overlaps most, by at least half |
| `LayoutMeasures.GatheredFromTheLeft` | cpp/layout/layout_postprocessing.cpp:892-904 | Lines are shared out from left to right by their centres, downwards where these agree |
| `LayoutMeasures.ColumnRulesSay` | cpp/layout/layout_postprocessing.cpp:909-919 | How much of a line lies in a column, and which line is too wide for columns, by their edges alone |
| `LineColumns.GatheredLines` | cpp/layout/layout_postprocessing.cpp:906-938 | The columns share out all the lines |
| `LineColumns.DetectedColumnsShareLines` | cpp/layout/layout_postprocessing.cpp:874-968 | Either no columns, or two to four of at least two lines each, from left to right, each box the hull of its lines, with gutters wider than three quarters of the line height and enough vertical overlap between neighbours, that share out the block's lines |
| `LineColumns.GuttersSeparate` | cpp/layout/layout_postprocessing.cpp:949-966 | Gutters between neighbours put every column strictly left of every later one |
| `LineColumns.DetectLineColumns` | cpp/layout/layout_postprocessing.cpp:874-968 | The loops compute those columns |
| `LineColumns.RefinedKeepsLines` | cpp/layout/layout_postprocessing.cpp:1025-1074 | Rereading a block changes nothing but the order of its lines |
| `LineColumns.RefinedWhen` | cpp/layout/layout_postprocessing.cpp:1028-1066 | A block is reread exactly when it is a text block, no merged grid, of at least four proper lines that fall into columns; the median height then is never the obstacle |
| `LineColumns.RefinedReadsInColumns` | cpp/layout/layout_postprocessing.cpp:1057-1068 | In a block that changes, of any two lines the later one is further down in its column or strictly to the right of the earlier one |
| `LineColumns.StatsAreHonest` | cpp/layout/layout_postprocessing.cpp:1068-1071 | No block counts as reordered if and only if nothing changed, and otherwise the largest number of columns is between two and four |
| `LineColumns.RefineMultiColumnTextLineOrder` | cpp/layout/layout_postprocessing.cpp:1025-1074 | Every block is reread so, the page owns the same lines as often as before, and the statistics are those of the blocks |
| `LineRecovery.FindRecoverable` | cpp/layout/layout_postprocessing.cpp:1106-1136 | Exactly the lines nobody owns that are visible, in a proper box, off the furniture and not marginal |
| `LineRecovery.RecoverableLines` | cpp/layout/layout_postprocessing.cpp:1115-1136 | That list, characterised line by line, without repetition |
| `LayoutMeasures.FurnitureExactlyWhen` | cpp/layout/layout_postprocessing.cpp:20-69 | A line lies on the furniture exactly when a header or footer covers a tenth of it or its centre |
| `LineRecovery.FormGroups` | cpp/layout/layout_postprocessing.cpp:1138-1143 | The recoverable lines are grouped and their grids merged: each line in one group, in rows, inside the group's hull, no grid left |
| `LineRecovery.RecoveryLeavesNoGrid` | cpp/layout/layout_postprocessing.cpp:379-502 | With the page's own median height the merging is never skipped while there is something to merge |
| `LineRecovery.LowestIsLowest` | cpp/layout/layout_postprocessing.cpp:716-742 | The attachment target is the first among the lowest-scoring blocks that take the group, and there is none exactly when no block takes it |
| `LayoutMeasures.AttachableExactlyWhen` | cpp/layout/layout_postprocessing.cpp:700-716 | Which groups may be attached: low and wide ones whose text allows it, with no figure or table stacked close to them |
| `LayoutMeasures.TakesExactlyWhen` | cpp/layout/layout_postprocessing.cpp:720-736 | Which blocks take a group: text blocks with lines, stacked close to it with six tenths of the narrower width in common; a title takes no list item |
| `LayoutMeasures.ScoreWeighs` | cpp/layout/layout_postprocessing.cpp:737 | A block one step further away scores like one whose left edge is twenty steps further off |
| `LineRecovery.AttachmentKeeps` | cpp/layout/layout_postprocessing.cpp:1187-1205 | Attaching small groups loses no line and doubles none; blocks keep their lines and only grow |
| `LineRecovery.FallbackIdIsInjective` | cpp/layout/layout_postprocessing.cpp:1160-1162 | Different first lines give different fallback ids |
| `LineRecovery.FallbackIdsDiffer` | cpp/layout/layout_postprocessing.cpp:1157-1178 | Fallback blocks that share no line have different ids |
| `LineRecovery.AppendGroups` | cpp/layout/layout_postprocessing.cpp:1157-1178 | One block per group, named after its least line, of the given kind, label, box and lines, behind the others |
| `LineRecovery.RecoverUnassignedTextLines` | cpp/layout/layout_postprocessing.cpp:1101-1212 | The page owns what it owned plus each recoverable line once; old blocks only grow, new ones are fallback blocks with distinct ids, and the statistics count exactly the recovered lines and new blocks |
| `LineRecovery.RecoveredLineIsInExactlyOneBlock` | cpp/layout/layout_postprocessing.cpp:1101-1212 | A recovered line is in exactly one block; how often any other line occurs has not changed |
| `PageStructure.TableBlocks` | cpp/pipeline/page_structure.cpp:95-105 | Each table block belongs to the first table that names it |
| `PageStructure.Decide` | cpp/pipeline/page_structure.cpp:110-129 | A figure merges if and only if exactly one table covers the same region with the same lines |
| `PageStructure.SameOwnershipLimitsTheRest` | cpp/pipeline/page_structure.cpp:48-60 | Same lines: neither is empty, and of either at most a fifth is not the other's |
| `LayoutMeasures.SameRegionExactlyWhen` | cpp/pipeline/page_structure.cpp:26-34 | Same region: the common area is at least half of all the two cover |
| `PageStructure.ApplyMerges` | cpp/pipeline/page_structure.cpp:130-152 | A table's lines become the union of its own and its figures', in order, in the smallest box around them; other blocks stay as they were |
| `PageStructure.MergedOwns` | cpp/pipeline/page_structure.cpp:130-141 | A merged table owns a line if and only if it or one of its figures did |
| `PageStructure.MergingKeepsOwnership` | cpp/pipeline/page_structure.cpp:130-172 | The resolved page owns a line if and only if the page owned it before, and a line that was in one block, once, is in one block, once |
| `PageStructure.ReferencesFollowMerges` | cpp/pipeline/page_structure.cpp:145-164 | With distinct ids no reference to a removed figure remains: it names the table the figure went into, and every other reference is as it was |
| `PageStructure.MergedTablesShowLines` | cpp/pipeline/page_structure.cpp:144-158 | A table that received a figure shows its source lines |
| `PageStructure.ResolvePageStructure` | cpp/pipeline/page_structure.cpp:92-174 | The whole pass: decided merges carried out, no line lost and none doubled, references right, and a table shows its source lines if and only if it did before, received a figure, or its cells lose text |
| `TableStage.AttachDetectedTables` | cpp/pipeline/table_recognition_stage.cpp:28-53 | Every table ends up naming a block of the page, new blocks own exactly the covered lines, and two tables never share a block unless a page id already looked like a new one |
| `TableStage.CoveredAscends` | cpp/pipeline/table_recognition_stage.cpp:43-47 | A new table block owns exactly the lines it covers, in ascending order |
| `TableStage.AddedIdsDiffer` | cpp/pipeline/table_recognition_stage.cpp:38-51 | The blocks added for tables have different ids |
| `TableStage.RecognizePage` | cpp/pipeline/table_recognition_stage.cpp:129-168 | The three passes composed under the source's thresholds: the resolved page owns what layout and tables owned and every recoverable line, and nothing else; each recovered line ends in exactly one block |
| `TableStage.NoVisibleLineIsLost` | cpp/pipeline/table_recognition_stage.cpp:129-168 | A visible line in a proper box is lost only when a tenth of it or its centre lies on a header or footer, or in marginal numbering |
| `Sha256Standard.ConstantsComeFromPrimes` | cpp/common/file_fingerprint.cpp:13-22 | Each round constant is the fraction of a prime's cube root and each initial word of its square root (sections 4.2.2 and 5.3.3 of FIPS 180-4) |
| `StreamingSha256.Sha256State.Transform` | cpp/common/file_fingerprint.cpp:66-115 | Expanding and compressing the buffered block is one step of the compression function, with sums in another order than the standard writes them |
| `StreamingSha256.Sha256State.Update` | cpp/common/file_fingerprint.cpp:28-41 | However the data is portioned, the state stands for the concatenation of all of it |
| `StreamingSha256.Sha256State.CloseMessage` | cpp/common/file_fingerprint.cpp:45-50 | The end mark, and a block of its own when the length no longer fits |
| `StreamingSha256.Sha256State.FinishBlocks` | cpp/common/file_fingerprint.cpp:43-55 | The blocks compressed are exactly the padded message |
| `StreamingSha256.Sha256State.Finish` | cpp/common/file_fingerprint.cpp:43-63 | The text is the digest of everything taken in, in lower-case hexadecimal |
| `StreamingSha256.Fingerprint` | cpp/common/file_fingerprint.cpp:134-159 | However a file is read, its fingerprint is SHA-256 and the size of its contents |
| `DigestText.ValidDigestExactlyWhen` | cpp/export/json_document_exporter.cpp:560-568 | The exporter accepts no digest, or the 64 hexadecimal digits of a number of 256 bits, and nothing else |
| `DigestText.HexOfIsInjective` | cpp/common/file_fingerprint.cpp:57-62 | Different digests have different texts |
| `Resp.Connection.ReadLine` | platform/worker/redis_client.cpp:98-113 | However recv cuts the stream, the line returned is the one at the head of the whole stream, and the rest stays |
| `Resp.Connection.ReadExact` | platform/worker/redis_client.cpp:115-127 | The same for a fixed number of bytes |
| `Resp.Connection.ReadValue` | platform/worker/redis_client.cpp:129-165 | Exactly one value is consumed, as the whole stream spells it; a stream that ends inside a value and a malformed one are told apart |
| `Resp.EncodeCommand` | platform/worker/redis_client.cpp:34-40 | Appending argument after argument gives the array of bulk strings |
| `Resp.CommandReadBack` | platform/worker/redis_client.cpp:34-40 | Reading undoes encoding for arguments of arbitrary bytes, line ends included, and leaves what follows (sections "Bulk strings" and "Arrays" of the Redis serialization protocol specification) |
| `Resp.ArgumentReadBack` | platform/worker/redis_client.cpp:140-149 | One bulk string is read back by its announced length alone |
| `Resp.ParseIgnoresWhatFollows` | platform/worker/redis_client.cpp:129-165 | What the reader decides about a prefix of the stream, a value or an error, stays decided whatever follows, and what follows is left |
| `Resp.ValueReadBack` | platform/worker/redis_client.cpp:129-165 | Every reply a server can spell is read back as the value spelled: null, text of any bytes, signed numbers, errors, and nested lists |
| `Resp.TruncatedNeedsMore` | platform/worker/redis_client.cpp:98-127 | A reply cut short anywhere is neither another reply nor an error of the protocol |
| `Resp.NegativeLengthIsNull` | platform/worker/redis_client.cpp:139-158 | A negative length or count is a null reply, whatever follows |
| `Resp.LooseNumber` | platform/worker/redis_client.cpp:136-141 | Leading white space, a plus sign and what stands behind the digits do not matter to a number; its range does |
| `Resp.ReadBack` | platform/worker/redis_client.cpp:129-182 | A client that receives an encoded command in any pieces gets the arguments |
| `WarningAggregation.AggregateWarnings` | cpp/document/warning_aggregator.cpp:44-72 | The loop computes one entry per identity, in the order first seen |
| `WarningAggregation.EntriesAreDistinct` | cpp/document/warning_aggregator.cpp:46-57 | No identity appears twice, and exactly the given ones appear |
| `WarningAggregation.AggregateSays` | cpp/document/warning_aggregator.cpp:24-42 | An entry's pages are its identity's pages once each as first seen, and its count is the saturated sum |
| `FirstSeen.UnionIsInOrder` | cpp/document/warning_aggregator.cpp:24-42 | What a list gains from another comes behind it, in the order first seen there; so the pages of an entry |
| `WarningAggregation.SplitDoesNotMatter` | cpp/document/warning_aggregator.cpp:44-72 | Aggregating two aggregates is aggregating everything at once |
| `WarningAggregation.AggregationIsIdempotent` | cpp/document/warning_aggregator.cpp:44-72 | Aggregating again changes nothing |
| `VerticalCoverage.Sweep` | cpp/pipeline/text_quality.cpp:39-52 | The sweep returns the total length of disjoint intervals that cover exactly the points the given intervals cover |
| `VerticalCoverage.PartsAreUnique` | cpp/pipeline/text_quality.cpp:39-52 | A set of points has only one decomposition into separated intervals, so that length is a measure |
| `VerticalCoverage.Coverage` | cpp/pipeline/text_quality.cpp:22-54 | The result is the measure of the union of the clamped lines over the page height, and 0 for a page without height |
| `VerticalCoverage.CoverageDependsOnPoints` | cpp/pipeline/text_quality.cpp:22-54 | Order and repetition of lines do not matter, only the points covered |
| `VerticalCoverage.CoverageIsAShare` | cpp/pipeline/text_quality.cpp:22-54 | The result lies between 0 and 1 |
| `EngineCache.RecencyIsByLastUse` | platform/worker/document_engine_cache.cpp:64-96 | The recency list holds each key looked up once, by last use |
| `EngineCache.RecencyAfterHit` | platform/worker/document_engine_cache.cpp:66-73 | Moving a hit to the front gives the latest keys again |
| `EngineCache.RecencyAfterMiss` | platform/worker/document_engine_cache.cpp:87-95 | So does inserting a miss and dropping the last when full |
| `EngineCache.Cache.Get` | platform/worker/document_engine_cache.cpp:64-96 | The cache holds exactly the latest successfully looked-up keys up to its capacity; a failed creation neither inserts nor evicts, the engine returned is the front entry's, and no other entry changes its engine |
| `PageImageCache.Cache.AdmitRendered` | cpp/image/page_image_cache.cpp:14-41 | Admitted if and only if the bitmap has the page's shape, fits the budget and is new; resident bytes stay the sum of what is kept |
| `PageImageCache.FitsExactlyWhen` | cpp/image/page_image_cache.cpp:17-30 | The shape test, guarded by a quotient, accepts exactly the bitmaps of the page's size and numbers with four channels whose byte count is right and fits a size |
| `PageImageCache.Cache.Convert` | cpp/image/page_image_cache.cpp:47-57 | Converting takes no more room than the rendered pixels did, so the unsigned counter never wraps |
| `PageImageCache.Cache.Read` | cpp/image/page_image_cache.cpp:43-87 | Every read returns what decoding the file gives; the page is kept exactly when it was or fits, nothing else changes, and the peak is the running maximum |
| `PageImageCache.Cache.Clear` | cpp/image/page_image_cache.cpp:94-98 | Everything is let go and the peak stays |
| `DocumentModel.BlockIdIsInjective` | cpp/assembly/document_assembler.cpp:43-47 | A block id determines page and position |
| `DocumentModel.ValidateCoreModel` | cpp/export/json_document_exporter.cpp:555-675 | The exporter accepts exactly the documents that satisfy the declarative model |
| `DocumentAssembly.OrderedLayoutBlockIndices` | cpp/assembly/document_assembler.cpp:213-239 | The usable items of the reading order as first named, then the other blocks |
| `DocumentAssembly.OrderIsPermutation` | cpp/assembly/document_assembler.cpp:213-239 | For arbitrary reading-order input that is a permutation of the blocks |
| `DocumentAssembly.NamedComeFirst` | cpp/assembly/document_assembler.cpp:213-239 | Blocks the reading order names come in the order of their first usable naming, before all others, which keep their layout order |
| `DocumentAssembly.RepeatedFurniture` | cpp/assembly/document_assembler.cpp:282-300 | Exactly the signatures seen on two different pages |
| `DocumentAssembly.LeftOutExactlyWhen` | cpp/assembly/document_assembler.cpp:282-300 | A block is left out exactly when it is a header or footer whose signature is seen on another page as well |
| `DocumentAssembly.AssemblePage` | cpp/assembly/document_assembler.cpp:348-371 | The page contributes its blocks in reading order, dropping exactly the repeated headers and footers, numbered consecutively; a reference survives exactly when its target is another block that stays |
| `DocumentAssembly.Assemble` | cpp/assembly/document_assembler.cpp:304-385 | Page after page so, with one relation for each reference, from the referring block to its target and of the kind its label says, and the warnings aggregated |
| `DocumentAssembly.RelationsAreSaid` | cpp/assembly/document_assembler.cpp:372-383 | Every relation leads from a block with a reference to the block it names, its kind told by the label, and every reference gives one |
| `DocumentAssembly.AssembledDocumentIsAccepted` | cpp/export/json_document_exporter.cpp:555-675 | With warnings about known places, an assembled document is accepted by the exporter if and only if its pages have positive sizes and positive numbers of their own, its digest is one, and it is not partial without a warning |

## Left out

- BandOrder.OrderBand: column inference (docling_like_reading_order_backend.cpp:137-299) is an arbitrary function, because its result carries no promise the order relies on; the order is specified for whatever columns it proposes.
- TopologicalOrder.StableTopologicalOrder: which of several cycles the search meets first is not stated, so the order is fixed up to that choice.
- JobProtocol.RunKeepsInv: follows one message; the scripts touch no key of another message, as RedisJobStore shows, and other stream traffic only moves time. Messages without a job_path, which the loop acknowledges unread, are not modelled.
- JobProtocol.RunKeepsInv: expiry of a finished run's cache, approximate MAXLEN trimming of event streams, loss of Redis data and a clock going backwards are assumed absent; a cache left by a worker without fencing does not expire while its job is open.
- JobGuarantees.CleanedMarkerStaysAway: holds while the cached run lasts; once the cache has expired a delivery that arrives that late would set the marker again.
- JobGuarantees.OutcomesAreHonest: the worker's check of its renewal thread's lost flag is over-approximated by letting a worker go on at any moment; the fence alone carries the guarantees.
- JobGuarantees.EveryJobCanFinish: liveness as the existence of a continuation, not fairness of a scheduler.
- RedisJobStore.Store.Reclaim: stream ids are numbers in their order rather than pairs of a time and a counter.
- JobQueue.Stream.Enqueue: entry ids are pairs of unbounded numbers, so the script's use of Lua doubles for comparing them is exact; the type check of the three keys is left out.
- Dispatch.EachJobIsQueuedOnce: a job is appended at most once unless a late script queues it again, which the code permits; the exact condition is proved beside it.
- Retention.CleanupCanComplete: existence of a continuation; the cursor of the batch sweep is not modelled.
- Retention.RunKeepsInv: one run's directory; path validation, link counts and the preview mode are left out.
- LineRecovery.RecoverUnassignedTextLines: marginal numbering, the kind of a group and what its text says about attaching it are arbitrary functions, because they read text; confidences and the remaining statistics are left out.
- GridMerge.CoalesceDenseGridGroups: groups must have proper boxes, as the lines the source hands in have; for improper ones its neighbour test is not symmetric. The order inside a component is not stated, as nothing depends on it.
- LineColumns.DetectLineColumns: columns with the same left edge keep their order, where std::sort leaves it open; gutters rule such columns out of any result.
- LineGroups.GroupFallbackLines: a distance of the largest double, which the source would not accept as nearest, does not occur among exact reals.
- TableStage.RecognizePage: the recogniser's own failure and the linking of tables across pages are left out; two earlier tables can both claim the same later one, so no clean invariant holds there.
- PageStructure.ResolvePageStructure: the test whether cells lose text is an arbitrary predicate; cells, confidences and the statistics are left out.
- TextGeometry.SortRowWise: a line index outside the page reads as an empty box, where the source would read out of bounds; the callers pass indices in range.
- StreamingSha256.Sha256State.Transform: the word operations are handed to the class as function values that are instantiated with the real ones in Fingerprint, so that the solver does not expand bit vectors.
- StreamingSha256.Fingerprint: opening and reading errors of the file are left out; a read gives any portions.
- Resp.Connection.ReadValue: a number is read as std::stoll reads it, including the range check; the memory a huge announced length would need is not limited.
- VerticalCoverage.Coverage: exact reals, so rounding of the sum is not modelled.
- PageImageCache.Cache.AdmitRendered: that the rendered pixels show what the file holds is the caller's promise; the mutex is left out because every method runs under it.
- EngineCache.Cache.Get: keys are the normalised options; how options are normalised is left out.
- DocumentAssembly.Assemble: text, table cells, provenance and confidences of blocks are left out; the normalised text of furniture is an arbitrary function; layout ids are taken to be distinct on each page.
- DocumentAssembly.AssembledDocumentIsAccepted: assumes of the warnings that they name known places and count at least one for each page.
- WarningAggregation.AggregateWarnings: counts are at most the largest machine size, as stored counts are.
- The model backends (inference, rendering, OCR), image preprocessing, the HTTP and event-stream endpoints, the command line, packaging and the user interface are not modelled: they are calls into code that is not part of this model, or plumbing.
