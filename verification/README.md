# stortrace, modelled and proved in Dafny

stortrace measures where a block I/O request spends its time. Kernel probes fill in records and hand
them to user space; user space cuts the records into stage latencies, keeps a quantile sketch of them,
writes them to an asynchronous log store and, offline, reads the logs back, joins them and averages
them per time window. This project models that pipeline and proves what it promises.

* **The t-digest.** `Centroids`, `Clustering`, `Compression`, `Merging`, `Digests`, `Tdigest`: a
  double-buffered sketch that sorts its buffer up or down, compresses it greedily under a weight limit
  and swaps sides. A class runs the algorithm; every method is proved to take exactly one step of a
  relation on values. `DigestPoints`, `DigestEnds`, `DigestTops` and `DigestRuns` prove what every run
  of those steps keeps, for any weight limit and for tapered ones. `Quantile`, `OrderStatistics`, `Cdf`
  and `DigestQueries` state what the queries answer, and `DigestWitnesses` gives runs in which they fail.
* **The kernel probes.** `DioProbes`, `BlockProbes`: each probe is one atomic update of bounded maps
  whose keys are kernel pointers that get reused. A run is any sequence of probes over any requests,
  bios and dios, with full maps and failed ring-buffer reservations. `DioJoin` proves when the join of
  dio rows and request rows is sound and when it is complete, `DioMisjoins` gives runs in which it is
  not; `BlockRuns` proves which writes a record can contain, where requests go and when their timestamps
  were taken. `DioFields` and `BlockFields` name, for every field of an emitted record, the step of the
  run that wrote it.
* **Stage latencies.** `Stages`, `StageRuns`: the decomposition of a record in 64-bit unsigned
  arithmetic, and when the stages add up.
* **The log store.** `Uring`, `LogStore`: writes at precomputed offsets that complete in any order, and
  a flush that waits for a draining sync. `LogMeta`, `LogReader`: the metadata text and its parser.
* **Offline algorithms.** `HashJoin`, `Heatmaps`, `TimeWindows`, `Analysis`.

`Arithmetic`, `Words`, `Sorting` and `BpfMaps` are shared helpers. `dafny verify dfyconfig.toml` checks everything.

## What was found

Where the code does less than its documentation or its purpose suggests, the model keeps the code and a
lemma gives the exact condition.

* `quantile` promises a value of the dataset (`digestible.h:203-212`); the code interpolates, and what it
  interpolates are means. A digest of single points does answer with the exact order statistic
  (`OrderStatistics.QuantilesOfSingles`). In general every answer is a mean or an extreme if and only if
  the last centroid does not break the query, the tails hold no index between their ends, and every two
  neighbours differ by at most one in value or leave no index between them
  (`OrderStatistics.QuantilesFromDigestIff`); six points suffice for an answer that is none of them
  (`DigestWitnesses.InventedAnswer`). A mean is not yet a value of the data: a digest that makes nothing
  up answers with points only if and only if the mean of every heavy centroid is a point
  (`DigestQueries.QuantilesOfARunArePointsIff`), and four points suffice for one that is not
  (`DigestWitnesses.MeanIsNoPoint`).
* `quantile` multiplies two 32-bit words, and an answer is right at every index if and only if the
  largest numerator of every neighbouring pair fits in 32 bits (`Quantile.QuantilesExactIff`). Six
  points at 2^31 are enough to make the query fall from 2^31 to 0
  (`DigestWitnesses.CarryBreaksQuantiles`).
* `quantile` divides 0.0 by 0 for some percentage if and only if the last of two or more centroids
  weighs 2 or 3 (`Quantile.AlwaysNumberIff`). An insert of weight 2 reaches such a digest
  (`DigestWitnesses.WeightOfTwoBreaks`), and so do equal points that the sort leaves in an unlucky order
  (`DigestWitnesses.TiesBreak`). Under a tapered limit a maximum that was inserted once rules it out
  (`DigestQueries.QuantilesGrow`).
* The tails of `cumulative_distribution` divide integers: the lower tail is constant and the upper tail
  is 0. It is monotone between the extremes if and only if the tails are harmless
  (`Cdf.MonotoneIff`). A limit that lets the first run take a second point makes both tails harmful
  (`DigestWitnesses.HighTailReached`, `DigestWitnesses.LowTailReached`). The scale function of the
  source gives such limits only to tiny digests that have seen a lot: of capacity 1 from about 9,500
  points on, of capacity 2 from about 360 million. Under a tapered limit, as at any ordinary capacity,
  the tails of a digest of points are always harmless (`DigestQueries.ProbabilitiesGrow`). The answer does stay in
  [0, 1], as `digestible.h:199` says.
* A dio row joins only requests of its own dio, whatever a missed uid lookup left in the record, if and
  only if the uid that was looked up was given to this dio for its own event, or the run emits no request
  that could be mistaken for one of its (`DioJoin.JoinsOnlyItsOwnIff`). The row itself shows the guard:
  its uid is the start time of its block I/O (`DioJoin.JoinIsSound`, `DioJoin.WasGivenItsUidIff`). A
  successful lookup alone is not enough, since a failed reservation leaves a uid behind at an address
  that the next dio may get (`DioMisjoins.ReusedAddressMisjoins`), and a missed one may join anything
  (`DioMisjoins.MissedLookupMisjoins`).
* A request that was tagged for a dio is joined with it if and only if no actor call gave the dio's
  address a new uid, and no emission forgot it, between the tag and the emission
  (`DioJoin.JoinIsCompleteIff`).
* The stages of a classified record add up if and only if the insertion tag and the dispatch tag agree
  on direct issue, or the two words they select are equal (`Stages.TelescopesIff`). A request that is
  issued directly and then inserted after all leaves a record where they do not
  (`StageRuns.FallbackMisadds`).
* The table of windowed averages doubles once per row, so a long gap between two rows makes it write
  outside. With the windows below 30, 60, 120 and so on as octaves, the averages stay inside if and only
  if no index is negative and none lies more than one octave above the greatest one before it
  (`TimeWindows.GetAvgSeq`, `TimeWindows.FitsIff`); at one second per window a minute without requests
  is enough to leave it (`TimeWindows.IdleMinuteOutruns`).
* A heat map cuts its bucket width to an int. The division is by zero if and only if the width is a
  multiple of 2^32 (`Heatmaps.DividesByZeroIff`). Otherwise there are no more buckets than asked for if
  and only if an int holds the width, or the cut turns it negative (`Heatmaps.WithinPartitionIff`). A flush
  request, which carries the largest sector, is enough (`Heatmaps.NarrowWidthFails`).
* The metadata file is read back exactly if and only if every log has a field, names hold no space and
  no line break, and field names hold no `|`, no `--` and do not end in `-`
  (`LogMeta.MetaRoundTripIff`). Single dashes inside field names do no harm.

## Model

| member | source | states |
|---|---|---|
| Compression.DigestBuffer.Insert | digestible.h:80-87 | appends one centroid, keeps the running weight, and reports exactly whether the vector is now full |
| Compression.MoveMean | digestible.h:443-446 | the incremental mean update yields the exact weighted mean of the longer run: mean times weight equals the sum of mean*weight |
| Compression.Compress | digestible.h:442-473 | the compressing loop produces a greedy clustering of its input: consecutive runs, each one centroid, each run under the limit set when it was opened and unable to take the next input |
| Clustering.ClusteringIsUnique | digestible.h:442-473 | for any limit function, the sorted input leaves the pass no choice: two greedy clusterings have the same cuts and the same centroids |
| Clustering.MeanInHull | digestible.h:442-473 | rounding or truncating a mean never pushes it out of the range of the inputs it stands for |
| Clustering.MeanBetweenEnds | digestible.h:442-473 | every emitted mean lies between the first and the last input of its own run, for ascending and for descending input |
| Clustering.OutputKeepsOrder | digestible.h:442-475 | an ascending input gives an ascending output and a descending one a descending output, rounding included |
| Clustering.RoundingDrift | digestible.h:458-461 | rounding moves a run's sum of mean*weight by at most half the run's weight |
| Clustering.TruncationDrift | digestible.h:471-473 | truncating the last mean moves its run's sum by less than the run's weight |
| Clustering.PassConserves | digestible.h:442-473 | a pass keeps the total weight exactly and the sum of mean*weight to within less than the total weight |
| Clustering.EndsStandAlone | digestible.h:442-473 | under a tapered limit, one that no run may reach the total with and whose first run may not take a second point, both ends of the sorted input come out as they went in |
| Merging.MergeConserves | digestible.h:402-487 | a merge in either direction conserves the weight, drifts the weighted sum by less than the weight, and needs no more room than its input |
| Merging.MergeInHull | digestible.h:402-487 | every centroid of the merged list lies within any bounds of the input, in either direction |
| Merging.EndsAreExtreme | digestible.h:412-435 | the two ends of the sorted list bound every centroid of the buffer, whatever the sort did with ties |
| Merging.MergeKeepsLight | digestible.h:402-487 | a merge in either direction makes no new centroid of weight one |
| Merging.MergeKeepsEnds | digestible.h:402-487 | under a tapered limit the lowest and the highest centroid survive a merge in either direction as they are |
| Digests.MergeKeeps | digestible.h:402-487 | after a merge the buffer is the ascending active digest and holds all the weight it held before |
| Digests.LowestIsEnough | digestible.h:415-423 | looking only at the lowest centroid, and only if it weighs one, still finds the exact minimum of all points merged so far |
| Digests.HighestIsEnough | digestible.h:415-435 | the same for the maximum and the highest centroid |
| Digests.MergeTracks | digestible.h:412-435 | after a merge in either direction the extremes are those of every point inserted, and every centroid lies between them |
| Digests.FeedTracks | digestible.h:316-320 | feeding the centroids of another digest one by one, with merges in between, loses no point and widens no extreme wrongly |
| Digests.AbsorbTracks | digestible.h:311-323 | inserting a digest leaves a merged digest whose extremes are those of the points of both |
| DigestPoints.MergeAccounts | digestible.h:402-487 | a merge turns every pending point into weight of the active digest, each exactly once |
| DigestPoints.InsertAccounts | digestible.h:154-160 | a point insert adds exactly that point, as a pending centroid or, if the buffer was full, as merged weight |
| DigestPoints.AbsorbAccounts | digestible.h:311-323 | inserting a digest adds exactly the points its active side was built from |
| DigestEnds.MergeAnchors | digestible.h:402-487 | under a tapered limit a merge leaves the exact extremes as the means of the outermost centroids |
| DigestEnds.AbsorbAnchors | digestible.h:311-323 | so does inserting a digest, with its merges in between |
| DigestTops.MergeCrowns | digestible.h:402-487 | under a tapered limit a maximum that occurs once stays a centroid of its own through a merge in either direction |
| DigestTops.AbsorbCrowns | digestible.h:311-323 | and through inserting a digest, whichever of the two the maximum came from |
| DigestRuns.RunKeepsWeight | digestible.h:154-160 | in every run of inserts, merges, digest inserts and resets the buffer starts with the ascending active digest and weighs exactly what was inserted since the last reset; after a merge so does the active digest |
| DigestRuns.RunAccounts | digestible.h:154-160 | in every run over points each point since the last reset is accounted for exactly once: the pending centroids are the unmerged ones as a multiset, the active digest weighs as much as there are merged ones, and its centroids of weight one are among them |
| DigestRuns.RunKeepsExtremes | digestible.h:412-435 | in every run over points, after a merge in either direction, `min` and `max` are exactly the minimum and maximum of all points since the last reset |
| DigestRuns.TaperedRunEnds | digestible.h:402-487 | in every run over points under tapered limits, after a merge, the outermost means are the exact extremes, and a maximum inserted once is the last centroid alone |
| Tdigest.SortForPass | digestible.h:411-435 | the sort in the direction of the pass, and its low and high ends |
| Tdigest.CompressSorted | digestible.h:411-475 | sort, compress and, after a descending pass, sort again: the other side holds an ascending merge of the buffer with all its weight |
| Tdigest.Tdigest.constructor | digestible.h:262-270 | a new digest is empty, with the extremes at their starting values, and runs forward first |
| Tdigest.Tdigest.Adopt | digestible.h:478-486 | swaps sides: the filled side becomes active, the buffer is seeded with it, the other side is emptied |
| Tdigest.Tdigest.Rotate | digestible.h:437-486 | merges the whole buffer and swaps sides; in the order of the pass every run of two or more inputs ends at or below, and every run but the last would have passed, the scale function's value at the inactive side's capacity, the total weight and the weight before that very run |
| Tdigest.MergeFitsScale | digestible.h:442-460 | a pass whose limit is taken from the scale function at the start of every run leaves runs that fit the scale function itself, each at the weight before it |
| Tdigest.Tdigest.Merge | digestible.h:402-487 | takes exactly the merge step, every run measured against the scale function at the weight before it, and turns the direction of the next pass; the digest's size is then all the weight the buffer held; nothing happens to an empty buffer |
| Tdigest.Tdigest.Append | digestible.h:80-92 | a buffer below capacity reports full exactly when the new centroid fills it |
| Tdigest.Tdigest.Insert | digestible.h:154-160 | takes exactly the insert step: append, and merge if and only if the buffer became full |
| Tdigest.Tdigest.Feed | digestible.h:316-320 | inserting a list of centroids is the composition of the single insert steps |
| Tdigest.Tdigest.InsertDigest | digestible.h:311-323 | takes exactly the absorb step, and leaves the source as it was |
| Tdigest.Tdigest.Reset | digestible.h:326-334 | empties all three sides and restores the extremes, but not the direction of the next pass |
| Tdigest.Tdigest.Quantile | digestible.h:512-577 | the query with its early returns computes the quantile function of the active digest, out-of-range percentages included |
| Quantile.QuantileIsAt | digestible.h:524 | a percentage is answered at the index whose number is at most its share of the total weight, while the next number is above it |
| Tdigest.Tdigest.CumulativeDistribution | digestible.h:584-648 | the query computes the distribution function of the active digest, and never divides by a zero weight |
| Quantile.SearchPairs | digestible.h:547-576 | the search over neighbouring pairs never subtracts below zero and finds the bracketing pair or the last mean |
| Quantile.InterpolationExactIff | digestible.h:551-556 | a pair's 32-bit interpolation is exact at all its indices if and only if its largest numerator fits |
| Quantile.PairGrowsIff | digestible.h:551-556 | the 32-bit answers within a pair grow if and only if its first and its last numerator lose the same number of carries, for means that are not almost 2^32 apart |
| Quantile.QuantilesExactIff | digestible.h:547-576 | no answer of the query differs from the one computed without wrap-around if and only if the largest numerator of every pair fits |
| Quantile.InteriorIsInterpolation | digestible.h:547-569 | the search interpolates between the two centroids whose places enclose the index |
| Quantile.KnotIsCentre | digestible.h:547-569 | the place of a centroid in index space is the weight before it and half its own, less at most half a unit for each centroid up to it |
| Quantile.InteriorIsLinear | digestible.h:551-556 | between two places, with numerators that fit, the answer is the integer part of the linear interpolation of the two means |
| Quantile.MinTailIs | digestible.h:528-533 | the lower tail runs linearly from the minimum to the first mean |
| Quantile.MaxTailIs | digestible.h:539-545 | the upper tail runs linearly from the last mean to the maximum |
| Quantile.RegimesInOrder | digestible.h:523-545 | minimum, lower tail, interior, upper tail and maximum follow one another as the index grows |
| Quantile.RegimesMeet | digestible.h:523-576 | no answer of a later regime is below an answer of an earlier one |
| Quantile.AnswerInRegime | digestible.h:523-576 | the answer lies between the bounds of its own regime |
| Quantile.AnswerMonotone | digestible.h:523-576 | the answer grows with the index within and across regimes |
| Quantile.QuantileMonotone | digestible.h:512-577 | quantiles lie between minimum and maximum and grow with the percentage, if numerators fit and the last weight is 1 or at least 4 |
| Quantile.NotANumberIff | digestible.h:539-545 | the answer is 0.0/0 exactly at the last index of a digest whose last centroid weighs 2 or 3 |
| Quantile.AlwaysNumberIff | digestible.h:512-545 | every percentage gets a number if and only if the last of several centroids weighs 1 or at least 4 |
| OrderStatistics.SinglesAreExact | digestible.h:203-212 | a digest of single points answers every index with the exact order statistic |
| OrderStatistics.QuantilesOfSingles | digestible.h:203-212 | and every percentage below 100 with the i-th point, for the one i with i <= p/100 * n < i + 1 |
| OrderStatistics.AllFromDigestIff | digestible.h:523-576 | without wrap-around every answer is a mean or an extreme if and only if the last centroid does not break the query, the tails hold no index between their ends, and neighbours are next to each other in value or in weight |
| OrderStatistics.QuantilesFromDigestIff | digestible.h:523-576 | the same for the query itself at every percentage, on a digest whose numerators fit |
| OrderStatistics.HeavyMeanIsAnswered | digestible.h:523-576 | the mean of every heavy centroid is the answer at some index |
| OrderStatistics.QuantilesArePointsIff | digestible.h:203-212 | a digest that makes nothing up answers with its points only, if and only if the mean of every heavy centroid is a point |
| DigestWitnesses.SixPoints | digestible.h:402-487 | a run of six point inserts and a merge under a tapered limit, ending in four centroids of weights 1, 2, 2, 1 |
| DigestWitnesses.CarryBreaksQuantiles | digestible.h:551-556 | six equal points whose numerator loses its carry: one index is answered with 2^31, the next with 0 |
| DigestWitnesses.InventedAnswer | digestible.h:551-556 | six points whose 40 percent quantile is none of them |
| DigestWitnesses.MeanIsNoPoint | digestible.h:203-212 | four points whose digest makes nothing up and still answers with the mean of two of them, which is no point |
| DigestWitnesses.WeightOfTwoBreaks | digestible.h:539-545 | a run with an insert of weight 2 whose digest is answered with 0.0/0 |
| DigestWitnesses.TiesBreak | digestible.h:412-475 | a run of equal points, under a tapered limit, whose digest is answered with 0.0/0 because ties may land in any order |
| DigestWitnesses.HighTailReached | digestible.h:607-613 | a run over points, under a limit that lets the first run take a second point, after which the distribution function falls back to 0 above the last mean |
| DigestWitnesses.LowTailReached | digestible.h:600-606 | a run over points, under such a limit, after which the distribution function falls from the lower tail to the first mean |
| Cdf.SearchCdf | digestible.h:616-647 | the search over neighbouring pairs, with the fall-through at the last mean |
| Cdf.InteriorMonotone | digestible.h:616-647 | between the first and the last mean the answer lies in [0, 1] and grows with x, across segments whose half-weights are rounded down |
| Cdf.InteriorIsLinear | digestible.h:616-647 | between two neighbouring means the answer runs linearly from one to the next, in the weight before the left one and its half, over the total |
| Cdf.FewCentroids | digestible.h:586-594 | an empty digest answers 1, and one of a single centroid 0 below the minimum, 1 above the maximum and one half between |
| Cdf.LowTailIsFlat | digestible.h:600-606 | below the first mean the answer is the constant 1/total |
| Cdf.HighTailIsZero | digestible.h:607-613 | above the last mean and up to the maximum the answer is 0 |
| Cdf.CdfIsProbability | digestible.h:584-648 | for any x between the extremes the answer lies in [0, 1] |
| Cdf.MonotoneIff | digestible.h:584-648 | between the extremes the answer grows with x if and only if the minimum is the first mean, or that centroid weighs at least 2, or the first two means coincide, and the maximum is the last mean |
| DigestQueries.QuantilesOfARun | digestible.h:512-577 | after any merge of a run over points quantiles lie between the exact extremes of all points and grow with the percentage |
| DigestQueries.ProbabilitiesOfARun | digestible.h:584-648 | after any merge of a run over points the distribution function answers with a probability between the extremes |
| DigestQueries.QuantilesOfARunArePointsIff | digestible.h:203-212 | after any merge of a run over points whose digest makes nothing up, every answer is one of the points since the reset if and only if the mean of every heavy centroid is |
| DigestQueries.HeavyAtExtremesArePoints | digestible.h:203-212 | in particular if every heavy centroid sits at an extreme |
| DigestQueries.ProbabilitiesGrow | digestible.h:584-648 | in a run over points under tapered limits the distribution function grows with x between the exact extremes |
| DigestQueries.QuantilesGrow | digestible.h:512-577 | in a run over points under tapered limits, if the maximum was inserted once, no percentage breaks the query, and quantiles are bounded and grow |
| DioProbes.Tracer.DioIter | ext4_dio_info.bpf.c:96-160 | a dio is cached under its iocb with the globals' latest call time of its direction, unless the key exists or the map is full |
| DioProbes.Tracer.BioActor | ext4_dio_info.bpf.c:162-183 | the clock reading is stored in the event and, unless a new key meets a full map, as the uid of the dio pointer |
| DioProbes.Tracer.Kfree | ext4_dio_info.bpf.c:185-218 | the event is emitted with the looked-up uid if the reservation succeeds, which also forgets the uid; the event is forgotten either way |
| DioProbes.Tracer.RqQosTrack | ext4_dio_info.bpf.c:228-262 | an old entry of the request is dropped, and a tagged one is cached if the bio belongs to a known dio |
| DioProbes.Tracer.QueueRq | ext4_dio_info.bpf.c:265-325 | a cached request gets its queue time, and a queue record is emitted if the reservation succeeds |
| DioProbes.Tracer.AccountIoDone | ext4_dio_info.bpf.c:392-412 | the completed request is emitted and forgotten, or kept when the reservation fails |
| DioJoin.FilterProvenance | ext4_dio_info.bpf.c:172-181 | an entry of the uid map was there before, or was minted since by the actor probe of that very pointer at that very time |
| DioJoin.CacheProvenance | ext4_dio_info.bpf.c:237-260 | every cached request keeps the uid, pointer and time of the step that tagged it |
| DioJoin.UidIsRetired | ext4_dio_info.bpf.c:204-214 | once a dio was emitted under a uid, no later state maps any pointer to that uid |
| DioJoin.EventProvenance | ext4_dio_info.bpf.c:172-181 | the start time in a cached event is that of the last actor call on that very event, or still zero |
| DioJoin.HasOwnUidIff | ext4_dio_info.bpf.c:195-214 | the looked-up uid equals the event's start time if and only if it was given to this address for this very event by the last actor call on it |
| DioJoin.TaggedInBetween | ext4_dio_info.bpf.c:195-216 | a request that shares a looked-up uid was tagged under the dio's address, after the uid was given to that address and before the emission |
| DioJoin.JoinIsSound | ext4_dio_info.bpf.c:195-216 | when a dio is emitted under a uid that is its event's start time, every request emitted with that uid was tagged after the uid was given to this dio for this event and before the emission, from a bio whose private pointer was the dio's |
| DioJoin.JoinIsCompleteIff | ext4_dio_info.bpf.c:172-181 | a request tagged under an address carries the uid that a later emission looks up if and only if no actor call and no emission touched that address in between |
| DioJoin.EmittedUidsDiffer | ext4_dio_info.bpf.c:172-181 | no two emitted dios that found their uid share it |
| DioJoin.RowsComeFromSteps | ext4_dio_info.bpf.c:203-212 | every dio row and every request row of the log was written by one step of the run, with that step's contents |
| DioFields.GlobalsAreLatest | ext4_dio_info.bpf.c:50-94 | in every run the two globals hold the clock of the latest selected write call and of the latest selected read call that the filters let through |
| DioFields.EventFields | ext4_dio_info.bpf.c:96-160 | every cached event holds the clock, inode and direction of the call that created it, and the clock of the latest selected call of that direction before it |
| DioFields.DioRowFields | ext4_dio_info.bpf.c:195-216 | every emitted dio row holds exactly those of the event it completes, and the completion time and size of its own emission |
| DioFields.RequestFields | ext4_dio_info.bpf.c:237-390 | every cached request holds, field by field, the clock of the last probe of the request since its tag that writes the field, and the drive of the last completion |
| DioFields.RqRowFields | ext4_dio_info.bpf.c:392-412 | every emitted request row holds those, with the figures of the accounting probe |
| DioFields.QueueRecords | ext4_dio_info.bpf.c:265-325 | every queue record was written when a cached request was queued to that queue, at that time |
| DioFields.CachedIff | ext4_dio_info.bpf.c:36-41 | an event is cached unless its key exists or all 8192 places are taken, and no other event is touched |
| DioFields.MintedIff | ext4_dio_info.bpf.c:29-34 | a dio gets its uid unless its address is new and all 256 places are taken, and no other uid is touched |
| DioFields.TaggedIff | ext4_dio_info.bpf.c:43-48 | a request is cached if and only if its bio belongs to a known dio and one of 512 places is free, and no other request is touched |
| DioFields.FiltersStop | ext4_dio_info.bpf.c:327-342 | a rejected process or command leaves every probe up to the start of a request without effect |
| DioFields.CompletionsPass | ext4_dio_info.bpf.c:344-412 | the completion probes have the same effect whatever the filters say |
| DioJoin.JoinedRowsBelong | main.cpp:219-229 | the join the analysis runs pairs rows of the whole log only if the request belongs to the dio, whenever the dio's uid was looked up and is the start time in its row |
| DioJoin.UidIsDeterminedIff | ext4_dio_info.bpf.c:206-211 | the emitted record is independent of what its buffer held if and only if the uid lookup hits |
| DioJoin.GarbageStaysInLog | ext4_dio_info.bpf.c:203-215 | what a fresh record held changes nothing outside the log at any later time |
| DioJoin.JoinsOnlyItsOwnIff | main.cpp:219-229 | for every run and every emitted dio: whatever the fresh record held, its row joins only requests that belong to the dio, if and only if the looked-up uid was given to it for its own event, or no request is emitted that could be mistaken for one of its |
| DioJoin.WasGivenItsUidIff | ext4_dio_info.bpf.c:172-181 | with one dio per iocb that can be read off the row: the uid is the start time in the event |
| DioMisjoins.MissedLookupMisjoins | ext4_dio_info.bpf.c:206-211 | a run of six probes in which a missed lookup joins a request to a dio it does not belong to |
| DioMisjoins.ReusedAddressMisjoins | ext4_dio_info.bpf.c:203-215 | a run of seven probes in which a failed reservation leaves a uid behind, and a successful lookup of it joins a request to a later dio at the same address |
| BlockProbes.Tracer.SubmitBio | block_trace.bpf.c:45-67 | the latest submission time of a bio replaces the earlier one, whether or not the enter record could be reserved |
| BlockProbes.Tracer.RqQosTrack | block_trace.bpf.c:69-100 | an old entry of the request is dropped, and a fresh one is cached if the bio was seen and there is room |
| BlockProbes.Tracer.Stamp | block_trace.bpf.c:102-319 | every other probe writes only its own fields into a cached request and returns -1 for an unknown one |
| BlockProbes.Tracer.AccountIoDone | block_trace.bpf.c:322-345 | the completed request is emitted and forgotten, or kept when the reservation fails; -1 unless emitted |
| BlockRuns.BioIsLatest | block_trace.bpf.c:46-66 | the stored time of a bio pointer is one of its submissions, and the latest that the filters let through |
| BlockRuns.EntryFromGeneration | block_trace.bpf.c:69-100 | a cached record is a fresh record of the latest track replayed through the request's own probes since then, and nothing else |
| BlockRuns.GenerationIsolation | block_trace.bpf.c:321-345 | every emitted record is such a replay of one generation, despite pointer reuse, full maps and failed reservations |
| BlockRuns.StartsAtLatestCallIff | block_trace.bpf.c:69-98 | an emitted record starts at the latest tracking call of its request if and only if the filters let that call through |
| BlockFields.EmittedFields | block_trace.bpf.c:69-345 | every emitted record holds, field by field, the last submission of its bio, the latest track, the clock or the tag of the last probe since then that writes the field, and the figures of the accounting probe |
| BlockFields.TracedIff | block_trace.bpf.c:37-42 | a tracked request is traced if and only if its bio was seen and one of 256 places is free, and no other request is touched |
| BlockFields.RememberedIff | block_trace.bpf.c:30-35 | a submission is remembered unless its bio is new and all 32768 places are taken, and no other bio is touched |
| BlockFields.EnterRecords | block_trace.bpf.c:55-64 | every enter record was written by a submission of that bio that the filters let through, at its clock |
| BlockRuns.RequestsAreConserved | block_trace.bpf.c:37-42 | in every reachable state inserted = emitted + recycled + live, and at most 256 are live |
| BlockRuns.EmittedAtMostOnce | block_trace.bpf.c:336-341 | between two emissions of a request pointer it was inserted again |
| BlockRuns.StampedTimes | block_trace.bpf.c:102-334 | a probe leaves every time of a record as it was or sets it to its own clock, and never touches the start or the bio's entry |
| BlockRuns.LiveTimestamps | block_trace.bpf.c:79-345 | every nonzero time of a live request lies between its start and now, and its bio's entry is no later than its start |
| Stages.BlkTraceModule.DoEvent | block_trace.hpp:105-194 | the row's cells are the stage latencies of the record, on every tag combination whose cell the code sets; unplugged records and unknown dispatch tags commit nothing |
| Stages.BlkTraceModule.Proxy | block_trace.hpp:84-103 | only plugged records are processed, and exactly the row of the record is committed, unless its dispatch tag is unknown |
| Stages.AddUpIsSum | main.cpp:52-54 | adding up wrapped differences is the wrapped sum of the differences |
| Stages.SumsOfRow | main.cpp:52-55 | the sum of a row is its eight latencies modulo 2^64, and its end time is that plus the entry |
| Stages.TelescopesIff | block_trace.hpp:128-186 | the end time the analysis computes is account - (plug - start) if and only if the tags agree on direct issue or the two words they select are equal |
| Stages.StagesTelescope | block_trace.hpp:128-186 | with times in path order no stage wraps, and entry plus the eight latencies is account - (plug - start) |
| StageRuns.AfterPath | block_trace.bpf.c:115-257 | direct issue, or insertion then dispatch, leaves known tags that agree, the insertion time of the insertion itself and the dispatch time of the dispatch, through the shared union words |
| StageRuns.RegularRunsHaveStages | block_trace.hpp:109-186 | every record emitted by a generation whose probes fired in the regular order is cut into a row whose eleven cells are entry, direction, and the clock differences of the named probes of that very generation |
| StageRuns.RegularRunsTelescope | block_trace.hpp:105-186 | every record emitted by a generation whose probes fired in the regular order telescopes, on NVMe and SCSI, whatever other requests did in between |
| StageRuns.FallbackMisadds | block_trace.hpp:148-155 | a run of eight probes, direct issue and then insertion, whose classified record is dated five ticks too early |
| Uring.QuiescentIsComplete | logger.hpp:136-142 | with nothing pending every file holds exactly its text, whatever order the writes ran in |
| Uring.ExecuteKeepsDisk | logger.hpp:138-142 | running any pending write keeps every file in agreement with what it is meant to hold |
| Uring.AppendKeepsDisk | logger.hpp:138-142 | submitting a record at the end of its file keeps that agreement for the longer text |
| Uring.ExecuteKeepsBuffers | logger.hpp:136-142 | every live send buffer waits in exactly one place, a pending write or a completion, also after a write ran |
| Uring.ReapKeepsBuffers | logger.hpp:144-154 | a completion that carries a buffer carries a live one, and freeing it keeps that invariant: no buffer is freed twice |
| LogStore.Logger.constructor | logger.hpp:107-122 | a new store has no records, and every name stands for the last log registered under it |
| LogStore.Logger.Enqueue | logger.hpp:133-142 | appends the record to its log, keeping offsets, counts and disk in agreement, and allocates one buffer |
| LogStore.Logger.Drain | logger.hpp:144-157 | frees the buffer of every completion and counts it |
| LogStore.Logger.Commit | logger.hpp:131-159 | the record joins the log of that name, or the first log for an unknown name; freed plus live buffers grow by one |
| LogStore.Logger.SyncAll | logger.hpp:83-95 | submits a sync per log and builds the metadata text of all logs and their counts |
| LogStore.Logger.SubmitMeta | logger.hpp:39-54 | submits the metadata and the draining sync behind everything else |
| LogStore.Logger.AwaitFinal | logger.hpp:56-80 | once the draining sync is seen nothing is pending and every send buffer has been freed |
| LogStore.Logger.FlushAll | logger.hpp:83-98 | after the flush each file is the concatenation of its records in commit order, the metadata file describes them, counts are commit counts, nothing is pending, every buffer was freed and counted |
| LogMeta.FormatToString | logger.hpp:16-22 | prints each field as name, two dashes, size and a bar |
| LogMeta.LineOfTwoFields | logger.hpp:16-22 | the line of a log, spelled out for two fields |
| LogMeta.Collect | collector.hpp:61-82 | the parsing loop with its skipped sizes and out-of-bounds reads computes the parse of the line |
| LogMeta.DecimalRoundTrip | logger.hpp:19 | a printed integer is parsed back if it fits the parser's type |
| LogMeta.LineRoundTrip | collector.hpp:61-82 | the parser recovers name, ordered fields, row size and count from the printed line of a clean format |
| LogMeta.LineRoundTripIff | collector.hpp:61-82 | it recovers them if and only if the format is clean |
| LogMeta.MetaRoundTrip | main.cpp:326-331 | reading the whole file line by line recovers every log's description |
| LogMeta.MetaRoundTripIff | main.cpp:326-331 | it does so if and only if every format is clean and free of line breaks |
| LogReader.MakeTable | collector.hpp:83-95 | one bulk read cut into rows |
| LogReader.RowsAreRecords | collector.hpp:83-95 | cutting a concatenation of equal-sized records gives back the records |
| LogReader.CommittedRowsReadBack | collector.hpp:61-95 | what the collector learns from the metadata of a flushed store recovers exactly the committed rows of every log |
| HashJoin.BuildTable | collector.hpp:104-111 | the multimap holds, for every key, the rows of A with that key in order |
| HashJoin.JoinMany | collector.hpp:131-141 | the m-to-n branch computes the nested loop |
| HashJoin.JoinOnce | collector.hpp:116-129 | the one-to-one branch, which erases what it takes, computes the pairing by rank |
| HashJoin.HashJoinVector | collector.hpp:101-147 | mode 0 is the one-to-one join, mode 1 the nested loop, any other mode empty |
| HashJoin.NestedLoopComplete | collector.hpp:131-141 | exactly the pairs of rows with equal keys are joined |
| HashJoin.NestedLoopOrdered | collector.hpp:131-141 | each pair once, ordered by the row of B and then the row of A |
| HashJoin.PairOffIff | collector.hpp:116-129 | a pair is taken exactly when the keys are equal and the rows have the same rank among the rows of that key |
| HashJoin.PairOffOrdered | collector.hpp:116-129 | no row of B is used twice, and pairs come in the order of B |
| HashJoin.PairOffIsMaximal | collector.hpp:116-129 | for every key as many pairs as the smaller of the two counts |
| Heatmaps.DividesByZeroIff | heatmap.hpp:25-26 | the cut width is zero if and only if the intended width is a multiple of 2^32 |
| Heatmaps.WithinPartitionIff | heatmap.hpp:24-26 | for a partition of two or more, any 64-bit range and a nonzero width, there are no more buckets than asked for if and only if an int holds the intended width or the cut turns it negative |
| Heatmaps.AtMostPartition | heatmap.hpp:25-26 | a width that an int holds is used as intended and keeps the number of buckets between 1 and the partition |
| Heatmaps.NarrowWidthFails | heatmap.hpp:24-26 | a range that divides by zero, one just beyond it and one with a flush request's sector that ask for more than 2^32 buckets |
| Heatmaps.HeatmapIsBounded | heatmap.hpp:22-30 | every committed sector gets a bucket inside the resized vector, for any width but zero |
| Heatmaps.FillConserves | heatmap.hpp:27-29 | filling adds exactly what was committed to the sum of all buckets |
| Heatmaps.BucketIsInterval | heatmap.hpp:27-29 | each bucket grows by exactly what was committed for its own interval of sectors |
| Heatmaps.HeatmapIsExact | heatmap.hpp:22-33 | filling zeros is exact bucket by bucket and in total |
| Heatmaps.Heatmap.constructor | heatmap.hpp:16-20 | a new heat map is empty and has eight times the given partition |
| Heatmaps.Heatmap.Commit | heatmap.hpp:53-63 | the sample is appended and the extremes stay exact |
| Heatmaps.Heatmap.GenHeatmap | heatmap.hpp:22-33 | fails exactly when the cut width is zero; otherwise no index is out of range, every bucket grows by what was committed for its own interval, from what it held before, or from 0 if it is new, and after a first generation the buckets add up to everything committed |
| Heatmaps.HeatmapCollector.Commit | heatmap.hpp:115-129 | a sample reaches the heat map of its own disk, made on first sight, and no other |
| TimeWindows.GrowthKeepsTallies | time_aq.hpp:29-35 | doubling the table keeps every earlier window and invents nothing in the new ones |
| TimeWindows.WindowIsElapsedIff | time_aq.hpp:25-27 | the int index of a time not before the first is its elapsed window if and only if an int can count that far |
| TimeWindows.TimeAvgPmc.Commit | time_aq.hpp:19-39 | lands inside the table exactly when the index is not negative and lies below the table, doubled once if needed; then sums and counts of every window are those of all items so far |
| TimeWindows.IdleMinuteOutruns | time_aq.hpp:29-36 | sixty seconds between two rows outrun the table at one second per window |
| TimeWindows.FitsIff | time_aq.hpp:29-37 | the times fit the growing table if and only if no index is negative and none lies more than one octave above the greatest one before it |
| TimeWindows.Feed | collector.hpp:190-193 | the feeding loop stays inside the table if and only if the times fit, whatever their order |
| TimeWindows.GetAvgSeq | collector.hpp:188-196 | the averages are inside the table if and only if the times fit; then every window holds the sum and the count of the rows whose end time falls into it |
| TimeWindows.SumsOfRearranged | main.cpp:57 | sorting the rows by end time changes neither sum nor count of any window |
| TimeWindows.EveryRowOnce | time_aq.hpp:25-38 | every row is counted in exactly one window, and the windows add up to all latencies |
| Analysis.FillColumn | main.cpp:44-54 | one row fills its own column, each of the nine cells with the latency the analysis names, and their sum modulo 2^64, and no other column |
| Analysis.StageColumns | main.cpp:40-57 | all columns, and the end times as a sorted permutation of the rows' own |
| Analysis.EndsAre | main.cpp:54-55 | the end time of a row is its entry plus its eight latencies modulo 2^64 |
| Analysis.WindowsHoldTheirRows | collector.hpp:188-196 | fed in sorted order, every window holds the sum and count of the rows whose own end time falls into it; no end time precedes the first, and the window is the elapsed one as long as an int can count it |

## Left out

- Quantile.QuantileMonotone: the numerators are required to fit. That condition is exact for the answers being right (Quantile.QuantilesExactIff) but only sufficient for growth; within one pair growth is exact under Quantile.PairGrowsIff, while pairs that lose different numbers of carries may still answer in order.
- Tdigest.Tdigest.Insert: the weight of the digest is required to stay below 2^32, so the 32-bit total never wraps. Only the instance with unsigned values and unsigned weights is modelled, the one the tracer uses.
- Compression.DigestBuffer.Insert: a full vector grows to some larger capacity that is not determined; weights must be positive, as the assertion in the code demands.
- Compression.Compress: means are real numbers, so floating-point rounding is not modelled, and the scale function (digestible.h:348-395) is an arbitrary function of capacity, total weight and weight so far.
- DigestRuns.TaperedRunEnds: that the limits are tapered is assumed, since logarithms and exponentials are not modelled. In real arithmetic the scale function stays below the total everywhere, and below 2 at the start for every capacity of at least 3 and total below 2^32. That a maximum was inserted once is sufficient for a single last centroid, not necessary; DigestWitnesses.TiesBreak shows that equal points can spoil it.
- OrderStatistics.QuantilesFromDigestIff: the numerators are required to fit; OrderStatistics.AllFromDigestIff does without that for the query computed without wrap-around. A wrapped answer may be a mean by accident.
- OrderStatistics.QuantilesArePointsIff: the digest is required to make nothing up. An interpolated answer may be a point by accident, one that a centroid between its neighbours has absorbed.
- Tdigest.Tdigest.InsertDigest: a digest inserted into itself is excluded, and only what the source has merged is inserted, as in the code.
- Cdf.InteriorMonotone: real arithmetic, as above.
- DioJoin.JoinIsSound: a generation of an event is what the tracer caches. If the filters hide a kfree probe, two dios of one iocb share an event, and the tracer itself cannot tell them apart. The clock is required to be strictly increasing and never zero.
- DioJoin.WasGivenItsUidIff: one dio per iocb while its event is cached is an assumption on the kernel; without it the guard is still sufficient (DioJoin.JoinIsSound).
- DioProbes.Tracer.DioIter: file and process names are not part of the event; the filters are one flag per probe call.
- DioProbes.Tracer.QueueRq: of the queue record only the queue and its time are modelled.
- BlockRuns.LiveTimestamps: the completion time that the kernel passes to the accounting probe is required to be unset or to lie between the request's start and the probe.
- Stages.BlkTraceModule.DoEvent: cells the code never sets (unknown insertion tag, unknown drive) hold whatever the fresh array held and are left undetermined. Fatal debug logging is treated as a release build does, as no effect. The second metadata call of the proxy is not modelled, and the 16-byte process name is one opaque cell.
- LogStore.Logger.constructor: registering formats and opening files are one step; two logs of one name count as two files, although both open the same path.
- LogStore.Logger.FlushAll: writes are assumed to be complete, failures of system calls are not modelled, the ring never runs out of submission slots, and a sync that is given no user data completes with 0. Waiting for the kernel terminates because some pending operation always completes.
- LogMeta.Collect: surrounding blanks, which the library's number parser accepts, are not modelled, and indexing past the end of a split is one `Undefined` result.
- HashJoin.BuildTable: lookups find the first of equal keys, as the common library implementation does. Indices are not cut to 32 bits.
- Heatmaps.Heatmap.GenHeatmap: at least one sample is required, which the collector guarantees; a resize that memory cannot hold is not modelled, and a bucket's own int does not overflow. A second generation adds to the first, which the contract shows.
- TimeWindows.TimeAvgPmc.Commit: nothing is said about the state after an index outside the table. The size of the table and the sums are unbounded, and the interval is not zero.
- The copy constructor, `swap` and move of the digest, which the tracer does not use.
- The throughput windows of time_aq.hpp, the distribution buckets of collector.hpp:158-186, the read/write and merge rates, and hctx_state.hpp.
- ext4_dio_simple.bpf.c: its probes up to the actor are those of ext4_dio_info.bpf.c, and its completion probe emits and forgets the event as the one at kfree does; it has neither uids nor a request cache.
- The grouping of joined rows and the JSON output of main.cpp, configuration, command line, skeleton loading and the Flask front end.
