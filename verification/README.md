# Verified model of the fraud scorer

The scorer answers one question per request: of the five references nearest to a
14-dimensional int16 query, under squared Euclidean distance, how many are frauds.
It does so through indexes, single-precision filters and early exits, and its worth
rests on those giving what a plain scan of the dataset gives. This project models
that machinery in Dafny, in the form the program has it (arrays, in-place updates,
loops, classes for the objects that change), and proves what it returns.

`dafny verify dfyconfig.toml` checks the whole project.

## How the pieces fit

* `Geometry`, `TopFive`: the space, and the specification everything is measured by.
  Whatever can occupy a slot of the top five has an identity (`Id`): a placeholder, a
  reference, or a padding lane. `Best5(f, t, seen)` says that `t` lists, without
  repetition and in ascending order of `f`, the five best of `seen`. Distances of two
  such lists agree slot by slot; fraud counts agree when the list is *decisive*
  (`FraudCountDetermined` shows that this is exactly when they are determined).
* `Brute`: the plain scan, with its five local variables and partial sums.
* `Float32`, `Kernels`, `Triangle`, `TriangleRounding`: the filters. Single precision is
  an arbitrary function `fl` with a relative error of 2^-24 that is exact on integers up
  to 2^24 (round-to-nearest of section 4.3.1 of IEEE 754-2019 is one), the square root
  an arbitrary function whose square is right up to 2^-22. No bit pattern is assumed.
* `Blocks`, `Lanes`: eight-lane blocks, which reference each lane holds, the scan of a run.
* `KdTree`, `PartitionKeys`, `SpecialistBuild`, `SpecialistSearch`, `SpecialistScore`,
  `SpecialistParity`: the exact index of KD-trees, from building it to the comparison
  with the scan.
* `Bitmap`, `Centroids`, `ClusterHeap`, `IvfIndex`, `IvfBuild`, `IvfSearch`, `IvfParity`,
  `IvfMiss`: the clustered index: picks, filters, escalation, full sweep.
* `Parity`: when an answer found among padded lanes is the answer of the scan.
* `KMeans`: seeding and Lloyd's iterations over exact reals.
* `HttpParsing`, `HttpRun`, `RawHttp`, `HttpResponse`, `HttpCases`: the pipelined connection
  loop. `HttpRun` says on paper what a connection does, as a function of the bytes, of how
  reads hand them out, of the writes that succeed and of the size of the buffer, and proves
  what follows; `RawHttp` is the loop over the buffer, proved to do exactly that.
* `Bytes`, `SpecialistCodec`, `IvfCodec`: the two file formats, as round trips and byte by
  byte, with the position and byte order of everything a file holds.
* `Calibrate`, `Calendar`: threshold calibration, day numbers.

Inputs the program does not control are parameters: the rounding function and root, the
summation order of the block kernel, whether the compiler fuses multiply-add, the
exchanges the library sort performs, random draws, how many bytes each read hands out,
when writes start to fail.

## Where the code does less than its comments say

* `internal/search/ivf.go:86-98` calls the production search exact by construction. It
  escalates to a bounded number of clusters only. It is exact precisely if every reference
  left out has five no farther among those scanned (`IvfParity.CoveredMeansExact`), and so
  whenever every cluster with members is among the nearest eight, which can be checked
  before the call (`IvfParity.NearMembersAreCovered`). It need not be: with fewer different
  vectors than clusters, k-means++ fills up with copies, and the copies at the query can
  take all eight picks. `IvfMiss.EveryOutcomeMisses` is a dataset of six references where
  every outcome finds no fraud and the scan finds four, under every admissible arithmetic;
  `IvfMiss.ProductionSearchMisses` trains, builds and searches it. The full sweep is exact.
* With one to four references the indexes and the scan differ: padding lanes take slots
  the scan leaves infinitely far. `Parity.DistancesAgree` is an if-and-only-if. The fraud
  counts agree even then if every fraud is scanned (`IvfParity.FewCountsAgree`).
* `internal/ivf/radii.go:13` bounds distances by the absolute value of the gap.
  `Triangle.AbsoluteGapFails` shows that false; the search uses the positive side only
  (`internal/search/ivf.go:182`), which is sound.
* `internal/ivf/index.go:221-236` promises an order inside clusters; the comparator looks
  at positions, not at the ids moved. Only "a permutation" is used.
* `internal/specialist/build.go:17-19` speaks of partitions sorted by population; the code
  sorts them by key.
* In `internal/api/rawhttp.go` the path is a slice of the read buffer, so it can change
  while the body is read. `HttpRun.PathIsRight` says exactly when it is right, and
  `HttpRun.NeverMoved` when it cannot go wrong: for the first request, for one none of
  which had arrived when the request before it was answered, and in any stream of at most
  4096 bytes. `HttpRun.StraddlingMoves` says which requests are moved when the first read
  fills the buffer. `HttpCases.MovedPathDiffers` gives two pipelined requests of which the second
  is routed under "te" instead of "/a"; handed out byte by byte they are answered rightly.
* A length that wraps to a negative number, as 9223372036854775808 does, makes the loop
  slice out of range, however the bytes come (`HttpRun.NegativeLengthBreaks`,
  `HttpCases.WrappedLengthBreaks`). So does a head without any space, exactly if it ends
  with the buffer (`HttpRun.SpacelessHeadBreaks`, and the `Panicked` case of
  `HttpRun.LifeServes`, which is an if-and-only-if for any request).
* `internal/api/rawhttp.go:242` skips the byte after the colon of Content-Length, so
  the declared length is used exactly when a space follows (`DeclaredLengthUsed`); section
  5.5 of RFC 9110 makes that space optional.
* The mapped reader of the clustered index fails on an index without blocks, which the
  stream reader accepts (`IvfCodec.ReadersAgree`).
* `internal/specialist/index.go:153-154` sizes the block buffer in 32 bits
  (`SpecialistCodec.WriteBlocks`).
* `cmd/calibrate/main.go:259-264`: a fixable record with a distance below 2 leaves no
  positive threshold, and is not escalated (`Calibrate.AllFixedIff`).
* `internal/vector/fast.go:356-364`: the last day of year 0 and the first of year 1 get the
  same number, because division truncates towards zero (`Calendar.NextDayNumber`).

## Model

| member | source | states |
|---|---|---|
| `TopFive.OfferKeepsBest` | internal/search/top5.go:43-55 | offering an unseen candidate to a list of the five best gives the five best of one candidate more, and never worsens the worst |
| `TopFive.SkipKeepsBest` | internal/specialist/search.go:207-209 | ignoring any candidates no nearer than the current worst leaves the list the best of all of them |
| `TopFive.BestDistancesUnique` | internal/search/top5.go:10-13 | two lists of the five best of the same candidates agree in every distance, however ties were broken |
| `TopFive.BestDistancesShrink` | internal/search/top5.go:43-55 | with more candidates seen no slot gets farther |
| `TopFive.DecisiveCountUnique` | internal/search/top5.go:58-60 | if the ties at the fifth distance all carry one label, or fall inside the list, every list of the five best has the same fraud count |
| `TopFive.FraudCountDetermined` | internal/search/top5.go:58-60 | the fraud count is determined by the candidates exactly when the list is decisive |
| `TopFive.ForgetFar` | internal/specialist/search.go:62-74 | candidates farther than five others (padding, placeholders) can be left out of account |
| `TopFive.Top5.Reset` | internal/search/top5.go:24-29 | leaves five placeholders at 2^62 with label 0, the best of nothing offered |
| `TopFive.Top5.InsertI64` | internal/search/top5.go:43-55 | turns the list into the list with the candidate offered, distances and labels moved together; unchanged when no nearer than the worst |
| `TopFive.Top5.MakeRoom` | internal/search/top5.go:47-52 | the shifting loop: slots farther than the newcomer move one place, the rest stay, and the gap is the first slot that is farther |
| `TopFive.Top5.FraudCount` | internal/search/top5.go:58-60 | the sum of the labels is the number of frauds among the five candidates shown |
| `TopFive.FraudsCount` | internal/search/top5.go:58-60 | for a list without repetition that number is the size of the set of frauds in it |
| `Geometry.PhantomFarther` | internal/specialist/build.go:142-149 | a padding lane is strictly farther from every quantised query than every quantised reference |
| `Geometry.BoxBoundSound` | internal/search/bbox.go:3-7 | the exact box bound never exceeds the distance to a vector inside the box |
| `Geometry.BoxBoundReached` | internal/search/bbox.go:3-7 | and is the distance to one such vector, so it is the largest sound bound |
| `Geometry.BoxBoundBelowPhantom` | internal/ivf/index.go:178-190 | nor the distance to a padding lane |
| `Brute.FraudCountBrute` | internal/search/bruteforce.go:7-51 | returns the five distances and the fraud count of a list that is best among placeholders and all references: partial sums and early exits lose nothing |
| `Brute.CascadeIsOffer` | internal/search/bruteforce.go:56-72 | the five-way cascade does to distances and labels exactly what offering the candidate does |
| `Brute.CappedDist` | internal/search/bruteforce.go:18-28 | the capped sum reaches the current worst exactly when the full distance does, and is the distance otherwise |
| `Float32.NearLaneSurvives` | internal/search/top5.go:15-39 | a vector nearer than the worst keeps its single-precision sum below the threshold, for all int16 coordinates, after any number of dimensions, for the sequential and the two-accumulator order, fused or not |
| `Float32.FarLaneDropped` | internal/search/top5.go:15-39 | a vector farther than the worst by more than 130600 over the dimensions summed is above the threshold |
| `Float32.NearBoxSurvives` | internal/search/bbox.go:18-36 | a box whose exact bound is below the worst keeps its computed bound below the threshold |
| `Float32.FarBoxPruned` | internal/search/bbox.go:18-36 | and one farther by more than 130600 is pruned |
| `Float32.ThresholdAbove` | internal/search/top5.go:37-39 | the rounded threshold lies more than 58000 above every exact distance below the worst |
| `Float32.LaneSumWithin` | internal/kernel/dist_generic.go:30-35 | the sequential sum stays within one rounding allowance either way per dimension of the exact partial distance |
| `Float32.MergedSumBound` | internal/kernel/dist_amd64.s:61-176 | so does the sum of the two accumulators for even and odd dimensions |
| `Kernels.ScanBlock8Generic` | internal/kernel/dist_generic.go:14-58 | reports alive exactly when some lane is below the threshold both after 8 and after 14 dimensions; if alive the sums are those of every lane |
| `Kernels.ScanBlock8TwoAccumulators` | internal/kernel/dist_amd64.s:61-176 | the same for the vector kernel as a second summation order |
| `Kernels.KernelMissesNothing` | internal/kernel/dist_generic.go:37-57 | a block with a lane nearer than the worst is alive, and that lane is below the threshold |
| `Kernels.LaneStands` | internal/ivf/index.go:170-176 | coordinate d of lane l of block b is number 112 b + 8 d + l of the block data |
| `Kernels.AabbLowerBoundF32` | internal/specialist/search.go:318-336 | the loop computes the sequential rounded box sum (the other copy, which adds zeros, is the same with one flag) |
| `Blocks.ExactI64Dist` | internal/specialist/search.go:300-310 | re-ranking computes the exact distance of one lane of the dimension-major block |
| `Blocks.FilteredIsFar` | internal/specialist/search.go:283-290 | every lane the filter drops, alone or with its block, is at least as far as the worst it was compared with |
| `Blocks.ScanRun` | internal/specialist/search.go:274-297 | scanning consecutive blocks turns the best of what was seen into the best of that and every lane of the blocks, each counted once |
| `Lanes.PruneKeepsBest` | internal/specialist/search.go:207-209 | a run of lanes whose box bound reaches the threshold can be skipped whole: the list stays the best of everything including that run |
| `SpecialistSearch.SearchKdTree` | internal/specialist/search.go:193-256 | the walk ends with the best of what was seen before and all candidates of the tree; the stack holds at most its 64 entries and the guard never drops a child that could matter |
| `SpecialistSearch.Descend` | internal/specialist/search.go:215-244 | one internal node: whichever child is not pushed or entered holds nothing nearer than the worst |
| `SpecialistSearch.ScanLeaf` | internal/specialist/search.go:262-297 | a leaf contributes exactly the lanes of its blocks |
| `SpecialistScore.SortBounds` | internal/specialist/search.go:161-170 | the directory comes out in ascending order of bound and is a permutation of what went in |
| `SpecialistScore.InsertBound` | internal/specialist/search.go:162-170 | one step of the insertion sort, through a hole that moves down |
| `SpecialistScore.CollectOthers` | internal/specialist/search.go:141-151 | lists every partition but the same-key one exactly once, each with its box bound |
| `SpecialistScore.PartitionByKey` | internal/specialist/index.go:98-105 | the first partition with the key, or -1 when none has it |
| `SpecialistScore.Sweep` | internal/specialist/search.go:172-183 | visiting partitions in ascending order and stopping at the first bound that reaches the threshold leaves out nothing that matters |
| `SpecialistScore.FraudCount` | internal/specialist/search.go:104-186 | on any sound index the result is the best among all lanes of the index, and the number of frauds in it |
| `PartitionKeys.ComputeKey` | internal/specialist/partition.go:41-89 | builds the key bit by bit |
| `PartitionKeys.KeyTells` | internal/specialist/partition.go:41-89 | each bit of a key, and the two of the merchant category, says on which side of its threshold one coordinate lies |
| `PartitionKeys.KeyIsPattern` | internal/specialist/partition.go:25-40 | two vectors share a key exactly when they share all seven categorical facts |
| `SpecialistBuild.Build` | internal/specialist/build.go:23-84 | the index is sound: partitions in ascending key order with exactly the references of their key, every reference in exactly one lane with its own coordinates and label, every box around what lies below, every leaf filled with as many references as it counts and padding after them, trees no higher than the search stack |
| `SpecialistBuild.Builder.BuildKdTree` | internal/specialist/build.go:92-186 | appends one tree that holds exactly the given members, with boxes that enclose them and a height bounded by the halvings down to 128 |
| `SpecialistBuild.Builder.AppendLeaf` | internal/specialist/build.go:125-160 | a leaf stores its members in order, one per lane, and pads the last block with lanes at 32767 |
| `SpecialistBuild.SplitMembers` | internal/specialist/build.go:162-174 | the two halves are a permutation of the members and none of the first exceeds one of the second in the widest dimension |
| `SpecialistBuild.SortRange` | internal/specialist/build.go:165-170 | sorts a range by one coordinate in place and touches nothing outside it |
| `SpecialistBuild.WidestDim` | internal/specialist/build.go:190-201 | the dimension of largest extent, the lowest on ties |
| `SpecialistBuild.Bucket` | internal/specialist/build.go:26-36 | each reference is in the bucket of its key, once, in ascending order |
| `SpecialistBuild.Flatten` | internal/specialist/build.go:72-81 | flattening keeps every lane at block * 112 + dimension * 8 + lane |
| `SpecialistBuild.HeightBound` | internal/specialist/build.go:125-174 | a tree over at most 2^32 references has height at most 25, well under the stack of 64 |
| `Lanes.BoundingBox` | internal/specialist/build.go:99-120 | the tight box of the members, lanes 14 and 15 zero |
| `Parity.DistancesAgree` | internal/search/bruteforce.go:5-6 | the five distances found through an index are those of the scan exactly when there are no references or at least five |
| `Parity.FraudCountsAgree` | internal/search/bruteforce.go:5-6 | the fraud counts agree with fewer than five references, and otherwise whenever the scan is decisive |
| `Parity.CountIsRight` | internal/search/bruteforce.go:5-6 | for every number of references and all ties, the count found through an index is the count of some list the scan could rightly return |
| `Parity.AgainstScan` | internal/search/bruteforce.go:7-51 | any answer that is best among the lanes of a complete index, its count and its five distances, set against the scan |
| `SpecialistParity.Compare` | internal/specialist/search.go:100-103 | end to end, for every dataset and query: build, search, scan; the five distances returned are equal exactly with no or at least five references, the counts with fewer than five or a decisive scan |
| `Bitmap.SetTests` | internal/search/ivf.go:125 | setting bit c % 64 of word c / 64 makes that bit test true and no other |
| `Bitmap.Mark` | internal/search/ivf.go:125 | adds exactly one cluster to the set recorded |
| `Bitmap.Clear` | internal/search/ivf.go:114-116 | leaves no cluster recorded |
| `Centroids.PickArgminScalar` | internal/search/centroid.go:166-176 | the smallest distance, at its lowest index |
| `Centroids.PickTopNCentroids` | internal/search/centroid.go:186-233 | lists min(n, eligible) of the eligible ids once each in ascending distance, then sentinels; nothing left out is nearer than anything listed |
| `Centroids.ShiftIn` | internal/search/centroid.go:217-221 | the shift inserts at one position, drops the last and touches nothing behind the picks |
| `Centroids.JointPicks` | internal/search/ivf.go:155-163 | a pick followed by a pick of what the first left open is one pick of both sizes |
| `ClusterHeap.SiftUp` | internal/search/centroid.go:85-101 | restores heap order after an insertion; both arrays keep the same pairs |
| `ClusterHeap.SiftDown` | internal/search/centroid.go:102-123 | restores heap order below the root; both arrays keep the same pairs |
| `ClusterHeap.Extract` | internal/search/centroid.go:133-160 | reads the heap out into ascending order, farthest last |
| `ClusterHeap.PickNextNUnscanned` | internal/search/centroid.go:51-161 | lists min(n, unscanned) clusters whose bit is clear, once each in ascending distance, then sentinels; nothing unscanned left out is nearer |
| `ClusterHeap.RootIsFarthest` | internal/search/centroid.go:53-58 | the root is the farthest of the clusters kept, so comparing with it alone is enough |
| `Triangle.CauchySchwarz` | internal/ivf/radii.go:11-16 | the inner product squared never exceeds the product of the squared distances, over 14 dimensions |
| `Triangle.TriangleSound` | internal/ivf/radii.go:11-16 | with exact arithmetic the squared positive gap never exceeds the squared distance to a member the radius covers |
| `Triangle.AbsoluteGapFails` | internal/ivf/radii.go:13 | for every member and positive radius some query breaks the bound with the absolute value |
| `TriangleRounding.TriangleKeepsNear` | internal/search/ivf.go:178-185 | with rounded distances, roots and gap the filter never skips a cluster with a quantised member nearer than the worst |
| `TriangleRounding.RealSumNear` | internal/search/centroid.go:16-34 | the accumulated distance to a centroid is right up to 32 units of 2^-24 (fused or not) |
| `IvfBuild.Build` | internal/ivf/index.go:69-195 | refuses an assignment of the wrong length; otherwise offsets, boxes, radii and blocks form a sound index in which every reference lies in exactly one lane, in the cluster it is assigned to, with its own label |
| `IvfBuild.FillBuckets` | internal/ivf/index.go:82-89 | each bucket lists the ids assigned to its cluster in ascending order |
| `IvfBuild.ComputeOffsets` | internal/ivf/index.go:91-101 | offsets are the running sums of the blocks each bucket needs |
| `IvfBuild.ComputeBoxes` | internal/ivf/index.go:111-150 | tight boxes for nonempty clusters, the far corner in all 16 lanes for empty ones |
| `IvfBuild.LayOut` | internal/ivf/index.go:152-191 | the lanes of the clusters tile the blocks; each cluster holds a permutation of its bucket and padding |
| `IvfBuild.WriteCluster` | internal/ivf/index.go:168-190 | members in order from the first block of the cluster on, then lanes at 32767 up to a whole block; earlier lanes stay |
| `IvfBuild.SortIds` | internal/ivf/index.go:224-236 | whatever exchanges the library sort performs, the ids are only permuted |
| `IvfBuild.ComputeRadii` | internal/ivf/radii.go:27-62 | the radius is the root of the largest computed distance over the lanes of the cluster, padding included, and 0 for an empty one |
| `IvfIndex.HeldApart` | internal/ivf/index.go:91-101 | a cluster shares no candidate with the clusters already scanned |
| `IvfIndex.HeldAll` | internal/ivf/index.go:91-101 | all clusters together hold every lane of the index |
| `IvfSearch.ScoreAllCentroids` | internal/search/centroid.go:16-34 | after the dimension-by-dimension loops every centroid has its own sequential distance |
| `IvfSearch.ScanCluster` | internal/search/ivf.go:170-222 | skipped by either filter or scanned block by block, the cluster is accounted for: the list is the best of one cluster more |
| `IvfSearch.TriangleSkipKeepsBest` | internal/search/ivf.go:178-185 | skipping by the triangle filter loses nothing, padding lanes included |
| `IvfSearch.BoxSkipKeepsBest` | internal/search/ivf.go:187-194 | skipping by the box filter loses nothing, empty clusters included |
| `IvfSearch.ScanPicked` | internal/search/ivf.go:118-126 | scans the picks up to the first sentinel; the bitmap then records exactly the clusters scanned and the list is their best |
| `IvfSearch.FraudCountFastOnly` | internal/search/fast.go:17-43 | the list is the best of the nearest nprobe clusters (at most 256), which the bitmap records |
| `IvfSearch.FraudCountFull` | internal/search/fast.go:50-64 | the list is the best among all lanes of the index |
| `IvfSearch.FraudCountIvf` | internal/search/ivf.go:100-167 | the list is the best of the clusters recorded, which are as many of the nearest as the fast tier calls for, in ascending order and without repetition; escalation makes no slot farther |
| `IvfParity.ClustersScanned` | internal/search/ivf.go:145-166 | in numbers: the fast tier scans 8 clusters; with 2, 3 or 4 frauds among its five 40, 200 or 64 are scanned in all, with 5 and a fifth distance above 100905918 it is 24, otherwise 8 |
| `IvfParity.GateIsCalibrated` | internal/search/ivf.go:145-152 | more than 8 clusters are scanned exactly for the records that calibration projects as escalated with the thresholds in use |
| `IvfSearch.EscalateBy` | internal/search/ivf.go:153-163 | adds the nearest n clusters not recorded yet, no cluster twice |
| `IvfParity.PartIsEnough` | internal/search/ivf.go:100-167 | the best of a part has the distances of the best of the whole exactly when nothing outside is nearer than its fifth |
| `IvfParity.CoveredMeansExact` | internal/search/ivf.go:86-98 | with five references or more the clusters scanned give the distances of the scan exactly when every reference outside them has at least five references inside that are no farther |
| `IvfParity.NearMembersMeanFull` | internal/search/ivf.go:100-167 | if every cluster with blocks is among the eight nearest centroids, ties included, the search finds the distances of the full sweep |
| `IvfParity.NearMembersAreCovered` | internal/search/ivf.go:86-98 | and then it finds those of the scan: no reference is left out |
| `IvfParity.CompareFull` | internal/search/fast.go:45-49 | end to end, for every dataset, assignment and query: the five distances the full sweep returns are those of the scan exactly with no or at least five references, and the counts agree with fewer than five or a decisive scan |
| `IvfParity.CompareIvf` | internal/search/ivf.go:100-167 | the production search and the scan, run on any sound index: with five references or more the five distances are equal exactly if the clusters scanned cover the rest, and always if every cluster with members is among the nearest eight; then a decisive scan gives equal counts; with fewer than five the counts are equal exactly if no fraud is left out of the clusters scanned |
| `IvfParity.FewCountsAgree` | internal/search/ivf.go:86-98 | with fewer than five references the search counts exactly the frauds among those it scans, so its count is the scan's exactly if it scans them all |
| `IvfMiss.ProductionSearchMisses` | internal/search/ivf.go:86-98 | there is such an outcome: training, indexing, searching and scanning six references returns the counts 0 and 4 |
| `IvfMiss.EveryOutcomeMisses` | internal/search/ivf.go:86-98 | however that dataset is trained on with these draws, indexed and searched, under every admissible arithmetic and order inside clusters: no fraud and another fifth distance where the scan has four frauds |
| `IvfMiss.DuplicatesMiss` | internal/search/ivf.go:86-167 | the same for any centroids that are copies of the two vectors, at least eight of them at the query |
| `IvfMiss.TrainingRepeats` | internal/ivf/kmeans.go:43-134 | these draws make training return one copy of the far vector and copies of the near one in all other places |
| `KMeans.AssignSample` | internal/ivf/kmeans.go:150-167 | every vector gets its nearest centroid, the lowest index on ties |
| `KMeans.UpdateCentroids` | internal/ivf/kmeans.go:172-195 | every centroid with members becomes their mean, every other stays |
| `KMeans.Inertia` | internal/ivf/kmeans.go:224-233 | the loop computes the sum of squared distances |
| `KMeans.NearestIsBest` | internal/ivf/kmeans.go:147-149 | nearest assignment has no higher inertia than any assignment |
| `KMeans.MeansAreBest` | internal/ivf/kmeans.go:169-171 | for a fixed assignment no choice of centroids has lower inertia than the means, empty clusters included |
| `KMeans.MeanIsBest` | internal/ivf/kmeans.go:188-194 | no point costs the members of a cluster less than their mean |
| `KMeans.LloydRound` | internal/ivf/kmeans.go:50-53 | one round is nearest assignment, then means with empty clusters kept; it leaves the inertia no higher than under any earlier assignment and centroids |
| `KMeans.MeansStayInCube` | internal/ivf/kmeans.go:172-195 | centroids stay within the coordinates of quantised vectors |
| `KMeans.PickWeighted` | internal/ivf/kmeans.go:121-130 | the draw takes exactly the first index whose running sum reaches it, with positive weight if the draw is positive |
| `KMeans.UpdateNearest` | internal/ivf/kmeans.go:137-145 | keeps every distance that of the nearest centroid so far |
| `KMeans.InitKMeansPlusPlus` | internal/ivf/kmeans.go:100-134 | every seed is the sample vector the draws select, in proportion to the squared distances or at random when they are all zero; seeds are all different if the sample has as many different vectors and no draw is zero |
| `KMeans.DrawInProportion` | internal/ivf/kmeans.go:121-130 | the draws that select a vector are exactly those between the share of the total that ends before it and the one that ends with it: an interval as long as its squared distance over the total |
| `KMeans.TrainKMeans` | internal/ivf/kmeans.go:43-56 | the centroids after seeding and after each of the six rounds, with the assignment of each: the inertia never rises from one iteration to the next, the last are returned, and they stay in the cube the triangle filter needs |
| `KMeans.SettledTraining` | internal/ivf/kmeans.go:50-53 | once every sample vector is a centroid the iterations change nothing |
| `KMeans.UncoveredDrawsNew` | internal/ivf/kmeans.go:111-131 | while a sample vector is not a centroid, a positive draw takes one that is not |
| `KMeans.CoveredDrawsAny` | internal/ivf/kmeans.go:116-120 | when all are, the next centroid is a vector drawn at random |
| `HttpParsing.IndexHeaderEnd` | internal/api/rawhttp.go:213-220 | the first blank line, or -1 when there is none |
| `HttpParsing.HeadLenOfPrefix` | internal/api/rawhttp.go:136-140 | a head found in the bytes received so far is the head of the whole stream |
| `HttpParsing.NoHeadInBuffer` | internal/api/rawhttp.go:142-155 | 8192 bytes, or a whole stream, without a blank line hold no acceptable head |
| `HttpParsing.NoHeadInside` | internal/api/rawhttp.go:136-140 | while no blank line was received the head is longer than what was |
| `HttpParsing.FindContentLength` | internal/api/rawhttp.go:239-255 | the value of the first Content-Length header in any case, in wrapping 64-bit arithmetic; 0 without one |
| `HttpResponse.ContentLengthIs` | internal/api/rawhttp.go:239-255 | that value is the number its run of digits stands for, less the multiple of 2^64 that brings it into the signed range; one byte after the colon and then spaces are passed over, and the first byte that is no digit ends it |
| `HttpResponse.ContentLengthWithout` | internal/api/rawhttp.go:239-255 | and 0 where no name is recognised |
| `HttpParsing.IsContentLengthPrefix` | internal/api/rawhttp.go:257-272 | true exactly when the fifteen bytes of the name stand there, each letter in either case, and one more byte follows |
| `HttpParsing.NameInAnyCase` | internal/api/rawhttp.go:257-272 | a header name is recognised exactly where each byte is that of content-length: or the upper case of its letter |
| `RawHttp.Conn.Read` | internal/api/rawhttp.go:156-163 | as many bytes as the plan says, at least one and at most the room offered, which is never empty, or 0 at the end |
| `RawHttp.FindHead` | internal/api/rawhttp.go:133-164 | ends with the head of the request at the front, the cursors where the model has them, or because the stream has none within 8192 bytes |
| `RawHttp.ReadBody` | internal/api/rawhttp.go:170-193 | ends with the body complete and the cursors where the model has them, or because the stream is too short; says what the bytes of the head show afterwards, moved or not |
| `RawHttp.MakeRoom` | internal/api/rawhttp.go:142-155 | leaves room to read and the same bytes held, unless 8192 are held already |
| `RawHttp.ParseRequestLine` | internal/api/rawhttp.go:224-237 | the offsets of the second word of the request line, one past the head without a space |
| `RawHttp.HandleRawConn` | internal/api/rawhttp.go:119-211 | sends exactly what the model says for these bytes, this plan of reads, these writes and this buffer, and ends for the reason it says; hence the requests answered are the first of the reference framing, in order, placed as the model has them |
| `RawHttp.ServeTwice` | internal/api/rawhttp.go:119-211 | for each of two ways of handing out the same bytes, exactly what the model says; so the same requests as far as both go, and the same responses if no request was moved |
| `HttpRun.FillTo` | internal/api/rawhttp.go:170-193 | reading until enough is held keeps the place of the request in the stream, and in the buffer exactly if it is at the front or ends inside |
| `HttpRun.LifeServes` | internal/api/rawhttp.go:119-211 | for every way of handing out the bytes the requests answered and what follows them make up the reference framing, and the loop stops at a slice out of range exactly if the next head makes it take one, else for lack of a whole request, else at a failed write |
| `HttpRun.PathIsRight` | internal/api/rawhttp.go:166-195 | the routed path is the requested one exactly if the bytes that slid under it, if any, are the same |
| `HttpRun.NeverMoved` | internal/api/rawhttp.go:170-178 | the first request is never moved, nor one none of which had arrived before, nor any of a stream of at most 4096 bytes |
| `HttpRun.StraddlingMoves` | internal/api/rawhttp.go:170-178 | if the first read fills the buffer of 4096 bytes, an answered request that starts within them is moved exactly if it is not the first, its head is complete in them and its body is not |
| `HttpRun.UnmovedRepliesIdeal` | internal/api/rawhttp.go:195-198 | if no request is moved, what is sent is the route of the path and body of each request of the stream |
| `HttpRun.RegularLife` | internal/api/rawhttp.go:119-211 | without a malformed head every request is answered, until a write fails |
| `HttpRun.SmallStream` | internal/api/rawhttp.go:119-211 | a stream of at most 4096 bytes without malformed heads gets the intended answers however the bytes are handed out |
| `HttpRun.TwoSmallLives` | internal/api/rawhttp.go:119-211 | and so the same status and the same responses for any two ways of handing it out, in buffers of either size |
| `HttpRun.OneByOneStream` | internal/api/rawhttp.go:119-211 | so does any such stream, of any length, handed out byte by byte |
| `HttpRun.SameAnswers` | internal/api/rawhttp.go:195-198 | equal requests, none of them moved, get equal responses |
| `HttpRun.TwoLives` | internal/api/rawhttp.go:119-211 | two ways of handing out the same bytes give the same requests unless one is cut short, and the same responses if no request was moved |
| `HttpRun.NegativeLengthBreaks` | internal/api/rawhttp.go:166-195 | a head with a negative length makes the loop slice out of range, however the bytes come, once everything before it was answered |
| `HttpRun.SpacelessHeadBreaks` | internal/api/rawhttp.go:224-237 | a head without a space at the front of the buffer does exactly if it is as long as the buffer that holds it |
| `HttpCases.MovedPathDiffers` | internal/api/rawhttp.go:173-178 | two pipelined requests of which, if the first read fills the buffer, the second is routed under te instead of /a, whatever its body and the reads that follow |
| `HttpCases.OneByOneIsRight` | internal/api/rawhttp.go:195-207 | the same bytes handed out one by one are answered as intended |
| `HttpCases.ServeAtOnce` | internal/api/rawhttp.go:119-211 | the loop run on the first |
| `HttpCases.ServeOneByOne` | internal/api/rawhttp.go:119-211 | and on the second |
| `HttpCases.WrappedLengthBreaks` | internal/api/rawhttp.go:246-251 | a first request that declares a length from 2^63 up to 2^64 makes the loop slice out of range, however its bytes come |
| `HttpCases.WrappedBreaks` | internal/api/rawhttp.go:246-251 | there is such a request for every such length |
| `HttpResponse.Itoa` | internal/api/rawhttp.go:55-67 | writes the decimal digits of any number below 10^16 |
| `HttpResponse.DecimalIs` | internal/api/rawhttp.go:55-67 | those digits stand for the number, without a leading zero |
| `HttpResponse.NumberReadsDecimal` | internal/api/rawhttp.go:246-251 | reading back a decimal number below 2^63 gives that number |
| `HttpResponse.DeclaredLengthUsed` | internal/api/rawhttp.go:241-251 | the declared length is the one used exactly when a space follows the colon or it is zero |
| `HttpResponse.DeclaredLengthWraps` | internal/api/rawhttp.go:246-251 | a declared length from 2^63 up to 2^64 comes out as that number less 2^64 |
| `HttpResponse.BuildResp` | internal/api/rawhttp.go:45-53 | status line and headers, the length of the body in decimal, a blank line, the body |
| `HttpResponse.HeadText` | internal/api/rawhttp.go:45-53 | the text of the status line and of both headers, letter by letter, and the blank line |
| `HttpResponse.ResponsesRoundTrip` | internal/api/rawhttp.go:45-53 | any sequence of such responses is told apart again by the framing of the requests, each with its own body |
| `Bytes.I16sRoundTrip` | internal/specialist/index.go:257-267 | a run of signed 16-bit numbers comes back, negative ones included |
| `Bytes.U32sRoundTrip` | internal/ivf/index.go:340-344 | a run of unsigned 32-bit numbers comes back |
| `Bytes.PutU32Is` | internal/ivf/index.go:243-247 | byte k of a written 32-bit number is its digit k to the base 256, lowest first |
| `Bytes.PutU16Is` | internal/specialist/index.go:257-261 | and so for 16 bits |
| `Bytes.ReadsAs` | internal/ivf/index.go:296-304 | four bytes read as a number exactly if they are its digits in that order |
| `Bytes.SignedIs` | internal/specialist/index.go:257-267 | signed and unsigned forms of a number differ by a multiple of 2^16 or 2^32 |
| `SpecialistCodec.Serialize` | internal/specialist/index.go:109-167 | fails exactly as the number of writes that succeed and the size of the block buffer say; if not, the stream grows by the encoding of the index |
| `SpecialistCodec.WriteBlocks` | internal/specialist/index.go:152-160 | the block buffer suffices exactly when 224 times the block count is below 2^32 |
| `SpecialistCodec.ParseInto` | internal/specialist/index.go:180-255 | the loops over entries compute the parse of the bytes, with each way to fail, whatever lies behind them in the same allocation: a directory cut short is out of range only past its end, and otherwise found with the blocks |
| `SpecialistCodec.FileRoundTrip` | internal/specialist/index.go:109-255 | parsing the encoding of any index that fits the format gives it back field for field, whatever follows |
| `SpecialistCodec.HeaderIs` | internal/specialist/index.go:109-121 | the 48 bytes of the header: SPCST001, 1, 10000, the four counts, sixteen zeros |
| `SpecialistCodec.WrittenHolds` | internal/specialist/index.go:109-167 | every field of every entry, number and label of a written index stands at the position the format gives it |
| `SpecialistCodec.HeaderChecked` | internal/specialist/index.go:180-196 | which bytes make a file be refused for its magic word, its version or its scale |
| `SpecialistCodec.ParsedHolds` | internal/specialist/index.go:180-255 | whatever is parsed stands at those positions, whoever wrote the bytes |
| `IvfCodec.Serialize` | internal/ivf/index.go:240-271 | succeeds exactly if seven writes do; then the stream grows by the encoding of the index |
| `IvfCodec.Load` | internal/ivf/index.go:288-329 | the stream reader computes the parse of its bytes |
| `IvfCodec.ParseMmappedIndex` | internal/ivf/mmap_linux.go:86-132 | the offset arithmetic of the mapped reader computes the parse of its bytes |
| `IvfCodec.ReadersAgree` | internal/ivf/mmap_linux.go:84-132 | the mapped reader accepts exactly the files the stream reader accepts that end with the last section and have no empty one, with the same contents |
| `IvfCodec.FileRoundTrip` | internal/ivf/index.go:240-332 | what was written is read back by the stream reader whatever follows; by the mapped reader exactly if nothing follows and no section is empty |
| `IvfCodec.HeaderIs` | internal/ivf/index.go:240-249 | the 32 bytes of the header: IVF8, 5, the three counts, 10000, eight zeros |
| `IvfCodec.WrittenHolds` | internal/ivf/index.go:240-271 | every centroid, offset, box, label and coordinate of a written index stands at the position the format gives it |
| `IvfCodec.HeaderChecked` | internal/ivf/index.go:288-298 | which bytes make either reader refuse a file for its magic word or its version |
| `IvfCodec.LoadedHolds` | internal/ivf/index.go:288-329 | whatever is read stands at those positions, whoever wrote the bytes |
| `Calendar.DayNumberFromYmd` | internal/vector/fast.go:356-364 | the day number of a date, division truncating towards zero |
| `Calendar.NextDayNumber` | internal/vector/fast.go:355-364 | the next calendar day has the next number, for every date from year 0 on but the last day of year 0 |
| `Calendar.DayNumberCounts` | internal/vector/fast.go:355-364 | numbers count days since January 1 of year 1 |
| `Calendar.DayNumberIsMonotone` | internal/vector/fast.go:355-364 | from year 1 on a date is before another exactly when its number is smaller |
| `Calendar.WeekdaysCycle` | internal/vector/fast.go:91 | every date is the one its number counts to, and weekdays cycle by seven |
| `Calibrate.ComputeThresholds` | cmd/calibrate/main.go:265-294 | for each class that does not always escalate: one below the smallest distance among its fixable records, or 0 without any |
| `Calibrate.ApprovedUpToTwo` | cmd/calibrate/main.go:55 | exactly the counts up to 2 are approved |
| `Calibrate.FixableIs` | cmd/calibrate/main.go:138-142 | a record of a class up to 2 is fixable exactly if it should be denied and the full sweep finds 3 frauds or more; one of a class from 3 exactly if it should be approved and the full sweep finds 2 or fewer |
| `Calibrate.ApprovingThreshold` | cmd/calibrate/main.go:265-294 | so the threshold of classes 0 and 1 is one below the smallest distance among the records of the first kind |
| `Calibrate.DenyingThreshold` | cmd/calibrate/main.go:265-294 | and that of class 5 one below the smallest among those of the second |
| `Calibrate.AllFixedIff` | cmd/calibrate/main.go:259-264 | every fixable record escalates exactly when none outside classes 2 to 4 has a distance below 2 |
| `Calibrate.ThresholdIsLargest` | cmd/calibrate/main.go:287-291 | a positive threshold is the largest below every fixable distance of its class |
| `Calibrate.Project` | cmd/calibrate/main.go:168-185 | counts the records still wrong, by the side they err on |
| `Calibrate.WrongIs` | cmd/calibrate/main.go:168-185 | still wrong are those with a final count up to 2 that should be denied and those with one from 3 that should be approved |
| `Calibrate.StillWrongIsHopeless` | cmd/calibrate/main.go:168-185 | what is still wrong the full sweep gets wrong too, exactly under the same condition |

## Left out

- SpecialistBuild.Build: does not model the 32-bit product in the size of the flattened blocks (`internal/specialist/build.go:76-77`), which wraps beyond 38 million blocks.
- SpecialistBuild.SortRange: models the library's stable sort as insertion sort and does not state stability, which nothing downstream uses.
- IvfBuild.SortIds: models the library's stable sort as an arbitrary sequence of exchanges, because its comparator makes the order meaningless.
- RawHttp.HandleRawConn: a read that returns neither bytes nor an error, which the reader interface discourages, is not modelled; a read error ends the input.
- HttpRun.PathIsRight: routing itself is a function parameter of path and body; the prebuilt responses for paths and methods are not modelled.
- IvfCodec.Load: does not model the radii computed after reading (`internal/ivf/index.go:330`); `IvfBuild.ComputeRadii` does.
- KMeans.TrainKMeans: works over exact reals; the single-precision store of the means and the double-precision sums are not modelled, and the sample is a given sequence rather than drawn.
- Centroids.PickArgminScalar: the vector arg-min is not modelled; it does not promise the lowest index on ties.
- Kernels.ScanBlock8TwoAccumulators: the assembly enters only as an order of summation, not as instructions.
- Fused multiply-add, denormals and infinities of single precision enter only through the two hypotheses on `fl`; sums never leave their range.
- The dataset is a sequence of vectors rather than one flat slab of coordinates; its values are assumed to be in [-10000, 10000], as the quantisers produce them (`internal/dataset/dataset.go:82-93`, `internal/vector/fast.go:369-378`).
- Indexes and counts are unbounded integers except where a wrap is named above.
- `FraudCountTopN` and `FraudCountTopNByClass` (`internal/search/fast.go:71-145`): the production search with other counts; they would repeat `FraudCountIvf`.
- `AssignAll` (`internal/ivf/kmeans.go:200-220`): the loop of `AssignSample` over the whole dataset.
- Whether a query is escalated often enough on real traffic, and any count of wrong decisions: facts about one dataset.
- JSON extraction, float parsing, dataset loading, the load balancer and its descriptor passing, memory mapping, the load shedder and readiness flags.
