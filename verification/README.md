# A verified model of a learned-index benchmark

The repository benchmarks learned and classical indexes over sorted keys. This project models the parts of
it whose correctness is not obvious, and proves that they do what they are for:

- **How hard a key set is.** A streaming fitter keeps two half-hulls and four corner points and decides, point
  by point, whether one line still passes within epsilon of all points of a segment
  (`Geometry`, `HalfHull`, `SegmentState`, `FittedSegment`, `PiecewiseFit`). The metric counts its greedy
  segments (`PgmMetric`).
- **A data node of the ALEX+ index.** A gapped sorted array with a bitmap of real slots, searched from a
  position that a learned model predicts (`Bitmap`, `GappedArray`, `DataNode`). The model is an arbitrary
  function: whatever it predicts, the node is a finite map.
- **The directory above the data nodes.** Arrays of child pointers in aligned blocks, as in extendible hashing;
  the fanout tree that chooses how to divide a node; the bulk load of a model node; splits sideways, downwards
  and in two, and the expansion of the parent (`FanoutTree`, `FanoutChoice`, `Directory`, `DirectoryRuns`,
  `LeafSplit`, `LeafFanout`); and the whole index, of any height, over runs of operations and restructurings
  (`IndexRuns`).
- **The concurrency of ALEX+**, as state machines over the loads, stores and compare-and-swaps of any number
  of threads: the reader/writer lock of a model node (`RwLock`), the versioned lock of a data node
  and the lookups that go without it (`LookupSteps`, `VersionLock`), the link locks of the leaf list (`LinkLocks`,
  `LeafOrder`, `LinkProgress`), and epoch-based reclamation (`Epoch`, `EpochProgress`, `StaleEpoch`).
- **Two structures of Masstree**: the lock-free doubly linked leaf list (`LeafLink`, `LeafReaders`, `LeafCursor`,
  `LeafProgress`), and the hash index of a JSON object (`ObjectJson`).

Code that changes things in place is modelled in place: methods over arrays and classes, each proved against
a specification on values. The concurrent protocols are transition systems under sequential consistency, with what
is kept in every run and with when requests succeed and operations can be finished.

Reals are exact and integers unbounded unless said otherwise. Words of the bitmap are sequences of 64 bits.
Keys and payloads of data nodes are integers; the end sentinel is the largest 64-bit key.

## What does not hold

Five places do not do what one would expect. Each has its condition as a theorem, and an input or a run in which it
fails.

- An unlink in the Masstree list does not take effect at its final store exactly when its predecessor is the new
  node of a split that has not been published (`LeafReaders.UnlinkTakesEffect`); a finished delete can then still be
  seen (`LeafReaders.DeletedLeafStillSeen`).
- Epoch reclamation relies on the store of an entering thread keeping up with the global epoch. With its load and its
  store apart, the state stands for one with unbounded epochs, every thread inside being in the current or the previous
  one, exactly if the store keeps up: the loaded epoch is the global one, or the one before it and no
  thread that checks the others has already passed this one (`StaleEpoch.StoreKeepsEpochsIff`). Runs whose stores keep
  up are safe (`StaleEpoch.SteadyIsSafe`). Either way of not keeping up has a run that goes on to free a node in use
  (`StaleEpoch.LateStoreIsUnsafe`, `StaleEpoch.PassedStoreIsUnsafe`); a run may also stop before that.
- The release of a data node's lock leaves the node locked for ever exactly when it is the node's 2^31-th
  (`VersionLock.ReleaseUnlocks`, `VersionLock.LockedForever`; `VersionLock.ReleaseRun` has the run).
- A copy of a data node without keys is a valid node only if its new key slots happen to hold the sentinel
  (`DataNode.AlexDataNode.ResizeFromExisting`; `DataNode.CopyOfNothing` for slots that do not). A run of operations
  comes to this point exactly when it erases the only key of a node (`DataNode.RunOps`, `DataNode.LastKeyErased`).
- The average of a one-point segment is wrong exactly when the sum of the two ends wraps around in the
  unsigned rank type (`FittedSegment.OnePointIsNear`, `FittedSegment.OnePointWraps`).

Two reads are without a check. The search for the next filled slot from the end of a node whose capacity is a multiple
of 64 reads behind the bitmap: a precondition of `Bitmap.GetNextFilledPosition`, `FindLower` and `FindUpper`. The split
in two comes to it exactly when the last slot of such a node has a key below the middle of the range
(`LeafSplit.ReadsPastBitmap`, `LeafSplit.SplitLeafInTwo`; `LeafSplit.CutAtEnd` has a node); a split by a fanout tree never
does, as the keys of its parts have been counted. Erasing a key from an object whose hash table has not been allocated is
out of bounds too, an outcome of `ObjectJson.ObjectJson.EraseKey` that every new object has (`ObjectJson.EraseFromNew`).

Where code and comments disagree the code is followed. The copy of the fitter in `pgm_metric.h` has no
special case for one sample in its segment; the one in `generator.cpp` has, and is the one modelled. The loop
that corrects a fanout tree's boundaries for rounding does nothing in exact arithmetic
(`FanoutChoice.NotBelow`).

## Model

| member | source | states |
|---|---|---|
| Geometry.CrossTest | src/benchmark/pgm_metric.h:176-180 | The sign of the integer cross product tells on which side of the line through two points a third one lies. |
| Geometry.SlopeTest | src/benchmark/pgm_metric.h:349-359 | Comparing two undivided slopes tells whether a point is below or above the line through two others. |
| Geometry.TangentTest | src/benchmark/pgm_metric.h:360-369 | The comparison that stops the tangent search tells whether the next hull point is below the tangent found so far. |
| Geometry.ProductsFit | src/benchmark/pgm_metric.h:176-180 | For 64-bit keys and ranks below 2^62 all products of the comparisons fit signed 128-bit integers. |
| HalfHull.StaysBelow | src/benchmark/pgm_metric.h:360-369 | A concave chain that turns below a line stays below it, so the tangent search may stop at the first decrease. |
| HalfHull.TangentStabs | src/benchmark/pgm_metric.h:359-373 | The line from the new point that touches the hull stabs every interval of the run again. |
| HalfHull.Push | src/benchmark/pgm_metric.h:399-404 | Popping the hull and appending the new point leaves a concave chain that covers all interval ends. |
| SegmentState.OutsideIsUnstabbable | src/benchmark/pgm_metric.h:349-357 | An interval outside of the two extreme lines cannot be stabbed together with the run by any line. |
| SegmentState.InsideIsStabbable | src/benchmark/pgm_metric.h:349-357 | An interval that reaches between the two extreme lines can be stabbed together with the run. |
| SegmentState.MaxUpdate | src/benchmark/pgm_metric.h:359-381 | The first half of an accepted point re-establishes the line of greatest slope and the upper hull. |
| SegmentState.MinUpdate | src/benchmark/pgm_metric.h:383-405 | The second half re-establishes the line of least slope and the lower hull, and with them the whole invariant. |
| PiecewiseFit.FlattestFrom | src/benchmark/pgm_metric.h:360-369 | The search from the start index finds the point of the lower hull with the flattest line to the new point. |
| PiecewiseFit.SteepestFrom | src/benchmark/pgm_metric.h:384-393 | The search finds the point of the upper hull with the steepest line, and never reads the new point's own end as a candidate. |
| PiecewiseFit.Extend | src/benchmark/pgm_metric.h:349-409 | A third or later point is accepted if and only if some line stabs all intervals and the new one; a refusal changes nothing. |
| PiecewiseFit.OptimalPiecewiseLinearModel.AddPoint | src/benchmark/pgm_metric.h:313-410 | Accepted if and only if one line is, at the key of every sample of the segment and of the new one, off its rank by at most epsilon and within the range of the rank type; out of order exactly when x does not increase; the new state is the longer run or an empty one. |
| PiecewiseFit.OptimalPiecewiseLinearModel.CheckPoint | datasets/generator.cpp:89-117 | The same verdict as adding the point, without adding it. |
| PiecewiseFit.OptimalPiecewiseLinearModel.GetSegment | datasets/generator.cpp:221-225 | The diagonals of its rectangle are the flattest and the steepest of all lines that do for the run. |
| PiecewiseFit.OptimalPiecewiseLinearModel.GetFloatingPointSegment | datasets/generator.cpp:221-299 | For a run of two or more points: the greatest slope of any line that does for it, and within epsilon + 1/2 of the rank of every one, at any origin; for one point, exactly if the sum of its ends does not wrap around. |
| PiecewiseFit.OptimalPiecewiseLinearModel.Reset | datasets/generator.cpp:227-231 | The run is empty afterwards. |
| PiecewiseFit.Verdict | datasets/generator.cpp:89-117 | The test on the rectangle decides stabbability for every run of two or more samples. |
| PiecewiseFit.StabbableIsOneLine | datasets/generator.cpp:125-137 | A line stabs the clipped intervals of a run if and only if it is within epsilon of every rank and within the range of the rank type. |
| FittedSegment.SegmentIsNear | datasets/generator.cpp:279-299 | The segment's exact slope and rounded intercept give a line that misses no interval of the run by more than one half, at any origin. |
| FittedSegment.OnePointIsNear | datasets/generator.cpp:279-281 | With one sample the averaged value is near the interval if and only if the sum of its ends does not wrap around. |
| FittedSegment.OnePointWraps | datasets/generator.cpp:279-281 | One sample at rank 2^63 with no tolerance is given the value 0. |
| FittedSegment.RoundedQuotient | datasets/generator.cpp:287-290 | Adding half the divisor with the sign of the quotient before a truncating division rounds to nearest. |
| PgmMetric.PartFits | src/benchmark/pgm_metric.h:445-455 | A part of a run that one line does for has one. |
| PgmMetric.StaysAhead | src/benchmark/pgm_metric.h:445-455 | The j-th segment of any other division starts no later than the greedy one's. |
| PgmMetric.GreedyIsLeast | src/benchmark/pgm_metric.h:445-455 | No division of the keys into runs with stabbing lines has fewer runs than the greedy one. |
| PgmMetric.PgmMetric | src/benchmark/pgm_metric.h:438-463 | For keys in any order: the least number of consecutive runs of the sorted keys each of which has one line within the error bound of all its ranks; 1 for no keys; the exception exactly when a key repeats. |
| Bitmap.CheckExists | src/competitor/alexol/src/alex_nodes.h:503-508 | Whether the slot's bit is set. |
| Bitmap.SetBit | src/competitor/alexol/src/alex_nodes.h:511-523 | Sets this bit and no other. |
| Bitmap.UnsetBit | src/competitor/alexol/src/alex_nodes.h:526-531 | Clears this bit and no other. |
| Bitmap.GetNextFilledPosition | src/competitor/alexol/src/alex_nodes.h:1670-1694 | The first filled slot from the position (or after it), or the capacity if there is none. |
| Bitmap.ClosestGap | src/competitor/alexol/src/alex_nodes.h:2269-2412 | A gap at the least distance from the position, the left one of two; -1 if and only if there is no gap; for every bitmap and capacity, the last word possibly partial. |
| Bitmap.FilledBetween | src/competitor/alexol/src/alex_nodes.h:2235-2264 | Every slot strictly between a position and its closest gap is filled. |
| Bitmap.Iterator.constructor | src/competitor/alexol/src/alex_nodes.h:728-741 | Starts at the first filled slot from an index. |
| Bitmap.Iterator.Advance | src/competitor/alexol/src/alex_nodes.h:743-755 | Moves to the next filled slot, or to the end; no filled slot is left out. |
| GappedArray.EntriesOrdered | src/competitor/alexol/src/alex_nodes.h:2607-2656 | The real entries of a gapped array are strictly ordered by key and lie below the sentinel. |
| GappedArray.LookupAt | src/competitor/alexol/src/alex_nodes.h:1567-1600 | The slot before the first greater key is real, and alone tells whether a key is present and with which payload. |
| GappedArray.InsertedGapped | src/competitor/alexol/src/alex_nodes.h:2216-2264 | Placing an absent key at its upper bound, with a gap anywhere used up, keeps the gapped array and adds exactly this pair. |
| GappedArray.ClearedGapped | src/competitor/alexol/src/alex_nodes.h:2505-2519 | Overwriting the slots of a key by the next key keeps the gapped array and removes exactly this pair. |
| GappedArray.SliceBetween | src/competitor/alexol/src/alex_nodes.h:1756-1760 | The slots between the lower bounds of two keys hold exactly the entries with keys between them. |
| DataNode.ExponentialSearchUpperBound | src/competitor/alexol/src/alex_nodes.h:1709-1752 | From any slot, doubling steps and binary search find the first key greater than the probe, in bounds. |
| DataNode.ExponentialSearchLowerBound | src/competitor/alexol/src/alex_nodes.h:1765-1805 | The same for the first key not less than the probe. |
| DataNode.InsertElementAt | src/competitor/alexol/src/alex_nodes.h:2216-2231 | The new slots: the pair in its place, the gaps before it overwritten with its key, its bit set, all else kept. |
| DataNode.InsertUsingShifts | src/competitor/alexol/src/alex_nodes.h:2235-2264 | The new slots: the closest gap taken out, the pair put in at the position (one further left if the gap was on the left). |
| DataNode.PlaceAll | src/competitor/alexol/src/alex_nodes.h:1286-1338 | Each pair is in the slot nearest to where the model wants it, of those behind the pair before that leave room for the rest; no other slot is real, and the array is gapped. |
| DataNode.PlaceFrom | src/competitor/alexol/src/alex_nodes.h:1396-1443 | The same for the pairs an iterator takes from another node. |
| DataNode.AlexDataNode.FindKey | src/competitor/alexol/src/alex_nodes.h:1567-1578 | The slot of the key if the map has it, else -1, for any prediction. |
| DataNode.AlexDataNode.FindPayload | src/competitor/alexol/src/alex_nodes.h:1581-1601 | At rest: refused exactly when the node is locked, otherwise the map's answer. |
| DataNode.AlexDataNode.Update | src/competitor/alexol/src/alex_nodes.h:1603-1623 | Changes the payload of a present key and nothing else. |
| DataNode.AlexDataNode.FindLower | src/competitor/alexol/src/alex_nodes.h:1626-1632 | The first real key that is not less than the probe. |
| DataNode.AlexDataNode.FindUpper | src/competitor/alexol/src/alex_nodes.h:1637-1643 | The first real key greater than the probe. |
| DataNode.AlexDataNode.FindInsertPosition | src/competitor/alexol/src/alex_nodes.h:1650-1664 | The upper bound, and the place nearest to the prediction of those reached from there through gaps only. |
| DataNode.AlexDataNode.Insert | src/competitor/alexol/src/alex_nodes.h:1867-1930 | The whole new state: the slots, with the pair at the place nearest to the prediction and the closest gap taken out if that is full; the map with the pair; every flag with its exact condition, so that 5 asks for a copy that fits the limit; and the invariant. |
| DataNode.AlexDataNode.Erase | src/competitor/alexol/src/alex_nodes.h:2493-2533 | The map without the key, the count, and exactly when the lock is kept for a contraction. |
| DataNode.AlexDataNode.BulkLoad | src/competitor/alexol/src/alex_nodes.h:1268-1346 | A valid node with exactly the given pairs, as the model wants them, with the capacity and the thresholds of the initial density. |
| DataNode.AlexDataNode.BulkLoadFromExisting | src/competitor/alexol/src/alex_nodes.h:1354-1452 | A valid node with exactly the pairs of the given slots of another node, as the model wants them, whether their number has been computed before or not; where it is known to be 0 no bitmap is read. |
| DataNode.AlexDataNode.ResizeFromExisting | src/competitor/alexol/src/alex_nodes.h:2065-2202 | A copy at another density with the same map, its pairs as the model wants them; for a node without keys, valid if and only if the new slots hold the sentinel. |
| DataNode.CopyOfNothing | src/competitor/alexol/src/alex_nodes.h:2065-2202 | With one new slot that holds a real key, the copy of a node without keys is no gapped array, and the search finds the key that the map does not have. |
| DataNode.AlexDataNode.Resize | src/competitor/alexol/src/alex_nodes.h:1933-2063 | The same in place; a node without keys is left alone. |
| DataNode.RunOps | src/competitor/alexol/src/alex.h:2620-2668 | Any run of find, insert, update and erase is answered as a finite map answers it, whatever the models predict and whenever copies are made; it stops exactly at the first operation that erases the only key. |
| DataNode.LastKeyErased | src/competitor/alexol/src/alex.h:2620-2668 | A node with one key stops at the erase of that key, without an answer. |
| DataNode.SizeOf | src/competitor/alexol/src/alex_nodes.h:1892-1893 | The counter of keys is the size of the map. |
| DataNode.ValidationIsTheInvariant | src/competitor/alexol/src/alex_nodes.h:2607-2656 | A node without repeated real keys passes the structure check if and only if it satisfies the invariant. |
| FanoutTree.MergeKeepsPartition | src/competitor/alexol/src/alex_fanout_tree.h:73-81 | Replacing two used siblings by their parent keeps exactly one used node above each finest cell. |
| FanoutTree.MergeCost | src/competitor/alexol/src/alex_fanout_tree.h:82-101 | What a merge changes in the cost recomputed over the used nodes. |
| FanoutTree.FTree.MergeNodesUpwards | src/competitor/alexol/src/alex_fanout_tree.h:60-108 | In the end no two used siblings are left whose replacement by their parent would not raise the recomputed cost, and it comes there by such replacements none of which raises it; the cost returned is the one recomputed. |
| FanoutTree.CollectUsedNodes | src/competitor/alexol/src/alex_fanout_tree.h:41-58 | Exactly the used nodes, sorted so that they lie side by side over all cells. |
| FanoutTree.SortedTiles | src/competitor/alexol/src/alex_fanout_tree.h:51-57 | Sorting the used nodes of a partition by their shifted id leaves no hole and no overlap. |
| FanoutChoice.ComputeLevel | src/competitor/alexol/src/alex_fanout_tree.h:118-189 | All nodes of a level with the boundaries of their cells, and the cost of using all of them. |
| FanoutChoice.NotBelow | src/competitor/alexol/src/alex_fanout_tree.h:142-148 | In exact arithmetic the lower bound of a cut needs no correction. |
| FanoutChoice.GrowLevels | src/competitor/alexol/src/alex_fanout_tree.h:200-228 | Levels are added until one is too wide or the cost has risen twice in a row; the first of the cheapest is chosen. |
| FanoutChoice.ChooseFanout | src/competitor/alexol/src/alex_fanout_tree.h:194-240 | The same choice for keys or for slots with gaps: exactly the nodes of the merged tree that survive; of any two siblings among them the parent would cost more; with the least level's cost as a bound. |
| FanoutChoice.FindBestFanoutBottomUp | src/competitor/alexol/src/alex_fanout_tree.h:194-240 | For keys in an array: the cheapest level merged upwards, an ordered partition that tiles the keys, with the cost recomputed over it, no more than any level's. |
| FanoutChoice.TilesKeys | src/competitor/alexol/src/alex.h:1146-1170 | The key ranges of the used nodes tile the input. |
| FanoutChoice.RepeatsFill | src/competitor/alexol/src/alex.h:1153-1180 | The repeats of the used nodes sum to the fanout. |
| LeafFanout.BoundsAreCuts | src/competitor/alexol/src/alex_fanout_tree.h:475-530 | Each chosen node begins and ends at the lower bounds, in the slots, of the parts of the range it stands for. |
| LeafFanout.FindBestFanoutExistingNode | src/competitor/alexol/src/alex_fanout_tree.h:455-560 | For a data node that is there: the chosen nodes tile its range and its slots, each with the number of real keys of its slots. |
| Directory.BlockIs | src/competitor/alexol/src/alex.h:1820-1830 | The computed start and repeats of a child are those of its block, and all its slots hold the child. |
| Directory.DisjointBlocks | src/competitor/alexol/src/alex.h:1820-1830 | Two children with a slot in common are one: threads that replace different children write disjoint slots. |
| Directory.RoutesByRange | src/competitor/alexol/src/alex_nodes.h:109-113 | A key is sent to the child in whose range it lies, the first and the last child also getting the keys outside of the domain. |
| Directory.ExpandKeepsBlocks | src/competitor/alexol/src/alex_nodes.h:153-177 | Expansion keeps the aligned blocks, with the same local depths. |
| Directory.ExpandKeepsRouting | src/competitor/alexol/src/alex_nodes.h:171-176 | Expansion leaves the child chosen for every key as it was. |
| Directory.AlexModelNode.Expand | src/competitor/alexol/src/alex_nodes.h:153-177 | The new node is valid, repeats every pointer, and sends every key to the same child. |
| Directory.AlexModelNode.BulkLoad | src/competitor/alexol/src/alex.h:1138-1180 | A valid model node whose blocks are the used nodes of the fanout tree, each child with the range of its slots. |
| Directory.BuiltBlocks | src/competitor/alexol/src/alex.h:1138-1180 | An array filled by children side by side consists of aligned blocks. |
| Directory.AlexModelNode.BlockOf | src/competitor/alexol/src/alex.h:2124-2129 | First and last slot of a child, computed from its local depth. |
| Directory.AlexModelNode.ReplaceChild | src/competitor/alexol/src/alex.h:2123-2132 | Another node in all slots of a child and in no other; blocks and ranges are kept. |
| Directory.AlexModelNode.SplitSideways | src/competitor/alexol/src/alex.h:2236-2274 | The new leaves fill the old one's block as their levels say, with the ranges of their slots; blocks and ranges are kept. |
| Directory.AlexModelNode.SplitInTwo | src/competitor/alexol/src/alex.h:2210-2236 | The same for the two halves of a block. |
| Directory.AlexModelNode.SplitDownwards | src/competitor/alexol/src/alex.h:2066-2119 | A new model node for the leaf's range whose blocks are the new leaves. |
| Directory.Log2RoundDown | src/competitor/alexol/src/alex_base.h:401-405 | The exponent of the greatest power of two that is not greater. |
| Directory.SplitKeepsBlocks | src/competitor/alexol/src/alex.h:2157-2274 | Filling a child's block by an ordered partition of it keeps all blocks aligned. |
| Directory.SplitRoutes | src/competitor/alexol/src/alex.h:2157-2274 | A key that was sent to the old leaf is sent to the one new leaf whose share it is in. |
| Directory.SplitKeepsLookups | src/competitor/alexol/src/alex.h:2025-2296 | Every lookup by the parent finds what it found before the split. |
| Directory.SplitKeepsPlacement | src/competitor/alexol/src/alex.h:2025-2296 | Every stored pair is in exactly one new leaf, the one the parent now sends its key to. |
| Directory.CutsAgree | src/competitor/alexol/src/alex_fanout_tree.h:481-493 | The limits the parent gives the new leaves are where the fanout tree cuts the old leaf's range. |
| DirectoryRuns.ReachableIsSound | src/competitor/alexol/src/alex.h:1138-1180 | From the bulk load or a downward split on, over any run of expansions, replacements and splits, the array of children consists of aligned blocks, each child with the range of its own. |
| DirectoryRuns.BulkLoadRoutes | src/competitor/alexol/src/alex.h:1146-1170 | The bulk load sends every key of a used node to that node's child. |
| LeafSplit.PieceContents | src/competitor/alexol/src/alex.h:1948-1969 | The slots between two cuts of a leaf hold exactly a new leaf's share of the map. |
| LeafSplit.NewDataNodes | src/competitor/alexol/src/alex.h:1982-2023 | One locked data node for each used node, empty ones included, with exactly the pairs of its slots. |
| LeafSplit.SplitLeaf | src/competitor/alexol/src/alex.h:2157-2296 | A leaf split sideways by the nodes of a fanout tree, the parent expanded first and replaced in the grandparent exactly when the leaf has too few slots: no pair is lost or duplicated, every key is sent to the new leaf that holds it, and no lookup of any key changes from what it was by the old parent. |
| LeafSplit.SplitLeafInTwo | src/competitor/alexol/src/alex.h:2157-2236 | The same for a split in two at the middle of the range, the parent expanded exactly when the leaf has one slot; out of bounds, with nothing changed, exactly when the right half begins behind the bitmap. |
| LeafSplit.ReadsPastBitmap | src/competitor/alexol/src/alex.h:1949-1969 | The iterator that counts the right half's keys reads behind the bitmap if and only if the slots fill its words and the key of the last slot is below the middle; that slot is then a real one. |
| LeafSplit.CutAtEnd | src/competitor/alexol/src/alex.h:1949-1969 | A bulk-loaded node for which it does. |
| LeafSplit.SplitLeafDownwards | src/competitor/alexol/src/alex.h:2066-2134 | The same for a split downwards; the new model node takes the leaf's block in the parent and sends every key of the leaf to the one new leaf that holds it. |
| LeafSplit.SplitInTwoDownwards | src/competitor/alexol/src/alex.h:2066-2087 | The same in two, out of bounds exactly when a split in two is. |
| LeafSplit.ExpandParent | src/competitor/alexol/src/alex.h:2160-2205 | The new parent sends every key to the child the old one sent it to, and takes all slots of the old one in the grandparent, and no other. |
| LeafSplit.LookupThrough | src/competitor/alexol/src/alex.h:2160-2205 | A split by the expanded parent changes no lookup by the old one. |
| LeafFanout.SplitByFanout | src/competitor/alexol/src/alex.h:1842-1932 | End to end: the fanout tree of a full leaf is built, merged and collected, and the leaf is split by its nodes exactly if one data node is not best, whatever parts are empty. |
| LeafFanout.SplitDownByFanout | src/competitor/alexol/src/alex.h:2025-2134 | The same for the split downwards. |
| IndexRuns.OperatedAt | src/competitor/alexol/src/alex.h:664-684 | An operation sent down through all model nodes changes what is found for its own key, as a map would, and for no other, and is answered by what is found. |
| IndexRuns.ReshapeKeeps | src/competitor/alexol/src/alex.h:1745-1935 | Copies of data nodes, expansions of model nodes and splits in both directions, anywhere in the index, change no lookup. |
| IndexRuns.SplitMoves | src/competitor/alexol/src/alex.h:2206-2274 | What a split leaves of a model node's children and contents is such a restructuring; likewise for the others. |
| IndexRuns.BulkLoadAgrees | src/competitor/alexol/src/alex.h:1138-1180 | A model node that has been bulk loaded stands for the values if the nodes below it stand for theirs. |
| IndexRuns.IndexIsMap | src/competitor/alexol/src/alex.h:1745-1935 | In every run of operations and restructurings the index answers as a finite map does, and stands for it afterwards. |
| RwLock.StepKeepsInv | src/competitor/alexol/src/alex_nodes.h:189-307 | Every step of every thread keeps the relation between the lock word and who holds what. |
| RwLock.Exclusion | src/competitor/alexol/src/alex_nodes.h:192-247 | In every run an active writer excludes all others, and at most one thread holds the writer bit. |
| RwLock.WordCounts | src/competitor/alexol/src/alex_nodes.h:272-301 | In every run the low bits are the number of read holders, and the writer bit tells whether someone holds it or the node is obsolete. |
| RwLock.DrainingShrinks | src/competitor/alexol/src/alex_nodes.h:236-241 | While the writer bit is set the number of readers never grows, and each release makes it smaller. |
| RwLock.PromotersKeepRead | src/competitor/alexol/src/alex_nodes.h:216-245 | A promoter that loses keeps its read lock. |
| RwLock.ObsoleteStaysLocked | src/competitor/alexol/src/alex.h:2202-2204 | The lock of a replaced node is never given to anyone again. |
| RwLock.ReadAlone | src/competitor/alexol/src/alex_nodes.h:272-300 | A request to read that nobody gets in the way of succeeds if the writer bit is clear and the node not obsolete, and the count is one more. |
| RwLock.WriteAlone | src/competitor/alexol/src/alex_nodes.h:192-215 | A request to write then gets the writer bit. |
| RwLock.DrainEnds | src/competitor/alexol/src/alex_nodes.h:209-213 | The writer has the lock with its next step exactly if no reader is left. |
| RwLock.PromoteAlone | src/competitor/alexol/src/alex_nodes.h:216-247 | A reader that asks for promotion gets the writer bit, and is no longer counted. |
| RwLock.RefusedAtOnce | src/competitor/alexol/src/alex_nodes.h:272-277 | With the writer bit set or the node obsolete a request is refused, and nothing changes. |
| RwLock.FailsOnlyIfOpposed | src/competitor/alexol/src/alex_nodes.h:192-300 | In every run a request is given up only if, in some state since it began, another thread had the writer bit, the node was obsolete, or (for one that tries once) the word had changed. |
| LookupSteps.FeedInBounds | src/competitor/alexol/src/alex_nodes.h:1709-1752 | Whatever value a step of the search reads, the next slot it asks for is inside the arrays, and it is nearer to its end. |
| LookupSteps.AloneIsLookup | src/competitor/alexol/src/alex_nodes.h:1581-1601 | The steps on a gapped array end with the lookup of the key in its map. |
| VersionLock.LookupIsMapped | src/competitor/alexol/src/alex_nodes.h:1581-1601 | In every interleaving with any number of writers, a lookup that finds the version unchanged has the answer of the map that the slots stood for when it read the version. |
| VersionLock.SnapshotIsState | src/competitor/alexol/src/alex_nodes.h:1581-1590 | Those slots are the ones of the state of the run in which the thread read the version, with the lock free. |
| VersionLock.AcceptedIff | src/competitor/alexol/src/alex_nodes.h:1581-1601 | In every run the step that answers accepts what was read if and only if no thread has held the lock since the version was read. |
| VersionLock.LookupSucceeds | src/competitor/alexol/src/alex_nodes.h:1581-1601 | From any state with the lock free, a lookup that nobody gets in the way of is accepted, with the map's answer. |
| VersionLock.ReadsInBounds | src/competitor/alexol/src/alex_nodes.h:1709-1752 | In every run, with torn or stale values as they may be, a lookup reads inside the arrays only and comes to its end. |
| VersionLock.LockSucceeds | src/competitor/alexol/src/alex_nodes.h:630-653 | From any state with the lock free, a request for it that nobody gets in the way of succeeds. |
| VersionLock.GivenUpOnlyIf | src/competitor/alexol/src/alex_nodes.h:630-653 | A request that waits is never given up; one that tries once, only if in some state since it began the word has the lock bit or has changed. |
| VersionLock.WritesSlots | src/competitor/alexol/src/alex_nodes.h:1867-1930 | A thread that holds the lock can make the slots any others by its stores. |
| VersionLock.OneHolder | src/competitor/alexol/src/alex_nodes.h:630-653 | At most one thread holds the lock. |
| VersionLock.ReleaseUnlocks | src/competitor/alexol/src/alex_nodes.h:655-658 | A release clears the lock bit if and only if it is not the 2^31-th. |
| VersionLock.LockedForever | src/competitor/alexol/src/alex_nodes.h:655-658 | After the 2^31-th release no thread gets the lock and no reader a version. |
| VersionLock.ReleaseRun | src/competitor/alexol/src/alex_nodes.h:630-658 | For every n up to 2^31 there is a run with n releases. |
| LinkLocks.StepKeepsInv | src/competitor/alexol/src/alex.h:1698-1735 | Every load, store and lock attempt of a split or a resize keeps the invariant of pointers and locks; the new leaf of a resize starts with the old one's pointers and is released before the link locks. |
| LeafOrder.LeavesAreLinked | src/competitor/alexol/src/alex.h:877-928 | In every run the leaves are in key order and divide the keys, and neighbours are linked both ways except at the right end of a replacement in flight. |
| LeafOrder.ReleasedList | src/competitor/alexol/src/alex.h:921-928 | Once no replacement is between its first and its last store, the next chain is the list of live leaves in key order and prev its inverse. |
| LeafOrder.WaitsRightwards | src/competitor/alexol/src/alex.h:898-900 | A thread that waits with locks held waits for one that replaces the next leaf to the right, or for one whose leaf is in and which is releasing its locks: that of the waiting thread's own leaf, or that of the leaf to the left of its new one. |
| LeafOrder.NoDeadlock | src/competitor/alexol/src/alex.h:877-907 | While any thread replaces a leaf or releases the locks of a replacement, some thread can make progress. |
| LeafOrder.ResizeReleasesFirst | src/competitor/alexol/src/alex.h:1826-1838 | In every run a resize gets to its link locks only by releasing its new leaf, while it still holds them. |
| LinkProgress.AllCanFinish | src/competitor/alexol/src/alex.h:877-928 | From every state of every run there is a way to go on that finishes all replacements in flight. |
| LinkProgress.ReplacesAlone | src/competitor/alexol/src/alex.h:1698-1735 | A replacement that nobody gets in the way of ends with its new leaves in the place of the old one. |
| LinkProgress.SplitRun | src/competitor/alexol/src/alex.h:877-928 | A run that splits one leaf in two. |
| Epoch.StepRefines | src/competitor/alexol/src/alex.h:189-211 | Every step on three-valued epochs is a step on epochs that are never reused. |
| Epoch.CasEpoch | src/competitor/alexol/src/alex.h:276-280 | A successful compare-and-swap finds the epoch its thread entered with, never the same value three epochs later. |
| Epoch.RunRefines | src/competitor/alexol/src/alex.h:271-302 | In every run the three-valued state stands for an unbounded one in which every thread inside is in the current or the previous epoch. |
| Epoch.NothingFreedInUse | src/competitor/alexol/src/alex.h:200-245 | No node is freed while a thread is inside that was inside when the node was retired. |
| Epoch.RunConserves | src/competitor/alexol/src/alex.h:189-245 | In every run each retired node is in exactly one free list until it is freed, and is freed once. |
| EpochProgress.AdvancesAlone | src/competitor/alexol/src/alex.h:271-302 | With no other thread inside, a thread can advance the global epoch. |
| EpochProgress.FreesAll | src/competitor/alexol/src/alex.h:189-302 | From any state of any run in which all threads are outside, a thread can go on alone so that everything it had retired is freed. |
| EpochProgress.Asks | src/competitor/alexol/src/alex.h:193-199 | A thread asks for the epoch to advance when its list of this epoch has come to a multiple of 64 nodes. |
| StaleEpoch.LateStoreIsUnsafe | src/competitor/alexol/src/alex.h:271-281 | A run through a store of an epoch two behind the global one, in which a node is freed in use. |
| StaleEpoch.PassedStoreIsUnsafe | src/competitor/alexol/src/alex.h:271-281 | A run through a store of the previous epoch behind a thread that has passed this one in its check, in which a node is freed in use. |
| StaleEpoch.StoreKeepsEpochsIff | src/competitor/alexol/src/alex.h:271-281 | The store leaves a state that stands for one with unbounded epochs if and only if it keeps up: it stores the global epoch, or the one before it and no checking thread has passed its thread. |
| StaleEpoch.SteadyRunRefines | src/competitor/alexol/src/alex.h:189-302 | A run whose stores keep up stands for one with unbounded epochs, loads and stores apart. |
| StaleEpoch.SteadyIsSafe | src/competitor/alexol/src/alex.h:200-281 | In such runs no node is freed while a thread is inside that was inside when it was retired. |
| StaleEpoch.TimelyIsOneStep | src/competitor/alexol/src/alex.h:271-281 | A run whose stores find the global epoch as it was loaded is a run of the one-step protocol. |
| StaleEpoch.TimelyIsSafe | src/competitor/alexol/src/alex.h:271-281 | So no node is freed in use in them, by the one-step protocol. |
| LeafLink.StepKeepsInv | src/competitor/masstree/src/btree_leaflink.hh:38-96 | Every load, store and compare-and-swap of splits and unlinks keeps the invariant of pointers, marks and locks. |
| LeafReaders.ReaderSeesLeaves | src/competitor/masstree/src/btree_leaflink.hh:38-96 | In every run a reader from the head reaches the end and visits the leaf list plus retired nodes; exactly the leaf list if and only if no unpublished split has cut off a node. |
| LeafReaders.WalkUnique | src/competitor/masstree/src/btree_leaflink.hh:38-96 | There is only one such walk. |
| LeafReaders.QuiescentList | src/competitor/masstree/src/btree_leaflink.hh:38-96 | With no operation in flight the walk is the leaf list, no link is marked, and prev is the inverse of next. |
| LeafReaders.UnlinkTakesEffect | src/competitor/masstree/src/btree_leaflink.hh:81-96 | The final store of an unlink removes the node from what readers visit if and only if its predecessor is not an unpublished new node. |
| LeafReaders.DeletedLeafStillSeen | src/competitor/masstree/src/btree_leaflink.hh:61-96 | A run in which a reader still visits a leaf whose unlink has finished. |
| LeafReaders.NoDeadlock | src/competitor/masstree/src/btree_leaflink.hh:39-96 | While any operation is in flight, some thread can make progress. |
| LeafCursor.ReaderStaysOnList | src/competitor/masstree/src/btree_leaflink.hh:38-96 | However its loads interleave with splits and unlinks, a reader only stands on leaves and retired nodes, and the walk from where it stands comes to the end. |
| LeafCursor.ReaderEnds | src/competitor/masstree/src/btree_leaflink.hh:38-96 | If the changes pause, the reader's loads take it over the nodes of its walk to the end. |
| LeafCursor.RetiredWalk | src/competitor/masstree/src/btree_leaflink.hh:81-96 | From any retired node the links lead through nodes retired later back to the leaves, or to the end. |
| LeafProgress.AllCanFinish | src/competitor/masstree/src/btree_leaflink.hh:39-96 | From every state of every run there is a way to go on that finishes all operations in flight. |
| LeafProgress.SplitAlone | src/competitor/masstree/src/btree_leaflink.hh:38-58 | A split that nobody gets in the way of ends with its new node behind the old one in the list. |
| LeafProgress.UnlinkAlone | src/competitor/masstree/src/btree_leaflink.hh:61-96 | An unlink that nobody gets in the way of ends with its node out of the list. |
| ObjectJson.ChainIs | src/competitor/masstree/src/json.hh:457-471 | The chain of a bucket has exactly its live items, in the order of the array, so it ends and erased items are on none. |
| ObjectJson.AppendIndexed | src/competitor/masstree/src/json.cc:148-157 | Storing the new position in the last link of the key's bucket, and the item behind the array, keeps all chains and adds the pair at the end. |
| ObjectJson.EraseIndexed | src/competitor/masstree/src/json.cc:191-197 | Taking an item out through the link that leads to it, and marking it, keeps all chains and takes out its pair only. |
| ObjectJson.RebuiltStep | src/competitor/masstree/src/json.cc:128-135 | Each step from the last item to the first extends the rebuilt chains by one item. |
| ObjectJson.ObjectJson.Find | src/competitor/masstree/src/json.hh:457-471 | The position of the live item with the key, or -1 if and only if there is none. |
| ObjectJson.ObjectJson.Grow | src/competitor/masstree/src/json.cc:98-123 | Twice the capacity, or 8, with the same items and links. |
| ObjectJson.ObjectJson.Rehash | src/competitor/masstree/src/json.cc:125-136 | Twice as many buckets with all chains rebuilt; the pairs and their order are kept. |
| ObjectJson.ObjectJson.FindInsert | src/competitor/masstree/src/json.cc:138-161 | The position of a present key, else the pair appended; the table doubles exactly when more than four items were passed. |
| ObjectJson.ObjectJson.GetInsert | src/competitor/masstree/src/json.cc:163-186 | The value of the key, added with the null value if it is new. |
| ObjectJson.ObjectJson.EraseAt | src/competitor/masstree/src/json.cc:188-198 | The pairs without the item's key, in the same order; the count is one less. |
| ObjectJson.ObjectJson.EraseKey | src/competitor/masstree/src/json.cc:200-213 | The pairs without the key and how many were erased; out of bounds if and only if the table was never allocated. |
| ObjectJson.EraseFromNew | src/competitor/masstree/src/json.cc:200-213 | Erasing any key from a new object reads out of bounds. |
| ObjectJson.ObjectJson.RunOps | src/competitor/masstree/src/json.cc:98-213 | Any run of insertions, lookups, lookups that insert and erasures answers, and changes the pairs, as an insertion-ordered map does; it ends exactly at the first erasure before the table is allocated. |
| ObjectJson.RunIsMap | src/competitor/masstree/src/json.cc:98-213 | After any run each key has one value at most: the first inserted since its last erasure. |

## Left out

- Weak memory orders: all protocols are modelled under sequential consistency.
- `expand_root` and the growth of the key domain: it enlarges the root's array without adjusting the children's depths, so the block invariant is not one it keeps.
- Floating point: slopes, cuts, models and densities are exact reals, and the tolerance branches of `get_leaf` and `lock_parent_node` are not modelled.
- Regression, sampling and the cost model: the trained model is an arbitrary function, and the expected cost of a data node and the verdicts on cost are parameters.
- Widths of integers: products of the fitter are unbounded, and `Geometry.ProductsFit` says when they fit 128 bits; counters are unbounded.
- The fitter's list of points and its mean squared error, and the intersection and slope range of a segment.
- `std::sort` of the keys and of the fanout nodes is an insertion sort.
- The top-down choice of a fanout, `find_best_fanout_existing_node`, which nothing calls, and the fanout a bulk load computes when one data node would be too large: `Directory.AlexModelNode.BulkLoad` takes any used nodes that lie side by side.
- The growth of the tree at the root: `IndexRuns` starts above the root, at a node that never grows.
- The recursion and the retry loops of bulk loading, insertion and traversal in `alex.h`.
- `erase_one`, `erase_range`, the statistics of a data node (shifts, iterations, smallest and largest key), and allocation.
- DataNode.AlexDataNode.FindPayload: speaks of a node at rest; `VersionLock.LookupIsMapped` has its answer among writers, with every read of a key, a payload and the word a step of its own.
- DataNode.RunOps: runs one node, so a verdict that the node is to be split makes a copy of it; splits between operations are in `IndexRuns.IndexIsMap`.
- IndexRuns.IndexIsMap: takes data nodes as the maps they stand for, and operations one after another; that the slots do what the maps do is `DataNode`.
- VersionLock: a writer changes slots by arbitrary stores, one at a time, and leaves a gapped array behind; that insertions and erasures do is `DataNode`.
- Directory.AlexModelNode.SplitSideways: is a step of its own; that threads with the same read lock write different slots is `Directory.DisjointBlocks`.
- RwLock: the retry loops, which start an attempt anew.
- LeafLink: the read and the compare-and-swap of `lock_next` are one step, and so are the spin loops' retries.
- Epoch: entering frees the list, loads the global epoch and stores the local one in one step, which `StaleEpoch` takes apart; every step that retires a node names one never retired before.
- LinkLocks: the linking of the new leaves to each other is one step, since no other thread knows them; a split releases the locks of its new leaves in the step of its last link lock, and the lock of a replaced leaf, which stays locked, is not followed.
- LeafFanout.SplitByFanout: when one data node is best the leaf is left for `DataNode.AlexDataNode.ResizeFromExisting`.
- ObjectJson: copying an object, destruction, and the JSON values themselves, which are integers here.
- The JSON parser and printer, the key comparison code of Masstree and its border nodes.
- `src/competitor/alexol/src/concurrency.h`, the wrappers of the competitors, the benchmark driver, file access, flags and plots.
