# MiniVector in Dafny

MiniVector is a small vector store. Records are `(data, vector)` pairs and are
grouped into clusters. Each cluster has a centroid, and the centroids are kept
in an index table on shard 0. A record lives in the vector table of shard
`cluster_id % partition`.

- **Insert.** A new vector goes to the first cluster whose centroid is strictly
  nearest and strictly under `cluster.maxDistance`. When no cluster qualifies,
  the vector becomes the centroid of a new cluster whose id is the current
  cluster count.
- **Query.** A query finds its cluster the same way. It then measures every
  record of that cluster in the cluster's shard, sorts them ascending by
  distance and keeps the first `limit`.
- **Cache.** The `ClusterCache` Map is loaded from the index table whenever
  it is empty, and then it is kept up to date by single upserts. Each upsert
  goes through a truthiness test, so cluster 0 is never upserted. As a result,
  the cache stops mirroring the index once cluster 0's centroid changes (see
  Findings).
- **Vectors.** A `Vector` wraps a number array: its size is fixed at
  construction, and it provides a normalised cosine distance and element-wise
  equality, both of which refuse vectors of different sizes.

The model holds all storage in memory:

- `Store.index` is the index table, as `(cluster_id, centroid)` rows in the
  order a select returns them. `cluster_id` is the table's rowid, so SQLite
  returns them in ascending id order. The constructor therefore requires the
  initial index to be ascending by id, and every id the store adds is larger
  than all earlier ones as long as ids are `0 .. n-1`.
- `Store.shards` maps each opened shard to its vector table. A table holds
  `(id, cluster_id, vector, data)` rows and its next auto-increment id.
- `Store.cache` is the Map, as a sequence in Map iteration order.

An error the source throws (a size mismatch, or a duplicate primary key) is an
`Err` result. The store's distance is an abstract function `dist`, fixed when
the store is built, applied like `Vector.distance` to (this, target): the
query, or the new centroid, comes first. `Vector.Distance` models the cosine
distance of `vector.ts` with the square root as a parameter.

Modules:

- `Errors`: `Option`, `Result` and the two error kinds.
- `Vectors`: the `Vector` class, plus the dot product, the squared norm and the
  cosine distance they specify.
- `ClusterCache`: the Map as an ordered list with `get`, `set` and a full reload.
- `Routing`: shard routing, the nearest-cluster scan, and `getClusterID` as a
  function of cache and index.
- `Records`: the vector tables of the shards.
- `Ranking`: the ranking, sorting and truncation done by `query`.
- `Centroids`: the mean centroid, and the drift test of `updateClusterCenter`.
- `CenterWriteBack`: the centroid write-back of `updateClusterCenter`, both as
  written and as intended.
- `VectorStore`: the `Store` class.

## Model

| member | source | states |
|---|---|---|
| Vectors.Vector.constructor | src/lib/vector.ts:8-14 | the backing array is the argument itself, not a copy; size is its length; max and min are stored unchanged; ClusterID starts at -1 |
| Vectors.Vector.Distance | src/lib/vector.ts:16-40 | different sizes give the size-mismatch error; otherwise the result is the cosine distance (1 - dot/(sqrt(ΣA²)·sqrt(ΣB²)))/2 of the two value sequences, undefined when the denominator is 0 |
| Vectors.Dot | src/lib/vector.ts:28-32 | the reference definition of `dotProduct`: products summed from index 0 upward; characterised by DotSymmetric and DotSelf |
| Vectors.SquaredNorm | src/lib/vector.ts:28-32 | the reference definition of `magnitudeA` and `magnitudeB` before the root: squares summed from index 0 upward; characterised by SquaredNormNonNegative and DotSelf |
| Vectors.SameValues | src/lib/vector.ts:51-57 | element-wise equality of two value sequences holds exactly when the sequences are equal |
| Vectors.DotSymmetric | src/lib/vector.ts:28-32 | the dot product accumulated by the loop is the same with the operands swapped |
| Vectors.DotSelf | src/lib/vector.ts:28-32 | the dot product of a vector with itself is the magnitude accumulator |
| Vectors.SquaredNormNonNegative | src/lib/vector.ts:30-31 | each magnitude accumulator is non-negative |
| Vectors.DistanceSymmetric | src/lib/vector.ts:24-38 | distance(a, b) == distance(b, a) for every square-root function |
| Vectors.DistanceToSelf | src/lib/vector.ts:28-38 | when sqrt(x)·sqrt(x) == x for x ≥ 0, a vector of non-zero magnitude is at distance exactly 0 from itself |
| Vectors.CosineDistance | src/lib/vector.ts:24-40 | the reference definition of `distance` on value sequences, (1 - dot/(sqrt(ΣA²)·sqrt(ΣB²)))/2; it is undefined exactly when the magnitude product is 0; characterised by DistanceSymmetric and DistanceToSelf |
| Vectors.Vector.Equals | src/lib/vector.ts:43-58 | different sizes give the size-mismatch error; otherwise the result is true iff every coordinate is equal |
| Vectors.EqualsReflexive | src/lib/vector.ts:51-57 | element-wise equality holds between a vector and itself |
| Vectors.EqualsSymmetric | src/lib/vector.ts:51-57 | element-wise equality holds in one order iff it holds in the other |
| Routing.ClientIndex | src/lib/store.ts:73-75 | the shard is the JavaScript remainder: below the partition's magnitude, with the dividend's sign, and equal to id mod the partition's magnitude for id ≥ 0 |
| Routing.ClientIndexOfNegated | src/lib/store.ts:73-75 | negating the id negates the shard, so a negative id lands on minus the shard of its magnitude; with ClientIndex this fixes the value for every id |
| ClusterCache.Truthy | src/lib/store.ts:128 | the test `key &&` on a number or undefined: false for undefined and for 0, true for every other number |
| ClusterCache.Find | src/lib/store.ts:101 | the first position holding the key; none exactly when the key is absent |
| ClusterCache.Get | src/lib/store.ts:101 | `Map.get`: the value exactly when the key has an entry |
| ClusterCache.MapSet | src/lib/store.ts:125-129 | `Map.set`: the key maps to the value and every other key is unchanged; an existing key keeps its position, a new key is appended; the key set grows by exactly that key; distinct keys stay distinct |
| ClusterCache.Reload | src/lib/store.ts:121-127 | the reference definition of the refresh: `set` of every index row in order into a cleared Map; the result has distinct keys and at most one entry per row; ReloadOfDistinct shows it is the index table itself |
| ClusterCache.ReloadStep | src/lib/store.ts:125-127 | reloading i + 1 rows is reloading i rows and then setting row i |
| ClusterCache.ReloadOfDistinct | src/lib/store.ts:121-127 | clearing the Map and setting every index row in order reproduces the index table exactly, since its ids are distinct |
| Routing.Nearest | src/lib/store.ts:154-165 | the reference definition of the scan, on prefixes of the list; its pick is a position in the list; NearestIsFirstMinimum characterises it |
| Routing.NearestStep | src/lib/store.ts:157-164 | one iteration of the scan: entry i replaces the running best exactly when it is below both the running minimum and the threshold |
| Routing.NearestIsFirstMinimum | src/lib/store.ts:152-165 | the scan finds nothing exactly when no entry is under the threshold (and `Number.MAX_VALUE`); otherwise its pick qualifies, is strictly nearer than every earlier entry and no farther than every later one, so ties go to the first |
| Routing.Loaded | src/lib/store.ts:93-96 | the list `getClusterList` scans: a non-empty cache as it is; an empty cache reloaded, with distinct ids, which is the index table itself when the index ids are distinct |
| Routing.LoadedCoherent | src/lib/store.ts:93-96 | with distinct index ids and a cache that is empty or mirrors the index, the list the scan sees is the index table |
| Routing.FreshClusterId | src/lib/store.ts:167-168 | when the index ids are exactly 0..n-1 and the cache is coherent, the new id `clusters.length` is not an existing id |
| Routing.Assign | src/lib/store.ts:152-179 | the reference definition of getClusterID on (cache, index): an error leaves the index alone; an existing result is an id of the scanned list; a changed index is the old one plus cluster `clusters.length` with the input as centroid, and that id is the result |
| Routing.AssignNewCluster | src/lib/store.ts:167-176 | with dense ids and a coherent cache, when no cluster qualifies the result is id n, the index gains exactly `(n, vector)`, and dense ids and coherence are kept |
| Routing.NearestOfAppended | src/lib/store.ts:157-164 | after clusters none of which qualifies, an appended centroid equal to the query is the scan's pick, when the query qualifies against itself |
| Routing.AssignSpec | src/lib/store.ts:152-179 | with dense ids and a coherent cache, getClusterID fails only on a size mismatch; an existing result is the first nearest qualifying cluster; a new result is id n, appended with the input vector as centroid, and only when no cluster qualifies; dense ids and coherence are preserved |
| Routing.AssignPicksFromLoaded | src/lib/store.ts:152-165 | for every cache, coherent or not, an existing cluster the assignment returns is the first nearest qualifying entry of the list it scanned |
| Routing.RouteIsStable | src/lib/store.ts:152-179 | when the vector qualifies against itself, assigning it again right after an assignment returns the same cluster and leaves the index unchanged |
| Records.TableAt | src/lib/store.ts:58-63 | a shard not yet opened reads as a fresh empty table; a valid table store gives a valid table |
| Records.Members | src/lib/store.ts:234 | `where('cluster_id', c)`: a row is in the result exactly when it is in the table and belongs to cluster c, and it occurs there as often as in the table |
| Records.Append | src/lib/store.ts:220-224 | the row is appended after the old rows with the next auto-increment id, which no old row has; table validity is kept |
| Records.AddRecord | src/lib/store.ts:218-224 | only the written shard changes, and every table stays valid |
| Records.AddRecordIsMember | src/lib/store.ts:218-234 | after the write, the members of cluster c in that shard are the old members followed by the new row; every other cluster's members are unchanged |
| Ranking.Rank | src/lib/store.ts:236-245 | the reference definition of the pushed array: one (data, distance from the query, vector) per member, in table order, as many as there are members |
| Ranking.RankStep | src/lib/store.ts:238-245 | pushing one more member appends exactly its (data, distance from the query, vector) |
| Ranking.InsertByDistance | src/lib/store.ts:247 | placing one result after every entry no farther than it; the list grows by one |
| Ranking.SortByDistance | src/lib/store.ts:247 | the reference definition of `sort((a, b) => a.distance - b.distance)` as a stable insertion sort; the length is kept; SortByDistanceSpec characterises it |
| Ranking.InsertByDistancePermutes | src/lib/store.ts:247 | inserting one result adds exactly that result to the multiset |
| Ranking.InsertByDistanceSorted | src/lib/store.ts:247 | inserting into an ascending list keeps it ascending |
| Ranking.SortByDistanceSorted | src/lib/store.ts:247 | the sort's output is ascending by distance |
| Ranking.SortByDistancePermutes | src/lib/store.ts:247 | the sort's output has the same multiset of results as its input |
| Ranking.SortByDistanceSpec | src/lib/store.ts:247 | the sort returns an ascending permutation of its input |
| Ranking.Slice | src/lib/store.ts:247 | `slice(0, end)` keeps a prefix: of length min(end, n) for end ≥ 0, and n + end clamped at 0 for a negative end |
| Ranking.Answer | src/lib/store.ts:236-247 | the reference definition of query's answer for the chosen members: rank, sort, `slice(0, limit)`; it fails with the size-mismatch error exactly when a member has another size |
| Ranking.AnswerSpec | src/lib/store.ts:236-247 | the query fails exactly when a member has another size. Otherwise the results are ascending by distance, there are min(limit, members) of them for limit ≥ 0, and each one is a member paired with its distance from the query. They are also a prefix of an ascending permutation of all the ranked members, so they are the `limit` nearest |
| Centroids.Mean | src/lib/store.ts:133-150 | the reference definition of the centroid: coordinate i is the members' sum of coordinate i divided by their count, for the configured number of coordinates |
| Centroids.VectorsOf | src/lib/store.ts:135 | `select('vector')`: one vector per member row, the row's own, in table order |
| Centroids.ColumnSum | src/lib/store.ts:138-143 | the reference definition of a running sum of coordinate i over the members in table order; characterised by ColumnSumStep, ColumnSumOfCopies and ColumnSumBounds |
| Centroids.ColumnSumStep | src/lib/store.ts:138-143 | adding member j to the running sums adds its coordinate i to coordinate i |
| Centroids.ColumnSumOfCopies | src/lib/store.ts:138-143 | k equal members sum to k times their value in every coordinate |
| Centroids.MeanOfCopies | src/lib/store.ts:133-150 | a cluster whose members are all w has centroid w |
| Centroids.ColumnSumBounds | src/lib/store.ts:138-143 | k members with coordinate i in [lo, hi] sum to a value in [k·lo, k·hi] |
| Centroids.QuotientWithin | src/lib/store.ts:145-147 | dividing a sum bounded by k·lo and k·hi by the count k lands in [lo, hi] |
| Centroids.MeanWithinBounds | src/lib/store.ts:133-150 | when every member coordinate is in [lo, hi], so is every centroid coordinate |
| Centroids.Drifted | src/lib/store.ts:188-195 | measuring fails exactly when a member has another size; otherwise a member is picked exactly when its distance from the new centroid exceeds the maximum distance, and it occurs as often as among the members |
| VectorStore.ScanClusters | src/lib/store.ts:153-165 | the loop over the cluster list: the size-mismatch error exactly when a centroid has another size, otherwise the id of the scan's pick, or -1 when nothing qualifies |
| VectorStore.RankMembers | src/lib/store.ts:238-245 | the loop of `query`: the size-mismatch error exactly when a member has another size, otherwise exactly the ranked array |
| CenterWriteBack.UpdateIndexRow | src/lib/store.ts:184 | `update` of index row `cluster_id = c`: that row's centroid becomes the new one, every other row reads as before, a missing id changes nothing, ids stay distinct |
| CenterWriteBack.WriteBack | src/lib/store.ts:184-185 | as written, seen through `get`: the index reads `center` for c when c has a row and as before for every other id; the cache reads `center` for c unless c = 0, and as before for every other id (and for 0); index ids are unchanged and cache ids stay distinct |
| CenterWriteBack.WriteBackOfClusterZeroIsLost | src/lib/store.ts:184-185 | from cache = index = [(0, [1]), (1, [1])], writing back [2] for cluster 0 moves the index row but not the cache entry, so the cache no longer mirrors the index |
| CenterWriteBack.WriteBackIntended | src/lib/store.ts:184-185 | as intended, seen through `get`: the index as for WriteBack; the cache reads `center` for c, 0 included, and as before for every other id; index ids are unchanged and cache ids stay distinct |
| CenterWriteBack.WriteBackIntendedKeepsCache | src/lib/store.ts:184-185 | writing back an existing cluster into a cache equal to the index leaves the cache equal to the index, for every id including 0 |
| CenterWriteBack.WriteBackAgreesOffZero | src/lib/store.ts:128 | for every cluster other than 0, the write-back as written is the intended one |
| VectorStore.AddInto | src/lib/store.ts:140-142 | each coordinate of the center array grows by the member's coordinate |
| VectorStore.AccumulateMean | src/lib/store.ts:138-147 | the two loops on the zero-filled backing array leave it holding exactly the members' mean, coordinate by coordinate |
| VectorStore.DivideBy | src/lib/store.ts:145-147 | each coordinate of the center array is divided by the count |
| VectorStore.Store.constructor | src/lib/store.ts:38-45 | the table names are `<table>_index` and `<table>_vector`; ClusterMaxDistance is the configured maximum distance; the cache starts empty; the persisted index must come in ascending id order |
| VectorStore.Store.Arr2Vec | src/lib/store.ts:85-91 | the size-mismatch error exactly when the array length differs from the configured size; otherwise a new vector over that array, with the configured size, max and min |
| VectorStore.Store.PostChangesClusterCache | src/lib/store.ts:120-131 | refresh makes the cache exactly the index table; update with a truthy key and a value does `set(key, value)`; any other call leaves the cache unchanged |
| VectorStore.Store.GetClusterList | src/lib/store.ts:93-118 | reloads only an empty cache; a truthy key returns that key with its looked-up entry; no key or key 0 returns every cache entry in Map order |
| VectorStore.Store.GetClusterID | src/lib/store.ts:152-179 | the result, the new cache and the new index table are those of the assignment function that Routing.AssignSpec characterises |
| VectorStore.Store.GetCenterVector | src/lib/store.ts:133-150 | a new vector of the configured size, max and min, whose coordinate i is the sum of the members' coordinate i divided by the member count |
| VectorStore.Store.WriteBackCenter | src/lib/store.ts:182-185 | the new centroid is the members' mean; the index and the cache become those of CenterWriteBack.WriteBack, so cluster 0's cache entry is not updated |
| VectorStore.Store.SaveCenter | src/lib/store.ts:184-185 | the index and the cache become exactly those of CenterWriteBack.WriteBack on the old state, and the store stays valid |
| VectorStore.Store.Insert | src/lib/store.ts:216-229 | returns the assigned cluster, and writes one row with that cluster_id into shard `clusterID % partition` and no other; an error writes nothing |
| VectorStore.Store.Query | src/lib/store.ts:231-248 | the cluster is assigned as by GetClusterID; the members of that cluster in shard `clusterID % partition` are ranked, sorted and truncated as Ranking.AnswerSpec characterises; an omitted limit is 10 |

## Left out

- src/lib/engine.ts (client creation and directory set-up) and src/index.ts (a benchmark driver) are not part of this model.
- `Store.db` (src/lib/store.ts:47-71), the lazy schema creation and client cache, is replaced by the in-memory tables. A shard never opened reads as an empty table with next id 1.
- `encodeVector` and `decodeVector` are JSON serialisation; the model keeps vectors decoded, so both are the identity.
- Asynchrony: every `await` is a sequential step. The unawaited `updateClusterCenter` after an insert is not run by `Insert`.
- The store's distance is any function `dist`; it is not tied to `Vectors.CosineDistance`. The store's scan therefore uses the length check but not the cosine formula.
- `Vectors.Vector.Distance`: floating point is not modelled. `Math.sqrt` is a parameter, arithmetic is exact on reals, and NaN or infinity from a zero magnitude is the `Undefined` score. The bound of the distance to [0, 1] needs Cauchy–Schwarz and is not stated.
- `Vectors.Vector.Equals`: the index of the first differing coordinate, where the loop stops, is not observable and is not stated. NaN coordinates are not modelled.
- The accessors `__vector`, `__size` and `config` of src/lib/vector.ts are the fields `data`, `size`, `max` and `min`.
- `Routing.ClientIndex` requires a non-zero partition; partition 0 gives NaN in the source.
- `VectorStore.Store.GetCenterVector` requires at least one member and members with at least the configured number of coordinates; the source produces NaN in those cases.
- `updateClusterCenter` (src/lib/store.ts:181-214) is modelled as the write-back `VectorStore.Store.WriteBackCenter` and the drift test `Centroids.Drifted`. The unawaited, unboundedly recursive reassignment of drifted records is left out. That reassignment recomputes only the new cluster's centroid (line 210). It also reads the moved row's `data` after deleting the row (lines 203-207).
- `Routing.AssignSpec` and `Routing.RouteIsStable` assume `Coherent`: the cache is empty or equal to the index. `Coherent` is not an invariant of the source once the write-back runs for cluster 0 (see Findings), and neither lemma covers states after that. For such states `Routing.AssignPicksFromLoaded` still shows that an existing cluster returned is the first nearest entry of the (stale) cache.
- `VectorStore.Store.GetClusterID` and `VectorStore.Store.PostChangesClusterCache`: the source's cache holds `Vector` objects. `getClusterID` stores the caller's own object (line 175), and that object shares its array with whoever built it. The model keeps value snapshots, so later writes through such an array are not seen by the cache.
- `VectorStore.Store.constructor` requires the persisted index in ascending id order, which is SQLite's rowid order. When ids are not `0 .. n-1`, a new cluster can get an id below existing ones. SQLite would then return it earlier, while the model keeps it last. That case also ends in the duplicate-key error whenever the new id is already taken.
- `Ranking.SortByDistanceSpec`: the sort is stable, as `Array.prototype.sort` is. The ascending order and the permutation are proved; stability itself is not stated as a lemma. The comparator `a.distance - b.distance` is exact on reals.
- `VectorStore.Store.Insert`: it is not proved that a query for the inserted vector then returns the inserted record.

## Findings

| source | as written | input that shows it | evidently intended | confidence | as-written member | corrected member |
|---|---|---|---|---|---|---|
| src/lib/store.ts:184-185 | `updateClusterCenter` writes the new centroid to the index row, then updates the cache through `key && value`, which is false for cluster id 0; a loaded cache is never reloaded, so cluster 0 keeps its old centroid in the cache while routing reads the cache | cache = index = [(0, [1]), (1, [1])], write back [2] for cluster 0: the index row becomes [2], the cache entry stays [1] | test `key !== undefined` so the cache entry of every cluster, 0 included, follows its index row | not executed; high | CenterWriteBack.WriteBackOfClusterZeroIsLost | CenterWriteBack.WriteBackIntendedKeepsCache |

The store's own methods follow the source as written: `VectorStore.Store.WriteBackCenter` is stated through `CenterWriteBack.WriteBack`. `CenterWriteBack.WriteBackIntended` is the corrected definition. It agrees with the written one for every cluster other than 0 (`CenterWriteBack.WriteBackAgreesOffZero`). It also keeps the cache equal to the index (`CenterWriteBack.WriteBackIntendedKeepsCache`), and that equality is the `Coherent` assumption on which `Routing.AssignSpec` and `Routing.RouteIsStable` rest.
