/**
 * The `Store` class of src/lib/store.ts with its storage held in memory: the
 * cluster index table of shard 0, one vector table per shard, and the
 * `ClusterCache` Map. The distance between vectors is the parameter `dist`.
 */
module VectorStore {
  import opened Errors
  import opened Vectors
  import opened ClusterCache
  import opened Routing
  import opened Records
  import opened Ranking
  import opened Centroids
  import opened CenterWriteBack

  datatype VectorOptions = VectorOptions(max: real, min: real, size: nat)
  datatype DbOptions = DbOptions(table: string)
  datatype ClusterOptions = ClusterOptions(maxDistance: real, partition: int)
  /** The store's configuration, shaped like the source's `Config`. */
  datatype Config = Config(vector: VectorOptions, db: DbOptions, cluster: ClusterOptions)

  /** The two modes of `PostChanges_ClusterCache`. */
  datatype Mode = Refresh | Update

  /** What `getClusterList` returns: one looked-up entry, or every entry in Map order. */
  datatype Listing = Single(clusterId: int, vector: Option<seq<real>>) | All(entries: seq<Cluster>)

  /**
   * The scan of `getClusterID`: the id of the first cluster strictly nearer
   * than every one before it and than the maximum distance, or -1 when no
   * cluster qualifies; a centroid of another size makes `distance` throw.
   */
  method ScanClusters(dist: Metric, maxDistance: real, clusters: seq<Cluster>, v: seq<real>) returns (r: Result<int>)
    ensures r.Err? <==> !SameSize(clusters, |v|)
    ensures r.Err? ==> r.error == SizeMismatch
    ensures r.Ok? ==> var best := Nearest(dist, maxDistance, clusters, v);
      r.value == if best.Some? then clusters[best.value].id else -1
  {
    var minDistance := MaxValue;
    var clusterID := -1;
    ghost var best: Option<nat> := None;
    for i := 0 to |clusters|
      invariant SameSize(clusters[..i], |v|)
      invariant best == Nearest(dist, maxDistance, clusters[..i], v)
      invariant best.None? ==> clusterID == -1 && minDistance == MaxValue
      invariant best.Some? ==> best.value < i && clusterID == clusters[best.value].id
      invariant best.Some? ==> minDistance == dist(v, clusters[best.value].centroid)
    {
      NearestStep(dist, maxDistance, clusters, v, i);
      if |clusters[i].centroid| != |v| {
        return Err(SizeMismatch);
      }
      var distance := dist(v, clusters[i].centroid);
      if distance < minDistance && distance < maxDistance {
        minDistance := distance;
        clusterID := clusters[i].id;
        best := Some(i);
      }
      assert clusters[..i + 1][..i] == clusters[..i];
    }
    assert clusters[..|clusters|] == clusters;
    return Ok(clusterID);
  }

  /**
   * The loop of `query`: for each member, in table order, push its data, its
   * distance from the query and its vector; a member of another size makes
   * `distance` throw.
   */
  method RankMembers(dist: Metric, q: seq<real>, members: seq<Record>, size: nat) returns (r: Result<seq<QueryResult>>)
    requires size == |q|
    ensures r.Err? <==> !SizedRecords(members, |q|)
    ensures r.Err? ==> r.error == SizeMismatch
    ensures r.Ok? ==> r.value == Rank(dist, q, members)
  {
    var result: seq<QueryResult> := [];
    for i := 0 to |members|
      invariant forall j :: 0 <= j < i ==> |members[j].vector| == |q|
      invariant result == Rank(dist, q, members[..i])
    {
      RankStep(dist, q, members, i);
      if |members[i].vector| != size {
        return Err(SizeMismatch);
      }
      result := result + [QueryResult(members[i].data, dist(q, members[i].vector), members[i].vector)];
    }
    assert members[..|members|] == members;
    return Ok(result);
  }

  /** One pass of `center.__vector[i] += v[i]` over every coordinate of the center. */
  method AddInto(coords: array<real>, v: seq<real>)
    requires |v| >= coords.Length
    modifies coords
    ensures forall k :: 0 <= k < coords.Length ==> coords[k] == old(coords[k]) + v[k]
  {
    for i := 0 to coords.Length
      invariant forall k :: 0 <= k < i ==> coords[k] == old(coords[k]) + v[k]
      invariant forall k :: i <= k < coords.Length ==> coords[k] == old(coords[k])
    {
      coords[i] := coords[i] + v[i];
    }
  }

  /** The final pass `center.__vector[i] /= vectors.length`. */
  /**
   * The two loops of `getCenterVector` on the zero-filled backing array: add
   * every member coordinate by coordinate, then divide by the member count.
   */
  method AccumulateMean(coords: array<real>, vectors: seq<seq<real>>)
    requires |vectors| > 0 && LongEnough(vectors, coords.Length)
    requires forall i :: 0 <= i < coords.Length ==> coords[i] == 0.0
    modifies coords
    ensures coords[..] == Mean(vectors, coords.Length)
  {
    var n := coords.Length;
    assert LongEnough(vectors[..0], n);
    for j := 0 to |vectors|
      invariant LongEnough(vectors[..j], n)
      invariant forall i :: 0 <= i < n ==> coords[i] == ColumnSum(vectors[..j], i)
    {
      ColumnSumStep(vectors, j, n);
      AddInto(coords, vectors[j]);
    }
    assert vectors[..|vectors|] == vectors;
    DivideBy(coords, |vectors| as real);
  }

  method DivideBy(coords: array<real>, count: real)
    requires count != 0.0
    modifies coords
    ensures forall k :: 0 <= k < coords.Length ==> coords[k] == old(coords[k]) / count
  {
    for i := 0 to coords.Length
      invariant forall k :: 0 <= k < i ==> coords[k] == old(coords[k]) / count
      invariant forall k :: i <= k < coords.Length ==> coords[k] == old(coords[k])
    {
      coords[i] := coords[i] / count;
    }
  }

  class Store {
    const config: Config
    const tableIndex: string
    const tableVector: string
    const clusterMaxDistance: real
    const dist: Metric
    /** The index table on shard 0: `(cluster_id, vector)` rows in insertion order. */
    var index: seq<Cluster>
    /** The vector table of every shard opened so far. */
    var shards: map<int, RecordTable>
    /** `ClusterCache`, in Map iteration order. */
    var cache: seq<Cluster>

    ghost predicate Valid()
      reads this
    {
      && config.cluster.partition != 0
      && clusterMaxDistance == config.cluster.maxDistance
      && DistinctIds(index)
      && DistinctIds(cache)
      && ShardsValid(shards)
    }

    /**
     * The source's constructor takes only the configuration; the tables found
     * on disk at start-up are parameters here. SQLite keeps the index ids
     * distinct and returns them in ascending order, and keeps the
     * auto-increment ids consistent.
     */
    constructor (config: Config, dist: Metric, index: seq<Cluster>, shards: map<int, RecordTable>)
      requires config.cluster.partition != 0
      requires AscendingIds(index) && ShardsValid(shards)
      ensures Valid()
      ensures this.config == config && this.dist == dist
      ensures tableIndex == config.db.table + "_index" && tableVector == config.db.table + "_vector"
      ensures clusterMaxDistance == config.cluster.maxDistance
      ensures this.index == index && this.shards == shards && cache == []
    {
      this.config := config;
      this.dist := dist;
      tableIndex := config.db.table + "_index";
      tableVector := config.db.table + "_vector";
      clusterMaxDistance := config.cluster.maxDistance;
      this.index := index;
      this.shards := shards;
      cache := [];
    }

    /** `arr2vec`: refuses an array of the wrong length, otherwise wraps it (not a copy). */
    method Arr2Vec(arr: array<real>) returns (r: Result<Vector>)
      ensures r.Err? <==> arr.Length != config.vector.size
      ensures r.Err? ==> r.error == SizeMismatch
      ensures r.Ok? ==> fresh(r.value) && r.value.Valid() && r.value.data == arr
      ensures r.Ok? ==> r.value.size == config.vector.size && r.value.clusterId == -1
      ensures r.Ok? ==> r.value.max == config.vector.max && r.value.min == config.vector.min
    {
      if arr.Length != config.vector.size {
        return Err(SizeMismatch);
      }
      var v := new Vector(arr, config.vector.max, config.vector.min);
      return Ok(v);
    }

    /**
     * `PostChanges_ClusterCache`: refresh clears the Map and sets every index
     * row in turn; update sets one entry, but only when the key is truthy
     * (so key 0 is skipped) and a value is given.
     */
    method PostChangesClusterCache(mode: Mode, key: Option<int>, value: Option<seq<real>>)
      requires Valid()
      modifies this`cache
      ensures Valid()
      ensures mode == Refresh ==> cache == index
      ensures mode == Update && Truthy(key) && value.Some? ==> cache == MapSet(old(cache), key.value, value.value)
      ensures mode == Update && !(Truthy(key) && value.Some?) ==> cache == old(cache)
    {
      if mode == Refresh {
        cache := [];
        for i := 0 to |index|
          invariant cache == Reload(index[..i])
        {
          ReloadStep(index, i);
          cache := MapSet(cache, index[i].id, index[i].centroid);
        }
        assert index[..|index|] == index;
        ReloadOfDistinct(index);
      } else if Truthy(key) && value.Some? {
        cache := MapSet(cache, key.value, value.value);
      }
    }

    /**
     * `getClusterList`: reloads the cache only when it is empty; a truthy key
     * looks one entry up, no key or key 0 lists every entry in Map order.
     */
    method GetClusterList(key: Option<int>) returns (r: Listing)
      requires Valid()
      modifies this`cache
      ensures Valid()
      ensures old(|cache|) == 0 ==> cache == index
      ensures old(|cache|) != 0 ==> cache == old(cache)
      ensures cache == Loaded(old(cache), index)
      ensures Truthy(key) ==> r == Single(key.value, Get(cache, key.value))
      ensures !Truthy(key) ==> r == All(cache)
    {
      if |cache| == 0 {
        PostChangesClusterCache(Refresh, None, None);
        ReloadOfDistinct(index);
      }
      if Truthy(key) {
        return Single(key.value, Get(cache, key.value));
      }
      var list: seq<Cluster> := [];
      for i := 0 to |cache|
        invariant list == cache[..i]
      {
        list := list + [cache[i]];
      }
      assert cache[..|cache|] == cache;
      return All(list);
    }

    /**
     * `getClusterID`: the linear scan over the cache, then, when nothing
     * qualifies, a new index row with id = the list's length and a cache update.
     */
    method GetClusterID(vector: Vector) returns (r: Result<int>)
      requires Valid() && vector.Valid()
      modifies this`cache, this`index
      ensures Valid()
      ensures var a := Assign(dist, clusterMaxDistance, old(cache), old(index), vector.data[..]);
        r == a.result && cache == a.cache && index == a.index
    {
      var v := vector.data[..];
      ghost var a := Assign(dist, clusterMaxDistance, cache, index, v);
      var listing := GetClusterList(None);
      var clusters := listing.entries;
      assert clusters == cache == Loaded(old(cache), index);
      var scan := ScanClusters(dist, clusterMaxDistance, clusters, v);
      if scan.Err? {
        return Err(SizeMismatch);
      }
      var clusterID := scan.value;
      if clusterID == -1 {
        clusterID := |clusters|;
        if clusterID in Ids(index) {
          assert a.result == Err(UniqueViolation);
          return Err(UniqueViolation);
        }
        IdsCover(index);
        index := index + [Cluster(clusterID, v)];
        PostChangesClusterCache(Update, Some(clusterID), Some(v));
        assert a == Assignment(Ok(clusterID), cache, index);
      } else {
        assert a == Assignment(Ok(clusterID), cache, index);
      }
      return Ok(clusterID);
    }

    /**
     * `getCenterVector`: a zero vector of the configured size, every member
     * added coordinate by coordinate, then each coordinate divided by the
     * member count.
     */
    method GetCenterVector(clusterID: int) returns (center: Vector)
      requires Valid()
      requires var members := Members(TableAt(shards, ClientIndex(clusterID, config.cluster.partition)).rows, clusterID);
        |members| > 0 && LongEnough(VectorsOf(members), config.vector.size)
      ensures fresh(center) && fresh(center.data) && center.Valid()
      ensures center.size == config.vector.size
      ensures center.max == config.vector.max && center.min == config.vector.min
      ensures center.data[..] == Mean(VectorsOf(Members(TableAt(shards, ClientIndex(clusterID, config.cluster.partition)).rows, clusterID)), config.vector.size)
    {
      var n := config.vector.size;
      var vectors := VectorsOf(Members(TableAt(shards, ClientIndex(clusterID, config.cluster.partition)).rows, clusterID));
      var zeros := new real[n](_ => 0.0);
      center := new Vector(zeros, config.vector.max, config.vector.min);
      var coords := center.data;  // the `__vector` getter: the backing array itself
      AccumulateMean(coords, vectors);
    }

    /**
     * The first three steps of `updateClusterCenter`: recompute the centroid,
     * write it into the cluster's index row, then hand it to
     * `PostChanges_ClusterCache('update', ...)`, whose `key &&` test skips
     * cluster 0.
     */
    method WriteBackCenter(clusterID: int) returns (center: Vector)
      requires Valid()
      requires var members := Members(TableAt(shards, ClientIndex(clusterID, config.cluster.partition)).rows, clusterID);
        |members| > 0 && LongEnough(VectorsOf(members), config.vector.size)
      modifies this`index, this`cache
      ensures Valid()
      ensures center.data[..] == Mean(VectorsOf(Members(TableAt(shards, ClientIndex(clusterID, config.cluster.partition)).rows, clusterID)), config.vector.size)
      ensures var r := WriteBack(old(cache), old(index), clusterID, center.data[..]);
        cache == r.cache && index == r.index
    {
      center := GetCenterVector(clusterID);
      SaveCenter(clusterID, center.data[..]);
    }

    /** Lines 184-185 of `updateClusterCenter`: the index row, then the cache upsert. */
    method SaveCenter(clusterID: int, c: seq<real>)
      requires Valid()
      modifies this`index, this`cache
      ensures Valid()
      ensures var r := WriteBack(old(cache), old(index), clusterID, c);
        cache == r.cache && index == r.index
    {
      index := UpdateIndexRow(index, clusterID, c);
      PostChangesClusterCache(Update, Some(clusterID), Some(c));
    }

    /**
     * `insert`: assign a cluster, then write the record into shard
     * clusterID % partition with that cluster_id. The centroid update the
     * source launches without awaiting is not part of this method.
     */
    method Insert(data: string, vector: Vector) returns (r: Result<int>)
      requires Valid() && vector.Valid()
      modifies this`cache, this`index, this`shards
      ensures Valid()
      ensures var a := Assign(dist, clusterMaxDistance, old(cache), old(index), vector.data[..]);
        r == a.result && cache == a.cache && index == a.index
      ensures r.Err? ==> shards == old(shards)
      ensures r.Ok? ==>
        shards == AddRecord(old(shards), ClientIndex(r.value, config.cluster.partition), r.value, vector.data[..], data)
    {
      var found := GetClusterID(vector);
      if found.Err? {
        return found;
      }
      var clusterID := found.value;
      var shard := ClientIndex(clusterID, config.cluster.partition);
      shards := AddRecord(shards, shard, clusterID, vector.data[..], data);
      return Ok(clusterID);
    }

    /**
     * `query`: assign a cluster, measure every record of that cluster in its
     * shard, sort ascending by distance and keep the first `limit`, which is
     * DefaultLimit when the caller passes none.
     */
    method Query(vector: Vector, limit: Option<int>) returns (r: Result<seq<QueryResult>>)
      requires Valid() && vector.Valid()
      modifies this`cache, this`index
      ensures Valid()
      ensures var a := Assign(dist, clusterMaxDistance, old(cache), old(index), vector.data[..]);
        && cache == a.cache && index == a.index
        && r == match a.result
                case Err(e) => Err(e)
                case Ok(c) =>
                  Answer(dist, vector.data[..], Members(TableAt(shards, ClientIndex(c, config.cluster.partition)).rows, c),
                         if limit.Some? then limit.value else DefaultLimit)
    {
      var n := if limit.Some? then limit.value else DefaultLimit;
      ghost var a := Assign(dist, clusterMaxDistance, cache, index, vector.data[..]);
      var found := GetClusterID(vector);
      if found.Err? {
        return Err(found.error);
      }
      var clusterID := found.value;
      var q := vector.data[..];
      var vectors := Members(TableAt(shards, ClientIndex(clusterID, config.cluster.partition)).rows, clusterID);
      assert a.result == Ok(clusterID) && cache == a.cache && index == a.index;
      var ranked := RankMembers(dist, q, vectors, vector.size);
      if ranked.Err? {
        return Err(SizeMismatch);
      }
      var result := ranked.value;
      return Ok(Slice(SortByDistance(result), n));
    }
  }
}
