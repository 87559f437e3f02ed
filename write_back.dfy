/**
 * The centroid write-back at the start of `updateClusterCenter` in
 * src/lib/store.ts: the new centroid goes into the cluster's index row, and
 * then into the cache through `PostChanges_ClusterCache('update', ...)`.
 */
module CenterWriteBack {
  import opened Errors
  import opened ClusterCache
  import opened Routing

  /** The cache and the index table after a write-back. */
  datatype Tables = Tables(cache: seq<Cluster>, index: seq<Cluster>)

  /** `update({ vector })` on the index rows `where('cluster_id', c)`: a missing id changes nothing. */
  function UpdateIndexRow(index: seq<Cluster>, c: int, center: seq<real>): (r: seq<Cluster>)
    ensures Ids(r) == Ids(index)
    ensures forall j :: Get(r, j) == if j == c && c in Ids(index) then Some(center) else Get(index, j)
    ensures c in Ids(index) ==> |r| == |index| && forall i :: 0 <= i < |index| ==> r[i].id == index[i].id
    ensures DistinctIds(index) ==> DistinctIds(r)
  {
    if c in Ids(index) then MapSet(index, c, center) else index
  }

  /** The write-back as written: the cache update goes through the `key &&` test, which skips cluster 0. */
  function WriteBack(cache: seq<Cluster>, index: seq<Cluster>, c: int, center: seq<real>): (r: Tables)
    ensures forall j :: Get(r.cache, j) == if j == c && c != 0 then Some(center) else Get(cache, j)
    ensures forall j :: Get(r.index, j) == if j == c && c in Ids(index) then Some(center) else Get(index, j)
    ensures Ids(r.index) == Ids(index)
    ensures DistinctIds(cache) ==> DistinctIds(r.cache)
  {
    Tables(if Truthy(Some(c)) then MapSet(cache, c, center) else cache, UpdateIndexRow(index, c, center))
  }

  /**
   * Writing back cluster 0 leaves its stale centroid in a loaded cache: from a
   * cache that mirrors the index, the index row moves and the cache entry does
   * not, and the cache is never reloaded because it is not empty.
   */
  lemma WriteBackOfClusterZeroIsLost()
    ensures var tables := [Cluster(0, [1.0]), Cluster(1, [1.0])];
      && DistinctIds(tables) && Coherent(tables, tables)
      && var r := WriteBack(tables, tables, 0, [2.0]);
      && Get(r.index, 0) == Some([2.0])
      && Get(r.cache, 0) == Some([1.0])
      && !Coherent(r.cache, r.index)
  {
    var tables := [Cluster(0, [1.0]), Cluster(1, [1.0])];
    assert tables[0].id == 0;
    assert 0 in Ids(tables);
    assert Find(tables, 0) == Some(0);
    var r := WriteBack(tables, tables, 0, [2.0]);
    assert Get(r.index, 0) != Get(r.cache, 0);
  }

  /** The write-back as intended: the cache is updated for every id, 0 included (`key !== undefined`). */
  function WriteBackIntended(cache: seq<Cluster>, index: seq<Cluster>, c: int, center: seq<real>): (r: Tables)
    ensures forall j :: Get(r.cache, j) == if j == c then Some(center) else Get(cache, j)
    ensures forall j :: Get(r.index, j) == if j == c && c in Ids(index) then Some(center) else Get(index, j)
    ensures Ids(r.index) == Ids(index)
    ensures DistinctIds(cache) ==> DistinctIds(r.cache)
  {
    Tables(MapSet(cache, c, center), UpdateIndexRow(index, c, center))
  }

  /**
   * Writing back an existing cluster into a cache loaded from the index keeps
   * the cache equal to the index, for every cluster id.
   */
  lemma WriteBackIntendedKeepsCache(index: seq<Cluster>, c: int, center: seq<real>)
    requires DistinctIds(index) && c in Ids(index)
    ensures var r := WriteBackIntended(index, index, c, center);
      r.cache == r.index && Coherent(r.cache, r.index) && DistinctIds(r.index)
  {
  }

  /** For every cluster other than 0, the write-back as written is the intended one. */
  lemma WriteBackAgreesOffZero(cache: seq<Cluster>, index: seq<Cluster>, c: int, center: seq<real>)
    requires c != 0
    ensures WriteBack(cache, index, c, center) == WriteBackIntended(cache, index, c, center)
  {
  }
}
