/**
 * Shard routing and cluster assignment of src/lib/store.ts: `getClientIndex`
 * and the nearest-cluster scan of `getClusterID`, over an abstract metric.
 */
module Routing {
  import opened Errors
  import opened ClusterCache

  /** `Number.MAX_VALUE`, (2 - 2^-52) * 2^1023, the scan's initial minimum. */
  const MaxValue: real := 179769313486231570814527423731704356798070567525844996598917476803157260780028538760589558632766878171540458953514382464234321326889464182768467546703537516986049910576551282076245490090389328944075868508455133942304583236903222948165808559332123348274797826204144723168738177180919299881250404026184124858368.0

  /** `Vector.distance` as the store sees it, applied to (this, target). */
  type Metric = (seq<real>, seq<real>) -> real

  /**
   * `getClientIndex`: JavaScript `%`, whose result takes the sign of the
   * dividend. `partition` 0 gives NaN in the source and is excluded here.
   */
  function ClientIndex(clusterId: int, partition: int): (r: int)
    requires partition != 0
    ensures -Abs(partition) < r < Abs(partition)
    ensures clusterId >= 0 ==> r >= 0
    ensures clusterId <= 0 ==> r <= 0
    ensures clusterId >= 0 ==> r == clusterId % Abs(partition)
  {
    var m := Abs(partition);
    if clusterId >= 0 then clusterId % m else -((-clusterId) % m)
  }

  function Abs(x: int): int
  {
    if x < 0 then -x else x
  }

  /** Truncated `%` is odd in the dividend: a negative id lands on the negated shard of its magnitude. */
  lemma ClientIndexOfNegated(clusterId: int, partition: int)
    requires partition != 0
    ensures ClientIndex(-clusterId, partition) == -ClientIndex(clusterId, partition)
  {
  }

  /** A distance the scan accepts: under the threshold and under the initial minimum. */
  predicate Qualifies(d: real, maxDistance: real)
  {
    d < maxDistance && d < MaxValue
  }

  /**
   * The cluster the loop of `getClusterID` settles on: each entry replaces
   * the running best when its distance is strictly below both the running
   * minimum and the threshold.
   */
  function Nearest(dist: Metric, maxDistance: real, list: seq<Cluster>, v: seq<real>): (best: Option<nat>)
    ensures best.Some? ==> best.value < |list|
    decreases |list|
  {
    if |list| == 0 then None
    else
      var prev := Nearest(dist, maxDistance, list[..|list| - 1], v);
      var d := dist(v, list[|list| - 1].centroid);
      var bound := if prev.Some? then dist(v, list[prev.value].centroid) else MaxValue;
      if d < bound && d < maxDistance then Some(|list| - 1) else prev
  }

  /** One step of the scan: entry i against the best of the entries before it. */
  lemma NearestStep(dist: Metric, maxDistance: real, list: seq<Cluster>, v: seq<real>, i: nat)
    requires i < |list|
    ensures var prev := Nearest(dist, maxDistance, list[..i], v);
      var d := dist(v, list[i].centroid);
      var bound := if prev.Some? then dist(v, list[prev.value].centroid) else MaxValue;
      Nearest(dist, maxDistance, list[..i + 1], v) == if d < bound && d < maxDistance then Some(i) else prev
  {
    assert list[..i + 1][..i] == list[..i];
  }

  /** Entry k qualifies, every earlier entry is strictly farther and every later one no nearer. */
  predicate IsFirstNearest(dist: Metric, maxDistance: real, list: seq<Cluster>, v: seq<real>, k: nat)
  {
    && k < |list|
    && Qualifies(dist(v, list[k].centroid), maxDistance)
    && (forall j :: 0 <= j < k ==> dist(v, list[j].centroid) > dist(v, list[k].centroid))
    && (forall j :: k < j < |list| ==> dist(v, list[j].centroid) >= dist(v, list[k].centroid))
  }

  predicate NoneQualifies(dist: Metric, maxDistance: real, list: seq<Cluster>, v: seq<real>)
  {
    forall j :: 0 <= j < |list| ==> !Qualifies(dist(v, list[j].centroid), maxDistance)
  }

  /** The scan finds the first entry of least qualifying distance, or nothing when none qualifies. */
  lemma {:induction false} NearestIsFirstMinimum(dist: Metric, maxDistance: real, list: seq<Cluster>, v: seq<real>)
    ensures Nearest(dist, maxDistance, list, v).None? <==> NoneQualifies(dist, maxDistance, list, v)
    ensures Nearest(dist, maxDistance, list, v).Some? ==>
              IsFirstNearest(dist, maxDistance, list, v, Nearest(dist, maxDistance, list, v).value)
    decreases |list|
  {
    if |list| > 0 {
      var init := list[..|list| - 1];
      NearestIsFirstMinimum(dist, maxDistance, init, v);
      assert forall j :: 0 <= j < |init| ==> init[j] == list[j];
    }
  }

  /** The list `getClusterList()` hands back: the cache, reloaded when empty. */
  function Loaded(cache: seq<Cluster>, index: seq<Cluster>): (list: seq<Cluster>)
    ensures |cache| > 0 ==> list == cache
    ensures |cache| == 0 ==> DistinctIds(list)
    ensures |cache| == 0 && DistinctIds(index) ==> list == index
  {
    if |cache| == 0 then
      if DistinctIds(index) then ReloadOfDistinct(index); Reload(index) else Reload(index)
    else cache
  }

  predicate SameSize(list: seq<Cluster>, n: nat)
  {
    forall j :: 0 <= j < |list| ==> |list[j].centroid| == n
  }

  /** What `getClusterID` returns, and the cache and index table it leaves. */
  datatype Assignment = Assignment(result: Result<int>, cache: seq<Cluster>, index: seq<Cluster>)

  /**
   * `getClusterID` on the cache and the index table: a size mismatch throws
   * from `distance`; a found cluster is returned as is; otherwise a cluster
   * with id = the list's length is inserted into the index (the primary key
   * refuses an id it already holds) and upserted into the cache, which the
   * truthiness guard skips for id 0.
   */
  function Assign(dist: Metric, maxDistance: real, cache: seq<Cluster>, index: seq<Cluster>, v: seq<real>): (a: Assignment)
    ensures a.result.Err? ==> a.index == index && a.cache == Loaded(cache, index)
    ensures a.result.Ok? && a.index == index ==> a.result.value in Ids(Loaded(cache, index))
    ensures a.index != index ==>
      a.result == Ok(|Loaded(cache, index)|) && a.index == index + [Cluster(|Loaded(cache, index)|, v)]
  {
    var list := Loaded(cache, index);
    if !SameSize(list, |v|) then Assignment(Err(SizeMismatch), list, index)
    else
      var best := Nearest(dist, maxDistance, list, v);
      var found := if best.Some? then list[best.value].id else -1;
      if found != -1 then Assignment(Ok(found), list, index)
      else
        var id := |list|;
        if id in Ids(index) then Assignment(Err(UniqueViolation), list, index)
        else
          var cache' := if Truthy(Some(id)) then MapSet(list, id, v) else list;
          Assignment(Ok(id), cache', index + [Cluster(id, v)])
  }

  /** The index ids are distinct and lie in 0 .. n-1: exactly the ids 0 .. n-1. */
  predicate Dense(index: seq<Cluster>)
  {
    DistinctIds(index) && forall j :: 0 <= j < |index| ==> 0 <= index[j].id < |index|
  }

  /** The cache is empty (to be reloaded) or mirrors the index table. */
  predicate Coherent(cache: seq<Cluster>, index: seq<Cluster>)
  {
    |cache| == 0 || cache == index
  }

  lemma LoadedCoherent(cache: seq<Cluster>, index: seq<Cluster>)
    requires DistinctIds(index) && Coherent(cache, index)
    ensures Loaded(cache, index) == index
  {
    ReloadOfDistinct(index);
  }

  /** With dense ids and a coherent cache, a new cluster's id is never one the index holds. */
  lemma FreshClusterId(cache: seq<Cluster>, index: seq<Cluster>)
    requires Dense(index) && Coherent(cache, index)
    ensures |Loaded(cache, index)| !in Ids(index)
  {
    LoadedCoherent(cache, index);
    IdsCover(index);
  }

  /**
   * Under dense ids and a coherent cache, `getClusterID` fails only on a size
   * mismatch; an existing cluster it returns is the first nearest qualifying
   * one, and otherwise it appends cluster |index| with the input as centroid.
   * Both invariants survive the call.
   */
  lemma {:induction false} AssignSpec(dist: Metric, maxDistance: real, cache: seq<Cluster>, index: seq<Cluster>, v: seq<real>)
    requires Dense(index) && Coherent(cache, index)
    ensures var a := Assign(dist, maxDistance, cache, index, v);
      && (a.result.Err? <==> !SameSize(index, |v|))
      && (a.result.Err? ==> a.result.error == SizeMismatch && a.index == index)
      && (a.result.Ok? && a.index == index ==>
            exists k :: 0 <= k < |index| && index[k].id == a.result.value && IsFirstNearest(dist, maxDistance, index, v, k))
      && (a.result.Ok? && a.index != index ==>
            a.result.value == |index| && a.index == index + [Cluster(|index|, v)]
            && NoneQualifies(dist, maxDistance, index, v))
      && Dense(a.index) && Coherent(a.cache, a.index)
  {
    var a := Assign(dist, maxDistance, cache, index, v);
    LoadedCoherent(cache, index);
    FreshClusterId(cache, index);
    var list := Loaded(cache, index);
    assert list == index;
    if SameSize(list, |v|) {
      NearestIsFirstMinimum(dist, maxDistance, list, v);
      var best := Nearest(dist, maxDistance, list, v);
      if best.Some? {
        assert 0 <= list[best.value].id;
        assert IsFirstNearest(dist, maxDistance, index, v, best.value);
      } else {
        AssignNewCluster(dist, maxDistance, cache, index, v);
      }
    }
  }

  /**
   * For any cache, coherent or not, an existing cluster `getClusterID`
   * returns is the first nearest qualifying entry of the list it scanned.
   */
  lemma AssignPicksFromLoaded(dist: Metric, maxDistance: real, cache: seq<Cluster>, index: seq<Cluster>, v: seq<real>)
    ensures var list := Loaded(cache, index);
      var a := Assign(dist, maxDistance, cache, index, v);
      a.result.Ok? && a.index == index ==>
        exists k :: 0 <= k < |list| && list[k].id == a.result.value && IsFirstNearest(dist, maxDistance, list, v, k)
  {
    NearestIsFirstMinimum(dist, maxDistance, Loaded(cache, index), v);
  }

  /**
   * The new-cluster branch: when no cluster qualifies, id n is appended with
   * the input as centroid, and dense ids and coherence are kept.
   */
  lemma AssignNewCluster(dist: Metric, maxDistance: real, cache: seq<Cluster>, index: seq<Cluster>, v: seq<real>)
    requires Dense(index) && Coherent(cache, index)
    requires SameSize(index, |v|) && Nearest(dist, maxDistance, index, v).None?
    ensures var a := Assign(dist, maxDistance, cache, index, v);
      && a.result == Ok(|index|) && a.index == index + [Cluster(|index|, v)]
      && Dense(a.index) && Coherent(a.cache, a.index)
  {
    LoadedCoherent(cache, index);
    FreshClusterId(cache, index);
    var id := |index|;
    var grown := index + [Cluster(id, v)];
    assert DistinctIds(grown) by {
      IdsCover(index);
    }
    assert id != 0 ==> MapSet(index, id, v) == grown;
    assert id == 0 ==> index == [];
  }

  /** A vector that qualifies against itself, appended after clusters none of which qualifies, is the scan's pick. */
  lemma NearestOfAppended(dist: Metric, maxDistance: real, list: seq<Cluster>, v: seq<real>, id: int)
    requires Nearest(dist, maxDistance, list, v).None? && Qualifies(dist(v, v), maxDistance)
    ensures Nearest(dist, maxDistance, list + [Cluster(id, v)], v) == Some(|list|)
  {
    var grown := list + [Cluster(id, v)];
    assert grown[..|grown| - 1] == list;
  }

  /**
   * Routing is stable: under dense ids and a coherent cache, assigning the
   * same vector again right after an assignment returns the same cluster, as
   * long as the vector qualifies against itself.
   */
  lemma {:induction false} RouteIsStable(dist: Metric, maxDistance: real, cache: seq<Cluster>, index: seq<Cluster>, v: seq<real>)
    requires Dense(index) && Coherent(cache, index)
    requires Qualifies(dist(v, v), maxDistance)
    ensures var a := Assign(dist, maxDistance, cache, index, v);
      a.result.Ok? ==>
        var b := Assign(dist, maxDistance, a.cache, a.index, v);
        b.result == a.result && b.index == a.index
  {
    var a := Assign(dist, maxDistance, cache, index, v);
    LoadedCoherent(cache, index);
    var list := Loaded(cache, index);
    if a.result.Ok? {
      if Nearest(dist, maxDistance, list, v).Some? {
        assert a.cache == list && a.index == index;
        assert Loaded(a.cache, a.index) == list;
      } else {
        AssignNewCluster(dist, maxDistance, cache, index, v);
        NearestOfAppended(dist, maxDistance, index, v, |index|);
        LoadedCoherent(a.cache, a.index);
        var grown := index + [Cluster(|index|, v)];
        assert SameSize(grown, |v|);
        assert grown[|index|].id == |index|;
      }
    }
  }
}
