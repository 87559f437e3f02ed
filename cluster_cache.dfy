/**
 * The `ClusterCache` Map of src/lib/store.ts and the rows of the index table.
 * A JavaScript Map iterates in insertion order and `set` on a present key
 * keeps that key's position, so the cache is an ordered sequence of entries.
 */
module ClusterCache {
  import opened Errors

  /** A `(cluster_id, vector)` pair: one index-table row, or one cache entry. */
  datatype Cluster = Cluster(id: int, centroid: seq<real>)

  function Ids(m: seq<Cluster>): set<int>
  {
    set k | 0 <= k < |m| :: m[k].id
  }

  predicate DistinctIds(m: seq<Cluster>)
  {
    forall i, j :: 0 <= i < j < |m| ==> m[i].id != m[j].id
  }

  /**
   * Rows in ascending id order: the order in which SQLite returns a table whose
   * primary key `cluster_id` is its rowid.
   */
  predicate AscendingIds(m: seq<Cluster>)
  {
    forall i, j :: 0 <= i < j < |m| ==> m[i].id < m[j].id
  }

  /** Position of the first entry with this key. */
  function Find(m: seq<Cluster>, key: int): (r: Option<nat>)
    ensures r.Some? ==> r.value < |m| && m[r.value].id == key
    ensures r.Some? ==> forall j :: 0 <= j < r.value ==> m[j].id != key
    ensures r.None? <==> key !in Ids(m)
    decreases |m|
  {
    if |m| == 0 then None
    else if m[0].id == key then Some(0)
    else
      var rest := Find(m[1..], key);
      assert forall k :: 0 < k < |m| ==> m[k].id == m[1..][k - 1].id;
      assert Ids(m) == {m[0].id} + Ids(m[1..]) by {
        forall x | x in Ids(m) ensures x in {m[0].id} + Ids(m[1..]) {
          var k :| 0 <= k < |m| && m[k].id == x;
          if k > 0 { assert m[1..][k - 1].id == x; }
        }
      }
      match rest
      case None => None
      case Some(k) => Some(k + 1)
  }

  /** `Map.prototype.get`: the value stored under key, or None for `undefined`. */
  function Get(m: seq<Cluster>, key: int): (r: Option<seq<real>>)
    ensures r.Some? <==> key in Ids(m)
    ensures r.Some? ==> Cluster(key, r.value) in m
  {
    match Find(m, key)
    case None => None
    case Some(k) => Some(m[k].centroid)
  }

  /**
   * `Map.prototype.set`: a present key keeps its position and takes the new
   * value, an absent key is appended at the end of the iteration order.
   */
  function MapSet(m: seq<Cluster>, key: int, value: seq<real>): (r: seq<Cluster>)
    ensures Ids(r) == Ids(m) + {key}
    ensures forall j :: Get(r, j) == if j == key then Some(value) else Get(m, j)
    ensures key in Ids(m) ==> |r| == |m| && forall i :: 0 <= i < |m| ==> r[i].id == m[i].id
    ensures key !in Ids(m) ==> r == m + [Cluster(key, value)]
    ensures DistinctIds(m) ==> DistinctIds(r)
  {
    match Find(m, key)
    case Some(k) =>
      var r := m[k := Cluster(key, value)];
      assert Ids(r) == Ids(m) by {
        forall x | x in Ids(m) ensures x in Ids(r) {
          var i :| 0 <= i < |m| && m[i].id == x;
          assert r[i].id == x;
        }
      }
      assert forall j :: Find(r, j) == Find(m, j) by {
        forall j ensures Find(r, j) == Find(m, j) {
          FindAfterSameIds(m, r, j);
        }
      }
      r
    case None =>
      var r := m + [Cluster(key, value)];
      assert Ids(r) == Ids(m) + {key} by {
        IdsCover(m);
        IdsCover(r);
        forall x | x in Ids(r) ensures x in Ids(m) + {key} {
          var i :| 0 <= i < |r| && r[i].id == x;
          assert i < |m| ==> m[i].id == x;
        }
        forall x | x in Ids(m) ensures x in Ids(r) {
          var i :| 0 <= i < |m| && m[i].id == x;
          assert r[i].id == x;
        }
        assert r[|m|].id == key;
      }
      assert forall j :: j != key ==> Find(r, j) == Find(m, j) by {
        forall j | j != key ensures Find(r, j) == Find(m, j) {
          FindInExtension(m, r, j);
        }
      }
      assert Find(r, key) == Some(|m|) by {
        FindInExtension(m, r, key);
      }
      r
  }

  /** Every position's id belongs to the id set. */
  lemma IdsCover(m: seq<Cluster>)
    ensures forall i :: 0 <= i < |m| ==> m[i].id in Ids(m)
  {
  }

  /** Two sequences with the same ids at every position find every key at the same place. */
  lemma {:induction false} FindAfterSameIds(m: seq<Cluster>, r: seq<Cluster>, key: int)
    requires |r| == |m| && forall i :: 0 <= i < |m| ==> r[i].id == m[i].id
    ensures Find(r, key) == Find(m, key)
  {
    IdsCover(m);
    IdsCover(r);
    assert Ids(r) == Ids(m);
  }

  /** Appending one entry does not move the first occurrence of a key already present. */
  lemma {:induction false} FindInExtension(m: seq<Cluster>, r: seq<Cluster>, key: int)
    requires |r| == |m| + 1 && forall i :: 0 <= i < |m| ==> r[i] == m[i]
    ensures key in Ids(m) ==> Find(r, key) == Find(m, key)
    ensures key !in Ids(m) && r[|m|].id == key ==> Find(r, key) == Some(|m|)
    ensures key !in Ids(m) && r[|m|].id != key ==> Find(r, key) == None
  {
    IdsCover(m);
    IdsCover(r);
    assert Ids(r) == Ids(m) + {r[|m|].id};
  }

  /**
   * The refresh branch of `PostChanges_ClusterCache`: clear the Map, then
   * `set` every row of the index table in the order the select returns them,
   * which is the order of the rows in `Store.index`.
   */
  function Reload(rows: seq<Cluster>): (r: seq<Cluster>)
    ensures DistinctIds(r) && |r| <= |rows|
    decreases |rows|
  {
    if |rows| == 0 then []
    else MapSet(Reload(rows[..|rows| - 1]), rows[|rows| - 1].id, rows[|rows| - 1].centroid)
  }

  /** One step of the reload: the first i + 1 rows are the first i rows and then a `set` of row i. */
  lemma ReloadStep(rows: seq<Cluster>, i: nat)
    requires i < |rows|
    ensures Reload(rows[..i + 1]) == MapSet(Reload(rows[..i]), rows[i].id, rows[i].centroid)
  {
    assert rows[..i + 1][..i] == rows[..i];
  }

  /** The index table's primary key keeps its ids distinct, and then a reload reproduces it exactly. */
  lemma {:induction false} ReloadOfDistinct(rows: seq<Cluster>)
    requires DistinctIds(rows)
    ensures Reload(rows) == rows
    decreases |rows|
  {
    if |rows| > 0 {
      var init := rows[..|rows| - 1];
      var last := rows[|rows| - 1];
      ReloadOfDistinct(init);
      assert forall k :: 0 <= k < |init| ==> init[k].id != last.id by {
        forall k | 0 <= k < |init| ensures init[k].id != last.id {
          assert init[k] == rows[k];
        }
      }
      assert last.id !in Ids(init);
      assert init + [last] == rows;
    }
  }

  /** The truthiness test `key &&` on an optional number. */
  predicate Truthy(key: Option<int>)
    ensures Truthy(key) ==> key.Some?
    ensures key == Some(0) ==> !Truthy(key)
    ensures key.Some? && key.value != 0 ==> Truthy(key)
  {
    key.Some? && key.value != 0
  }
}
