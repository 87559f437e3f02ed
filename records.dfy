/**
 * The per-shard vector table of src/lib/store.ts, `(id, cluster_id, vector,
 * data)` rows with an auto-increment id, held in memory instead of SQLite.
 */
module Records {

  /** One row of a vector table; the vector is kept decoded. */
  datatype Record = Record(id: nat, clusterId: int, vector: seq<real>, data: string)

  /** A shard's vector table: its rows in insertion order and the next auto-increment id. */
  datatype RecordTable = RecordTable(rows: seq<Record>, nextId: nat)

  /** A table that the shard's lazy schema creation has just made. */
  const EmptyTable: RecordTable := RecordTable([], 1)

  /** Auto-increment ids start at 1, are distinct and stay below the next id. */
  predicate TableValid(t: RecordTable)
  {
    && 1 <= t.nextId
    && (forall i :: 0 <= i < |t.rows| ==> 1 <= t.rows[i].id < t.nextId)
    && (forall i, j :: 0 <= i < j < |t.rows| ==> t.rows[i].id != t.rows[j].id)
  }

  predicate ShardsValid(shards: map<int, RecordTable>)
  {
    forall s :: s in shards ==> TableValid(shards[s])
  }

  /** The table of shard s; a shard never opened reads as an empty table. */
  function TableAt(shards: map<int, RecordTable>, s: int): (t: RecordTable)
    ensures ShardsValid(shards) ==> TableValid(t)
  {
    if s in shards then shards[s] else EmptyTable
  }

  /** `select(...).where('cluster_id', c)`: the rows of cluster c, in table order. */
  function Members(rows: seq<Record>, c: int): (r: seq<Record>)
    ensures forall x :: x in r <==> x in rows && x.clusterId == c
    ensures forall x :: multiset(r)[x] == if x.clusterId == c then multiset(rows)[x] else 0
    ensures |r| <= |rows|
    decreases |rows|
  {
    if |rows| == 0 then []
    else
      var init := rows[..|rows| - 1];
      var last := rows[|rows| - 1];
      assert rows == init + [last];
      Members(init, c) + (if last.clusterId == c then [last] else [])
  }

  /** `insert` into one table: the row takes the next auto-increment id. */
  function Append(t: RecordTable, c: int, v: seq<real>, data: string): (r: RecordTable)
    ensures TableValid(t) ==> TableValid(r)
    ensures |r.rows| == |t.rows| + 1 && r.rows[..|t.rows|] == t.rows
    ensures r.rows[|t.rows|] == Record(t.nextId, c, v, data)
    ensures TableValid(t) ==> forall x :: x in t.rows ==> x.id != t.nextId
  {
    RecordTable(t.rows + [Record(t.nextId, c, v, data)], t.nextId + 1)
  }

  /** Write one row into shard s, opening the shard's table when it does not exist yet. */
  function AddRecord(shards: map<int, RecordTable>, s: int, c: int, v: seq<real>, data: string): (r: map<int, RecordTable>)
    ensures ShardsValid(shards) ==> ShardsValid(r)
    ensures forall t :: t != s ==> TableAt(r, t) == TableAt(shards, t)
  {
    shards[s := Append(TableAt(shards, s), c, v, data)]
  }

  /**
   * What a later select of cluster c in shard s sees after the write: the
   * old members followed by the new row; every other cluster and every other
   * shard reads as before.
   */
  lemma AddRecordIsMember(shards: map<int, RecordTable>, s: int, c: int, v: seq<real>, data: string)
    ensures var t := TableAt(shards, s);
      Members(TableAt(AddRecord(shards, s, c, v, data), s).rows, c)
        == Members(t.rows, c) + [Record(t.nextId, c, v, data)]
    ensures forall c' :: c' != c ==>
      Members(TableAt(AddRecord(shards, s, c, v, data), s).rows, c') == Members(TableAt(shards, s).rows, c')
  {
    var t := TableAt(shards, s);
    var rows := TableAt(AddRecord(shards, s, c, v, data), s).rows;
    assert rows[..|rows| - 1] == t.rows;
  }
}
