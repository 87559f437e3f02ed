/**
 * The ranking step of `query` in src/lib/store.ts: one result per member,
 * `result.sort((a, b) => a.distance - b.distance)`, then `.slice(0, limit)`.
 */
module Ranking {
  import opened Errors
  import opened Records
  import opened Routing

  /** The default of `query`'s `limit` parameter. */
  const DefaultLimit: int := 10

  /** A `QueryResult`; the vector is kept decoded. */
  datatype QueryResult = QueryResult(data: string, distance: real, vector: seq<real>)

  predicate SizedRecords(rows: seq<Record>, n: nat)
  {
    forall j :: 0 <= j < |rows| ==> |rows[j].vector| == n
  }

  /** The array the loop of `query` pushes: each member with its distance from the query. */
  function Rank(dist: Metric, q: seq<real>, members: seq<Record>): (r: seq<QueryResult>)
    ensures |r| == |members|
  {
    seq(|members|, i requires 0 <= i < |members| =>
      QueryResult(members[i].data, dist(q, members[i].vector), members[i].vector))
  }

  /** Extending the pushed array by one member. */
  lemma RankStep(dist: Metric, q: seq<real>, members: seq<Record>, i: nat)
    requires i < |members|
    ensures Rank(dist, q, members[..i + 1])
      == Rank(dist, q, members[..i]) + [QueryResult(members[i].data, dist(q, members[i].vector), members[i].vector)]
  {
  }

  predicate SortedByDistance(s: seq<QueryResult>)
  {
    forall i, j :: 0 <= i < j < |s| ==> s[i].distance <= s[j].distance
  }

  /** Places x after every entry no farther than x, so entries of equal distance keep their order. */
  function InsertByDistance(x: QueryResult, s: seq<QueryResult>): (r: seq<QueryResult>)
    ensures |r| == |s| + 1
    decreases |s|
  {
    if |s| == 0 then [x]
    else if s[0].distance <= x.distance then [s[0]] + InsertByDistance(x, s[1..])
    else [x] + s
  }

  /** A stable ascending sort by distance, as `Array.prototype.sort` with this comparator is. */
  function SortByDistance(s: seq<QueryResult>): (r: seq<QueryResult>)
    ensures |r| == |s|
    decreases |s|
  {
    if |s| == 0 then []
    else InsertByDistance(s[|s| - 1], SortByDistance(s[..|s| - 1]))
  }

  lemma {:induction false} InsertByDistancePermutes(x: QueryResult, s: seq<QueryResult>)
    ensures multiset(InsertByDistance(x, s)) == multiset(s) + multiset{x}
    decreases |s|
  {
    if |s| > 0 && s[0].distance <= x.distance {
      InsertByDistancePermutes(x, s[1..]);
      assert s == [s[0]] + s[1..];
    }
  }

  lemma {:induction false} InsertByDistanceSorted(x: QueryResult, s: seq<QueryResult>)
    requires SortedByDistance(s)
    ensures SortedByDistance(InsertByDistance(x, s))
    decreases |s|
  {
    if |s| > 0 && s[0].distance <= x.distance {
      var rest := InsertByDistance(x, s[1..]);
      InsertByDistanceSorted(x, s[1..]);
      InsertByDistancePermutes(x, s[1..]);
      forall e | e in rest ensures s[0].distance <= e.distance {
        assert e in multiset(rest);
        assert e == x || e in s[1..];
      }
      assert InsertByDistance(x, s) == [s[0]] + rest;
    }
  }

  lemma {:induction false} SortByDistanceSorted(s: seq<QueryResult>)
    ensures SortedByDistance(SortByDistance(s))
    decreases |s|
  {
    if |s| > 0 {
      SortByDistanceSorted(s[..|s| - 1]);
      InsertByDistanceSorted(s[|s| - 1], SortByDistance(s[..|s| - 1]));
    }
  }

  /** A non-empty sequence is its prefix followed by its last element. */
  lemma SplitLast(s: seq<QueryResult>)
    requires |s| > 0
    ensures s == s[..|s| - 1] + [s[|s| - 1]]
  {
  }

  lemma {:induction false} SortByDistancePermutes(s: seq<QueryResult>)
    ensures multiset(SortByDistance(s)) == multiset(s)
    decreases |s|
  {
    if |s| > 0 {
      var init, last := s[..|s| - 1], s[|s| - 1];
      SortByDistancePermutes(init);
      InsertByDistancePermutes(last, SortByDistance(init));
      assert SortByDistance(s) == InsertByDistance(last, SortByDistance(init));
      SplitLast(s);
      assert multiset(s) == multiset(init) + multiset{last};
    }
  }

  /** The sort yields an ascending permutation of its input. */
  lemma SortByDistanceSpec(s: seq<QueryResult>)
    ensures SortedByDistance(SortByDistance(s))
    ensures multiset(SortByDistance(s)) == multiset(s)
  {
    SortByDistanceSorted(s);
    SortByDistancePermutes(s);
  }

  /** `slice(0, end)`: a negative end counts back from the length, clamped at 0. */
  function Slice(s: seq<QueryResult>, end: int): (r: seq<QueryResult>)
    ensures 0 <= end ==> |r| == if end < |s| then end else |s|
    ensures end < 0 ==> |r| == if |s| + end > 0 then |s| + end else 0
    ensures r == s[..|r|]
  {
    var stop := if end < 0 then |s| + end else end;
    if stop <= 0 then [] else if stop < |s| then s[..stop] else s
  }

  /** The response of `query` for the members of the chosen cluster. */
  function Answer(dist: Metric, q: seq<real>, members: seq<Record>, limit: int): (r: Result<seq<QueryResult>>)
    ensures r.Err? <==> !SizedRecords(members, |q|)
    ensures r.Err? ==> r.error == SizeMismatch
  {
    if !SizedRecords(members, |q|) then Err(SizeMismatch)
    else Ok(Slice(SortByDistance(Rank(dist, q, members)), limit))
  }

  /**
   * `query` fails exactly on a member of another size; otherwise it returns at
   * most `limit` results (for a non-negative limit, exactly min(limit, members)),
   * ascending by distance, each one a member paired with its distance from the
   * query. They are a prefix of an ascending permutation of all ranked members,
   * so no member left out is nearer than one kept.
   */
  lemma AnswerSpec(dist: Metric, q: seq<real>, members: seq<Record>, limit: int)
    ensures Answer(dist, q, members, limit).Err? <==> !SizedRecords(members, |q|)
    ensures Answer(dist, q, members, limit).Ok? ==>
      var r := Answer(dist, q, members, limit).value;
      && SortedByDistance(r)
      && (0 <= limit ==> |r| == if limit < |members| then limit else |members|)
      && (forall e :: e in r ==>
            exists m :: m in members && e == QueryResult(m.data, dist(q, m.vector), m.vector))
      && (exists s :: SortedByDistance(s) && multiset(s) == multiset(Rank(dist, q, members))
                      && |r| <= |s| && r == s[..|r|])
  {
    if SizedRecords(members, |q|) {
      var ranked := Rank(dist, q, members);
      var sorted := SortByDistance(ranked);
      SortByDistanceSpec(ranked);
      var r := Slice(sorted, limit);
      assert |sorted| == |members| by {
        assert |multiset(sorted)| == |multiset(ranked)|;
      }
      forall e | e in r
        ensures exists m :: m in members && e == QueryResult(m.data, dist(q, m.vector), m.vector)
      {
        assert e in multiset(sorted);
        assert e in ranked;
        var i :| 0 <= i < |ranked| && ranked[i] == e;
        assert members[i] in members;
      }
      assert SortedByDistance(sorted) && multiset(sorted) == multiset(ranked) && |r| <= |sorted| && r == sorted[..|r|];
    }
  }
}
