/**
 * Centroid maintenance of src/lib/store.ts: the element-wise mean that
 * `getCenterVector` accumulates, and the drift test of `updateClusterCenter`.
 */
module Centroids {
  import opened Errors
  import opened Records
  import opened Routing

  /** `select('vector')`: the member vectors, in table order. */
  function VectorsOf(rows: seq<Record>): (vs: seq<seq<real>>)
    ensures |vs| == |rows| && forall j :: 0 <= j < |rows| ==> vs[j] == rows[j].vector
  {
    seq(|rows|, j requires 0 <= j < |rows| => rows[j].vector)
  }

  /** Every vector has at least n coordinates, so coordinates 0 .. n-1 are defined. */
  predicate LongEnough(vs: seq<seq<real>>, n: nat)
  {
    forall j :: 0 <= j < |vs| ==> |vs[j]| >= n
  }

  /** The running sum of coordinate i over the vectors, accumulated in table order. */
  function ColumnSum(vs: seq<seq<real>>, i: nat): real
    requires LongEnough(vs, i + 1)
    decreases |vs|
  {
    if |vs| == 0 then 0.0
    else ColumnSum(vs[..|vs| - 1], i) + vs[|vs| - 1][i]
  }

  /** Adding vector j to the running sums of the vectors before it. */
  lemma ColumnSumStep(vs: seq<seq<real>>, j: nat, n: nat)
    requires j < |vs| && LongEnough(vs, n)
    ensures LongEnough(vs[..j], n) && LongEnough(vs[..j + 1], n)
    ensures forall i :: 0 <= i < n ==> ColumnSum(vs[..j + 1], i) == ColumnSum(vs[..j], i) + vs[j][i]
  {
    assert vs[..j + 1][..j] == vs[..j];
  }

  /** Sum divided by count, coordinate by coordinate, over the first n coordinates. */
  function Mean(vs: seq<seq<real>>, n: nat): (r: seq<real>)
    requires |vs| > 0 && LongEnough(vs, n)
    ensures |r| == n
  {
    seq(n, i requires 0 <= i < n => ColumnSum(vs, i) / (|vs| as real))
  }

  lemma {:induction false} ColumnSumOfCopies(vs: seq<seq<real>>, w: seq<real>, i: nat)
    requires i < |w| && forall j :: 0 <= j < |vs| ==> vs[j] == w
    ensures ColumnSum(vs, i) == (|vs| as real) * w[i]
    decreases |vs|
  {
    if |vs| > 0 {
      ColumnSumOfCopies(vs[..|vs| - 1], w, i);
    }
  }

  /** A cluster whose members all equal w has w itself as its centroid. */
  lemma MeanOfCopies(vs: seq<seq<real>>, w: seq<real>)
    requires |vs| > 0 && forall j :: 0 <= j < |vs| ==> vs[j] == w
    ensures Mean(vs, |w|) == w
  {
    forall i | 0 <= i < |w| ensures Mean(vs, |w|)[i] == w[i] {
      ColumnSumOfCopies(vs, w, i);
    }
  }

  lemma {:induction false} ColumnSumBounds(vs: seq<seq<real>>, i: nat, lo: real, hi: real)
    requires LongEnough(vs, i + 1)
    requires forall j :: 0 <= j < |vs| ==> lo <= vs[j][i] <= hi
    ensures (|vs| as real) * lo <= ColumnSum(vs, i) <= (|vs| as real) * hi
    decreases |vs|
  {
    if |vs| > 0 {
      ColumnSumBounds(vs[..|vs| - 1], i, lo, hi);
      assert (|vs| as real) * lo == ((|vs| - 1) as real) * lo + lo;
      assert (|vs| as real) * hi == ((|vs| - 1) as real) * hi + hi;
    }
  }

  lemma QuotientWithin(total: real, k: real, lo: real, hi: real)
    requires k > 0.0 && k * lo <= total <= k * hi
    ensures lo <= total / k <= hi
  {
    var q := total / k;
    assert q * k == total;
    assert k * (q - lo) >= 0.0;
    assert k * (hi - q) >= 0.0;
  }

  /** When every member coordinate lies in [lo, hi], so does every centroid coordinate. */
  lemma MeanWithinBounds(vs: seq<seq<real>>, n: nat, lo: real, hi: real)
    requires |vs| > 0 && LongEnough(vs, n)
    requires forall j, i :: 0 <= j < |vs| && 0 <= i < n ==> lo <= vs[j][i] <= hi
    ensures forall i :: 0 <= i < n ==> lo <= Mean(vs, n)[i] <= hi
  {
    forall i | 0 <= i < n ensures lo <= Mean(vs, n)[i] <= hi {
      ColumnSumBounds(vs, i, lo, hi);
      var k := |vs| as real;
      assert Mean(vs, n)[i] == ColumnSum(vs, i) / k;
      QuotientWithin(ColumnSum(vs, i), k, lo, hi);
    }
  }

  /**
   * The drift test of `updateClusterCenter`: the members farther than
   * maxDistance from the new centroid, in table order. Measuring a member of
   * another size throws.
   */
  function Drifted(dist: Metric, maxDistance: real, center: seq<real>, members: seq<Record>): (r: Result<seq<Record>>)
    ensures r.Ok? <==> forall j :: 0 <= j < |members| ==> |members[j].vector| == |center|
    ensures r.Err? ==> r.error == SizeMismatch
    ensures r.Ok? ==> forall m :: m in r.value <==> m in members && dist(center, m.vector) > maxDistance
    ensures r.Ok? ==> forall m :: multiset(r.value)[m] == if dist(center, m.vector) > maxDistance then multiset(members)[m] else 0
    ensures r.Ok? ==> |r.value| <= |members|
    decreases |members|
  {
    if |members| == 0 then Ok([])
    else if |members[0].vector| != |center| then Err(SizeMismatch)
    else
      var m := members[0];
      assert members == [m] + members[1..];
      match Drifted(dist, maxDistance, center, members[1..])
      case Err(e) => Err(e)
      case Ok(rest) => Ok(if dist(center, m.vector) > maxDistance then [m] + rest else rest)
  }
}
