/**
 * The fixed-length numeric vector of src/lib/vector.ts: a backing array shared
 * with whoever built the vector, its size fixed at construction, the declared
 * value bounds, a normalised cosine distance and element-wise equality.
 */
module Vectors {
  import opened Errors

  /**
   * What `distance` yields: `(1 - cos) / 2` when the product of the two
   * magnitudes is non-zero, and Undefined where the source divides by zero
   * (NaN or an infinity in floating point).
   */
  datatype Score = Defined(value: real) | Undefined

  /** The dot product, accumulated from index 0 upward as the loop does. */
  function Dot(a: seq<real>, b: seq<real>): real
    requires |a| == |b|
    decreases |a|
  {
    if |a| == 0 then 0.0
    else Dot(a[..|a| - 1], b[..|b| - 1]) + a[|a| - 1] * b[|a| - 1]
  }

  /** The sum of squares that the loop accumulates before taking the root. */
  function SquaredNorm(a: seq<real>): real
    decreases |a|
  {
    if |a| == 0 then 0.0
    else SquaredNorm(a[..|a| - 1]) + a[|a| - 1] * a[|a| - 1]
  }

  /** Normalised cosine distance, with the square root left as a parameter. */
  function CosineDistance(a: seq<real>, b: seq<real>, sqrt: real -> real): (r: Score)
    requires |a| == |b|
    ensures r.Undefined? <==> sqrt(SquaredNorm(a)) * sqrt(SquaredNorm(b)) == 0.0
  {
    var denominator := sqrt(SquaredNorm(a)) * sqrt(SquaredNorm(b));
    if denominator == 0.0 then Undefined
    else Defined((1.0 - Dot(a, b) / denominator) / 2.0)
  }

  /** Element-wise equality of two value sequences. */
  predicate SameValues(a: seq<real>, b: seq<real>)
    ensures SameValues(a, b) <==> a == b
  {
    |a| == |b| && forall i :: 0 <= i < |a| ==> a[i] == b[i]
  }

  lemma {:induction false} DotSymmetric(a: seq<real>, b: seq<real>)
    requires |a| == |b|
    ensures Dot(a, b) == Dot(b, a)
    decreases |a|
  {
    if |a| > 0 {
      DotSymmetric(a[..|a| - 1], b[..|b| - 1]);
    }
  }

  lemma {:induction false} SquaredNormNonNegative(a: seq<real>)
    ensures SquaredNorm(a) >= 0.0
    decreases |a|
  {
    if |a| > 0 {
      SquaredNormNonNegative(a[..|a| - 1]);
    }
  }

  lemma {:induction false} DotSelf(a: seq<real>)
    ensures Dot(a, a) == SquaredNorm(a)
    decreases |a|
  {
    if |a| > 0 {
      DotSelf(a[..|a| - 1]);
    }
  }

  /**
   * The loop accumulates the same dot product in both directions, and the two
   * magnitudes only trade places in a commutative product.
   */
  lemma DistanceSymmetric(a: seq<real>, b: seq<real>, sqrt: real -> real)
    requires |a| == |b|
    ensures CosineDistance(a, b, sqrt) == CosineDistance(b, a, sqrt)
  {
    DotSymmetric(a, b);
  }

  /** Under a true square root, a vector of non-zero magnitude is at distance 0 from itself. */
  lemma DistanceToSelf(v: seq<real>, sqrt: real -> real)
    requires forall x :: x >= 0.0 ==> sqrt(x) * sqrt(x) == x
    requires SquaredNorm(v) != 0.0
    ensures CosineDistance(v, v, sqrt) == Defined(0.0)
  {
    DotSelf(v);
    SquaredNormNonNegative(v);
  }

  lemma EqualsReflexive(a: seq<real>)
    ensures SameValues(a, a)
  {
  }

  lemma EqualsSymmetric(a: seq<real>, b: seq<real>)
    ensures SameValues(a, b) <==> SameValues(b, a)
  {
  }

  class Vector {
    /** The backing array, exposed by `__vector`; it is the caller's array, not a copy. */
    const data: array<real>
    /** The dimension, exposed by `__size`. */
    const size: nat
    const max: real
    const min: real
    var clusterId: int

    ghost predicate Valid()
    {
      size == data.Length
    }

    constructor (vector: array<real>, max: real, min: real)
      ensures Valid()
      ensures data == vector && size == vector.Length
      ensures this.max == max && this.min == min && clusterId == -1
    {
      data := vector;
      size := vector.Length;
      this.max := max;
      this.min := min;
      clusterId := -1;
    }

    /** `distance`: a size check, then one loop accumulating three sums. */
    method Distance(target: Vector, sqrt: real -> real) returns (r: Result<Score>)
      requires Valid() && target.Valid()
      ensures size != target.size ==> r == Err(SizeMismatch)
      ensures size == target.size ==> r == Ok(CosineDistance(data[..], target.data[..], sqrt))
    {
      if size != target.size {
        return Err(SizeMismatch);
      }
      var dotProduct, magnitudeA, magnitudeB := 0.0, 0.0, 0.0;
      for i := 0 to size
        invariant dotProduct == Dot(data[..i], target.data[..i])
        invariant magnitudeA == SquaredNorm(data[..i])
        invariant magnitudeB == SquaredNorm(target.data[..i])
      {
        assert data[..i + 1][..i] == data[..i];
        assert target.data[..i + 1][..i] == target.data[..i];
        dotProduct := dotProduct + data[i] * target.data[i];
        magnitudeA := magnitudeA + data[i] * data[i];
        magnitudeB := magnitudeB + target.data[i] * target.data[i];
      }
      assert data[..size] == data[..];
      assert target.data[..size] == target.data[..];
      ghost var a, b := data[..], target.data[..];
      assert dotProduct == Dot(a, b) && magnitudeA == SquaredNorm(a) && magnitudeB == SquaredNorm(b);
      magnitudeA := sqrt(magnitudeA);
      magnitudeB := sqrt(magnitudeB);
      var denominator := magnitudeA * magnitudeB;
      assert denominator == sqrt(SquaredNorm(a)) * sqrt(SquaredNorm(b));
      if denominator == 0.0 {
        assert CosineDistance(a, b, sqrt) == Undefined;
        return Ok(Undefined);
      }
      var cosineSimilarity := dotProduct / denominator;
      assert cosineSimilarity == Dot(a, b) / denominator;
      assert CosineDistance(a, b, sqrt) == Defined((1.0 - cosineSimilarity) / 2.0);
      r := Ok(Defined((1.0 - cosineSimilarity) / 2.0));
    }

    /** `equals`: a size check, then an index loop that stops at the first difference. */
    method Equals(target: Vector) returns (r: Result<bool>)
      requires Valid() && target.Valid()
      ensures size != target.size ==> r == Err(SizeMismatch)
      ensures size == target.size ==> r == Ok(SameValues(data[..], target.data[..]))
    {
      if size != target.size {
        return Err(SizeMismatch);
      }
      for i := 0 to size
        invariant forall k :: 0 <= k < i ==> data[k] == target.data[k]
      {
        if data[i] != target.data[i] {
          return Ok(false);
        }
      }
      return Ok(true);
    }
  }
}
