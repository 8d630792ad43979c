/** The two cosine kernels, cosine.go and distance.go, in exact arithmetic.  The square root
    of the standard library is a parameter, used only at the two squared norms. */
module Cosine {
  type Vector = seq<real>

  datatype Similarity = DimensionMismatch | ZeroVector | Score(value: real)

  /** The dot product of the first n components. */
  function Dot(a: Vector, b: Vector, n: nat): real
    requires n <= |a| && n <= |b|
  {
    if n == 0 then 0.0 else Dot(a, b, n - 1) + a[n - 1] * b[n - 1]
  }

  function NormSq(a: Vector): real {
    Dot(a, a, |a|)
  }

  ghost predicate IsRoot(r: real, x: real) {
    r >= 0.0 && r * r == x
  }

  ghost predicate Roots(sqrt: real -> real, a: Vector, b: Vector) {
    IsRoot(sqrt(NormSq(a)), NormSq(a)) && IsRoot(sqrt(NormSq(b)), NormSq(b))
  }

  ghost function CosineOf(a: Vector, b: Vector, sqrt: real -> real): real
    requires |a| == |b| && NormSq(a) != 0.0 && NormSq(b) != 0.0 && Roots(sqrt, a, b)
  {
    Dot(a, b, |a|) / (sqrt(NormSq(a)) * sqrt(NormSq(b)))
  }

  // ---------- Cauchy-Schwarz ----------

  lemma SquareGrows(p: real, d: real)
    requires 0.0 <= p < d
    ensures p * p < d * d
  {
    var e := d - p;
    assert e * e > 0.0 && p * e >= 0.0;
    assert d * d == (p + e) * (p + e) == p * p + 2.0 * (p * e) + e * e;
  }

  lemma SquareBounds(x: real, y: real)
    requires y >= 0.0 && x * x <= y * y
    ensures x <= y
  {
    if x > y {
      SquareGrows(y, x);
    }
  }

  lemma MeansBound(u: real, v: real, t: real)
    requires u >= 0.0 && v >= 0.0 && t * t <= u * v
    ensures 2.0 * t <= u + v
  {
    assert (u + v) * (u + v) == (u - v) * (u - v) + 4.0 * (u * v);
    assert (u - v) * (u - v) >= 0.0;
    assert (2.0 * t) * (2.0 * t) == 4.0 * (t * t);
    SquareBounds(2.0 * t, u + v);
  }

  lemma ProductsBound(aa: real, bb: real, ab: real, p: real, q: real)
    requires aa >= 0.0 && bb >= 0.0 && ab * ab <= aa * bb
    ensures 2.0 * (ab * (p * q)) <= aa * (q * q) + bb * (p * p)
  {
    var u, v, t, pq := aa * (q * q), bb * (p * p), ab * (p * q), (p * q) * (p * q);
    assert t * t == (ab * ab) * pq;
    assert u * v == (aa * bb) * pq;
    assert (aa * bb - ab * ab) * pq >= 0.0;
    MeansBound(u, v, t);
  }

  lemma SchwarzStep(aa: real, bb: real, ab: real, p: real, q: real)
    requires aa >= 0.0 && bb >= 0.0 && ab * ab <= aa * bb
    ensures (ab + p * q) * (ab + p * q) <= (aa + p * p) * (bb + q * q)
  {
    ProductsBound(aa, bb, ab, p, q);
    assert (ab + p * q) * (ab + p * q) == ab * ab + 2.0 * (ab * (p * q)) + (p * q) * (p * q);
    assert (aa + p * p) * (bb + q * q) == aa * bb + aa * (q * q) + bb * (p * p) + (p * p) * (q * q);
    assert (p * q) * (p * q) == (p * p) * (q * q);
  }

  lemma SchwarzNext(aa: real, bb: real, ab: real, p: real, q: real, aa': real, bb': real, ab': real)
    requires aa >= 0.0 && bb >= 0.0 && ab * ab <= aa * bb
    requires aa' == aa + p * p && bb' == bb + q * q && ab' == ab + p * q
    ensures ab' * ab' <= aa' * bb'
  {
    SchwarzStep(aa, bb, ab, p, q);
  }

  lemma DotStep(a: Vector, b: Vector, n: nat)
    requires 0 < n <= |a| && n <= |b|
    ensures Dot(a, b, n) == Dot(a, b, n - 1) + a[n - 1] * b[n - 1]
  {
  }

  lemma {:induction false} NormNotNegative(a: Vector, n: nat)
    requires n <= |a|
    ensures Dot(a, a, n) >= 0.0
  {
    if n > 0 {
      NormNotNegative(a, n - 1);
      assert a[n - 1] * a[n - 1] >= 0.0;
    }
  }

  /** dot^2 <= |a|^2 * |b|^2 at every length. */
  lemma {:induction false} CauchySchwarz(a: Vector, b: Vector, n: nat)
    requires n <= |a| && n <= |b|
    ensures Dot(a, b, n) * Dot(a, b, n) <= Dot(a, a, n) * Dot(b, b, n)
  {
    if n > 0 {
      CauchySchwarz(a, b, n - 1);
      NormNotNegative(a, n - 1);
      NormNotNegative(b, n - 1);
      DotStep(a, a, n);
      DotStep(b, b, n);
      DotStep(a, b, n);
      SchwarzNext(Dot(a, a, n - 1), Dot(b, b, n - 1), Dot(a, b, n - 1), a[n - 1], b[n - 1],
                  Dot(a, a, n), Dot(b, b, n), Dot(a, b, n));
    }
  }

  lemma Bounded(d: real, p: real)
    requires p > 0.0 && d * d <= p * p
    ensures -1.0 <= d / p <= 1.0
  {
    assert (-d) * (-d) == d * d;
    SquareBounds(d, p);
    SquareBounds(-d, p);
  }

  lemma RootsArePositive(a: Vector, b: Vector, sqrt: real -> real)
    requires NormSq(a) != 0.0 && NormSq(b) != 0.0 && Roots(sqrt, a, b)
    ensures sqrt(NormSq(a)) * sqrt(NormSq(b)) > 0.0
  {
  }

  /** The cosine of two non-zero vectors lies in [-1, 1], so a clamp never changes it. */
  lemma CosineIsBounded(a: Vector, b: Vector, sqrt: real -> real)
    requires |a| == |b| && NormSq(a) != 0.0 && NormSq(b) != 0.0 && Roots(sqrt, a, b)
    ensures -1.0 <= CosineOf(a, b, sqrt) <= 1.0
  {
    var ra, rb, d := sqrt(NormSq(a)), sqrt(NormSq(b)), Dot(a, b, |a|);
    CauchySchwarz(a, b, |a|);
    RootsArePositive(a, b, sqrt);
    assert (ra * rb) * (ra * rb) == (ra * ra) * (rb * rb);
    Bounded(d, ra * rb);
  }

  /** The cosine has the sign of the dot product, and its square is that of the dot product over the
      product of the squared norms; of a vector with itself it is 1. */
  lemma CosineIsExact(a: Vector, b: Vector, sqrt: real -> real)
    requires |a| == |b| && NormSq(a) != 0.0 && NormSq(b) != 0.0 && Roots(sqrt, a, b)
    ensures var c, d := CosineOf(a, b, sqrt), Dot(a, b, |a|);
      && (c > 0.0 <==> d > 0.0) && (c < 0.0 <==> d < 0.0)
      && c * c * (NormSq(a) * NormSq(b)) == d * d
    ensures a == b ==> CosineOf(a, b, sqrt) == 1.0
  {
    hide Dot;
    var ra, rb, d := sqrt(NormSq(a)), sqrt(NormSq(b)), Dot(a, b, |a|);
    RootsArePositive(a, b, sqrt);
    QuotientIsExact(d, ra, rb, NormSq(a), NormSq(b));
    if a == b {
      assert d == NormSq(a);
    }
  }

  lemma QuotientIsExact(d: real, ra: real, rb: real, na: real, nb: real)
    requires IsRoot(ra, na) && IsRoot(rb, nb) && ra * rb > 0.0
    ensures var c := d / (ra * rb);
      && (c > 0.0 <==> d > 0.0) && (c < 0.0 <==> d < 0.0) && c * c * (na * nb) == d * d
      && (ra == rb && d == na ==> c == 1.0)
  {
    Quotient(d, ra * rb);
    Squares(d / (ra * rb), d, ra, rb, na, nb);
  }

  lemma Squares(c: real, d: real, ra: real, rb: real, na: real, nb: real)
    requires ra * ra == na && rb * rb == nb && c * (ra * rb) == d
    ensures c * c * (na * nb) == d * d
  {
    var p := ra * rb;
    assert na * nb == p * p by {
      assert (ra * ra) * (rb * rb) == (ra * rb) * (ra * rb);
    }
    assert c * c * (p * p) == (c * p) * (c * p);
  }

  lemma Quotient(d: real, p: real)
    requires p > 0.0
    ensures d / p * p == d && (d / p > 0.0 <==> d > 0.0) && (d / p < 0.0 <==> d < 0.0)
    ensures d == p ==> d / p == 1.0
  {
  }

  // ---------- the kernels ----------

  lemma DotFour(a: Vector, b: Vector, i: nat)
    requires i + 4 <= |a| && i + 4 <= |b|
    ensures Dot(a, b, i + 4)
      == Dot(a, b, i) + a[i] * b[i] + a[i + 1] * b[i + 1] + a[i + 2] * b[i + 2] + a[i + 3] * b[i + 3]
  {
    assert Dot(a, b, i + 1) == Dot(a, b, i) + a[i] * b[i];
    assert Dot(a, b, i + 2) == Dot(a, b, i + 1) + a[i + 1] * b[i + 1];
    assert Dot(a, b, i + 3) == Dot(a, b, i + 2) + a[i + 2] * b[i + 2];
  }

  /** The unrolled loop: four accumulators for each sum, over the longest multiple of four. */
  method SumByFours(a: Vector, b: Vector) returns (i: nat, dot: real, normA: real, normB: real)
    requires |a| == |b|
    ensures |a| - 4 < i <= |a|
    ensures dot == Dot(a, b, i) && normA == Dot(a, a, i) && normB == Dot(b, b, i)
  {
    var dot0, dot1, dot2, dot3 := 0.0, 0.0, 0.0, 0.0;
    var normA0, normA1, normA2, normA3 := 0.0, 0.0, 0.0, 0.0;
    var normB0, normB1, normB2, normB3 := 0.0, 0.0, 0.0, 0.0;
    i := 0;
    while i <= |a| - 4
      invariant 0 <= i <= |a|
      invariant dot0 + dot1 + dot2 + dot3 == Dot(a, b, i)
      invariant normA0 + normA1 + normA2 + normA3 == Dot(a, a, i)
      invariant normB0 + normB1 + normB2 + normB3 == Dot(b, b, i)
    {
      DotFour(a, b, i);
      DotFour(a, a, i);
      DotFour(b, b, i);
      var a0, a1, a2, a3 := a[i], a[i + 1], a[i + 2], a[i + 3];
      var b0, b1, b2, b3 := b[i], b[i + 1], b[i + 2], b[i + 3];
      dot0, dot1, dot2, dot3 := dot0 + a0 * b0, dot1 + a1 * b1, dot2 + a2 * b2, dot3 + a3 * b3;
      normA0, normA1, normA2, normA3 := normA0 + a0 * a0, normA1 + a1 * a1, normA2 + a2 * a2, normA3 + a3 * a3;
      normB0, normB1, normB2, normB3 := normB0 + b0 * b0, normB1 + b1 * b1, normB2 + b2 * b2, normB3 + b3 * b3;
      i := i + 4;
    }
    dot := dot0 + dot1 + dot2 + dot3;
    normA := normA0 + normA1 + normA2 + normA3;
    normB := normB0 + normB1 + normB2 + normB3;
  }

  /** The tail loop, from where the unrolled one stopped. */
  method SumTail(a: Vector, b: Vector, from: nat, dot0: real, normA0: real, normB0: real)
    returns (dot: real, normA: real, normB: real)
    requires |a| == |b| && from <= |a|
    requires dot0 == Dot(a, b, from) && normA0 == Dot(a, a, from) && normB0 == Dot(b, b, from)
    ensures dot == Dot(a, b, |a|) && normA == NormSq(a) && normB == NormSq(b)
  {
    dot, normA, normB := dot0, normA0, normB0;
    var i := from;
    while i < |a|
      invariant from <= i <= |a|
      invariant dot == Dot(a, b, i) && normA == Dot(a, a, i) && normB == Dot(b, b, i)
    {
      dot, normA, normB := dot + a[i] * b[i], normA + a[i] * a[i], normB + b[i] * b[i];
      i := i + 1;
    }
  }

  /** CosineSimilarity: the unrolled loop, then the tail. */
  method CosineSimilarity(a: Vector, b: Vector, sqrt: real -> real) returns (r: Similarity)
    requires |a| == |b| ==> Roots(sqrt, a, b)
    ensures r.DimensionMismatch? <==> |a| != |b|
    ensures r.ZeroVector? <==> |a| == |b| && (NormSq(a) == 0.0 || NormSq(b) == 0.0)
    ensures r.Score? ==> r.value == CosineOf(a, b, sqrt) && -1.0 <= r.value <= 1.0
  {
    if |a| != |b| {
      return DimensionMismatch;
    }
    var i, dot, normA, normB := SumByFours(a, b);
    dot, normA, normB := SumTail(a, b, i, dot, normA, normB);
    if normA == 0.0 || normB == 0.0 {
      return ZeroVector;
    }
    RootsArePositive(a, b, sqrt);
    CosineIsBounded(a, b, sqrt);
    return Score(dot / (sqrt(normA) * sqrt(normB)));
  }

  /** CosineDistance: one accumulator each, 2 for zero vectors, and a clamp that never fires:
      away from zero vectors it is exactly one minus the similarity. */
  method CosineDistance(a: Vector, b: Vector, sqrt: real -> real) returns (d: real)
    requires |a| == |b| && Roots(sqrt, a, b)
    ensures NormSq(a) == 0.0 || NormSq(b) == 0.0 ==> d == 2.0
    ensures NormSq(a) != 0.0 && NormSq(b) != 0.0 ==> d == 1.0 - CosineOf(a, b, sqrt)
    ensures 0.0 <= d <= 2.0
  {
    var dot, normA, normB := 0.0, 0.0, 0.0;
    for i := 0 to |a|
      invariant dot == Dot(a, b, i) && normA == Dot(a, a, i) && normB == Dot(b, b, i)
    {
      dot, normA, normB := dot + a[i] * b[i], normA + a[i] * a[i], normB + b[i] * b[i];
    }
    assert normA == NormSq(a) && normB == NormSq(b);
    if normA == 0.0 || normB == 0.0 {
      return 2.0;
    }
    RootsArePositive(a, b, sqrt);
    CosineIsBounded(a, b, sqrt);
    var sim := dot / (sqrt(normA) * sqrt(normB));
    assert sim == CosineOf(a, b, sqrt);
    if sim > 1.0 {
      sim := 1.0;
    }
    if sim < -1.0 {
      sim := -1.0;
    }
    return 1.0 - sim;
  }
}
