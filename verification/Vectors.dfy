/** Cosine similarity over the real numbers; the square root is any function with its two defining properties. */
module Vectors {
  import opened Wrappers

  type Vector = seq<real>

  ghost predicate IsSqrt(sqrt: real -> real) {
    forall x: real | x >= 0.0 :: sqrt(x) >= 0.0 && sqrt(x) * sqrt(x) == x
  }

  function Dot(a: Vector, b: Vector): real
    requires |a| == |b|
    decreases |a|
  {
    if a == [] then 0.0 else Dot(a[..|a| - 1], b[..|b| - 1]) + a[|a| - 1] * b[|b| - 1]
  }

  /** `null` where nothing can be compared. */
  predicate Comparable(a: Vector, b: Vector) {
    |a| == |b| && Dot(a, a) != 0.0 && Dot(b, b) != 0.0
  }

  method CosineSimilarity(a: Vector, b: Vector, sqrt: real -> real) returns (similarity: Option<real>)
    requires IsSqrt(sqrt)
    ensures similarity.Some? <==> Comparable(a, b)
    ensures similarity.Some? ==>
      && -1.0 <= similarity.value <= 1.0
      && similarity.value * (sqrt(Dot(a, a)) * sqrt(Dot(b, b))) == Dot(a, b)
  {
    if |a| == 0 || |b| == 0 || |a| != |b| {
      return None;
    }
    var dot, normA, normB := 0.0, 0.0, 0.0;
    for i := 0 to |a|
      invariant dot == Dot(a[..i], b[..i]) && normA == Dot(a[..i], a[..i]) && normB == Dot(b[..i], b[..i])
    {
      assert a[..i + 1][..i] == a[..i] && b[..i + 1][..i] == b[..i];
      DotSnoc(a[..i + 1], b[..i + 1]);
      DotSnoc(a[..i + 1], a[..i + 1]);
      DotSnoc(b[..i + 1], b[..i + 1]);
      dot := dot + a[i] * b[i];
      normA := normA + a[i] * a[i];
      normB := normB + b[i] * b[i];
    }
    assert a[..|a|] == a && b[..|b|] == b;
    if normA == 0.0 || normB == 0.0 {
      return None;
    }
    var scale := sqrt(normA) * sqrt(normB);
    CosineIsBounded(a, b, sqrt, dot, scale);
    similarity := Some(dot / scale);
  }

  lemma {:induction false} PositiveProduct(x: real, y: real, p: real)
    requires x > 0.0 && y > 0.0 && p == x * y
    ensures p > 0.0
  {
  }

  lemma {:induction false} SquareIsPositive(x: real, s: real)
    requires s == x * x
    ensures x == 0.0 ==> s == 0.0
    ensures x != 0.0 ==> s > 0.0
    decreases x < 0.0
  {
    if x > 0.0 {
      PositiveProduct(x, x, s);
    } else if x < 0.0 {
      SquareIsPositive(-x, s);
    }
  }

  /** `a - t * b`. */
  function Residual(a: Vector, t: real, b: Vector): (r: Vector)
    requires |a| == |b|
    ensures |r| == |a| && forall i | 0 <= i < |a| :: r[i] == a[i] - t * b[i]
  {
    seq(|a|, i requires 0 <= i < |a| => a[i] - t * b[i])
  }

  predicate Zero(a: Vector) {
    forall i | 0 <= i < |a| :: a[i] == 0.0
  }

  lemma {:induction false} NormIsPositive(a: Vector)
    ensures if Zero(a) then Dot(a, a) == 0.0 else Dot(a, a) > 0.0
    decreases |a|
  {
    if a != [] {
      var n := |a| - 1;
      NormIsPositive(a[..n]);
      SquareIsPositive(a[n], a[n] * a[n]);
      assert Zero(a) <==> Zero(a[..n]) && a[n] == 0.0 by { assert a == a[..n] + [a[n]]; }
    }
  }

  lemma {:induction false} DotSnoc(a: Vector, b: Vector)
    requires |a| == |b| > 0
    ensures Dot(a, b) == Dot(a[..|a| - 1], b[..|b| - 1]) + a[|a| - 1] * b[|b| - 1]
  {
  }

  lemma {:induction false} ResidualDot(a: Vector, t: real, b: Vector, c: Vector)
    requires |a| == |b| == |c|
    ensures Dot(Residual(a, t, b), c) == Dot(a, c) - t * Dot(b, c)
    decreases |a|
  {
    if a != [] {
      var n := |a| - 1;
      ResidualDot(a[..n], t, b[..n], c[..n]);
      ResidualInit(a, t, b);
      ResidualStep(a, t, b, c, Residual(a, t, b), Dot(a[..n], c[..n]), Dot(b[..n], c[..n]));
    }
  }

  lemma {:induction false} ResidualStep(a: Vector, t: real, b: Vector, c: Vector, r: Vector, x: real, y: real)
    requires |a| == |b| == |c| == |r| > 0
    requires var n := |a| - 1;
             x == Dot(a[..n], c[..n]) && y == Dot(b[..n], c[..n]) && Dot(r[..n], c[..n]) == x - t * y
               && r[n] == a[n] - t * b[n]
    ensures Dot(r, c) == Dot(a, c) - t * Dot(b, c)
  {
    var n := |a| - 1;
    DotSnoc(r, c);
    DotSnoc(a, c);
    DotSnoc(b, c);
    AddTerm(x, y, a[n], t, b[n], c[n], r[n], Dot(r, c), Dot(a, c), Dot(b, c));
  }

  lemma {:induction false} ResidualInit(a: Vector, t: real, b: Vector)
    requires |a| == |b| > 0
    ensures Residual(a, t, b)[..|a| - 1] == Residual(a[..|a| - 1], t, b[..|a| - 1])
  {
    var n := |a| - 1;
    var r, q := Residual(a, t, b), Residual(a[..n], t, b[..n]);
    forall i | 0 <= i < n ensures r[..n][i] == q[i] {
      assert r[i] == a[i] - t * b[i];
      assert q[i] == a[..n][i] - t * b[..n][i];
    }
  }

  lemma {:induction false} AddTerm(x: real, y: real, p: real, t: real, q: real, s: real, r: real, d: real, dp: real,
      dq: real)
    requires r == p - t * q && d == x - t * y + r * s && dp == x + p * s && dq == y + q * s
    ensures d == dp - t * dq
  {
    assert r * s == p * s - t * (q * s);
    assert t * dq == t * y + t * (q * s);
  }

  /** With `t = a.b / b.b`, what is left of `a` beside `b` is square to `b` and has the norm `a.a - (a.b)^2 / b.b`. */
  lemma {:induction false} LeftOver(a: Vector, b: Vector)
    requires |a| == |b| && Dot(b, b) != 0.0
    ensures var r := Residual(a, Dot(a, b) / Dot(b, b), b);
            Dot(r, b) == 0.0 && Dot(r, r) * Dot(b, b) == Dot(a, a) * Dot(b, b) - Dot(a, b) * Dot(a, b)
  {
    var t := Dot(a, b) / Dot(b, b);
    var r := Residual(a, t, b);
    ResidualDot(a, t, b, b);
    ResidualDot(a, t, b, r);
    ResidualDot(a, t, b, a);
    DotCommutes(a, r);
    DotCommutes(b, r);
    DotCommutes(b, a);
    Scale(Dot(a, a), t, Dot(a, b), Dot(b, b));
  }

  lemma {:induction false} Scale(x: real, t: real, d: real, y: real)
    requires t * y == d
    ensures (x - t * d) * y == x * y - d * d
  {
    assert (x - t * d) * y == x * y - t * d * y;
    assert t * d * y == (t * y) * d;
  }

  /** The square of a dot product is at most the product of the squared norms. */
  lemma {:induction false} CauchySchwarz(a: Vector, b: Vector)
    requires |a| == |b|
    ensures Dot(a, b) * Dot(a, b) <= Dot(a, a) * Dot(b, b)
  {
    if Dot(b, b) == 0.0 {
      NormIsPositive(b);
      DotWithZero(a, b);
    } else {
      var r := Residual(a, Dot(a, b) / Dot(b, b), b);
      LeftOver(a, b);
      NormIsPositive(r);
      NormIsPositive(b);
      assert Dot(r, r) * Dot(b, b) >= 0.0;
    }
  }

  lemma {:induction false} DotWithZero(a: Vector, b: Vector)
    requires |a| == |b| && Zero(b)
    ensures Dot(a, b) == 0.0
    decreases |a|
  {
    if a != [] {
      DotWithZero(a[..|a| - 1], b[..|b| - 1]);
    }
  }

  lemma {:induction false} SqrtIsPositive(sqrt: real -> real, x: real)
    requires IsSqrt(sqrt) && x > 0.0
    ensures sqrt(x) > 0.0
  {
  }

  lemma {:induction false} SquaresInOrder(x: real, y: real)
    requires x * x <= y * y && y > 0.0
    ensures -y <= x <= y
  {
    if x > y {
      LargerSquare(x, y);
    } else if x < -y {
      LargerSquare(-x, y);
    }
  }

  lemma {:induction false} LargerSquare(x: real, y: real)
    requires x > y > 0.0
    ensures x * x > y * y
  {
    assert x * x > y * x && y * x > y * y;
  }

  lemma {:induction false} LargerProduct(x: real, y: real, z: real)
    requires x > y && z > 0.0
    ensures x * z > y * z
  {
  }

  lemma {:induction false} Quotient(x: real, y: real)
    requires y > 0.0 && -y <= x <= y
    ensures -1.0 <= x / y <= 1.0 && x / y * y == x
  {
    var q := x / y;
    assert q * y == x;
    if q > 1.0 {
      LargerProduct(q, 1.0, y);
    } else if q < -1.0 {
      LargerProduct(-1.0, q, y);
    }
  }

  lemma {:induction false} BoundedBySqrt(a: Vector, b: Vector, sqrt: real -> real)
    requires IsSqrt(sqrt) && Comparable(a, b)
    ensures var scale := sqrt(Dot(a, a)) * sqrt(Dot(b, b));
            scale > 0.0 && -scale <= Dot(a, b) <= scale
  {
    NormIsPositive(a);
    NormIsPositive(b);
    var x, y := sqrt(Dot(a, a)), sqrt(Dot(b, b));
    SqrtIsPositive(sqrt, Dot(a, a));
    SqrtIsPositive(sqrt, Dot(b, b));
    assert x * y > 0.0;
    CauchySchwarz(a, b);
    SquareOfProduct(x, y);
    SquaresInOrder(Dot(a, b), x * y);
  }

  lemma {:induction false} CosineIsBounded(a: Vector, b: Vector, sqrt: real -> real, dot: real, scale: real)
    requires IsSqrt(sqrt) && Comparable(a, b)
    requires dot == Dot(a, b) && scale == sqrt(Dot(a, a)) * sqrt(Dot(b, b))
    ensures scale != 0.0 && -1.0 <= dot / scale <= 1.0 && dot / scale * scale == dot
  {
    BoundedBySqrt(a, b, sqrt);
    Quotient(dot, scale);
  }

  lemma {:induction false} SquareOfProduct(x: real, y: real)
    ensures (x * y) * (x * y) == (x * x) * (y * y)
  {
  }

  /** The value the loop returns. */
  function Cosine(a: Vector, b: Vector, sqrt: real -> real): real
    requires Comparable(a, b) && sqrt(Dot(a, a)) * sqrt(Dot(b, b)) != 0.0
  {
    Dot(a, b) / (sqrt(Dot(a, a)) * sqrt(Dot(b, b)))
  }

  predicate Multiple(a: Vector, t: real, b: Vector) {
    |a| == |b| && forall i | 0 <= i < |a| :: a[i] == t * b[i]
  }

  lemma {:induction false} DotCommutes(a: Vector, b: Vector)
    requires |a| == |b|
    ensures Dot(a, b) == Dot(b, a)
    decreases |a|
  {
    if a != [] {
      DotCommutes(a[..|a| - 1], b[..|b| - 1]);
    }
  }

  lemma {:induction false} DotScales(a: Vector, t: real, b: Vector, c: Vector)
    requires Multiple(a, t, b) && |a| == |c|
    ensures Dot(a, c) == t * Dot(b, c)
    decreases |a|
  {
    if a != [] {
      var n := |a| - 1;
      DotScales(a[..n], t, b[..n], c[..n]);
      Distribute(t, Dot(b[..n], c[..n]), b[n], c[n]);
    }
  }

  lemma {:induction false} Distribute(t: real, d: real, x: real, y: real)
    ensures t * (d + x * y) == t * d + t * x * y
  {
  }

  /** Similarity one means the same direction: one vector is a positive multiple of the other. */
  lemma {:induction false} OneMeansSameDirection(a: Vector, b: Vector, sqrt: real -> real)
    requires IsSqrt(sqrt) && Comparable(a, b)
    ensures sqrt(Dot(a, a)) * sqrt(Dot(b, b)) > 0.0
    ensures Cosine(a, b, sqrt) == 1.0 <==> exists t: real :: t > 0.0 && Multiple(a, t, b)
  {
    BoundedBySqrt(a, b, sqrt);
    if Cosine(a, b, sqrt) == 1.0 {
      OneHasNoResidual(a, b, sqrt);
    }
    if t: real :| t > 0.0 && Multiple(a, t, b) {
      SameDirectionIsOne(a, t, b, sqrt);
    }
  }

  lemma {:induction false} OneHasNoResidual(a: Vector, b: Vector, sqrt: real -> real)
    requires IsSqrt(sqrt) && Comparable(a, b) && sqrt(Dot(a, a)) * sqrt(Dot(b, b)) > 0.0
    requires Cosine(a, b, sqrt) == 1.0
    ensures Dot(a, b) / Dot(b, b) > 0.0 && Multiple(a, Dot(a, b) / Dot(b, b), b)
  {
    NormIsPositive(a);
    NormIsPositive(b);
    UnitQuotient(Dot(a, b), sqrt(Dot(a, a)) * sqrt(Dot(b, b)));
    SquareOfProduct(sqrt(Dot(a, a)), sqrt(Dot(b, b)));
    PositiveQuotient(Dot(a, b), Dot(b, b));
    NoResidual(a, b);
  }

  lemma {:induction false} NoResidual(a: Vector, b: Vector)
    requires |a| == |b| && Dot(b, b) != 0.0 && Dot(a, b) * Dot(a, b) == Dot(a, a) * Dot(b, b)
    ensures Multiple(a, Dot(a, b) / Dot(b, b), b)
  {
    LeftOver(a, b);
    var t := Dot(a, b) / Dot(b, b);
    var r := Residual(a, t, b);
    NoProductLeft(Dot(r, r), Dot(b, b));
    NormIsPositive(r);
    forall i | 0 <= i < |a| ensures a[i] == t * b[i] {
      assert r[i] == 0.0;
    }
  }

  lemma {:induction false} NoProductLeft(p: real, q: real)
    requires p * q == 0.0 && q != 0.0
    ensures p == 0.0
  {
  }

  lemma {:induction false} PositiveQuotient(p: real, q: real)
    requires p > 0.0 && q > 0.0
    ensures p / q > 0.0
  {
  }

  lemma {:induction false} UnitQuotient(x: real, y: real)
    requires y > 0.0
    ensures x / y == 1.0 <==> x == y
  {
  }

  lemma {:induction false} SameDirectionIsOne(a: Vector, t: real, b: Vector, sqrt: real -> real)
    requires IsSqrt(sqrt) && Comparable(a, b) && sqrt(Dot(a, a)) * sqrt(Dot(b, b)) > 0.0
    requires t > 0.0 && Multiple(a, t, b)
    ensures Cosine(a, b, sqrt) == 1.0
  {
    DotScales(a, t, b, a);
    DotScales(a, t, b, b);
    DotCommutes(b, a);
    NormIsPositive(a);
    NormIsPositive(b);
    SqrtIsPositive(sqrt, Dot(a, a));
    SqrtIsPositive(sqrt, Dot(b, b));
    ScaledRoots(sqrt(Dot(a, a)), sqrt(Dot(b, b)), t);
    UnitQuotient(Dot(a, b), sqrt(Dot(a, a)) * sqrt(Dot(b, b)));
  }

  lemma {:induction false} ScaledRoots(x: real, y: real, t: real)
    requires x > 0.0 && y > 0.0 && t > 0.0 && x * x == t * (t * (y * y))
    ensures x * y == t * (y * y)
  {
    SquareOfProduct(t, y);
    assert t * (t * (y * y)) == (t * t) * (y * y);
    EqualRoots(x, t * y);
    assert t * y * y == t * (y * y);
  }

  lemma {:induction false} EqualRoots(x: real, y: real)
    requires x > 0.0 && y > 0.0 && x * x == y * y
    ensures x == y
  {
    if x > y {
      LargerSquare(x, y);
    } else if y > x {
      LargerSquare(y, x);
    }
  }
}
