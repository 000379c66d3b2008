/** Cosine similarity in exact arithmetic, with the square root given by its contract. */
module Cosine {
  import opened Collections

  /** math.Sqrt on the non-negative reals. */
  ghost predicate IsSqrt(sqrt: real -> real) {
    forall x :: x >= 0.0 ==> sqrt(x) >= 0.0 && sqrt(x) * sqrt(x) == x
  }

  /** Products are named, so that equal factors are seen to give equal products. */
  function Times(x: real, y: real): real {
    x * y
  }

  function Dot(a: Vector, b: Vector): real
    requires |a| == |b|
  {
    if a == [] then 0.0
    else
      var n := |a| - 1;
      Dot(a[..n], b[..n]) + Times(a[n], b[n])
  }

  function Similarity(a: Vector, b: Vector, sqrt: real -> real): real
    requires IsSqrt(sqrt)
  {
    if |a| != |b| then 0.0
    else if Dot(a, a) == 0.0 || Dot(b, b) == 0.0 then 0.0
    else
      LengthsPositive(a, b, sqrt);
      Dot(a, b) / (sqrt(Dot(a, a)) * sqrt(Dot(b, b)))
  }

  method CosineSimilarity(a: Vector, b: Vector, sqrt: real -> real) returns (score: real)
    requires IsSqrt(sqrt)
    ensures score == Similarity(a, b, sqrt)
  {
    if |a| != |b| {
      return 0.0;
    }
    var dot, na, nb := 0.0, 0.0, 0.0;
    for i := 0 to |a|
      invariant dot == Dot(a[..i], b[..i])
      invariant na == Dot(a[..i], a[..i])
      invariant nb == Dot(b[..i], b[..i])
    {
      DotPrefix(a, b, i);
      DotPrefix(a, a, i);
      DotPrefix(b, b, i);
      dot := dot + Times(a[i], b[i]);
      na := na + Times(a[i], a[i]);
      nb := nb + Times(b[i], b[i]);
    }
    assert a[..|a|] == a && b[..|b|] == b;
    if na == 0.0 || nb == 0.0 {
      return 0.0;
    }
    LengthsPositive(a, b, sqrt);
    return dot / (sqrt(na) * sqrt(nb));
  }

  lemma DotPrefix(a: Vector, b: Vector, i: nat)
    requires i < |a| == |b|
    ensures Dot(a[..i + 1], b[..i + 1]) == Dot(a[..i], b[..i]) + Times(a[i], b[i])
  {
    assert a[..i + 1][..i] == a[..i] && b[..i + 1][..i] == b[..i];
  }

  // ---- Small facts about reals ---------------------------------------------------------------

  lemma SquareNonNegative(x: real)
    ensures x * x >= 0.0
  {
  }

  lemma PositiveProduct(x: real, y: real)
    requires x > 0.0 && y > 0.0
    ensures x * y > 0.0
  {
  }

  lemma ZeroFactor(x: real, y: real)
    requires x * y == 0.0 && y > 0.0
    ensures x == 0.0
  {
  }

  lemma SquareZero(x: real)
    requires x * x == 0.0
    ensures x == 0.0
  {
    if x > 0.0 {
      ZeroFactor(x, x);
    } else if x < 0.0 {
      assert x * (-x) == -(x * x);
      ZeroFactor(x, -x);
    }
  }

  lemma RootPositive(x: real, sqrt: real -> real)
    requires IsSqrt(sqrt) && x > 0.0
    ensures sqrt(x) > 0.0 && sqrt(x) * sqrt(x) == x
  {
  }

  lemma LengthsPositive(a: Vector, b: Vector, sqrt: real -> real)
    requires IsSqrt(sqrt) && Dot(a, a) != 0.0 && Dot(b, b) != 0.0
    ensures Dot(a, a) > 0.0 && Dot(b, b) > 0.0
    ensures sqrt(Dot(a, a)) * sqrt(Dot(b, b)) > 0.0
  {
  }

  /** Non-negative numbers compare as their squares do. */
  lemma SquareOrder(x: real, y: real)
    requires x >= 0.0 && y >= 0.0 && x * x <= y * y
    ensures x <= y
  {
    assert (x - y) * (x + y) == x * x - y * y;
    if x > y {
      PositiveProduct(x - y, x + y);
    }
  }

  lemma NormNonNegative(a: Vector)
    ensures Dot(a, a) >= 0.0
  {
  }

  // ---- Cauchy-Schwarz ------------------------------------------------------------------------

  /** t*a - b */
  function Combine(a: Vector, b: Vector, t: real): (e: Vector)
    requires |a| == |b|
    ensures |e| == |a|
    ensures forall i :: 0 <= i < |a| ==> e[i] == Times(t, a[i]) - b[i]
  {
    seq(|a|, i requires 0 <= i < |a| => Times(t, a[i]) - b[i])
  }

  /**
   The dot product is that of the parts, down to the products of single coordinates: which fixes it for vectors of any
   size.
   */
  lemma {:induction false} DotOfParts(a1: Vector, b1: Vector, a2: Vector, b2: Vector)
    requires |a1| == |b1| && |a2| == |b2|
    ensures Dot(a1 + a2, b1 + b2) == Dot(a1, b1) + Dot(a2, b2)
    ensures forall x, y :: Dot([x], [y]) == x * y
  {
    if a2 == [] {
      assert a1 + a2 == a1 && b1 + b2 == b1;
    } else {
      var n, a, b := |a2| - 1, a1 + a2, b1 + b2;
      assert a[..|a| - 1] == a1 + a2[..n] && b[..|b| - 1] == b1 + b2[..n];
      DotOfParts(a1, b1, a2[..n], b2[..n]);
    }
  }

  /** The squared length of t*a - b. */
  function Gap(a: Vector, b: Vector, t: real): real
    requires |a| == |b|
  {
    Dot(Combine(a, b, t), Combine(a, b, t))
  }

  lemma CombineStep(da: real, db: real, x: real, y: real, z: real, e: real, t: real)
    requires e == Times(t, x) - y
    ensures (Times(t, da) - db) + Times(e, z) == Times(t, da + Times(x, z)) - (db + Times(y, z))
  {
  }

  lemma {:induction false} DotCombine(a: Vector, b: Vector, c: Vector, t: real)
    requires |a| == |b| == |c|
    ensures Dot(Combine(a, b, t), c) == Times(t, Dot(a, c)) - Dot(b, c)
  {
    if a == [] {
    } else {
      var n, e := |a| - 1, Combine(a, b, t);
      DotCombine(a[..n], b[..n], c[..n], t);
      assert e[..n] == Combine(a[..n], b[..n], t);
      CombineStep(Dot(a[..n], c[..n]), Dot(b[..n], c[..n]), a[n], b[n], c[n], e[n], t);
    }
  }

  /** The gap in terms of the three products of `a` and `b`, one linear step at a time. */
  lemma GapExpands(a: Vector, b: Vector, t: real)
    requires |a| == |b|
    ensures var e := Combine(a, b, t);
            && Gap(a, b, t) == Times(t, Dot(a, e)) - Dot(b, e)
            && Dot(a, e) == Times(t, Dot(a, a)) - Dot(a, b)
            && Dot(b, e) == Times(t, Dot(a, b)) - Dot(b, b)
  {
    var e := Combine(a, b, t);
    DotCombine(a, b, e, t);
    AgainstCombine(a, b, a, t);
    AgainstCombine(a, b, b, t);
  }

  lemma AgainstCombine(a: Vector, b: Vector, c: Vector, t: real)
    requires |a| == |b| == |c|
    ensures Dot(c, Combine(a, b, t)) == Times(t, Dot(a, c)) - Dot(c, b)
  {
    DotSymmetric(c, Combine(a, b, t));
    DotSymmetric(c, b);
    DotCombine(a, b, c, t);
  }

  lemma {:induction false} NoLengthIsZero(e: Vector)
    requires Dot(e, e) == 0.0
    ensures forall i :: 0 <= i < |e| ==> e[i] == 0.0
  {
    if e == [] {
    } else {
      var n := |e| - 1;
      NormNonNegative(e[..n]);
      SquareNonNegative(e[n]);
      SquareZero(e[n]);
      NoLengthIsZero(e[..n]);
      assert forall i :: 0 <= i < n ==> e[..n][i] == e[i];
    }
  }

  lemma GapNonNegative(a: Vector, b: Vector, t: real)
    requires |a| == |b|
    ensures Gap(a, b, t) >= 0.0
    ensures Gap(a, b, t) == 0.0 ==> IsMultiple(a, b, t)
  {
    var e := Combine(a, b, t);
    NormNonNegative(e);
    if Gap(a, b, t) == 0.0 {
      NoLengthIsZero(e);
      forall i | 0 <= i < |a| ensures b[i] == Times(t, a[i]) {
        assert e[i] == 0.0;
      }
    }
  }

  lemma DotSymmetric(a: Vector, b: Vector)
    requires |a| == |b|
    ensures Dot(a, b) == Dot(b, a)
  {
  }

  /** At t = d/na the gap is smallest. */
  lemma GapAtVertex(na: real, d: real, nb: real, t: real, ae: real, be: real, gap: real)
    requires na > 0.0 && t == d / na
    requires gap == Times(t, ae) - be && ae == Times(t, na) - d && be == Times(t, d) - nb
    ensures gap * na == na * nb - d * d
  {
  }

  lemma CauchySchwarz(a: Vector, b: Vector)
    requires |a| == |b|
    ensures Dot(a, b) * Dot(a, b) <= Dot(a, a) * Dot(b, b)
  {
    NormNonNegative(a);
    NormNonNegative(b);
    if Dot(a, a) > 0.0 {
      var t := Dot(a, b) / Dot(a, a);
      GapNonNegative(a, b, t);
      GapExpands(a, b, t);
      var e := Combine(a, b, t);
      GapAtVertex(Dot(a, a), Dot(a, b), Dot(b, b), t, Dot(a, e), Dot(b, e), Gap(a, b, t));
      ProductNonNegative(Gap(a, b, t), Dot(a, a));
    } else {
      ZeroVectorDot(a, b);
    }
  }

  lemma ProductNonNegative(x: real, y: real)
    requires x >= 0.0 && y >= 0.0
    ensures x * y >= 0.0
  {
  }

  lemma {:induction false} ZeroVectorDot(a: Vector, b: Vector)
    requires |a| == |b| && Dot(a, a) == 0.0
    ensures Dot(a, b) == 0.0
  {
    if a == [] {
    } else {
      var n := |a| - 1;
      NormNonNegative(a[..n]);
      SquareNonNegative(a[n]);
      SquareZero(a[n]);
      ZeroVectorDot(a[..n], b[..n]);
    }
  }

  // ---- What the score means ------------------------------------------------------------------

  /** The score is the dot product over the product of the lengths. */
  lemma ScoreTimesLengths(a: Vector, b: Vector, sqrt: real -> real)
    requires IsSqrt(sqrt) && |a| == |b| && Dot(a, a) != 0.0 && Dot(b, b) != 0.0
    ensures var l := sqrt(Dot(a, a)) * sqrt(Dot(b, b));
            && l > 0.0
            && l * l == Dot(a, a) * Dot(b, b)
            && Similarity(a, b, sqrt) * l == Dot(a, b)
  {
    LengthsPositive(a, b, sqrt);
    RootPositive(Dot(a, a), sqrt);
    RootPositive(Dot(b, b), sqrt);
    var x, y := sqrt(Dot(a, a)), sqrt(Dot(b, b));
    assert (x * y) * (x * y) == (x * x) * (y * y);
  }

  lemma ScoreBounded(a: Vector, b: Vector, sqrt: real -> real)
    requires IsSqrt(sqrt)
    ensures -1.0 <= Similarity(a, b, sqrt) <= 1.0
  {
    if |a| == |b| && Dot(a, a) != 0.0 && Dot(b, b) != 0.0 {
      CauchySchwarz(a, b);
      ScoreTimesLengths(a, b, sqrt);
      var l := sqrt(Dot(a, a)) * sqrt(Dot(b, b));
      RatioBounded(Similarity(a, b, sqrt), l, Dot(a, b));
    }
  }

  lemma RatioBounded(s: real, l: real, d: real)
    requires l > 0.0 && s * l == d && d * d <= l * l
    ensures -1.0 <= s <= 1.0
  {
    assert (-s) * l == -(s * l) && (-d) * (-d) == d * d;
    if d >= 0.0 {
      SquareOrder(d, l);
    } else {
      SquareOrder(-d, l);
    }
    AtMostOne(s, l, d);
    AtMostOne(-s, l, -d);
  }

  lemma AtMostOne(s: real, l: real, d: real)
    requires l > 0.0 && s * l == d && d <= l
    ensures s <= 1.0
  {
  }

  lemma ScoreSymmetric(a: Vector, b: Vector, sqrt: real -> real)
    requires IsSqrt(sqrt)
    ensures Similarity(a, b, sqrt) == Similarity(b, a, sqrt)
  {
    if |a| == |b| {
      DotSymmetric(a, b);
    }
  }

  /** A perfect score is exactly a positive multiple. */
  lemma ScoreOneIffParallel(a: Vector, b: Vector, sqrt: real -> real)
    requires IsSqrt(sqrt) && |a| == |b| && Dot(a, a) != 0.0 && Dot(b, b) != 0.0
    ensures Similarity(a, b, sqrt) == 1.0 <==> exists t :: t > 0.0 && IsMultiple(a, b, t)
  {
    if Similarity(a, b, sqrt) == 1.0 {
      var t := PerfectScoreIsMultiple(a, b, sqrt);
    }
    forall t | t > 0.0 && IsMultiple(a, b, t)
      ensures Similarity(a, b, sqrt) == 1.0
    {
      MultipleHasPerfectScore(a, b, t, sqrt);
    }
  }

  lemma PerfectScoreIsMultiple(a: Vector, b: Vector, sqrt: real -> real) returns (t: real)
    requires IsSqrt(sqrt) && |a| == |b| && Dot(a, a) != 0.0 && Dot(b, b) != 0.0
    requires Similarity(a, b, sqrt) == 1.0
    ensures t > 0.0 && IsMultiple(a, b, t)
  {
    LengthsPositive(a, b, sqrt);
    ScoreTimesLengths(a, b, sqrt);
    t := Dot(a, b) / Dot(a, a);
    GapExpands(a, b, t);
    var e := Combine(a, b, t);
    GapAtVertex(Dot(a, a), Dot(a, b), Dot(b, b), t, Dot(a, e), Dot(b, e), Gap(a, b, t));
    ZeroFactor(Gap(a, b, t), Dot(a, a));
    GapNonNegative(a, b, t);
  }

  lemma MultipleHasPerfectScore(a: Vector, b: Vector, t: real, sqrt: real -> real)
    requires IsSqrt(sqrt) && |a| == |b| && Dot(a, a) != 0.0 && Dot(b, b) != 0.0
    requires t > 0.0 && IsMultiple(a, b, t)
    ensures Similarity(a, b, sqrt) == 1.0
  {
    LengthsPositive(a, b, sqrt);
    ScoreTimesLengths(a, b, sqrt);
    DotOfMultiple(a, b, a, t);
    DotOfMultiple(a, b, b, t);
    DotSymmetric(a, b);
    MultipleScoresOne(Similarity(a, b, sqrt), sqrt(Dot(a, a)) * sqrt(Dot(b, b)), Dot(a, b), Dot(a, a), Dot(b, b), t);
  }

  lemma MultipleScoresOne(s: real, l: real, d: real, na: real, nb: real, t: real)
    requires t > 0.0 && na > 0.0 && l > 0.0
    requires d == Times(t, na) && nb == Times(t, d) && l * l == na * nb && s * l == d
    ensures s == 1.0
  {
    PositiveProduct(t, na);
    assert d * d == (t * na) * d == na * (t * d) == l * l;
    SquareOrder(d, l);
    SquareOrder(l, d);
    assert (s - 1.0) * l == s * l - l;
    ZeroFactor(s - 1.0, l);
  }

  ghost predicate IsMultiple(a: Vector, b: Vector, t: real)
    requires |a| == |b|
  {
    forall i :: 0 <= i < |a| ==> b[i] == Times(t, a[i])
  }

  /** Replacing a factor `a` by its multiple `b` scales the product. */
  lemma {:induction false} DotOfMultiple(a: Vector, b: Vector, c: Vector, t: real)
    requires |a| == |b| == |c| && IsMultiple(a, b, t)
    ensures Dot(b, c) == Times(t, Dot(a, c))
  {
    if a == [] {
    } else {
      var n := |a| - 1;
      assert IsMultiple(a[..n], b[..n], t);
      DotOfMultiple(a[..n], b[..n], c[..n], t);
      Distributes(t, Dot(a[..n], c[..n]), a[n], c[n]);
    }
  }

  lemma Distributes(t: real, d: real, x: real, z: real)
    ensures Times(t, d) + Times(Times(t, x), z) == Times(t, d + Times(x, z))
  {
  }

  /** A non-zero vector scores 1 against itself. */
  lemma ScoreOfSelf(a: Vector, sqrt: real -> real)
    requires IsSqrt(sqrt) && Dot(a, a) != 0.0
    ensures Similarity(a, a, sqrt) == 1.0
  {
    assert IsMultiple(a, a, 1.0);
    ScoreOneIffParallel(a, a, sqrt);
  }
}
