/** Polynomials over exact numbers, kept as coefficient sequences with the highest power first:
    the order in which a Vandermonde row of the share recovery lists its powers. */
module Polynomials {

  type Poly = seq<real>

  function Pow(x: real, k: nat): real {
    if k == 0 then 1.0 else x * Pow(x, k - 1)
  }

  function Eval(p: Poly, x: real): real {
    if p == [] then 0.0 else p[0] * Pow(x, |p| - 1) + Eval(p[1..], x)
  }

  ghost predicate AllZero(p: Poly) {
    forall i :: 0 <= i < |p| ==> p[i] == 0.0
  }

  /** A sample of a polynomial: its argument and its value there. */
  datatype Point = Point(x: real, y: real)

  ghost predicate Distinct(xs: seq<real>) {
    forall i, j :: 0 <= i < j < |xs| ==> xs[i] != xs[j]
  }

  ghost predicate DistinctX(points: seq<Point>) {
    forall i, j :: 0 <= i < j < |points| ==> points[i].x != points[j].x
  }

  ghost predicate Through(p: Poly, points: seq<Point>) {
    forall i :: 0 <= i < |points| ==> Eval(p, points[i].x) == points[i].y
  }

  // ------------------------------------------------------------------------------------------
  // Division by a linear factor: a polynomial with as many roots as coefficients is zero
  // ------------------------------------------------------------------------------------------

  /** The quotient of p by (x - a). */
  function Quotient(p: Poly, a: real): (q: Poly)
    requires p != []
    ensures |q| == |p| - 1
    decreases |p|
  {
    if |p| == 1 then [] else [p[0]] + Quotient(Fold(p, a), a)
  }

  /** One step of synthetic division. */
  function Fold(p: Poly, a: real): (r: Poly)
    requires |p| >= 2
    ensures |r| == |p| - 1
  {
    [p[1] + a * p[0]] + p[2..]
  }

  lemma FoldValue(p: Poly, a: real, x: real)
    requires |p| >= 2
    ensures Eval(p, x) == Eval(Fold(p, a), x) + (x - a) * (p[0] * Pow(x, |p| - 2))
  {
    var f, k := Fold(p, a), Pow(x, |p| - 2);
    assert Pow(x, |p| - 1) == x * k;
    assert p[1..][1..] == p[2..] == f[1..];
    assert Eval(p, x) == p[0] * (x * k) + (p[1] * k + Eval(p[2..], x));
    assert Eval(f, x) == (p[1] + a * p[0]) * k + Eval(p[2..], x);
    assert (p[1] + a * p[0]) * k == p[1] * k + a * (p[0] * k);
    assert p[0] * (x * k) == x * (p[0] * k);
  }

  lemma QuotientValue(p: Poly, a: real, x: real)
    requires |p| >= 2
    ensures Eval(Quotient(p, a), x)
         == p[0] * Pow(x, |p| - 2) + Eval(Quotient(Fold(p, a), a), x)
  {
    hide Pow, Fold;
    assert Quotient(p, a)[1..] == Quotient(Fold(p, a), a);
  }

  lemma DivisionOfConstant(p: Poly, a: real, x: real)
    requires |p| == 1
    ensures Eval(p, x) - Eval(p, a) == (x - a) * Eval(Quotient(p, a), x)
  {
    assert Quotient(p, a) == [];
    assert Eval(p, x) == p[0] * Pow(x, 0) + Eval(p[1..], x);
    assert Eval(p, a) == p[0] * Pow(a, 0) + Eval(p[1..], a);
  }

  lemma FoldAtRoot(p: Poly, a: real)
    requires |p| >= 2
    ensures Eval(p, a) == Eval(Fold(p, a), a)
  {
    hide Eval, Pow, Fold;
    FoldValue(p, a, a);
    assert (a - a) * (p[0] * Pow(a, |p| - 2)) == 0.0;
  }

  lemma DivisionStep(d: real, head: real, p: real, f: real, f0: real, q: real)
    requires p == f + d * head && f - f0 == d * q
    ensures p - f0 == d * (head + q)
  {
  }

  lemma {:induction false} Division(p: Poly, a: real, x: real)
    requires p != []
    ensures Eval(p, x) - Eval(p, a) == (x - a) * Eval(Quotient(p, a), x)
    decreases |p|
  {
    hide Eval, Pow, Quotient, Fold;
    if |p| == 1 {
      DivisionOfConstant(p, a, x);
    } else {
      var f := Fold(p, a);
      FoldValue(p, a, x);
      FoldAtRoot(p, a);
      Division(f, a, x);
      QuotientValue(p, a, x);
      DivisionStep(x - a, p[0] * Pow(x, |p| - 2), Eval(p, x), Eval(f, x), Eval(f, a),
                   Eval(Quotient(f, a), x));
    }
  }

  lemma {:induction false} ZeroQuotient(p: Poly, a: real)
    requires p != [] && Eval(p, a) == 0.0 && AllZero(Quotient(p, a))
    ensures AllZero(p)
    decreases |p|
  {
    if |p| == 1 {
      assert p[1..] == [];
    } else {
      var f, q := Fold(p, a), Quotient(p, a);
      assert q[0] == p[0] == 0.0;
      FoldValue(p, a, a);
      assert AllZero(Quotient(f, a)) by {
        forall i | 0 <= i < |Quotient(f, a)| ensures Quotient(f, a)[i] == 0.0 {
          assert q[i + 1] == Quotient(f, a)[i];
        }
      }
      ZeroQuotient(f, a);
      assert p[1] == f[0] == 0.0;
      forall i | 2 <= i < |p| ensures p[i] == 0.0 {
        assert p[i] == f[i - 1];
      }
    }
  }

  /** A polynomial of degree below n that vanishes at n different places is the zero polynomial. */
  lemma {:induction false} TooManyRoots(p: Poly, roots: seq<real>)
    requires |p| == |roots| && Distinct(roots)
    requires forall i :: 0 <= i < |roots| ==> Eval(p, roots[i]) == 0.0
    ensures AllZero(p)
    decreases |p|
  {
    if p != [] {
      var a, rest := roots[0], roots[1..];
      var q := Quotient(p, a);
      forall i | 0 <= i < |rest| ensures Eval(q, rest[i]) == 0.0 {
        Division(p, a, rest[i]);
        assert rest[i] == roots[i + 1] != a;
      }
      TooManyRoots(q, rest);
      ZeroQuotient(p, a);
    }
  }

  // ------------------------------------------------------------------------------------------
  // Products of linear factors and interpolation
  // ------------------------------------------------------------------------------------------

  /** p with c added to its leading coefficient. */
  function AddLeading(p: Poly, c: real): (r: Poly)
    requires p != []
    ensures |r| == |p|
  {
    [p[0] + c] + p[1..]
  }

  /** The coefficients of (x - a) * q. */
  function TimesLinear(q: Poly, a: real): (r: Poly)
    ensures |r| == |q| + 1
  {
    if q == [] then [0.0] else [q[0]] + AddLeading(TimesLinear(q[1..], a), -a * q[0])
  }

  lemma AddLeadingValue(p: Poly, c: real, x: real)
    requires p != []
    ensures Eval(AddLeading(p, c), x) == Eval(p, x) + c * Pow(x, |p| - 1)
  {
    assert AddLeading(p, c)[1..] == p[1..];
    assert (p[0] + c) * Pow(x, |p| - 1) == p[0] * Pow(x, |p| - 1) + c * Pow(x, |p| - 1);
  }

  lemma {:induction false} TimesLinearValue(q: Poly, a: real, x: real)
    ensures Eval(TimesLinear(q, a), x) == (x - a) * Eval(q, x)
  {
    if q == [] {
      assert TimesLinear(q, a)[1..] == [];
    } else {
      var rest, r := TimesLinear(q[1..], a), TimesLinear(q, a);
      TimesLinearValue(q[1..], a, x);
      AddLeadingValue(rest, -a * q[0], x);
      assert r[1..] == AddLeading(rest, -a * q[0]);
      LinearFactor(q[0], a, x, Pow(x, |q| - 1), Eval(q[1..], x));
    }
  }

  lemma LinearFactor(c: real, a: real, x: real, k: real, tail: real)
    ensures c * (x * k) + ((x - a) * tail + -a * c * k) == (x - a) * (c * k + tail)
  {
    assert -a * c * k == -(a * (c * k));
    assert c * (x * k) == x * (c * k);
    assert (x - a) * (c * k + tail) == (x - a) * (c * k) + (x - a) * tail;
  }

  /** The monic polynomial whose roots are exactly the listed ones. */
  function WithRoots(roots: seq<real>): (p: Poly)
    ensures |p| == |roots| + 1 && p[0] == 1.0
  {
    if roots == [] then [1.0] else TimesLinear(WithRoots(roots[1..]), roots[0])
  }

  lemma {:induction false} WithRootsVanishes(roots: seq<real>, i: nat)
    requires i < |roots|
    ensures Eval(WithRoots(roots), roots[i]) == 0.0
  {
    var rest := WithRoots(roots[1..]);
    TimesLinearValue(rest, roots[0], roots[i]);
    if i > 0 {
      WithRootsVanishes(roots[1..], i - 1);
    }
  }

  /** p with c added to its constant term. */
  function AddConstant(p: Poly, c: real): (r: Poly)
    requires p != []
    ensures |r| == |p|
  {
    p[..|p| - 1] + [p[|p| - 1] + c]
  }

  lemma {:induction false} AddConstantValue(p: Poly, c: real, x: real)
    requires p != []
    ensures Eval(AddConstant(p, c), x) == Eval(p, x) + c
  {
    var r := AddConstant(p, c);
    if |p| == 1 {
      assert Pow(x, 0) == 1.0 && r[1..] == p[1..] == [];
      assert Eval(r, x) == (p[0] + c) * 1.0 + Eval(r[1..], x);
      assert Eval(p, x) == p[0] * 1.0 + Eval(p[1..], x);
    } else {
      AddConstantValue(p[1..], c, x);
      assert r[1..] == AddConstant(p[1..], c);
    }
  }

  /** The points after the first, as samples of the difference quotient at the first. */
  function Slopes(points: seq<Point>): (r: seq<Point>)
    requires points != [] && DistinctX(points)
    ensures |r| == |points| - 1
    ensures forall i :: 0 <= i < |r| ==> r[i].x == points[i + 1].x
  {
    seq(|points| - 1, i requires 0 <= i < |points| - 1 =>
      Point(points[i + 1].x, (points[i + 1].y - points[0].y) / (points[i + 1].x - points[0].x)))
  }

  /** The polynomial with as many coefficients as points that passes through all of them. */
  function Interpolate(points: seq<Point>): (p: Poly)
    requires points != [] && DistinctX(points)
    ensures |p| == |points|
    decreases |points|
  {
    if |points| == 1 then [points[0].y]
    else AddConstant(TimesLinear(Interpolate(Slopes(points)), points[0].x), points[0].y)
  }

  lemma SlopeValue(points: seq<Point>, i: nat)
    requires DistinctX(points) && 0 < i < |points|
    ensures points[i].y == (points[i].x - points[0].x) * Slopes(points)[i - 1].y + points[0].y
  {
    var rise, run := points[i].y - points[0].y, points[i].x - points[0].x;
    assert run != 0.0;
    assert run * (rise / run) == rise;
  }

  lemma InterpolateStep(points: seq<Point>, i: nat)
    requires |points| >= 2 && DistinctX(points) && i < |points|
    requires Through(Interpolate(Slopes(points)), Slopes(points))
    ensures Eval(Interpolate(points), points[i].x) == points[i].y
  {
    hide Eval, TimesLinear, AddConstant, Slopes;
    var slopes, first, x := Slopes(points), points[0], points[i].x;
    InterpolateValue(Interpolate(slopes), first, x);
    if i > 0 {
      SlopeValue(points, i);
      assert Eval(Interpolate(slopes), slopes[i - 1].x) == slopes[i - 1].y;
    } else {
      assert (x - first.x) * Eval(Interpolate(slopes), x) == 0.0;
    }
  }

  lemma {:induction false} InterpolateThrough(points: seq<Point>)
    requires points != [] && DistinctX(points)
    ensures Through(Interpolate(points), points)
    decreases |points|
  {
    if |points| == 1 {
      var p, x := Interpolate(points), points[0].x;
      assert p[1..] == [] && Pow(x, 0) == 1.0;
      assert Eval(p, x) == p[0] * Pow(x, 0) + Eval(p[1..], x);
    } else {
      hide Eval, Pow, Interpolate;
      InterpolateThrough(Slopes(points));
      forall i | 0 <= i < |points|
        ensures Eval(Interpolate(points), points[i].x) == points[i].y
      {
        InterpolateStep(points, i);
      }
    }
  }

  lemma InterpolateValue(q: Poly, first: Point, x: real)
    ensures Eval(AddConstant(TimesLinear(q, first.x), first.y), x)
         == (x - first.x) * Eval(q, x) + first.y
  {
    AddConstantValue(TimesLinear(q, first.x), first.y, x);
    TimesLinearValue(q, first.x, x);
  }

  // ------------------------------------------------------------------------------------------
  // Uniqueness
  // ------------------------------------------------------------------------------------------

  function Minus(p: Poly, q: Poly): (r: Poly)
    requires |p| == |q|
    ensures |r| == |p|
  {
    seq(|p|, i requires 0 <= i < |p| => p[i] - q[i])
  }

  lemma {:induction false} MinusValue(p: Poly, q: Poly, x: real)
    requires |p| == |q|
    ensures Eval(Minus(p, q), x) == Eval(p, x) - Eval(q, x)
  {
    if p != [] {
      MinusValue(p[1..], q[1..], x);
      assert Minus(p, q)[1..] == Minus(p[1..], q[1..]);
      var k := Pow(x, |p| - 1);
      assert (p[0] - q[0]) * k == p[0] * k - q[0] * k;
    }
  }

  /** Only one polynomial of degree below n passes through n points with different x. */
  lemma UniquePolynomial(p: Poly, points: seq<Point>)
    requires points != [] && DistinctX(points)
    requires |p| == |points| && Through(p, points)
    ensures p == Interpolate(points)
  {
    var q := Interpolate(points);
    InterpolateThrough(points);
    var xs := seq(|points|, i requires 0 <= i < |points| => points[i].x);
    forall i | 0 <= i < |xs| ensures Eval(Minus(p, q), xs[i]) == 0.0 {
      MinusValue(p, q, points[i].x);
    }
    TooManyRoots(Minus(p, q), xs);
    forall i | 0 <= i < |p| ensures p[i] == q[i] {
      assert Minus(p, q)[i] == 0.0;
    }
  }
}
