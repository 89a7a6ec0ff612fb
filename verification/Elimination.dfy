/** The share recovery of one key: a Vandermonde system is built from the shares and solved for its
    constant term by elimination with row swaps over exact fractions. */
module Elimination {
  import opened Polynomials

  type Row = seq<real>
  type Matrix = seq<Row>

  /** One coefficient pair read from the asset; both numbers are unsigned. */
  datatype Share = Share(x: nat, y: nat)

  /** What the recovery of one key ends in: two errors, or the solved number. */
  datatype Solved = Singular | NotInteger | Solved(value: nat)

  // ------------------------------------------------------------------------------------------
  // Rows, dot products and kernels
  // ------------------------------------------------------------------------------------------

  function Dot(a: Row, b: Row): real
    requires |a| == |b|
  {
    if a == [] then 0.0 else a[0] * b[0] + Dot(a[1..], b[1..])
  }

  lemma {:induction false} DotAppend(a: Row, s: real, b: Row, t: real)
    requires |a| == |b|
    ensures Dot(a + [s], b + [t]) == Dot(a, b) + s * t
  {
    if a == [] {
      assert Dot([s][1..], [t][1..]) == 0.0;
    } else {
      DotAppend(a[1..], s, b[1..], t);
      assert (a + [s])[1..] == a[1..] + [s] && (b + [t])[1..] == b[1..] + [t];
    }
  }

  /** c = k * a - b, cell by cell. */
  function Reduced(a: real, k: real, b: real): real {
    a * k - b
  }

  ghost predicate IsCombination(c: Row, k: real, a: Row, b: Row)
    requires |c| == |a| == |b|
  {
    forall i :: 0 <= i < |c| ==> c[i] == Reduced(a[i], k, b[i])
  }

  lemma RatioClears(a: real, b: real)
    requires a != 0.0 && b != 0.0
    ensures b / a != 0.0 && Reduced(a, b / a, b) == 0.0 && Reduced(0.0, b / a, 0.0) == 0.0
  {
    assert (b / a) * a == b;
  }

  lemma {:induction false} DotCombination(c: Row, k: real, a: Row, b: Row, w: Row)
    requires |c| == |a| == |b| == |w|
    requires IsCombination(c, k, a, b)
    ensures Dot(c, w) == k * Dot(a, w) - Dot(b, w)
  {
    if c != [] {
      DotCombination(c[1..], k, a[1..], b[1..], w[1..]);
      CombinationCell(k, a[0], b[0], w[0], Dot(a[1..], w[1..]));
    }
  }

  lemma CombinationCell(k: real, a: real, b: real, w: real, tail: real)
    ensures (a * k - b) * w + k * tail == k * (a * w + tail) - b * w
  {
    assert a * k * w == k * (a * w);
  }

  lemma {:induction false} DotLeadingZeros(a: Row, b: Row, k: nat)
    requires |a| == |b| && k <= |a|
    requires forall j :: 0 <= j < k ==> a[j] == 0.0 || b[j] == 0.0
    ensures Dot(a, b) == Dot(a[k..], b[k..])
  {
    if k > 0 {
      DotLeadingZeros(a[1..], b[1..], k - 1);
      assert a[1..][k - 1..] == a[k..] && b[1..][k - 1..] == b[k..];
      assert a[0] * b[0] == 0.0;
    } else {
      assert a[0..] == a && b[0..] == b;
    }
  }

  ghost predicate Shape(rows: Matrix, n: nat) {
    |rows| == n && forall i :: 0 <= i < n ==> |rows[i]| == n + 1
  }

  /** w is orthogonal to every augmented row. With -1 in last place w encodes a solution of the
      system, with 0 in last place a solution of the homogeneous system. */
  ghost predicate InKernel(rows: Matrix, w: Row)
    requires forall i :: 0 <= i < |rows| ==> |rows[i]| == |w|
  {
    forall i :: 0 <= i < |rows| ==> Dot(rows[i], w) == 0.0
  }

  /** Two systems with the same solutions, homogeneous ones included. */
  ghost predicate SameKernel(a: Matrix, b: Matrix, n: nat)
    requires Shape(a, n) && Shape(b, n)
  {
    forall w: Row :: |w| == n + 1 ==> (InKernel(a, w) <==> InKernel(b, w))
  }

  /** The first c columns are done: zeros below a diagonal without zeros. */
  ghost predicate Triangular(rows: Matrix, n: nat, c: nat)
    requires Shape(rows, n) && c <= n
  {
    && (forall j :: 0 <= j < c ==> rows[j][j] != 0.0)
    && (forall j, i :: 0 <= j < c && j < i < n ==> rows[i][j] == 0.0)
  }

  // ------------------------------------------------------------------------------------------
  // The Vandermonde system
  // ------------------------------------------------------------------------------------------

  /** The powers of x from n - 1 down to 0. */
  function Powers(x: real, n: nat): (r: Row)
    ensures |r| == n
  {
    if n == 0 then [] else [Pow(x, n - 1)] + Powers(x, n - 1)
  }

  lemma {:induction false} PowersEvaluate(p: Poly, x: real)
    ensures Dot(Powers(x, |p|), p) == Eval(p, x)
  {
    if p != [] {
      PowersEvaluate(p[1..], x);
      assert Powers(x, |p|)[1..] == Powers(x, |p| - 1);
    }
  }

  function Points(shares: seq<Share>): (points: seq<Point>)
    ensures |points| == |shares|
    ensures forall i :: 0 <= i < |shares| ==>
              points[i] == Point(shares[i].x as real, shares[i].y as real)
  {
    seq(|shares|, i requires 0 <= i < |shares| => Point(shares[i].x as real, shares[i].y as real))
  }

  function Vandermonde(points: seq<Point>): (rows: Matrix)
    ensures Shape(rows, |points|)
  {
    seq(|points|, i requires 0 <= i < |points| => Powers(points[i].x, |points|) + [points[i].y])
  }

  lemma VandermondeRow(points: seq<Point>, p: Poly, last: real, i: nat)
    requires |p| == |points| && i < |points|
    ensures Dot(Vandermonde(points)[i], p + [last])
         == Eval(p, points[i].x) + points[i].y * last
  {
    DotAppend(Powers(points[i].x, |p|), points[i].y, p, last);
    PowersEvaluate(p, points[i].x);
  }

  /** A polynomial through the points is a solution of the system. */
  lemma ThroughInKernel(points: seq<Point>, p: Poly)
    requires |p| == |points| && Through(p, points)
    ensures InKernel(Vandermonde(points), p + [-1.0])
  {
    forall i | 0 <= i < |points| ensures Dot(Vandermonde(points)[i], p + [-1.0]) == 0.0 {
      VandermondeRow(points, p, -1.0, i);
    }
  }

  /** With distinct x the homogeneous system has the zero solution only. */
  lemma DistinctHomogeneous(points: seq<Point>, w: Row)
    requires DistinctX(points) && |w| == |points| + 1 && w[|points|] == 0.0
    requires InKernel(Vandermonde(points), w)
    ensures AllZero(w)
  {
    var n := |points|;
    var p := w[..n];
    assert w == p + [0.0];
    var xs := seq(n, i requires 0 <= i < n => points[i].x);
    forall i | 0 <= i < n ensures Eval(p, xs[i]) == 0.0 {
      VandermondeRow(points, p, 0.0, i);
    }
    TooManyRoots(p, xs);
    assert forall i :: 0 <= i < n ==> w[i] == p[i];
  }

  /** With a repeated x the homogeneous system has a solution whose first entry is 1. */
  lemma RepeatedHomogeneous(points: seq<Point>, i: nat, j: nat) returns (w: Row)
    requires i < j < |points| && points[i].x == points[j].x
    ensures |w| == |points| + 1 && w[0] == 1.0 && w[|points|] == 0.0
    ensures InKernel(Vandermonde(points), w)
  {
    var n := |points|;
    var others := points[..j] + points[j + 1..];
    var roots := seq(n - 1, k requires 0 <= k < n - 1 => others[k].x);
    var p := WithRoots(roots);
    w := p + [0.0];
    forall k | 0 <= k < n ensures Dot(Vandermonde(points)[k], w) == 0.0 {
      VandermondeRow(points, p, 0.0, k);
      var at := if k < j then k else if k == j then i else k - 1;
      assert roots[at] == points[k].x;
      WithRootsVanishes(roots, at);
    }
  }

  // ------------------------------------------------------------------------------------------
  // Triangular systems
  // ------------------------------------------------------------------------------------------

  /** Entries k.. of the vector that is 1 at c, 0 after it and orthogonal to rows k..c-1. */
  ghost function BackSubstitute(rows: Matrix, n: nat, c: nat, k: nat): (t: Row)
    requires Shape(rows, n) && k <= c < n && Triangular(rows, n, c)
    ensures |t| == n + 1 - k
    ensures t[c - k] == 1.0 && forall j :: c - k < j < |t| ==> t[j] == 0.0
    decreases c - k
  {
    if k == c then [1.0] + seq(n - c, _ => 0.0)
    else
      var t := BackSubstitute(rows, n, c, k + 1);
      [-Dot(rows[k][k + 1..], t) / rows[k][k]] + t
  }

  lemma DropHead(t: Row, tail: Row, m: nat)
    requires 0 < m <= |t| && t[1..] == tail
    ensures t[m..] == tail[m - 1..]
  {
  }

  lemma {:induction false} BackSubstituteSuffix(rows: Matrix, n: nat, c: nat, k: nat, i: nat)
    requires Shape(rows, n) && k <= i <= c < n && Triangular(rows, n, c)
    ensures BackSubstitute(rows, n, c, k)[i - k..] == BackSubstitute(rows, n, c, i)
    decreases i - k
  {
    hide Dot;
    if k < i {
      BackSubstituteSuffix(rows, n, c, k + 1, i);
      DropHead(BackSubstitute(rows, n, c, k), BackSubstitute(rows, n, c, k + 1), i - k);
    }
  }

  lemma BackSubstituteRow(rows: Matrix, n: nat, c: nat, i: nat)
    requires Shape(rows, n) && i < c < n && Triangular(rows, n, c)
    ensures Dot(rows[i][i..], BackSubstitute(rows, n, c, i)) == 0.0
  {
    var t, rest := BackSubstitute(rows, n, c, i), BackSubstitute(rows, n, c, i + 1);
    assert rows[i][i..][1..] == rows[i][i + 1..] && t[1..] == rest;
    assert rows[i][i] * t[0] == -Dot(rows[i][i + 1..], rest);
  }

  /** A column without a pivot leaves a non-zero homogeneous solution. */
  lemma NoPivotHomogeneous(rows: Matrix, n: nat, c: nat) returns (w: Row)
    requires Shape(rows, n) && c < n && Triangular(rows, n, c)
    requires forall i :: c <= i < n ==> rows[i][c] == 0.0
    ensures |w| == n + 1 && w[c] == 1.0 && w[n] == 0.0
    ensures InKernel(rows, w)
  {
    w := BackSubstitute(rows, n, c, 0);
    forall i | 0 <= i < n ensures Dot(rows[i], w) == 0.0 {
      if i < c {
        DotLeadingZeros(rows[i], w, i);
        BackSubstituteSuffix(rows, n, c, 0, i);
        BackSubstituteRow(rows, n, c, i);
      } else {
        DotLeadingZeros(rows[i], w, n + 1);
      }
    }
  }

  /** A fully triangular system has the zero homogeneous solution only. */
  lemma {:induction false} TriangularHomogeneous(rows: Matrix, n: nat, w: Row, k: nat)
    requires Shape(rows, n) && Triangular(rows, n, n) && k <= n
    requires |w| == n + 1 && w[n] == 0.0 && InKernel(rows, w)
    ensures forall j :: k <= j <= n ==> w[j] == 0.0
    decreases n - k
  {
    if k < n {
      TriangularHomogeneous(rows, n, w, k + 1);
      DotLeadingZeros(rows[k], w, k);
      DotLeadingZeros(rows[k][k..][1..], w[k..][1..], n - k);
      assert Dot(rows[k][k..], w[k..]) == rows[k][k] * w[k];
    }
  }

  /** The last row of a triangular system gives the last unknown of every solution. */
  lemma LastUnknown(rows: Matrix, n: nat, p: Poly)
    requires n > 0 && Shape(rows, n) && Triangular(rows, n, n) && |p| == n
    requires InKernel(rows, p + [-1.0])
    ensures rows[n - 1][n] / rows[n - 1][n - 1] == p[n - 1]
  {
    var last, w := rows[n - 1], p + [-1.0];
    DotLeadingZeros(last, w, n - 1);
    var a, b := last[n - 1..], w[n - 1..];
    assert a == [last[n - 1], last[n]] && b == [p[n - 1], -1.0];
    assert a[1..] == [last[n]] && b[1..] == [-1.0];
    assert Dot(a[1..], b[1..]) == last[n] * -1.0;
    assert last[n - 1] * p[n - 1] == last[n];
  }

  // ------------------------------------------------------------------------------------------
  // What one row operation keeps
  // ------------------------------------------------------------------------------------------

  lemma SameKernelReflexive(a: Matrix, n: nat)
    requires Shape(a, n)
    ensures SameKernel(a, a, n)
  {
  }

  lemma KernelMember(a: Matrix, b: Matrix, n: nat, w: Row)
    requires Shape(a, n) && Shape(b, n) && SameKernel(a, b, n)
    requires |w| == n + 1 && InKernel(a, w)
    ensures InKernel(b, w)
  {
  }

  lemma NotAllZero(w: Row, i: nat)
    requires i < |w| && w[i] != 0.0
    ensures !AllZero(w)
  {
  }

  lemma SameKernelTransitive(a: Matrix, b: Matrix, c: Matrix, n: nat)
    requires Shape(a, n) && Shape(b, n) && Shape(c, n)
    requires SameKernel(a, b, n) && SameKernel(b, c, n)
    ensures SameKernel(a, c, n)
  {
    forall w: Row | |w| == n + 1 ensures InKernel(a, w) <==> InKernel(c, w) {
      assert InKernel(a, w) <==> InKernel(b, w);
    }
  }

  lemma SwapKeepsKernel(rows: Matrix, n: nat, a: nat, b: nat)
    requires Shape(rows, n) && a < n && b < n
    ensures Shape(rows[a := rows[b]][b := rows[a]], n)
    ensures SameKernel(rows[a := rows[b]][b := rows[a]], rows, n)
  {
    var swapped := rows[a := rows[b]][b := rows[a]];
    forall w: Row | |w| == n + 1 ensures InKernel(swapped, w) <==> InKernel(rows, w) {
      if InKernel(swapped, w) {
        forall i | 0 <= i < n ensures Dot(rows[i], w) == 0.0 {
          assert rows[i] == swapped[if i == a then b else if i == b then a else i];
        }
      }
    }
  }

  lemma CombineKeepsKernel(rows: Matrix, n: nat, r: nat, c: nat, k: real, row: Row)
    requires Shape(rows, n) && r < n && c < n && r != c && k != 0.0
    requires |row| == n + 1 && IsCombination(row, k, rows[r], rows[c])
    ensures Shape(rows[r := row], n) && SameKernel(rows[r := row], rows, n)
  {
    var changed := rows[r := row];
    forall w: Row | |w| == n + 1 ensures InKernel(changed, w) <==> InKernel(rows, w) {
      DotCombination(row, k, rows[r], rows[c], w);
      if InKernel(changed, w) {
        assert changed[r] == row && changed[c] == rows[c];
        assert k * Dot(rows[r], w) == 0.0;
        forall i | 0 <= i < n ensures Dot(rows[i], w) == 0.0 {
          assert i != r ==> changed[i] == rows[i];
        }
      }
    }
  }

  // ------------------------------------------------------------------------------------------
  // The elimination
  // ------------------------------------------------------------------------------------------

  method BuildRows(shares: seq<Share>) returns (rows: Matrix)
    ensures rows == Vandermonde(Points(shares))
  {
    var n := |shares|;
    rows := [];
    for i := 0 to n
      invariant |rows| == i
      invariant forall k :: 0 <= k < i ==> rows[k] == Vandermonde(Points(shares))[k]
    {
      rows := rows + [Powers(shares[i].x as real, n) + [shares[i].y as real]];
    }
  }

  /** The first row from c + 1 on with a non-zero entry in column c, or n. */
  method FindPivot(rows: Matrix, n: nat, c: nat) returns (pivot: nat)
    requires Shape(rows, n) && c < n
    ensures c < pivot <= n
    ensures pivot < n ==> rows[pivot][c] != 0.0
    ensures forall i :: c < i < pivot ==> rows[i][c] == 0.0
  {
    pivot := c + 1;
    while pivot < n && rows[pivot][c] == 0.0
      invariant c < pivot <= n
      invariant forall i :: c < i < pivot ==> rows[i][c] == 0.0
    {
      pivot := pivot + 1;
    }
  }

  /** Clears row r in column c, cell by cell from column c on. */
  method ReduceRow(rows: Matrix, n: nat, r: nat, c: nat) returns (result: Matrix)
    requires Shape(rows, n) && c < r < n && Triangular(rows, n, c) && rows[c][c] != 0.0
    ensures Shape(result, n) && result == rows[r := result[r]] && result[r][c] == 0.0
    ensures Triangular(result, n, c)
    ensures SameKernel(result, rows, n)
  {
    if rows[r][c] == 0.0 {
      return rows;
    }
    var ratio := rows[c][c] / rows[r][c];
    RatioClears(rows[r][c], rows[c][c]);
    hide Reduced, SameKernel;
    var row := rows[r];
    for cell := c to n + 1
      invariant |row| == n + 1
      invariant forall k :: 0 <= k < cell ==> row[k] == Reduced(rows[r][k], ratio, rows[c][k])
      invariant forall k :: cell <= k <= n ==> row[k] == rows[r][k]
    {
      row := row[cell := Reduced(row[cell], ratio, rows[c][cell])];
    }
    result := rows[r := row];
    CombineKeepsKernel(rows, n, r, c, ratio, row);
  }

  /** Clears the column below its pivot. */
  method ClearColumn(start: Matrix, n: nat, column: nat) returns (rows: Matrix)
    requires Shape(start, n) && column < n && Triangular(start, n, column)
    requires start[column][column] != 0.0
    ensures Shape(rows, n) && SameKernel(rows, start, n)
    ensures Triangular(rows, n, column + 1)
  {
    hide SameKernel;
    SameKernelReflexive(start, n);
    rows := start;
    for row := column + 1 to n
      invariant Shape(rows, n) && SameKernel(rows, start, n)
      invariant Triangular(rows, n, column) && rows[column][column] != 0.0
      invariant forall i :: column < i < row ==> rows[i][column] == 0.0
    {
      ghost var before := rows;
      rows := ReduceRow(rows, n, row, column);
      SameKernelTransitive(rows, before, start, n);
    }
  }

  lemma SwapKeepsTriangular(rows: Matrix, n: nat, column: nat, pivot: nat)
    requires Shape(rows, n) && column < pivot < n && Triangular(rows, n, column)
    requires Shape(rows[column := rows[pivot]][pivot := rows[column]], n)
    ensures Triangular(rows[column := rows[pivot]][pivot := rows[column]], n, column)
  {
  }

  /** Column by column: a pivot is swapped in where the diagonal is zero, and the rows below are
      cleared. Without a pivot the matrix is singular. */
  method Eliminate(start: Matrix) returns (singular: bool, rows: Matrix)
    requires Shape(start, |start|)
    ensures Shape(rows, |start|) && SameKernel(rows, start, |start|)
    ensures !singular ==> Triangular(rows, |start|, |start|)
    ensures singular ==> exists w: Row ::
              |w| == |start| + 1 && !AllZero(w) && w[|start|] == 0.0 && InKernel(start, w)
  {
    hide SameKernel, InKernel, AllZero;
    var n := |start|;
    rows := start;
    SameKernelReflexive(start, n);
    for column := 0 to n
      invariant Shape(rows, n) && SameKernel(rows, start, n)
      invariant Triangular(rows, n, column)
    {
      if rows[column][column] == 0.0 {
        var pivot := FindPivot(rows, n, column);
        if pivot == n {
          ghost var w := NoPivotHomogeneous(rows, n, column);
          NotAllZero(w, column);
          KernelMember(rows, start, n, w);
          return true, rows;
        }
        SwapKeepsKernel(rows, n, column, pivot);
        SwapKeepsTriangular(rows, n, column, pivot);
        ghost var before := rows;
        rows := rows[column := rows[pivot]][pivot := rows[column]];
        SameKernelTransitive(rows, before, start, n);
      }
      ghost var before := rows;
      rows := ClearColumn(rows, n, column);
      SameKernelTransitive(rows, before, start, n);
    }
    singular := false;
  }

  /** The recovery of one key. The singular error means exactly that two of its shares have the
      same x, and without it the number is the constant term of the polynomial of lowest degree
      through the shares, refused if that is negative or not whole. */
  method SolveKey(shares: seq<Share>) returns (result: Solved)
    requires shares != []
    ensures result == Recovered(shares)
  {
    var n := |shares|;
    ghost var points := Points(shares);
    var start := BuildRows(shares);
    var singular, rows := Eliminate(start);
    if singular {
      if DistinctX(points) {
        ghost var w: Row :| |w| == n + 1 && !AllZero(w) && w[n] == 0.0 && InKernel(start, w);
        DistinctHomogeneous(points, w);
      }
      SharesDistinct(shares);
      return Singular;
    }
    if !DistinctX(points) {
      ghost var i, j :| 0 <= i < j < n && points[i].x == points[j].x;
      ghost var w := RepeatedHomogeneous(points, i, j);
      TriangularHomogeneous(rows, n, w, 0);
      assert false;
    }
    SharesDistinct(shares);
    var denominator := rows[n - 1][n - 1];
    if denominator == 0.0 {
      return Singular;
    }
    var solved := rows[n - 1][n] / denominator;
    InterpolateThrough(points);
    ThroughInKernel(points, Interpolate(points));
    LastUnknown(rows, n, Interpolate(points));
    if solved.Floor as real != solved || solved < 0.0 {
      return NotInteger;
    }
    return Solved(solved.Floor);
  }

  predicate DistinctShares(shares: seq<Share>) {
    forall i, j :: 0 <= i < j < |shares| ==> shares[i].x != shares[j].x
  }

  lemma SharesDistinct(shares: seq<Share>)
    ensures DistinctShares(shares) <==> DistinctX(Points(shares))
  {
    var points := Points(shares);
    forall i, j | 0 <= i < j < |shares|
      ensures shares[i].x == shares[j].x <==> points[i].x == points[j].x
    {
    }
  }

  /** What the recovery of one key is for, said without elimination: the value at 0 of the
      interpolating polynomial. */
  function Recovered(shares: seq<Share>): Solved
    requires shares != []
  {
    if !DistinctShares(shares) then Singular
    else
      SharesDistinct(shares);
      var constant := Interpolate(Points(shares))[|shares| - 1];
      if constant.Floor as real != constant || constant < 0.0 then NotInteger
      else Solved(constant.Floor)
  }

  /** Shares made from a secret: points of a polynomial with the secret as its constant term. */
  ghost predicate SharesOf(shares: seq<Share>, p: Poly, secret: nat) {
    && shares != [] && |p| == |shares| && p[|p| - 1] == secret as real
    && DistinctShares(shares)
    && Through(p, Points(shares))
  }

  /** Whatever polynomial the secret was shared with, recovery returns the secret. */
  lemma RecoversSecret(shares: seq<Share>, p: Poly, secret: nat)
    requires SharesOf(shares, p, secret)
    ensures Recovered(shares) == Solved(secret)
  {
    SharesDistinct(shares);
    UniquePolynomial(p, Points(shares));
  }

  lemma {:induction false} ValueAtZero(p: Poly)
    requires p != []
    ensures Eval(p, 0.0) == p[|p| - 1]
  {
    if |p| == 1 {
      assert p[1..] == [] && Pow(0.0, 0) == 1.0;
    } else {
      ValueAtZero(p[1..]);
      assert Pow(0.0, |p| - 1) == 0.0;
    }
  }

  /** The number is found exactly when some polynomial of degree below the number of shares passes
      through all of them, has that number as its value at 0, and no x repeats. */
  lemma RecoveredMeans(shares: seq<Share>, value: nat)
    requires shares != []
    ensures Recovered(shares) == Solved(value) <==>
            DistinctShares(shares)
            && exists p: Poly ::
                 |p| == |shares| && Through(p, Points(shares)) && Eval(p, 0.0) == value as real
  {
    SharesDistinct(shares);
    if DistinctShares(shares) {
      var points := Points(shares);
      var q := Interpolate(points);
      InterpolateThrough(points);
      ValueAtZero(q);
      forall p: Poly | |p| == |shares| && Through(p, points) ensures p == q {
        UniquePolynomial(p, points);
      }
    }
  }
}
