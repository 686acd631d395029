// Surface evaluation of the NURBS engine: the surface point of Algorithm
// A3.5 and the partial derivatives of Algorithm A3.6 of The NURBS Book
// (Piegl and Tiller), and the parameter samples of `evaluate`. The weights
// never enter these sums: the surface evaluated is the tensor-product
// B-spline surface of the control-point grid.
module NurbsSurface {
  import opened PointVector
  import opened NurbsGrid
  import opened NurbsKnots
  import opened NurbsBasis
  import opened NurbsDers

  /** What the evaluators read: the degrees, the knot vectors and the `[u][v]` control-point grid. */
  datatype Surface = Surface(degreeU: nat, degreeV: nat, knotU: seq<real>, knotV: seq<real>,
                             numU: nat, numV: nat, grid: seq<seq<Point3>>)

  /**
   * A knot vector the evaluators can use with degree `p` and `n` control
   * points: `n + p + 1` sorted knots with knot `p` at 0 and knot `n` at 1
   * (as normalisation and clamping give), and a last span of non-zero length.
   */
  ghost predicate KnotsFit(p: nat, U: seq<real>, n: nat)
  {
    0 < p < n && |U| == n + p + 1 && NonDecreasing(U) && U[p] == 0.0 && U[n] == 1.0 && U[n - 1] < U[n]
  }

  /** The surface can be evaluated: both knot vectors fit and the grid is `numU` by `numV`. */
  ghost predicate Evaluable(s: Surface)
  {
    KnotsFit(s.degreeU, s.knotU, s.numU) && KnotsFit(s.degreeV, s.knotV, s.numV) && IsGrid(s.grid, s.numU, s.numV)
  }

  /** For `u` in [0, 1], `find_span` may run and its span leaves room for the basis functions and the grid rows. */
  lemma SpanFits(p: nat, U: seq<real>, n: nat, u: real)
    requires KnotsFit(p, U, n) && 0.0 <= u <= 1.0
    ensures SpanQuery(p, U, n, u)
    ensures p <= KnotSpan(p, U, n, u) < n && BasisDomain(p, U, KnotSpan(p, U, n, u))
  {
  }

  /** Spans the evaluators may use: room for the basis functions and for the grid rows and columns they weight. */
  ghost predicate SpansFit(s: Surface, spanU: int, spanV: int)
  {
    s.degreeU <= spanU < s.numU && BasisDomain(s.degreeU, s.knotU, spanU) &&
    s.degreeV <= spanV < s.numV && BasisDomain(s.degreeV, s.knotV, spanV)
  }

  ghost predicate SpanFitsV(s: Surface, spanV: int)
  {
    s.degreeV <= spanV < s.numV && BasisDomain(s.degreeV, s.knotV, spanV)
  }

  // Weighted sums of points.

  /** `acc + w * p`, coordinate by coordinate, as every accumulation loop of A3.5 and A3.6 does. */
  function Accumulate(acc: Point3, w: real, p: Point3): Point3
  {
    Point3(acc.x + w * p.x, acc.y + w * p.y, acc.z + w * p.z)
  }

  /** `w[0] * pts[0] + ... + w[n - 1] * pts[n - 1]`, accumulated from the first term. */
  function WeightedSum(w: seq<real>, pts: seq<Point3>): Point3
    requires |w| == |pts|
  {
    if |w| == 0 then Origin()
    else Accumulate(WeightedSum(w[..|w| - 1], pts[..|w| - 1]), w[|w| - 1], pts[|w| - 1])
  }

  lemma {:induction false} SumToPrefix(s: seq<real>, m: nat, n: nat)
    requires m <= n <= |s|
    ensures SumTo(s[..n], m) == SumTo(s, m)
  {
    if m > 0 {
      SumToPrefix(s, m - 1, n);
    }
  }

  lemma AccumulateScaled(c: Point3, t: real, w: real)
    ensures Accumulate(Scale(c, t), w, c) == Scale(c, t + w)
  {
  }

  /** A weighted sum of one repeated point is that point scaled by the sum of the weights. */
  lemma {:induction false} WeightedSumConstant(w: seq<real>, pts: seq<Point3>, c: Point3)
    requires |w| == |pts| && forall i :: 0 <= i < |pts| ==> pts[i] == c
    ensures WeightedSum(w, pts) == Scale(c, Sum(w))
  {
    if |w| > 0 {
      var m := |w| - 1;
      WeightedSumConstant(w[..m], pts[..m], c);
      SumToPrefix(w, m, m);
      assert Sum(w) == SumTo(w, m) + w[m];
      AccumulateScaled(c, Sum(w[..m]), w[m]);
    }
  }

  // The sums of A3.5 and A3.6 on one patch of the grid.

  /** The control points `grid[uind + k][vind]` for `k < count`. */
  function Column(grid: seq<seq<Point3>>, rows: nat, cols: nat, uind: nat, count: nat, vind: nat): (c: seq<Point3>)
    requires IsGrid(grid, rows, cols) && uind + count <= rows && vind < cols
    ensures |c| == count
  {
    seq(count, k requires 0 <= k < count => grid[uind + k][vind])
  }

  /** `temp[l]` of the algorithms: the column `vind + l` of the patch weighted by `wu`, for `l < m`. */
  function Temps(grid: seq<seq<Point3>>, rows: nat, cols: nat, uind: nat, vind: nat, wu: seq<real>, m: nat): (t: seq<Point3>)
    requires IsGrid(grid, rows, cols) && uind + |wu| <= rows && vind + m <= cols
    ensures |t| == m
  {
    seq(m, l requires 0 <= l < m => WeightedSum(wu, Column(grid, rows, cols, uind, |wu|, vind + l)))
  }

  /** `sum_l wv[l] * sum_k wu[k] * grid[uind + k][vind + l]`. */
  function PatchPoint(grid: seq<seq<Point3>>, rows: nat, cols: nat, uind: nat, vind: nat, wu: seq<real>, wv: seq<real>): Point3
    requires IsGrid(grid, rows, cols) && uind + |wu| <= rows && vind + |wv| <= cols
  {
    WeightedSum(wv, Temps(grid, rows, cols, uind, vind, wu, |wv|))
  }

  /** A patch of one repeated point, weighted by `wu` and `wv`, is that point scaled by both weight sums. */
  lemma PatchPointConstant(grid: seq<seq<Point3>>, rows: nat, cols: nat, uind: nat, vind: nat, wu: seq<real>, wv: seq<real>, c: Point3)
    requires IsGrid(grid, rows, cols) && uind + |wu| <= rows && vind + |wv| <= cols
    requires forall i, j :: 0 <= i < rows && 0 <= j < cols ==> grid[i][j] == c
    ensures PatchPoint(grid, rows, cols, uind, vind, wu, wv) == Scale(Scale(c, Sum(wu)), Sum(wv))
  {
    var t := Temps(grid, rows, cols, uind, vind, wu, |wv|);
    forall l | 0 <= l < |wv| ensures t[l] == Scale(c, Sum(wu)) {
      WeightedSumConstant(wu, Column(grid, rows, cols, uind, |wu|, vind + l), c);
    }
    WeightedSumConstant(wv, t, Scale(c, Sum(wu)));
  }

  // A3.5: the surface point.

  /** The surface point at `(u, v)`: the patch of the spans of `u` and `v` weighted by their basis functions. */
  function SurfacePointSpec(s: Surface, u: real, v: real): Point3
    requires Evaluable(s) && 0.0 <= u <= 1.0 && 0.0 <= v <= 1.0
  {
    SpanFits(s.degreeU, s.knotU, s.numU, u);
    SpanFits(s.degreeV, s.knotV, s.numV, v);
    var spanU := KnotSpan(s.degreeU, s.knotU, s.numU, u);
    var spanV := KnotSpan(s.degreeV, s.knotV, s.numV, v);
    PatchPoint(s.grid, s.numU, s.numV, spanU - s.degreeU, spanV - s.degreeV,
               Basis(s.knotU, spanU, u, s.degreeU), Basis(s.knotV, spanV, v, s.degreeV))
  }

  /** A grid of one repeated point gives that point everywhere (partition of unity in both directions). */
  lemma SurfacePointConstant(s: Surface, u: real, v: real, c: Point3)
    requires Evaluable(s) && 0.0 <= u <= 1.0 && 0.0 <= v <= 1.0
    requires forall i, j :: 0 <= i < s.numU && 0 <= j < s.numV ==> s.grid[i][j] == c
    ensures SurfacePointSpec(s, u, v) == c
  {
    SpanFits(s.degreeU, s.knotU, s.numU, u);
    SpanFits(s.degreeV, s.knotV, s.numV, v);
    var spanU := KnotSpan(s.degreeU, s.knotU, s.numU, u);
    var spanV := KnotSpan(s.degreeV, s.knotV, s.numV, v);
    var wu, wv := Basis(s.knotU, spanU, u, s.degreeU), Basis(s.knotV, spanV, v, s.degreeV);
    BasisPartitionOfUnity(s.knotU, spanU, u, s.degreeU);
    BasisPartitionOfUnity(s.knotV, spanV, v, s.degreeV);
    var pt := PatchPoint(s.grid, s.numU, s.numV, spanU - s.degreeU, spanV - s.degreeV, wu, wv);
    assert SurfacePointSpec(s, u, v) == pt;
    PatchPointConstant(s.grid, s.numU, s.numV, spanU - s.degreeU, spanV - s.degreeV, wu, wv, c);
    assert pt == Scale(Scale(c, 1.0), 1.0);
  }

  /** One accumulation loop: `acc += w[i] * pts[i]` for `i` from 0 up. */
  method WeightedSumLoop(w: seq<real>, pts: seq<Point3>) returns (acc: Point3)
    requires |w| == |pts|
    ensures acc == WeightedSum(w, pts)
  {
    acc := Origin();
    var i := 0;
    while i < |w|
      invariant 0 <= i <= |w|
      invariant acc == WeightedSum(w[..i], pts[..i])
    {
      assert w[..i + 1][..i] == w[..i] && pts[..i + 1][..i] == pts[..i];
      acc := Accumulate(acc, w[i], pts[i]);
      i := i + 1;
    }
    assert w[..i] == w && pts[..i] == pts;
  }

  /** The double loop of A3.5: for each `l`, `temp` sums column `vind + l` by `wu`, and adds into the result with weight `wv[l]`. */
  method PatchPointLoop(grid: seq<seq<Point3>>, rows: nat, cols: nat, uind: nat, vind: nat, wu: seq<real>, wv: seq<real>)
    returns (pt: Point3)
    requires IsGrid(grid, rows, cols) && uind + |wu| <= rows && vind + |wv| <= cols
    ensures pt == PatchPoint(grid, rows, cols, uind, vind, wu, wv)
  {
    ghost var temps := Temps(grid, rows, cols, uind, vind, wu, |wv|);
    pt := Origin();
    var l := 0;
    while l < |wv|
      invariant 0 <= l <= |wv|
      invariant pt == WeightedSum(wv[..l], temps[..l])
    {
      var temp := WeightedSumLoop(wu, Column(grid, rows, cols, uind, |wu|, vind + l));
      assert wv[..l + 1][..l] == wv[..l] && temps[..l + 1][..l] == temps[..l];
      pt := Accumulate(pt, wv[l], temp);
      l := l + 1;
    }
    assert wv[..l] == wv && temps[..l] == temps;
  }

  /** `surfpoint` after its gates: spans, basis functions, and the double loop. */
  method SurfacePointAt(s: Surface, u: real, v: real) returns (pt: Point3)
    requires Evaluable(s) && 0.0 <= u <= 1.0 && 0.0 <= v <= 1.0
    ensures pt == SurfacePointSpec(s, u, v)
  {
    SpanFits(s.degreeU, s.knotU, s.numU, u);
    SpanFits(s.degreeV, s.knotV, s.numV, v);
    var spanU := FindSpan(s.degreeU, s.knotU, s.numU, u);
    var basisU := BasisFunctions(s.degreeU, s.knotU, spanU, u);
    var spanV := FindSpan(s.degreeV, s.knotV, s.numV, v);
    var basisV := BasisFunctions(s.degreeV, s.knotV, spanV, v);
    pt := PatchPointLoop(s.grid, s.numU, s.numV, spanU - s.degreeU, spanV - s.degreeV, basisU, basisV);
  }

  // A3.6: the partial derivatives.

  /** Row `k` of `basis_functions_ders`: the `k`-th derivatives of the non-zero basis functions. */
  function DersRow(U: seq<real>, span: nat, u: real, p: nat, k: nat): (row: seq<real>)
    requires BasisDomain(p, U, span) && k <= p
    ensures |row| == p + 1
  {
    seq(p + 1, r requires 0 <= r <= p => DersAt(U, span, u, p, k, r))
  }

  /**
   * `SKL[k][l]` of `derivatives(u, v, d)`: the patch weighted by derivative
   * `k` in u and `l` in v where `k <= degreeU`, `l <= degreeV` and
   * `k + l <= d`; the zero point everywhere else (the explicitly zeroed
   * entries and those left default-constructed).
   */
  function DerivativeAt(s: Surface, u: real, v: real, d: nat, k: nat, l: nat): Point3
    requires Evaluable(s) && 0.0 <= u <= 1.0 && 0.0 <= v <= 1.0
  {
    if k <= s.degreeU && l <= s.degreeV && k + l <= d then
      SpanFits(s.degreeU, s.knotU, s.numU, u);
      SpanFits(s.degreeV, s.knotV, s.numV, v);
      var spanU := KnotSpan(s.degreeU, s.knotU, s.numU, u);
      var spanV := KnotSpan(s.degreeV, s.knotV, s.numV, v);
      PatchPoint(s.grid, s.numU, s.numV, spanU - s.degreeU, spanV - s.degreeV,
                 DersRow(s.knotU, spanU, u, s.degreeU, k), DersRow(s.knotV, spanV, v, s.degreeV, l))
    else Origin()
  }

  /** The derivative of order (0, 0) is the surface point. */
  lemma DerivativeOrderZero(s: Surface, u: real, v: real, d: nat)
    requires Evaluable(s) && 0.0 <= u <= 1.0 && 0.0 <= v <= 1.0
    ensures DerivativeAt(s, u, v, d, 0, 0) == SurfacePointSpec(s, u, v)
  {
    SpanFits(s.degreeU, s.knotU, s.numU, u);
    SpanFits(s.degreeV, s.knotV, s.numV, v);
    var spanU := KnotSpan(s.degreeU, s.knotU, s.numU, u);
    var spanV := KnotSpan(s.degreeV, s.knotV, s.numV, v);
    forall r | 0 <= r <= s.degreeU ensures DersRow(s.knotU, spanU, u, s.degreeU, 0)[r] == Basis(s.knotU, spanU, u, s.degreeU)[r] {
      DersRowZero(s.knotU, spanU, u, s.degreeU, r);
    }
    forall r | 0 <= r <= s.degreeV ensures DersRow(s.knotV, spanV, v, s.degreeV, 0)[r] == Basis(s.knotV, spanV, v, s.degreeV)[r] {
      DersRowZero(s.knotV, spanV, v, s.degreeV, r);
    }
    assert DersRow(s.knotU, spanU, u, s.degreeU, 0) == Basis(s.knotU, spanU, u, s.degreeU);
    assert DersRow(s.knotV, spanV, v, s.degreeV, 0) == Basis(s.knotV, spanV, v, s.degreeV);
  }

  lemma ScaleZero(c: Point3, t: real)
    ensures Scale(c, 0.0) == Origin() && Scale(Origin(), t) == Origin()
  {
  }

  /** The first derivatives of the basis functions on a span, as a row, sum to zero. */
  lemma DersRowOneSum(U: seq<real>, span: nat, u: real, p: nat)
    requires 0 < p && BasisDomain(p, U, span)
    ensures Sum(DersRow(U, span, u, p, 1)) == 0.0
  {
    RowOneSumsToZero(U, span, u, p);
    assert DersRow(U, span, u, p, 1) == seq(p + 1, r requires 0 <= r <= p => DersAt(U, span, u, p, 1, r));
  }

  /** On a grid of one repeated point, both first partial derivatives are zero. */
  lemma ConstantSurfaceTangentsVanish(s: Surface, u: real, v: real, d: nat, c: Point3)
    requires Evaluable(s) && 0.0 <= u <= 1.0 && 0.0 <= v <= 1.0
    requires forall i, j :: 0 <= i < s.numU && 0 <= j < s.numV ==> s.grid[i][j] == c
    ensures DerivativeAt(s, u, v, d, 1, 0) == Origin() && DerivativeAt(s, u, v, d, 0, 1) == Origin()
  {
    SpanFits(s.degreeU, s.knotU, s.numU, u);
    SpanFits(s.degreeV, s.knotV, s.numV, v);
    var spanU := KnotSpan(s.degreeU, s.knotU, s.numU, u);
    var spanV := KnotSpan(s.degreeV, s.knotV, s.numV, v);
    var uind, vind := spanU - s.degreeU, spanV - s.degreeV;
    if 1 <= d {
      var u0, u1 := DersRow(s.knotU, spanU, u, s.degreeU, 0), DersRow(s.knotU, spanU, u, s.degreeU, 1);
      var v0, v1 := DersRow(s.knotV, spanV, v, s.degreeV, 0), DersRow(s.knotV, spanV, v, s.degreeV, 1);
      DersRowOneSum(s.knotU, spanU, u, s.degreeU);
      DersRowOneSum(s.knotV, spanV, v, s.degreeV);
      PatchPointConstant(s.grid, s.numU, s.numV, uind, vind, u1, v0, c);
      PatchPointConstant(s.grid, s.numU, s.numV, uind, vind, u0, v1, c);
      ScaleZero(c, Sum(v0));
      ScaleZero(Scale(c, Sum(u0)), 0.0);
    }
  }

  /** The entries of `skl` at `(k, l)` for `lo < k <= d`, `l <= d - k` are zero; the rest are unchanged. */
  method ZeroRowsBeyond(skl: array2<Point3>, lo: nat, d: nat)
    requires skl.Length0 == d + 1 && skl.Length1 == d + 1
    modifies skl
    ensures forall i, j :: 0 <= i <= d && 0 <= j <= d ==>
      skl[i, j] == if lo < i && j <= d - i then Origin() else old(skl[i, j])
  {
    var k := lo + 1;
    while k <= d
      invariant lo + 1 <= k <= d + 1 || k == lo + 1
      invariant forall i, j :: 0 <= i <= d && 0 <= j <= d ==>
        skl[i, j] == if lo < i < k && j <= d - i then Origin() else old(skl[i, j])
    {
      var l := 0;
      while l <= d - k
        invariant 0 <= l <= d - k + 1
        invariant forall i, j :: 0 <= i <= d && 0 <= j <= d ==>
          skl[i, j] == if (lo < i < k && j <= d - i) || (i == k && j < l) then Origin() else old(skl[i, j])
      {
        skl[k, l] := Origin();
        l := l + 1;
      }
      k := k + 1;
    }
  }

  /** The entries of `skl` at `(k, l)` for `lo < l <= d`, `k <= d - l` are zero; the rest are unchanged. */
  method ZeroColumnsBeyond(skl: array2<Point3>, lo: nat, d: nat)
    requires skl.Length0 == d + 1 && skl.Length1 == d + 1
    modifies skl
    ensures forall i, j :: 0 <= i <= d && 0 <= j <= d ==>
      skl[i, j] == if lo < j && i <= d - j then Origin() else old(skl[i, j])
  {
    var l := lo + 1;
    while l <= d
      invariant lo + 1 <= l <= d + 1 || l == lo + 1
      invariant forall i, j :: 0 <= i <= d && 0 <= j <= d ==>
        skl[i, j] == if lo < j < l && i <= d - j then Origin() else old(skl[i, j])
    {
      var k := 0;
      while k <= d - l
        invariant 0 <= k <= d - l + 1
        invariant forall i, j :: 0 <= i <= d && 0 <= j <= d ==>
          skl[i, j] == if (lo < j < l && i <= d - j) || (j == l && i < k) then Origin() else old(skl[i, j])
      {
        skl[k, l] := Origin();
        k := k + 1;
      }
      l := l + 1;
    }
  }

  /** Row `i` of a two-dimensional array. */
  function RowOf(a: array2<real>, i: nat): (row: seq<real>)
    reads a
    requires i < a.Length0
    ensures |row| == a.Length1 && forall j :: 0 <= j < a.Length1 ==> row[j] == a[i, j]
  {
    seq(a.Length1, j requires 0 <= j < a.Length1 reads a => a[i, j])
  }

  /** The `s` loop of A3.6 for one `k`: `temp[s]` sums column `vind + s` of the patch by the derivatives `wu`. */
  method DerivativeTemps(grid: seq<seq<Point3>>, rows: nat, cols: nat, uind: nat, vind: nat, wu: seq<real>, m: nat)
    returns (temp: array<Point3>)
    requires IsGrid(grid, rows, cols) && uind + |wu| <= rows && vind + m <= cols
    ensures fresh(temp) && temp[..] == Temps(grid, rows, cols, uind, vind, wu, m)
  {
    temp := new Point3[m](_ => Origin());
    var t := 0;
    while t < m
      invariant 0 <= t <= m
      invariant forall i :: 0 <= i < t ==> temp[i] == Temps(grid, rows, cols, uind, vind, wu, m)[i]
    {
      temp[t] := WeightedSumLoop(wu, Column(grid, rows, cols, uind, |wu|, vind + t));
      t := t + 1;
    }
  }

  /** The `l` loop of A3.6 for one `k`: `skl[k][l]` sums `temp` by the derivatives `wv[l]`, for `l < count`. */
  method DerivativeRow(skl: array2<Point3>, k: nat, temp: seq<Point3>, wv: seq<seq<real>>, count: nat)
    requires k < skl.Length0 && count <= skl.Length1 && count <= |wv|
    requires forall l :: 0 <= l < count ==> |wv[l]| == |temp|
    modifies skl
    ensures forall j :: 0 <= j < count ==> skl[k, j] == WeightedSum(wv[j], temp)
    ensures forall i, j :: 0 <= i < skl.Length0 && 0 <= j < skl.Length1 && !(i == k && j < count) ==> skl[i, j] == old(skl[i, j])
  {
    var l := 0;
    while l < count
      invariant 0 <= l <= count
      invariant forall j :: 0 <= j < l ==> skl[k, j] == WeightedSum(wv[j], temp)
      invariant forall i, j :: 0 <= i < skl.Length0 && 0 <= j < skl.Length1 && !(i == k && j < l) ==> skl[i, j] == old(skl[i, j])
    {
      skl[k, l] := WeightedSumLoop(wv[l], temp);
      l := l + 1;
    }
  }

  /** An entry `(k, l)` that A3.6 computes is the `l`-weighted sum of the `temp` row of derivative `k`. */
  lemma DerivativeEntry(s: Surface, u: real, v: real, d: nat, k: nat, l: nat)
    requires Evaluable(s) && 0.0 <= u <= 1.0 && 0.0 <= v <= 1.0
    requires k <= s.degreeU && l <= s.degreeV && k + l <= d
    ensures SpanQuery(s.degreeU, s.knotU, s.numU, u) && SpanQuery(s.degreeV, s.knotV, s.numV, v)
    ensures var spanU, spanV := KnotSpan(s.degreeU, s.knotU, s.numU, u), KnotSpan(s.degreeV, s.knotV, s.numV, v);
      SpansFit(s, spanU, spanV) &&
      DerivativeAt(s, u, v, d, k, l) ==
        WeightedSum(DersRow(s.knotV, spanV, v, s.degreeV, l),
                    Temps(s.grid, s.numU, s.numV, spanU - s.degreeU, spanV - s.degreeV,
                          DersRow(s.knotU, spanU, u, s.degreeU, k), s.degreeV + 1))
  {
    SpanFits(s.degreeU, s.knotU, s.numU, u);
    SpanFits(s.degreeV, s.knotV, s.numV, v);
  }

  /** Row `k` of `skl`: the sums of `temp` by the first `|wv|` rows of v-derivatives, then zeros. */
  lemma DerivativeRowEntries(s: Surface, u: real, v: real, d: nat, k: nat, wv: seq<seq<real>>, temp: seq<Point3>)
    requires Evaluable(s) && 0.0 <= u <= 1.0 && 0.0 <= v <= 1.0 && k <= s.degreeU && k <= d
    requires SpanQuery(s.degreeU, s.knotU, s.numU, u) && SpanQuery(s.degreeV, s.knotV, s.numV, v)
    requires SpansFit(s, KnotSpan(s.degreeU, s.knotU, s.numU, u), KnotSpan(s.degreeV, s.knotV, s.numV, v))
    requires |wv| == (if d - k < s.degreeV then d - k else s.degreeV) + 1
    requires forall l :: 0 <= l < |wv| ==> wv[l] == DersRow(s.knotV, KnotSpan(s.degreeV, s.knotV, s.numV, v), v, s.degreeV, l)
    requires temp == Temps(s.grid, s.numU, s.numV, KnotSpan(s.degreeU, s.knotU, s.numU, u) - s.degreeU,
                           KnotSpan(s.degreeV, s.knotV, s.numV, v) - s.degreeV,
                           DersRow(s.knotU, KnotSpan(s.degreeU, s.knotU, s.numU, u), u, s.degreeU, k), s.degreeV + 1)
    ensures forall j :: 0 <= j <= d ==>
      DerivativeAt(s, u, v, d, k, j) == if j < |wv| then WeightedSum(wv[j], temp) else Origin()
  {
    forall j | 0 <= j <= d
      ensures DerivativeAt(s, u, v, d, k, j) == if j < |wv| then WeightedSum(wv[j], temp) else Origin()
    {
      if j < |wv| {
        DerivativeEntry(s, u, v, d, k, j);
      }
    }
  }

  /** The `k` loop of A3.6 over the zeroed `skl`, given the spans and the rows of derivatives of the basis functions. */
  method DerivativeRows(skl: array2<Point3>, s: Surface, u: real, v: real, d: nat, spanU: int, spanV: int,
                        rowsU: seq<seq<real>>, rowsV: seq<seq<real>>)
    requires Evaluable(s) && 0.0 <= u <= 1.0 && 0.0 <= v <= 1.0
    requires SpanQuery(s.degreeU, s.knotU, s.numU, u) && spanU == KnotSpan(s.degreeU, s.knotU, s.numU, u)
    requires SpanQuery(s.degreeV, s.knotV, s.numV, v) && spanV == KnotSpan(s.degreeV, s.knotV, s.numV, v)
    requires SpansFit(s, spanU, spanV)
    requires |rowsU| == (if d < s.degreeU then d else s.degreeU) + 1
    requires |rowsV| == (if d < s.degreeV then d else s.degreeV) + 1
    requires forall k :: 0 <= k < |rowsU| ==> rowsU[k] == DersRow(s.knotU, spanU, u, s.degreeU, k)
    requires forall l :: 0 <= l < |rowsV| ==> rowsV[l] == DersRow(s.knotV, spanV, v, s.degreeV, l)
    requires skl.Length0 == d + 1 && skl.Length1 == d + 1
    requires forall i, j :: 0 <= i <= d && 0 <= j <= d ==> skl[i, j] == Origin()
    modifies skl
    ensures forall i, j :: 0 <= i <= d && 0 <= j <= d ==> skl[i, j] == DerivativeAt(s, u, v, d, i, j)
  {
    var pu, pv := s.degreeU, s.degreeV;
    var du, dv := |rowsU| - 1, |rowsV| - 1;
    var k := 0;
    while k <= du
      invariant 0 <= k <= du + 1
      invariant forall i, j :: 0 <= i <= d && 0 <= j <= d ==>
        skl[i, j] == if i < k then DerivativeAt(s, u, v, d, i, j) else Origin()
    {
      var temp := DerivativeTemps(s.grid, s.numU, s.numV, spanU - pu, spanV - pv, rowsU[k], pv + 1);
      var dd := if d - k < dv then d - k else dv;
      DerivativeRow(skl, k, temp[..], rowsV, dd + 1);
      DerivativeRowEntries(s, u, v, d, k, rowsV[..dd + 1], temp[..]);
      k := k + 1;
    }
  }

  /** `derivatives(u, v, d)` after its gates: zero fill, derivatives of the basis functions, then the `k` loop. */
  method DerivativesAt(s: Surface, u: real, v: real, d: nat) returns (skl: array2<Point3>)
    requires Evaluable(s) && 0.0 <= u <= 1.0 && 0.0 <= v <= 1.0
    ensures fresh(skl) && skl.Length0 == d + 1 && skl.Length1 == d + 1
    ensures forall k, l :: 0 <= k <= d && 0 <= l <= d ==> skl[k, l] == DerivativeAt(s, u, v, d, k, l)
  {
    var pu, pv := s.degreeU, s.degreeV;
    skl := new Point3[d + 1, d + 1]((_, _) => Origin());
    var du := if d < pu then d else pu;
    ZeroRowsBeyond(skl, pu, d);
    var dv := if d < pv then d else pv;
    ZeroColumnsBeyond(skl, pv, d);
    SpanFits(pu, s.knotU, s.numU, u);
    SpanFits(pv, s.knotV, s.numV, v);
    var spanU := FindSpan(pu, s.knotU, s.numU, u);
    var rowsU := DersRows(pu, s.knotU, spanU, u, du);
    var spanV := FindSpan(pv, s.knotV, s.numV, v);
    var rowsV := DersRows(pv, s.knotV, spanV, v, dv);
    DerivativeRows(skl, s, u, v, d, spanU, spanV, rowsU, rowsV);
  }

  /** The derivatives `ders[k]`, `k <= n`, of the basis functions of one direction, as rows. */
  method DersRows(p: nat, U: seq<real>, span: nat, u: real, n: nat) returns (rows: seq<seq<real>>)
    requires BasisDomain(p, U, span) && n <= p
    ensures |rows| == n + 1 && forall k :: 0 <= k <= n ==> rows[k] == DersRow(U, span, u, p, k)
  {
    var ders := new real[n + 1, p + 1];
    BasisFunctionsDers(p, U, span, u, n, ders);
    rows := seq(n + 1, k requires 0 <= k <= n reads ders => RowOf(ders, k));
    forall k | 0 <= k <= n ensures rows[k] == DersRow(U, span, u, p, k) {
      assert |rows[k]| == p + 1;
    }
  }

  // Tangents and normal.

  /** `normal(u, v)`: the cross product of the u- and v-tangents, each taken as a vector from the origin. */
  function NormalSpec(s: Surface, u: real, v: real): Vector3
    requires Evaluable(s) && 0.0 <= u <= 1.0 && 0.0 <= v <= 1.0
  {
    Cross(FromEnd(DerivativeAt(s, u, v, 1, 1, 0)), FromEnd(DerivativeAt(s, u, v, 1, 0, 1)))
  }

  /** The normal is perpendicular to both tangents. */
  lemma NormalOrthogonalToTangents(s: Surface, u: real, v: real)
    requires Evaluable(s) && 0.0 <= u <= 1.0 && 0.0 <= v <= 1.0
    ensures Dot(NormalSpec(s, u, v), FromEnd(DerivativeAt(s, u, v, 1, 1, 0))) == 0.0
    ensures Dot(NormalSpec(s, u, v), FromEnd(DerivativeAt(s, u, v, 1, 0, 1))) == 0.0
  {
    CrossOrthogonal(FromEnd(DerivativeAt(s, u, v, 1, 1, 0)), FromEnd(DerivativeAt(s, u, v, 1, 0, 1)));
  }

  // The parameter samples of `evaluate`.

  /**
   * The samples `evaluate` takes in u and in v: `0, delta, 2 * delta, ...`
   * while below 1, then 1 itself. (Over the reals the running sum after `i`
   * steps is exactly `i * delta`.)
   */
  ghost predicate SampleList(us: seq<real>, delta: real)
  {
    |us| >= 1 && us[|us| - 1] == 1.0 && Times((|us| - 1) as real, delta) >= 1.0 &&
    forall i :: 0 <= i < |us| - 1 ==> us[i] == Times(i as real, delta) && us[i] < 1.0
  }

  lemma SampleBelowOne(us: seq<real>, delta: real, i: nat)
    requires SampleList(us, delta) && i < |us| - 1
    ensures Times(i as real, delta) < 1.0
  {
    assert us[i] == Times(i as real, delta);
  }

  /** There is only one such list for a given step. */
  lemma SampleListUnique(us: seq<real>, ws: seq<real>, delta: real)
    requires SampleList(us, delta) && SampleList(ws, delta)
    ensures us == ws
  {
    if |us| < |ws| {
      SampleBelowOne(ws, delta, |us| - 1);
      assert false;
    } else if |ws| < |us| {
      SampleBelowOne(us, delta, |ws| - 1);
      assert false;
    } else {
      forall i | 0 <= i < |us| ensures us[i] == ws[i] {
      }
    }
  }

  lemma TimesStrictMonotone(a: real, b: real, d: real)
    requires a < b && d > 0.0
    ensures Times(a, d) < Times(b, d)
  {
  }

  /** For a positive step the samples start at 0, end at 1, lie in [0, 1] and strictly increase. */
  lemma SamplesInUnitInterval(us: seq<real>, delta: real)
    requires SampleList(us, delta) && delta > 0.0
    ensures |us| >= 2 && us[0] == 0.0 && us[|us| - 1] == 1.0
    ensures forall i :: 0 <= i < |us| ==> 0.0 <= us[i] <= 1.0
    ensures forall i, j :: 0 <= i < j < |us| ==> us[i] < us[j]
  {
    assert Times(0.0, delta) == 0.0;
    forall i | 0 <= i < |us| ensures 0.0 <= us[i] <= 1.0 {
      if i < |us| - 1 {
        assert Times(0.0, delta) <= Times(i as real, delta);
      }
    }
    forall i, j | 0 <= i < j < |us| ensures us[i] < us[j] {
      if j < |us| - 1 {
        TimesStrictMonotone(i as real, j as real, delta);
      }
    }
  }

  lemma TimesNext(i: nat, delta: real)
    ensures Times((i + 1) as real, delta) == Times(i as real, delta) + delta
  {
  }

  lemma BelowReciprocal(x: real, d: real)
    requires d > 0.0 && Times(x, d) < 1.0
    ensures x < 1.0 / d
  {
    assert x * d < 1.0;
  }

  /** Below 1 there are at most `1 / delta` multiples of a positive step. */
  lemma SampleBound(i: nat, delta: real)
    requires delta > 0.0 && Times(i as real, delta) < 1.0
    ensures i < (1.0 / delta).Floor + 1
  {
    BelowReciprocal(i as real, delta);
  }

  /** The sampling loop of `evaluate`: add `delta` to 0 until the running value reaches 1, then append 1. */
  method Samples(delta: real) returns (us: seq<real>)
    requires delta > 0.0
    ensures SampleList(us, delta)
  {
    var uv := 0.0;
    us := [];
    ghost var bound := (1.0 / delta).Floor + 1;
    assert uv == Times(0 as real, delta);
    while uv < 1.0
      invariant uv == Times(|us| as real, delta)
      invariant forall i :: 0 <= i < |us| ==> us[i] == Times(i as real, delta) && us[i] < 1.0
      invariant |us| <= bound
      decreases bound - |us|
    {
      SampleBound(|us|, delta);
      TimesNext(|us|, delta);
      us := us + [uv];
      uv := uv + delta;
    }
    us := us + [1.0];
  }

  // `evaluate`: the surface on the grid of samples.

  predicate InUnitInterval(us: seq<real>)
  {
    forall i :: 0 <= i < |us| ==> 0.0 <= us[i] <= 1.0
  }

  /** The surface points `[iu][iv]` at `(us[iu], vs[iv])`. */
  function EvaluatedGrid(s: Surface, us: seq<real>, vs: seq<real>): (g: seq<seq<Point3>>)
    requires Evaluable(s) && InUnitInterval(us) && InUnitInterval(vs)
    ensures IsGrid(g, |us|, |vs|)
  {
    seq(|us|, iu requires 0 <= iu < |us| => seq(|vs|, iv requires 0 <= iv < |vs| => SurfacePointSpec(s, us[iu], vs[iv])))
  }

  /** The body of the `iu` loop of `evaluate`: the span and basis functions of `u`, then the double sum, with those of `v` given. */
  method EvaluatePoint(s: Surface, u: real, v: real, spanV: int, basisV: seq<real>) returns (pt: Point3)
    requires Evaluable(s) && 0.0 <= u <= 1.0 && 0.0 <= v <= 1.0
    requires SpanQuery(s.degreeV, s.knotV, s.numV, v) && spanV == KnotSpan(s.degreeV, s.knotV, s.numV, v)
    requires SpanFitsV(s, spanV) && basisV == Basis(s.knotV, spanV, v, s.degreeV)
    ensures pt == SurfacePointSpec(s, u, v)
  {
    SpanFits(s.degreeU, s.knotU, s.numU, u);
    var spanU := FindSpan(s.degreeU, s.knotU, s.numU, u);
    var basisU := BasisFunctions(s.degreeU, s.knotU, spanU, u);
    pt := PatchPointLoop(s.grid, s.numU, s.numV, spanU - s.degreeU, spanV - s.degreeV, basisU, basisV);
  }

  /**
   * The `iu` loop of `evaluate` for one `iv`: fills column `iv` of the 2D
   * array and returns the points in the order they are appended to the 1D array.
   */
  method EvaluateColumn(s: Surface, us: seq<real>, vs: seq<real>, iv: nat, pts2: array2<Point3>) returns (column: seq<Point3>)
    requires Evaluable(s) && InUnitInterval(us) && InUnitInterval(vs) && iv < |vs|
    requires pts2.Length0 == |us| && pts2.Length1 == |vs|
    modifies pts2
    ensures |column| == |us|
    ensures forall iu :: 0 <= iu < |us| ==> pts2[iu, iv] == column[iu] == SurfacePointSpec(s, us[iu], vs[iv])
    ensures forall i, j :: 0 <= i < |us| && 0 <= j < |vs| && j != iv ==> pts2[i, j] == old(pts2[i, j])
  {
    SpanFits(s.degreeV, s.knotV, s.numV, vs[iv]);
    var spanV := FindSpan(s.degreeV, s.knotV, s.numV, vs[iv]);
    var basisV := BasisFunctions(s.degreeV, s.knotV, spanV, vs[iv]);
    column := [];
    var iu := 0;
    while iu < |us|
      invariant 0 <= iu <= |us| && |column| == iu
      invariant forall k :: 0 <= k < iu ==> pts2[k, iv] == column[k] == SurfacePointSpec(s, us[k], vs[iv])
      invariant forall i, j :: 0 <= i < |us| && 0 <= j < |vs| && j != iv ==> pts2[i, j] == old(pts2[i, j])
    {
      var pt := EvaluatePoint(s, us[iu], vs[iv], spanV, basisV);
      pts2[iu, iv] := pt;
      column := column + [pt];
      iu := iu + 1;
    }
  }

  /**
   * The `iv` loop of `evaluate`: the 2D array `[iu][iv]`, and the 1D array,
   * which lists the columns `iv` one after another.
   */
  method EvaluateGrid(s: Surface, us: seq<real>, vs: seq<real>) returns (pts2: array2<Point3>, flat: seq<Point3>)
    requires Evaluable(s) && InUnitInterval(us) && InUnitInterval(vs)
    ensures fresh(pts2)
    ensures pts2.Length0 == |us| && pts2.Length1 == |vs|
    ensures forall iu, iv :: 0 <= iu < |us| && 0 <= iv < |vs| ==> pts2[iu, iv] == SurfacePointSpec(s, us[iu], vs[iv])
    ensures flat == Flatten(Transposed(EvaluatedGrid(s, us, vs), |us|, |vs|))
  {
    ghost var columns := Transposed(EvaluatedGrid(s, us, vs), |us|, |vs|);
    pts2 := new Point3[|us|, |vs|]((_, _) => Origin());
    flat := [];
    var iv := 0;
    while iv < |vs|
      invariant 0 <= iv <= |vs|
      invariant forall iu, j :: 0 <= iu < |us| && 0 <= j < iv ==> pts2[iu, j] == SurfacePointSpec(s, us[iu], vs[j])
      invariant flat == Flatten(columns[..iv])
    {
      var column := EvaluateColumn(s, us, vs, iv, pts2);
      assert column == columns[iv];
      FlattenSnoc(columns[..iv], columns[iv]);
      assert columns[..iv + 1] == columns[..iv] + [columns[iv]];
      flat := flat + column;
      iv := iv + 1;
    }
    assert columns[..iv] == columns;
  }

  // Transposition.

  /** The surface with the roles of u and v swapped: degrees, knot vectors, sizes, and the grid transposed. */
  function TransposedSurface(s: Surface): (t: Surface)
    requires IsGrid(s.grid, s.numU, s.numV)
    ensures IsGrid(t.grid, t.numU, t.numV)
  {
    Surface(s.degreeV, s.degreeU, s.knotV, s.knotU, s.numV, s.numU, Transposed(s.grid, s.numU, s.numV))
  }

  /** Transposing twice gives the surface back. */
  lemma TransposedSurfaceTwice(s: Surface)
    requires IsGrid(s.grid, s.numU, s.numV)
    ensures TransposedSurface(TransposedSurface(s)) == s
  {
    TransposedTwice(s.grid, s.numU, s.numV);
  }

  lemma EvaluableTransposed(s: Surface)
    requires Evaluable(s)
    ensures Evaluable(TransposedSurface(s))
  {
  }
}
