// The `NURBS<T>` surface object of NURBS/src/NURBS.hxx: degrees, normalised
// knot vectors, the control points kept both as a flat array and as a `[u][v]`
// grid, weights, the sampling step `delta` and the evaluated surface points.
// Null pointers are `None`; every array the object owns is a `seq` field that
// the methods reassign. Evaluation reads the degrees, the knots and the grid
// only (`Snapshot`), never the weights.
module Nurbs {
  import opened Wrappers
  import opened PointVector
  import opened NurbsGrid
  import opened NurbsKnots
  import opened NurbsSurface

  /** All fields of a `NURBS` object, so that a method can state its whole new state. */
  datatype NurbsState = NurbsState(
    degreeU: nat, degreeV: nat,
    ctrlPts: Option<seq<Point3>>, ctrlPts2D: seq<seq<Point3>>,
    numCtrlPtsU: nat, numCtrlPtsV: nat,
    weights: Option<seq<real>>,
    knotU: Option<seq<real>>, knotV: Option<seq<real>>,
    surfPts: Option<seq<Point3>>, surfPts2D: seq<seq<Point3>>,
    numSurfPtsU: nat, numSurfPtsV: nat,
    delta: real)

  /** `init_vars`: nothing set, degrees 0, `delta == 0.01`. */
  function InitialState(): NurbsState
  {
    NurbsState(0, 0, None, [], 0, 0, None, None, None, None, [], 0, 0, 0.01)
  }

  /**
   * The shape every operation keeps: the grid has `numCtrlPtsU` rows of
   * `numCtrlPtsV` points, and the flat array, once set, holds as many points.
   */
  ghost predicate ValidState(st: NurbsState)
  {
    IsGrid(st.ctrlPts2D, st.numCtrlPtsU, st.numCtrlPtsV) &&
    if st.ctrlPts.Some? then |st.ctrlPts.value| == st.numCtrlPtsU * st.numCtrlPtsV
    else st.numCtrlPtsU == 0 && st.numCtrlPtsV == 0
  }

  /** `pre_calculate`: both degrees non-zero, and knots, control points and weights all set. */
  function PreCalculate(st: NurbsState): (ok: bool)
    ensures ok <==> st.degreeU != 0 && st.degreeV != 0 && st.knotU.Some? && st.knotV.Some? &&
                    st.ctrlPts.Some? && st.weights.Some?
  {
    if st.degreeU == 0 then false
    else if st.degreeV == 0 then false
    else if st.knotU.None? then false
    else if st.knotV.None? then false
    else if st.ctrlPts.None? then false
    else if st.weights.None? then false
    else true
  }

  /** What the evaluators read. */
  function Snapshot(st: NurbsState): Surface
    requires st.knotU.Some? && st.knotV.Some?
  {
    Surface(st.degreeU, st.degreeV, st.knotU.value, st.knotV.value, st.numCtrlPtsU, st.numCtrlPtsV, st.ctrlPts2D)
  }

  /**
   * What the evaluators assume and never check: once the gate passes, the
   * knot vectors are clamped, sorted and as long as the control-point counts
   * plus the degrees plus one.
   */
  ghost predicate Consistent(st: NurbsState)
  {
    PreCalculate(st) ==> Evaluable(Snapshot(st))
  }

  /** `check_uv(u, v, test_normal)`: the cascade of rejections, in the order of the source. */
  function CheckUV(u: real, v: real, delta: real, testNormal: bool): (ok: bool)
    ensures ok <==> 0.0 <= u <= 1.0 && 0.0 <= v <= 1.0 &&
                    (testNormal ==> u + delta <= 1.0 && v + delta <= 1.0 && 0.0 <= u + delta && 0.0 <= v + delta)
  {
    if testNormal && (u + delta > 1.0 || v + delta > 1.0) then false
    else if testNormal && (u + delta < 0.0 || v + delta < 0.0) then false
    else if u < 0.0 || u > 1.0 then false
    else if v < 0.0 || v > 1.0 then false
    else true
  }

  /** The check for `normal` rejects everything the plain check rejects. */
  lemma CheckNormalStricter(u: real, v: real, delta: real)
    ensures CheckUV(u, v, delta, true) ==> CheckUV(u, v, delta, false)
  {
  }

  /**
   * With a non-negative step the second edge test (`u + delta < 0`) never
   * rejects: the normal check is the range check plus `u + delta <= 1` and
   * `v + delta <= 1`.
   */
  lemma LowerEdgeTestInert(u: real, v: real, delta: real)
    requires delta >= 0.0
    ensures CheckUV(u, v, delta, true) <==> CheckUV(u, v, delta, false) && u + delta <= 1.0 && v + delta <= 1.0
  {
  }

  // The index layouts of the two-dimensional control-point array.

  /** One row of the `ctrlpts(points, nu, nv)` setter's grid: entry `t` is `flat[i + t * nu]`. */
  method SetterRow(flat: seq<Point3>, nu: nat, nv: nat, i: nat) returns (row: seq<Point3>)
    requires |flat| == nu * nv && i < nu
    ensures row == SetterLayout(flat, nu, nv)[i]
  {
    row := [];
    var t := 0;
    while t < nv
      invariant 0 <= t <= nv && |row| == t
      invariant forall k :: 0 <= k < t ==> row[k] == SetterLayout(flat, nu, nv)[i][k]
    {
      SetterLayoutAt(flat, nu, nv, i, t);
      row := row + [flat[i + t * nu]];
      t := t + 1;
    }
  }

  /** The nested fill loop of the `ctrlpts(points, nu, nv)` setter. */
  method FillSetterLayout(flat: seq<Point3>, nu: nat, nv: nat) returns (g: seq<seq<Point3>>)
    requires |flat| == nu * nv
    ensures g == SetterLayout(flat, nu, nv)
  {
    g := [];
    var i := 0;
    while i < nu
      invariant 0 <= i <= nu && g == SetterLayout(flat, nu, nv)[..i]
    {
      var row := SetterRow(flat, nu, nv, i);
      g := g + [row];
      i := i + 1;
    }
  }

  /** One row of the grid of `read_ctrlpts` and `transpose_ctrlpts`: entry `j` is `flat[j + i * nv]`. */
  method ReadRow(flat: seq<Point3>, nu: nat, nv: nat, i: nat) returns (row: seq<Point3>)
    requires |flat| == nu * nv && i < nu
    ensures row == ReadLayout(flat, nu, nv)[i]
  {
    row := [];
    var j := 0;
    while j < nv
      invariant 0 <= j <= nv && |row| == j
      invariant forall k :: 0 <= k < j ==> row[k] == ReadLayout(flat, nu, nv)[i][k]
    {
      ReadLayoutAt(flat, nu, nv, i, j);
      row := row + [flat[j + i * nv]];
      j := j + 1;
    }
  }

  /** The nested fill loop of `read_ctrlpts` and `transpose_ctrlpts`. */
  method FillReadLayout(flat: seq<Point3>, nu: nat, nv: nat) returns (g: seq<seq<Point3>>)
    requires |flat| == nu * nv
    ensures g == ReadLayout(flat, nu, nv)
  {
    g := [];
    var i := 0;
    while i < nu
      invariant 0 <= i <= nu && g == ReadLayout(flat, nu, nv)[..i]
    {
      var row := ReadRow(flat, nu, nv, i);
      g := g + [row];
      i := i + 1;
    }
  }

  /** The inner loop of the copy in `transpose_ctrlpts`: column `j` of the old grid. */
  method ColumnOf(g: seq<seq<Point3>>, nu: nat, nv: nat, j: nat) returns (col: seq<Point3>)
    requires IsGrid(g, nu, nv) && j < nv
    ensures col == Transposed(g, nu, nv)[j]
  {
    col := [];
    var i := 0;
    while i < nu
      invariant 0 <= i <= nu && |col| == i
      invariant forall k :: 0 <= k < i ==> col[k] == g[k][j]
    {
      col := col + [g[i][j]];
      i := i + 1;
    }
  }

  /** The copy loop of `transpose_ctrlpts`: the old grid read column by column. */
  method ColumnMajor(g: seq<seq<Point3>>, nu: nat, nv: nat) returns (flat: seq<Point3>)
    requires IsGrid(g, nu, nv)
    ensures flat == Flatten(Transposed(g, nu, nv))
  {
    ghost var columns := Transposed(g, nu, nv);
    flat := [];
    var j := 0;
    while j < nv
      invariant 0 <= j <= nv && flat == Flatten(columns[..j])
    {
      var col := ColumnOf(g, nu, nv, j);
      FlattenSnoc(columns[..j], col);
      assert columns[..j + 1] == columns[..j] + [col];
      flat := flat + col;
      j := j + 1;
    }
    assert columns[..j] == columns;
  }

  /** The points of all lines, in file order, as `read_ctrlpts` pushes them into one list. */
  method ConcatRows(rows: seq<seq<Point3>>) returns (flat: seq<Point3>)
    ensures flat == Flatten(rows)
  {
    flat := [];
    var r := 0;
    while r < |rows|
      invariant 0 <= r <= |rows| && flat == Flatten(rows[..r])
    {
      FlattenSnoc(rows[..r], rows[r]);
      assert rows[..r + 1] == rows[..r] + [rows[r]];
      flat := flat + rows[r];
      r := r + 1;
    }
    assert rows[..r] == rows;
  }

  /**
   * The arrays `read_ctrlpts` fills: the `num_u * num_v` array holding the
   * points in file order followed by default points, and its row-major grid.
   */
  method ReadArrays(rows: seq<seq<Point3>>) returns (flat: seq<Point3>, g: seq<seq<Point3>>)
    requires FitsReadArray(rows)
    ensures flat == ReadPoints(rows) && |flat| == |rows| * RowWidth(rows)
    ensures g == ReadGrid(rows) && IsGrid(g, |rows|, RowWidth(rows))
  {
    var pts := ConcatRows(rows);
    flat := pts + seq(|rows| * RowWidth(rows) - |pts|, _ => Origin());
    g := FillReadLayout(flat, |rows|, RowWidth(rows));
  }

  /** `num_v` of `read_ctrlpts`: the number of points on the last line read. */
  function RowWidth(rows: seq<seq<Point3>>): nat
  {
    if |rows| == 0 then 0 else |rows[|rows| - 1]|
  }

  /** Every line has as many points as the last one, so the points fill the `num_u * num_v` array exactly. */
  predicate Rectangular(rows: seq<seq<Point3>>)
  {
    IsGrid(rows, |rows|, RowWidth(rows))
  }

  /**
   * The points read fit the `num_u * num_v` array `read_ctrlpts` copies them
   * into. Lines of any lengths are accepted as long as this holds; more points
   * than the array holds would be written past its end.
   */
  predicate FitsReadArray(rows: seq<seq<Point3>>)
  {
    |Flatten(rows)| <= |rows| * RowWidth(rows)
  }

  /** The `num_u * num_v` array after the copy: the points in file order, then default points at the origin. */
  function ReadPoints(rows: seq<seq<Point3>>): (flat: seq<Point3>)
    requires FitsReadArray(rows)
    ensures |flat| == |rows| * RowWidth(rows)
    ensures flat[..|Flatten(rows)|] == Flatten(rows)
    ensures forall k :: |Flatten(rows)| <= k < |flat| ==> flat[k] == Origin()
  {
    Flatten(rows) + seq(|rows| * RowWidth(rows) - |Flatten(rows)|, _ => Origin())
  }

  /** `n` weights of 1.0, the default `read_ctrlpts` stores. */
  function UnitWeights(n: nat): (w: seq<real>)
    ensures |w| == n && forall i :: 0 <= i < n ==> w[i] == 1.0
  {
    seq(n, _ => 1.0)
  }

  /** The lines `save_ctrlpts` writes for a grid: one per row, and none at all when the rows are empty. */
  function SavedLines(g: seq<seq<Point3>>, nv: nat): seq<seq<Point3>>
  {
    if nv == 0 then [] else g
  }

  /** What `read_ctrlpts` builds from the lines of a file: the row-major layout of the filled array. */
  function ReadGrid(rows: seq<seq<Point3>>): (g: seq<seq<Point3>>)
    requires FitsReadArray(rows)
    ensures IsGrid(g, |rows|, RowWidth(rows))
  {
    ReadLayout(ReadPoints(rows), |rows|, RowWidth(rows))
  }

  /** A file whose lines are all as long as the last one is read back line for line, with no padding. */
  lemma ReadRectangular(rows: seq<seq<Point3>>)
    requires Rectangular(rows)
    ensures FitsReadArray(rows) && ReadPoints(rows) == Flatten(rows)
    ensures ReadGrid(rows) == rows
  {
    FlattenLength(rows, |rows|, RowWidth(rows));
    assert ReadPoints(rows) == Flatten(rows);
    ChopFlatten(rows, |rows|, RowWidth(rows));
  }

  /**
   * A shorter line before the last one is accepted: the points move up to
   * fill it and the array ends in a default point. Lines `[a]` and `[b, c]`
   * give the grid `[[a, b], [c, origin]]`.
   */
  lemma ReadRaggedShifts(a: Point3, b: Point3, c: Point3)
    ensures FitsReadArray([[a], [b, c]]) && !Rectangular([[a], [b, c]])
    ensures ReadGrid([[a], [b, c]]) == [[a, b], [c, Origin()]]
  {
    var rows := [[a], [b, c]];
    assert Flatten(rows) == [a, b, c] by {
      assert Flatten(rows[1..]) == [b, c] + Flatten(rows[2..]);
    }
    var flat := ReadPoints(rows);
    assert flat == [a, b, c, Origin()];
    ReadLayoutAt(flat, 2, 2, 0, 0);
    ReadLayoutAt(flat, 2, 2, 0, 1);
    ReadLayoutAt(flat, 2, 2, 1, 0);
    ReadLayoutAt(flat, 2, 2, 1, 1);
    var g := ReadGrid(rows);
    assert g[0] == [a, b] && g[1] == [c, Origin()];
  }

  /** Saving a non-empty grid and reading the file back gives the same grid and dimensions. */
  lemma SaveReadRoundTrip(g: seq<seq<Point3>>, nu: nat, nv: nat)
    requires IsGrid(g, nu, nv) && 0 < nu && 0 < nv
    ensures Rectangular(SavedLines(g, nv)) && FitsReadArray(SavedLines(g, nv))
    ensures |SavedLines(g, nv)| == nu && RowWidth(SavedLines(g, nv)) == nv
    ensures ReadGrid(SavedLines(g, nv)) == g
  {
    ReadRectangular(g);
  }

  /**
   * What `transpose` stores: degrees and knot vectors swapped, the flat array
   * rewritten as the old grid read column by column, the dimensions swapped
   * and the grid rebuilt from the flat array in row-major layout. Weights,
   * `delta` and the surface points are kept. The knot vectors are swapped
   * whole; the source copies each with the other's length, which agrees
   * only when both have one length (`TransposedKnotsAsWritten`).
   */
  function TransposedState(st: NurbsState): (t: NurbsState)
    requires ValidState(st)
    ensures t.ctrlPts.Some? && |t.ctrlPts.value| == st.numCtrlPtsV * st.numCtrlPtsU
  {
    TransposeLayout(st.ctrlPts2D, st.numCtrlPtsU, st.numCtrlPtsV);
    var flat := Flatten(Transposed(st.ctrlPts2D, st.numCtrlPtsU, st.numCtrlPtsV));
    st.(degreeU := st.degreeV, degreeV := st.degreeU,
        knotU := st.knotV, knotV := st.knotU,
        ctrlPts := Some(flat),
        ctrlPts2D := ReadLayout(flat, st.numCtrlPtsV, st.numCtrlPtsU),
        numCtrlPtsU := st.numCtrlPtsV, numCtrlPtsV := st.numCtrlPtsU)
  }

  /**
   * The rebuilt grid is the transpose of the old one, so the evaluators see
   * the transposed surface; the shape and the gate are kept.
   */
  lemma TransposedStateSnapshot(st: NurbsState)
    requires ValidState(st)
    ensures ValidState(TransposedState(st))
    ensures TransposedState(st).ctrlPts2D == Transposed(st.ctrlPts2D, st.numCtrlPtsU, st.numCtrlPtsV)
    ensures PreCalculate(st) ==> PreCalculate(TransposedState(st))
    ensures PreCalculate(st) ==> Snapshot(TransposedState(st)) == TransposedSurface(Snapshot(st))
  {
    TransposeLayout(st.ctrlPts2D, st.numCtrlPtsU, st.numCtrlPtsV);
  }

  /** A surface the evaluators can use stays one after `transpose`. */
  lemma TransposedStateConsistent(st: NurbsState)
    requires ValidState(st) && Consistent(st) && PreCalculate(st)
    ensures Consistent(TransposedState(st))
  {
    TransposedStateSnapshot(st);
    EvaluableTransposed(Snapshot(st));
  }

  /**
   * `transpose` twice gives back every field except the flat array, which
   * afterwards lists the grid row by row, whatever layout it was set in.
   */
  lemma TransposedStateTwice(st: NurbsState)
    requires ValidState(st)
    ensures ValidState(TransposedState(st))
    ensures TransposedState(TransposedState(st)) == st.(ctrlPts := Some(Flatten(st.ctrlPts2D)))
  {
    var g, nu, nv := st.ctrlPts2D, st.numCtrlPtsU, st.numCtrlPtsV;
    TransposedStateSnapshot(st);
    var t := TransposedState(st);
    TransposedStateSnapshot(t);
    TransposedTwice(g, nu, nv);
  }

  // The knot copies of `transpose` as written (NURBS/src/NURBS.hxx:721-725).

  /**
   * `std::copy(src, src + count, buf)` into a freshly allocated buffer whose
   * uninitialised contents are `buf`: `None` when the copy reads past the end
   * of `src` or writes past the end of the buffer.
   */
  function CopyIntoFresh(src: seq<real>, count: nat, buf: seq<real>): (r: Option<seq<real>>)
    ensures r.Some? <==> count <= |src| && count <= |buf|
    ensures r.Some? ==> |r.value| == |buf| && r.value[..count] == src[..count] && r.value[count..] == buf[count..]
  {
    if count <= |src| && count <= |buf| then Some(src[..count] + buf[count..]) else None
  }

  /**
   * The new knot vectors of `transpose` as written: the new U buffer has room
   * for `|V|` knots and receives the first `|U|` knots of V; the new V buffer
   * has room for `|U|` knots and receives the first `|V|` knots of U. `junkU`
   * and `junkV` are the two buffers' uninitialised contents.
   */
  function TransposedKnotsAsWritten(U: seq<real>, V: seq<real>, junkU: seq<real>, junkV: seq<real>): Option<(seq<real>, seq<real>)>
    requires |junkU| == |V| && |junkV| == |U|
  {
    var newU := CopyIntoFresh(V, |U|, junkU);
    var newV := CopyIntoFresh(U, |V|, junkV);
    if newU.Some? && newV.Some? then Some((newU.value, newV.value)) else None
  }

  /**
   * The copies stay inside their buffers exactly when both knot vectors have
   * the same length, and then they are the clean swap `TransposedState` stores.
   */
  lemma TransposedKnotsAsWrittenDefined(U: seq<real>, V: seq<real>, junkU: seq<real>, junkV: seq<real>)
    requires |junkU| == |V| && |junkV| == |U|
    ensures TransposedKnotsAsWritten(U, V, junkU, junkV).Some? <==> |U| == |V|
    ensures |U| == |V| ==> TransposedKnotsAsWritten(U, V, junkU, junkV) == Some((V, U))
  {
    if |U| == |V| {
      assert V[..|U|] + junkU[|U|..] == V;
      assert U[..|V|] + junkV[|V|..] == U;
    }
  }

  /**
   * Degree 2 in both directions with 5 by 3 control points: |U| = 8 and
   * |V| = 6. The copy into the new U buffer reads and writes two knots past
   * the ends, and the new V buffer keeps only the first six knots of U
   * followed by two uninitialised ones, so its clamped end is lost: with
   * zeroed memory it no longer fits the evaluators.
   */
  lemma TransposedKnotsOverflow()
    ensures var U := [0.0, 0.0, 0.0, 0.25, 0.5, 1.0, 1.0, 1.0];
            var V := [0.0, 0.0, 0.0, 1.0, 1.0, 1.0];
            var zeros := [0.0, 0.0, 0.0, 0.0, 0.0, 0.0, 0.0, 0.0];
            KnotsFit(2, U, 5) && KnotsFit(2, V, 3) &&
            TransposedKnotsAsWritten(U, V, zeros[..6], zeros) == None &&
            CopyIntoFresh(U, |V|, zeros).Some? && !KnotsFit(2, CopyIntoFresh(U, |V|, zeros).value, 5)
  {
    var U := [0.0, 0.0, 0.0, 0.25, 0.5, 1.0, 1.0, 1.0];
    var V := [0.0, 0.0, 0.0, 1.0, 1.0, 1.0];
    var zeros := [0.0, 0.0, 0.0, 0.0, 0.0, 0.0, 0.0, 0.0];
    assert NonDecreasing(U) by {
      forall i, j ensures KnotsOrdered(U, i, j) {
      }
    }
    assert NonDecreasing(V) by {
      forall i, j ensures KnotsOrdered(V, i, j) {
      }
    }
    assert KnotsFit(2, U, 5);
    assert KnotsFit(2, V, 3);
    assert CopyIntoFresh(V, |U|, zeros[..6]) == None;
    assert TransposedKnotsAsWritten(U, V, zeros[..6], zeros) == None;
    var w := CopyIntoFresh(U, |V|, zeros).value;
    assert w[5] == 1.0 && w[6] == 0.0;
    assert !KnotsOrdered(w, 5, 6);
  }

  /**
   * Where the copies of `transpose` as written stay in bounds (knot vectors of
   * one length), they store exactly the knot vectors of `TransposedState`.
   */
  lemma TransposedStateAsWritten(st: NurbsState, junkU: seq<real>, junkV: seq<real>)
    requires ValidState(st) && st.knotU.Some? && st.knotV.Some? && |st.knotU.value| == |st.knotV.value|
    requires |junkU| == |st.knotV.value| && |junkV| == |st.knotU.value|
    ensures TransposedKnotsAsWritten(st.knotU.value, st.knotV.value, junkU, junkV) ==
            Some((TransposedState(st).knotU.value, TransposedState(st).knotV.value))
  {
    TransposedKnotsAsWrittenDefined(st.knotU.value, st.knotV.value, junkU, junkV);
  }

  /** Rows of a two-dimensional array. */
  function ArrayRows(a: array2<Point3>): (g: seq<seq<Point3>>)
    reads a
    ensures IsGrid(g, a.Length0, a.Length1)
    ensures forall i, j :: 0 <= i < a.Length0 && 0 <= j < a.Length1 ==> g[i][j] == a[i, j]
  {
    seq(a.Length0, i requires 0 <= i < a.Length0 reads a => seq(a.Length1, j requires 0 <= j < a.Length1 reads a => a[i, j]))
  }

  /**
   * The work of `evaluate` once the gate has passed: the samples, the 2D
   * surface points `[iu][iv]` and the 1D list, column `iv` after column `iv`.
   */
  method EvaluateSurface(s: Surface, delta: real) returns (us: seq<real>, grid: seq<seq<Point3>>, flat: seq<Point3>)
    requires Evaluable(s) && delta > 0.0
    ensures SampleList(us, delta) && InUnitInterval(us)
    ensures grid == EvaluatedGrid(s, us, us)
    ensures flat == Flatten(Transposed(EvaluatedGrid(s, us, us), |us|, |us|))
  {
    us := Samples(delta);
    SamplesInUnitInterval(us, delta);
    var pts2;
    pts2, flat := EvaluateGrid(s, us, us);
    grid := ArrayRows(pts2);
    ghost var g := EvaluatedGrid(s, us, us);
    assert forall i, j :: 0 <= i < |us| && 0 <= j < |us| ==> pts2[i, j] == g[i][j];
    ArrayRowsOf(pts2, g);
  }

  lemma ArrayRowsOf(a: array2<Point3>, g: seq<seq<Point3>>)
    requires IsGrid(g, a.Length0, a.Length1)
    requires forall i, j :: 0 <= i < a.Length0 && 0 <= j < a.Length1 ==> a[i, j] == g[i][j]
    ensures ArrayRows(a) == g
  {
    var r := ArrayRows(a);
    forall i | 0 <= i < a.Length0
      ensures r[i] == g[i]
    {
    }
  }

  // Copying (`copy_vars`, NURBS/src/NURBS.hxx:1241-1303).

  /** The contents of an array `copy_vars` copies: a null pointer is copied as a new empty array. */
  function Contents<T>(o: Option<seq<T>>): seq<T>
  {
    if o.Some? then o.value else []
  }

  /**
   * `copy_vars` copies `num_u * num_v` weights, so the source's weights must
   * hold at least that many (and may be null only when there are no points).
   */
  predicate WeightsCopyable(st: NurbsState)
  {
    if st.weights.Some? then st.numCtrlPtsU * st.numCtrlPtsV <= |st.weights.value|
    else st.numCtrlPtsU * st.numCtrlPtsV == 0
  }

  /**
   * The state `copy_vars(rhs)` leaves in `dst`: degrees, knot vectors,
   * control points and grid of `rhs`, its first `num_u * num_v` weights, every
   * array allocated anew (a null one as an empty array), no surface points,
   * and `dst`'s own `delta`, which is not copied.
   */
  function CopiedState(dst: NurbsState, rhs: NurbsState): (t: NurbsState)
    requires ValidState(rhs) && WeightsCopyable(rhs)
    ensures ValidState(t)
    ensures t.delta == dst.delta && t.surfPts.None? && t.surfPts2D == [] && t.numSurfPtsU == 0 && t.numSurfPtsV == 0
    ensures t.knotU.Some? && t.knotV.Some? && t.ctrlPts.Some? && t.weights.Some?
    ensures |t.weights.value| == rhs.numCtrlPtsU * rhs.numCtrlPtsV
    ensures forall k :: 0 <= k < |t.weights.value| ==> t.weights.value[k] == rhs.weights.value[k]
  {
    rhs.(ctrlPts := Some(Contents(rhs.ctrlPts)),
         knotU := Some(Contents(rhs.knotU)), knotV := Some(Contents(rhs.knotV)),
         weights := Some(Contents(rhs.weights)[..rhs.numCtrlPtsU * rhs.numCtrlPtsV]),
         surfPts := None, surfPts2D := [], numSurfPtsU := 0, numSurfPtsV := 0,
         delta := dst.delta)
  }

  /** A copy of a surface that passes `pre_calculate` passes it too and evaluates to the same surface. */
  lemma CopiedStateEvaluatesAlike(dst: NurbsState, rhs: NurbsState)
    requires ValidState(rhs) && WeightsCopyable(rhs) && PreCalculate(rhs)
    ensures PreCalculate(CopiedState(dst, rhs))
    ensures Snapshot(CopiedState(dst, rhs)) == Snapshot(rhs)
    ensures Consistent(rhs) ==> Consistent(CopiedState(dst, rhs))
  {
  }

  /**
   * Copying turns null arrays into empty ones, so a copy of a surface that
   * has its degrees but nothing else passes `pre_calculate`, which the
   * original does not.
   */
  lemma CopyOfIncompletePassesGate()
    ensures var rhs := InitialState().(degreeU := 2, degreeV := 2);
            !PreCalculate(rhs) && PreCalculate(CopiedState(InitialState(), rhs)) &&
            !Consistent(CopiedState(InitialState(), rhs))
  {
    var t := CopiedState(InitialState(), InitialState().(degreeU := 2, degreeV := 2));
    assert t.knotU == Some([]);
  }

  class Nurbs {
    var degreeU: nat
    var degreeV: nat
    var ctrlPts: Option<seq<Point3>>
    var ctrlPts2D: seq<seq<Point3>>
    var numCtrlPtsU: nat
    var numCtrlPtsV: nat
    var weights: Option<seq<real>>
    var knotU: Option<seq<real>>
    var knotV: Option<seq<real>>
    var surfPts: Option<seq<Point3>>
    var surfPts2D: seq<seq<Point3>>
    var numSurfPtsU: nat
    var numSurfPtsV: nat
    var delta: real

    function State(): NurbsState
      reads this
    {
      NurbsState(degreeU, degreeV, ctrlPts, ctrlPts2D, numCtrlPtsU, numCtrlPtsV, weights, knotU, knotV,
                 surfPts, surfPts2D, numSurfPtsU, numSurfPtsV, delta)
    }

    ghost predicate Valid()
      reads this
    {
      ValidState(State())
    }

    /** Replaces the flat control points, their grid and its dimensions. */
    method StoreCtrlPts(flat: seq<Point3>, grid: seq<seq<Point3>>, nu: nat, nv: nat)
      requires |flat| == nu * nv && IsGrid(grid, nu, nv)
      modifies this
      ensures Valid()
      ensures State() == old(State()).(ctrlPts := Some(flat), ctrlPts2D := grid, numCtrlPtsU := nu, numCtrlPtsV := nv)
    {
      numCtrlPtsU, numCtrlPtsV, ctrlPts, ctrlPts2D := nu, nv, Some(flat), grid;
    }

    /** Replaces the evaluated surface points and their counts. */
    method StoreSurfPts(flat: seq<Point3>, grid: seq<seq<Point3>>, nu: nat, nv: nat)
      requires Valid()
      modifies this
      ensures Valid()
      ensures State() == old(State()).(surfPts := Some(flat), surfPts2D := grid, numSurfPtsU := nu, numSurfPtsV := nv)
    {
      surfPts, surfPts2D, numSurfPtsU, numSurfPtsV := Some(flat), grid, nu, nv;
    }

    /** `NURBS()`: `init_vars`. */
    constructor()
      ensures Valid() && State() == InitialState()
    {
      degreeU, degreeV := 0, 0;
      numCtrlPtsU, numCtrlPtsV := 0, 0;
      weights, knotU, knotV := None, None, None;
      ctrlPts, ctrlPts2D := None, [];
      surfPts, surfPts2D := None, [];
      numSurfPtsU, numSurfPtsV := 0, 0;
      delta := 0.01;
    }

    /** Replaces the degrees, the knot vectors and the weights. */
    method StoreKnots(degU: nat, degV: nat, kU: Option<seq<real>>, kV: Option<seq<real>>, w: Option<seq<real>>)
      modifies this
      ensures State() == old(State()).(degreeU := degU, degreeV := degV, knotU := kU, knotV := kV, weights := w)
    {
      degreeU, degreeV, knotU, knotV, weights := degU, degV, kU, kV, w;
    }

    /** Forgets the evaluated surface points, as `copy_vars` does. */
    method ClearSurfPts()
      modifies this
      ensures State() == old(State()).(surfPts := None, surfPts2D := [], numSurfPtsU := 0, numSurfPtsV := 0)
    {
      surfPts, surfPts2D, numSurfPtsU, numSurfPtsV := None, [], 0, 0;
    }

    /** `NURBS(const NURBS&)`: `init_vars`, then `copy_vars(rhs)`. */
    constructor Copy(rhs: Nurbs)
      requires rhs.Valid() && WeightsCopyable(rhs.State())
      ensures Valid() && State() == CopiedState(InitialState(), rhs.State())
    {
      var t := CopiedState(InitialState(), rhs.State());
      degreeU, degreeV := t.degreeU, t.degreeV;
      ctrlPts, ctrlPts2D := t.ctrlPts, t.ctrlPts2D;
      numCtrlPtsU, numCtrlPtsV := t.numCtrlPtsU, t.numCtrlPtsV;
      weights, knotU, knotV := t.weights, t.knotU, t.knotV;
      surfPts, surfPts2D := None, [];
      numSurfPtsU, numSurfPtsV := 0, 0;
      delta := 0.01;
    }

    /** `operator=`: nothing happens on self-assignment; otherwise `copy_vars(rhs)`. */
    method Assign(rhs: Nurbs)
      requires Valid() && rhs.Valid() && WeightsCopyable(rhs.State())
      modifies this
      ensures Valid()
      ensures State() == if rhs == this then old(State()) else CopiedState(old(State()), old(rhs.State()))
    {
      if rhs != this {
        var t := CopiedState(State(), rhs.State());
        StoreKnots(t.degreeU, t.degreeV, t.knotU, t.knotV, t.weights);
        StoreCtrlPts(t.ctrlPts.value, t.ctrlPts2D, t.numCtrlPtsU, t.numCtrlPtsV);
        ClearSurfPts();
      }
    }

    /** `degree_u(d)`: rejects `d <= 0` and keeps the old degree. */
    method SetDegreeU(d: int) returns (ok: bool)
      requires Valid()
      modifies this
      ensures Valid() && ok == (d > 0)
      ensures State() == if ok then old(State()).(degreeU := d as nat) else old(State())
    {
      if d <= 0 {
        return false;
      }
      degreeU := d;
      ok := true;
    }

    /** `degree_v(d)`: rejects `d <= 0` and keeps the old degree. */
    method SetDegreeV(d: int) returns (ok: bool)
      requires Valid()
      modifies this
      ensures Valid() && ok == (d > 0)
      ensures State() == if ok then old(State()).(degreeV := d as nat) else old(State())
    {
      if d <= 0 {
        return false;
      }
      degreeV := d;
      ok := true;
    }

    /**
     * `ctrlpts(points, nu, nv)`: copies the first `nu * nv` points and fills
     * the grid with `ctrlpts_2d[i][t] == points[i + t * nu]`.
     */
    method SetCtrlPts(pts: seq<Point3>, nu: nat, nv: nat)
      requires Valid() && nu * nv <= |pts|
      modifies this
      ensures Valid()
      ensures State() == old(State()).(ctrlPts := Some(pts[..nu * nv]), ctrlPts2D := SetterLayout(pts[..nu * nv], nu, nv),
                                       numCtrlPtsU := nu, numCtrlPtsV := nv)
    {
      var flat := pts[..nu * nv];
      var grid := FillSetterLayout(flat, nu, nv);
      StoreCtrlPts(flat, grid, nu, nv);
    }

    /** `knotvector_u(knots)` (both overloads): stores the normalised copy. */
    method SetKnotVectorU(knots: seq<real>)
      requires Valid() && Normalizable(knots)
      modifies this
      ensures Valid()
      ensures State() == old(State()).(knotU := Some(Normalized(knots)))
    {
      var out := new real[|knots|];
      NormalizeInto(knots, out);
      assert out[..] == out[..|knots|];
      knotU := Some(out[..]);
    }

    /** `knotvector_v(knots)` (both overloads): stores the normalised copy. */
    method SetKnotVectorV(knots: seq<real>)
      requires Valid() && Normalizable(knots)
      modifies this
      ensures Valid()
      ensures State() == old(State()).(knotV := Some(Normalized(knots)))
    {
      var out := new real[|knots|];
      NormalizeInto(knots, out);
      assert out[..] == out[..|knots|];
      knotV := Some(out[..]);
    }

    /** `weights(list)`: stores the list, whatever its length. */
    method SetWeightsList(w: seq<real>)
      requires Valid()
      modifies this
      ensures Valid()
      ensures State() == old(State()).(weights := Some(w))
    {
      weights := Some(w);
    }

    /** `weights(ptr, n)`: rejects a count other than `ctrlpts_len()` and keeps the old weights. */
    method SetWeights(w: seq<real>) returns (ok: bool)
      requires Valid()
      modifies this
      ensures Valid() && ok == (|w| == numCtrlPtsU * numCtrlPtsV)
      ensures State() == if ok then old(State()).(weights := Some(w)) else old(State())
    {
      if |w| != numCtrlPtsU * numCtrlPtsV {
        return false;
      }
      weights := Some(w);
      ok := true;
    }

    /** `delta(value)`. */
    method SetDelta(value: real)
      requires Valid()
      modifies this
      ensures Valid()
      ensures State() == old(State()).(delta := value)
    {
      delta := value;
    }

    /**
     * `read_ctrlpts(file)` on the lines already split into points: fails when
     * the file cannot be opened; otherwise `num_u` is the number of lines,
     * `num_v` the length of the last one, the flat array holds the points in
     * file order padded with default points to `num_u * num_v`, the grid is
     * `2d[i][j] == flat[j + i * num_v]`, and the weight array has
     * `num_u * num_v` entries, 1.0 for every point read (the rest are
     * uninitialised, and left unspecified here).
     */
    method ReadCtrlPts(rows: seq<seq<Point3>>, fileOpen: bool) returns (ok: bool)
      requires Valid() && FitsReadArray(rows)
      modifies this
      ensures Valid() && ok == fileOpen
      ensures !ok ==> State() == old(State())
      ensures ok ==> State() == old(State()).(ctrlPts := Some(ReadPoints(rows)), ctrlPts2D := ReadGrid(rows),
                                              numCtrlPtsU := |rows|, numCtrlPtsV := RowWidth(rows),
                                              weights := weights)
      ensures ok ==> weights.Some? && |weights.value| == |rows| * RowWidth(rows) &&
                     weights.value[..|Flatten(rows)|] == UnitWeights(|Flatten(rows)|)
    {
      if !fileOpen {
        return false;
      }
      var flat, grid := ReadArrays(rows);
      StoreCtrlPts(flat, grid, |rows|, RowWidth(rows));
      var n := |Flatten(rows)|;
      weights := Some(UnitWeights(n) + seq(|flat| - n, _ => 0.0));
      ok := true;
    }

    /** `save_ctrlpts(file)`: fails when the file cannot be opened; otherwise writes the grid one row per line. */
    method SaveCtrlPts(fileOpen: bool) returns (ok: bool, lines: seq<seq<Point3>>)
      requires Valid()
      ensures ok == fileOpen
      ensures lines == if ok then SavedLines(ctrlPts2D, numCtrlPtsV) else []
    {
      if !fileOpen {
        return false, [];
      }
      lines := [];
      if numCtrlPtsV == 0 {
        return true, lines;
      }
      var i := 0;
      while i < numCtrlPtsU
        invariant 0 <= i <= numCtrlPtsU && lines == ctrlPts2D[..i]
      {
        lines := lines + [ctrlPts2D[i]];
        i := i + 1;
      }
      ok := true;
    }

    /**
     * `transpose()`: fails, changing nothing, unless `pre_calculate` holds;
     * otherwise swaps degrees, knot vectors and dimensions and rewrites the
     * control points (`transpose_ctrlpts`). The knot vectors are swapped
     * whole, which is what the source's copies do when both have one length.
     */
    method Transpose() returns (ok: bool)
      requires Valid()
      modifies this
      ensures Valid() && ok == PreCalculate(old(State()))
      ensures State() == if ok then TransposedState(old(State())) else old(State())
    {
      if !PreCalculate(State()) {
        return false;
      }
      ghost var st := State();
      degreeU, degreeV := degreeV, degreeU;
      knotU, knotV := knotV, knotU;
      TransposeCtrlPts();
      TransposedStateSnapshot(st);
      ok := true;
    }

    /** `transpose_ctrlpts()`: the flat array becomes the grid read column by column, and the grid its row-major layout. */
    method TransposeCtrlPts()
      requires Valid()
      modifies this
      ensures Valid()
      ensures State() == TransposedState(old(State())).(degreeU := degreeU, degreeV := degreeV,
                                                         knotU := knotU, knotV := knotV)
      ensures degreeU == old(degreeU) && degreeV == old(degreeV) && knotU == old(knotU) && knotV == old(knotV)
    {
      var nu, nv := numCtrlPtsU, numCtrlPtsV;
      var flat := ColumnMajor(ctrlPts2D, nu, nv);
      TransposeLayout(ctrlPts2D, nu, nv);
      var grid := FillReadLayout(flat, nv, nu);
      TransposedStateSnapshot(State());
      StoreCtrlPts(flat, grid, nv, nu);
    }

    /**
     * `surfpoint(u, v, out)`: fails before touching `out` when a gate fails;
     * otherwise `out` is the point of the tensor-product surface (Algorithm A3.5).
     */
    method SurfacePoint(u: real, v: real, prior: Point3) returns (ok: bool, pt: Point3)
      requires Valid() && Consistent(State())
      ensures ok == (PreCalculate(State()) && CheckUV(u, v, delta, false))
      ensures ok ==> pt == SurfacePointSpec(Snapshot(State()), u, v)
      ensures !ok ==> pt == prior
    {
      if !PreCalculate(State()) || !CheckUV(u, v, delta, false) {
        return false, prior;
      }
      pt := SurfacePointAt(Snapshot(State()), u, v);
      ok := true;
    }

    /**
     * `derivatives(u, v, d, SKL)`: fails before allocating `SKL` when a gate
     * fails; otherwise a fresh `(d + 1) x (d + 1)` array whose entry `[k][l]`
     * is the `k`-th u- and `l`-th v-derivative (Algorithm A3.6), zero where
     * `k + l > d` or an order exceeds its degree.
     */
    method Derivatives(u: real, v: real, d: nat, prior: array2<Point3>) returns (ok: bool, skl: array2<Point3>)
      requires Valid() && Consistent(State())
      ensures ok == (PreCalculate(State()) && CheckUV(u, v, delta, false))
      ensures !ok ==> skl == prior
      ensures ok ==> fresh(skl) && skl.Length0 == d + 1 && skl.Length1 == d + 1
      ensures ok ==> forall k, l :: 0 <= k <= d && 0 <= l <= d ==> skl[k, l] == DerivativeAt(Snapshot(State()), u, v, d, k, l)
    {
      if !PreCalculate(State()) || !CheckUV(u, v, delta, false) {
        return false, prior;
      }
      skl := DerivativesAt(Snapshot(State()), u, v, d);
      ok := true;
    }

    /** `tangent_u(u, v, out)`: entry `[1][0]` of the first-order derivatives. */
    method TangentU(u: real, v: real, prior: Point3) returns (ok: bool, pt: Point3)
      requires Valid() && Consistent(State())
      ensures ok == (PreCalculate(State()) && CheckUV(u, v, delta, false))
      ensures ok ==> pt == DerivativeAt(Snapshot(State()), u, v, 1, 1, 0)
      ensures !ok ==> pt == prior
    {
      if !PreCalculate(State()) || !CheckUV(u, v, delta, false) {
        return false, prior;
      }
      var skl := DerivativesAt(Snapshot(State()), u, v, 1);
      pt := skl[1, 0];
      ok := true;
    }

    /** `tangent_v(u, v, out)`: entry `[0][1]` of the first-order derivatives. */
    method TangentV(u: real, v: real, prior: Point3) returns (ok: bool, pt: Point3)
      requires Valid() && Consistent(State())
      ensures ok == (PreCalculate(State()) && CheckUV(u, v, delta, false))
      ensures ok ==> pt == DerivativeAt(Snapshot(State()), u, v, 1, 0, 1)
      ensures !ok ==> pt == prior
    {
      if !PreCalculate(State()) || !CheckUV(u, v, delta, false) {
        return false, prior;
      }
      var skl := DerivativesAt(Snapshot(State()), u, v, 1);
      pt := skl[0, 1];
      ok := true;
    }

    /**
     * `normal(u, v, out)`: with the stricter edge check, the cross product of
     * the two tangents, each taken as a vector from the origin.
     */
    method Normal(u: real, v: real, prior: Vector3) returns (ok: bool, n: Vector3)
      requires Valid() && Consistent(State())
      ensures ok == (PreCalculate(State()) && CheckUV(u, v, delta, true))
      ensures ok ==> CheckUV(u, v, delta, false) && n == NormalSpec(Snapshot(State()), u, v)
      ensures !ok ==> n == prior
    {
      if !PreCalculate(State()) || !CheckUV(u, v, delta, true) {
        return false, prior;
      }
      CheckNormalStricter(u, v, delta);
      var skl := DerivativesAt(Snapshot(State()), u, v, 1);
      n := Cross(FromEnd(skl[1, 0]), FromEnd(skl[0, 1]));
      ok := true;
    }

    /**
     * `evaluate()`: fails, changing nothing, unless `pre_calculate` holds;
     * otherwise samples `0, delta, 2 * delta, ...` below 1 and then 1 in both
     * directions, and stores the surface at every pair of samples: the 2D
     * array `[iu][iv]`, and the 1D array column `iv` after column `iv`. The
     * u count ends at the number of samples; the v count is added to the
     * count the object already had.
     */
    method Evaluate() returns (ok: bool, ghost us: seq<real>)
      requires Valid() && Consistent(State()) && (PreCalculate(State()) ==> delta > 0.0)
      modifies this
      ensures Valid() && ok == PreCalculate(old(State()))
      ensures !ok ==> State() == old(State())
      ensures ok ==> SampleList(us, delta) && InUnitInterval(us)
      ensures ok ==> State() == old(State()).(
                surfPts := Some(Flatten(Transposed(EvaluatedGrid(Snapshot(old(State())), us, us), |us|, |us|))),
                surfPts2D := EvaluatedGrid(Snapshot(old(State())), us, us),
                numSurfPtsU := |us|, numSurfPtsV := old(numSurfPtsV) + |us|)
    {
      if !PreCalculate(State()) {
        return false, [];
      }
      var samples, grid, flat := EvaluateSurface(Snapshot(State()), delta);
      us := samples;
      StoreSurfPts(flat, grid, |samples|, numSurfPtsV + |samples|);
      ok := true;
    }
  }
}
