// Control-point grids of the NURBS engine: the flat control-point array, the
// two-dimensional view built from it, and transposition of the grid.
module NurbsGrid {

  /** `g` has `rows` rows of `cols` entries each. */
  predicate IsGrid<T>(g: seq<seq<T>>, rows: nat, cols: nat)
  {
    |g| == rows && forall i :: 0 <= i < rows ==> |g[i]| == cols
  }

  lemma MulMonotone(a: nat, b: nat, c: nat)
    requires a <= b
    ensures a * c <= b * c
  {
  }

  /** Index `i * cols + j` of a row-major `rows` by `cols` array is in range. */
  lemma RowMajorIndex(i: nat, j: nat, rows: nat, cols: nat)
    requires i < rows && j < cols
    ensures i * cols + j < rows * cols
  {
    MulMonotone(i + 1, rows, cols);
  }

  /** The rows laid end to end (row-major order). */
  function Flatten<T>(g: seq<seq<T>>): seq<T>
  {
    if |g| == 0 then [] else g[0] + Flatten(g[1..])
  }

  /** Appending a row appends its entries. */
  lemma {:induction false} FlattenSnoc<T>(g: seq<seq<T>>, row: seq<T>)
    ensures Flatten(g + [row]) == Flatten(g) + row
  {
    if |g| > 0 {
      assert (g + [row])[1..] == g[1..] + [row];
      FlattenSnoc(g[1..], row);
    }
  }

  lemma {:induction false} FlattenLength<T>(g: seq<seq<T>>, rows: nat, cols: nat)
    requires IsGrid(g, rows, cols)
    ensures |Flatten(g)| == rows * cols
  {
    if rows > 0 {
      FlattenLength(g[1..], rows - 1, cols);
    }
  }

  lemma MulStep(i: nat, cols: nat)
    requires i > 0
    ensures (i - 1) * cols + cols == i * cols
  {
  }

  /** Past the first row, the flat array continues with the flattened remaining rows. */
  lemma FlattenRest<T>(g: seq<seq<T>>, rows: nat, cols: nat, k: nat)
    requires IsGrid(g, rows, cols) && 0 < rows && cols <= k < |Flatten(g)|
    ensures k - cols < |Flatten(g[1..])| && Flatten(g)[k] == Flatten(g[1..])[k - cols]
  {
  }

  /** Entry `(i, j)` of the grid sits at `i * cols + j` of the flat array. */
  lemma {:induction false} FlattenAt<T>(g: seq<seq<T>>, rows: nat, cols: nat, i: nat, j: nat)
    requires IsGrid(g, rows, cols) && i < rows && j < cols
    ensures |Flatten(g)| == rows * cols && i * cols + j < rows * cols
    ensures Flatten(g)[i * cols + j] == g[i][j]
  {
    FlattenLength(g, rows, cols);
    RowMajorIndex(i, j, rows, cols);
    if i > 0 {
      MulStep(i, cols);
      FlattenAt(g[1..], rows - 1, cols, i - 1, j);
      FlattenRest(g, rows, cols, i * cols + j);
    }
  }

  /** `|flat| == rows * cols` entries cut into `rows` consecutive rows of `cols`. */
  function Chop<T>(flat: seq<T>, rows: nat, cols: nat): (g: seq<seq<T>>)
    requires |flat| == rows * cols
    ensures IsGrid(g, rows, cols)
  {
    if rows == 0 then []
    else
      assert |flat[cols..]| == (rows - 1) * cols;
      [flat[..cols]] + Chop(flat[cols..], rows - 1, cols)
  }

  /** Row `i`, column `j` of the chopped array is entry `i * cols + j` of the flat one. */
  lemma {:induction false} ChopAt<T>(flat: seq<T>, rows: nat, cols: nat, i: nat, j: nat)
    requires |flat| == rows * cols && i < rows && j < cols
    ensures i * cols + j < |flat| && Chop(flat, rows, cols)[i][j] == flat[i * cols + j]
  {
    RowMajorIndex(i, j, rows, cols);
    if i > 0 {
      assert |flat[cols..]| == (rows - 1) * cols;
      ChopAt(flat[cols..], rows - 1, cols, i - 1, j);
      assert (i - 1) * cols + j + cols == i * cols + j;
    }
  }

  /** Chopping a flattened grid gives the grid back. */
  lemma {:induction false} ChopFlatten<T>(g: seq<seq<T>>, rows: nat, cols: nat)
    requires IsGrid(g, rows, cols)
    ensures |Flatten(g)| == rows * cols && Chop(Flatten(g), rows, cols) == g
  {
    FlattenLength(g, rows, cols);
    if rows > 0 {
      FlattenLength(g[1..], rows - 1, cols);
      assert Flatten(g)[..cols] == g[0];
      assert Flatten(g)[cols..] == Flatten(g[1..]);
      ChopFlatten(g[1..], rows - 1, cols);
    }
  }

  /** Flattening a chopped array gives the array back. */
  lemma {:induction false} FlattenChop<T>(flat: seq<T>, rows: nat, cols: nat)
    requires |flat| == rows * cols
    ensures Flatten(Chop(flat, rows, cols)) == flat
  {
    if rows > 0 {
      assert |flat[cols..]| == (rows - 1) * cols;
      FlattenChop(flat[cols..], rows - 1, cols);
      assert flat == flat[..cols] + flat[cols..];
    }
  }

  /** Rows become columns. */
  function Transposed<T>(g: seq<seq<T>>, rows: nat, cols: nat): (t: seq<seq<T>>)
    requires IsGrid(g, rows, cols)
    ensures IsGrid(t, cols, rows)
    ensures forall j, i :: 0 <= j < cols && 0 <= i < rows ==> t[j][i] == g[i][j]
  {
    seq(cols, j requires 0 <= j < cols => seq(rows, i requires 0 <= i < rows => g[i][j]))
  }

  /** Transposing twice gives the grid back. */
  lemma TransposedTwice<T>(g: seq<seq<T>>, rows: nat, cols: nat)
    requires IsGrid(g, rows, cols)
    ensures Transposed(Transposed(g, rows, cols), cols, rows) == g
  {
    var t := Transposed(Transposed(g, rows, cols), cols, rows);
    forall i | 0 <= i < rows ensures t[i] == g[i] {
      assert |t[i]| == |g[i]|;
    }
  }

  /**
   * The grid the `ctrlpts(points, nu, nv)` setter builds: entry `(i, t)` is
   * `flat[i + t * nu]`, so the flat array lists the v-columns one after another.
   */
  function SetterLayout<T>(flat: seq<T>, nu: nat, nv: nat): (g: seq<seq<T>>)
    requires |flat| == nu * nv
    ensures IsGrid(g, nu, nv)
  {
    assert |flat| == nv * nu;
    Transposed(Chop(flat, nv, nu), nv, nu)
  }

  lemma SetterLayoutAt<T>(flat: seq<T>, nu: nat, nv: nat, i: nat, t: nat)
    requires |flat| == nu * nv && i < nu && t < nv
    ensures i + t * nu < |flat| && SetterLayout(flat, nu, nv)[i][t] == flat[i + t * nu]
  {
    assert |flat| == nv * nu;
    ChopAt(flat, nv, nu, t, i);
  }

  /**
   * The grid `read_ctrlpts` and `transpose_ctrlpts` build: entry `(i, j)` is
   * `flat[j + i * nv]`, so the flat array lists the rows one after another.
   */
  function ReadLayout<T>(flat: seq<T>, nu: nat, nv: nat): (g: seq<seq<T>>)
    requires |flat| == nu * nv
    ensures IsGrid(g, nu, nv)
  {
    Chop(flat, nu, nv)
  }

  lemma ReadLayoutAt<T>(flat: seq<T>, nu: nat, nv: nat, i: nat, j: nat)
    requires |flat| == nu * nv && i < nu && j < nv
    ensures j + i * nv < |flat| && ReadLayout(flat, nu, nv)[i][j] == flat[j + i * nv]
  {
    ChopAt(flat, nu, nv, i, j);
  }

  /** The setter's grid is the transpose of the row-major grid with the roles of `nu` and `nv` swapped. */
  lemma SetterLayoutIsTransposedReadLayout<T>(flat: seq<T>, nu: nat, nv: nat)
    requires |flat| == nu * nv
    ensures |flat| == nv * nu
    ensures SetterLayout(flat, nu, nv) == Transposed(ReadLayout(flat, nv, nu), nv, nu)
  {
  }

  /** The two layouts differ: on `[a, b, c, d]` with `nu == nv == 2` one gives `[[a, c], [b, d]]`, the other `[[a, b], [c, d]]`. */
  lemma LayoutsDiffer()
    ensures SetterLayout([0, 1, 2, 3], 2, 2) == [[0, 2], [1, 3]]
    ensures ReadLayout([0, 1, 2, 3], 2, 2) == [[0, 1], [2, 3]]
  {
    var flat := [0, 1, 2, 3];
    SetterLayoutAt(flat, 2, 2, 0, 1);
    SetterLayoutAt(flat, 2, 2, 1, 0);
    SetterLayoutAt(flat, 2, 2, 0, 0);
    SetterLayoutAt(flat, 2, 2, 1, 1);
    ReadLayoutAt(flat, 2, 2, 0, 1);
    ReadLayoutAt(flat, 2, 2, 1, 0);
    ReadLayoutAt(flat, 2, 2, 0, 0);
    ReadLayoutAt(flat, 2, 2, 1, 1);
    var s := SetterLayout(flat, 2, 2);
    assert s[0] == [0, 2] && s[1] == [1, 3];
    var r := ReadLayout(flat, 2, 2);
    assert r[0] == [0, 1] && r[1] == [2, 3];
  }

  /**
   * What `transpose_ctrlpts` stores: the flat array is the old grid read
   * column by column, and the new grid is that array in row-major layout with
   * the dimensions swapped; together, the transpose of the old grid.
   */
  lemma TransposeLayout<T>(g: seq<seq<T>>, nu: nat, nv: nat)
    requires IsGrid(g, nu, nv)
    ensures |Flatten(Transposed(g, nu, nv))| == nv * nu
    ensures ReadLayout(Flatten(Transposed(g, nu, nv)), nv, nu) == Transposed(g, nu, nv)
  {
    ChopFlatten(Transposed(g, nu, nv), nv, nu);
  }
}
