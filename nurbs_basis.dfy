// B-spline basis functions of the NURBS engine: Algorithm A2.2 (the non-zero
// basis functions on a span) of The NURBS Book (Piegl and Tiller).
module NurbsBasis {
  import opened NurbsKnots

  /**
   * Where the basis-function recurrences may run for degree `p` on span
   * `span`: sorted knots, `p` knots on either side of the span, and (for a
   * positive degree) a span of non-zero length, which keeps every divisor
   * of the recurrence positive.
   */
  ghost predicate BasisDomain(p: nat, U: seq<real>, span: nat)
  {
    NonDecreasing(U) && p <= span && span + p < |U| && (p > 0 ==> U[span] < U[span + 1])
  }

  /** `left[j]` of the algorithm. */
  function Left(U: seq<real>, span: nat, u: real, j: nat): real
    requires j <= span + 1 && span + 1 - j < |U|
  {
    u - U[span + 1 - j]
  }

  /** `right[j]` of the algorithm. */
  function Right(U: seq<real>, span: nat, u: real, j: nat): real
    requires span + j < |U|
  {
    U[span + j] - u
  }

  /** The divisor `right[r + 1] + left[j - r]` at level `j`, step `r`. */
  function Denom(U: seq<real>, span: nat, u: real, j: nat, r: nat): (d: real)
    requires r < j <= span + 1 && span + r + 1 < |U|
    ensures d == U[span + r + 1] - U[span + 1 - j + r]
  {
    Right(U, span, u, r + 1) + Left(U, span, u, j - r)
  }

  /** Every divisor is positive: the knot difference spans the (non-empty) span interval. */
  lemma DenomPositive(p: nat, U: seq<real>, span: nat, u: real, j: nat, r: nat)
    requires BasisDomain(p, U, span) && r < j <= p
    ensures Denom(U, span, u, j, r) > 0.0
  {
    Ordered(U, span + 1, span + r + 1);
    Ordered(U, span + 1 - j + r, span);
  }

  lemma DomainSmaller(p: nat, q: nat, U: seq<real>, span: nat)
    requires BasisDomain(p, U, span) && q <= p
    ensures BasisDomain(q, U, span)
  {
  }

  /**
   * Entry `r` of row `p` of the triangular table of A2.2: the basis function
   * `N[span - p + r, p]` at `u`, the `r`-th of the `p + 1` that are non-zero
   * on `span`. Row `p` is computed from row `p - 1` by `LevelAt`.
   */
  function BasisAt(U: seq<real>, span: nat, u: real, p: nat, r: nat): real
    requires BasisDomain(p, U, span) && r <= p
    decreases p, 2
  {
    if p == 0 then 1.0 else LevelAt(U, span, u, p, r)
  }

  /** `saved` before step `r` of level `j`: the share of `BasisAt(j - 1, r - 1)` carried to entry `r`. */
  function Saved(U: seq<real>, span: nat, u: real, j: nat, r: nat): real
    requires 0 < j && BasisDomain(j, U, span) && r <= j
    decreases j, 0
  {
    if r == 0 then 0.0
    else
      DenomPositive(j, U, span, u, j, r - 1);
      Left(U, span, u, j - r + 1) * (BasisAt(U, span, u, j - 1, r - 1) / Denom(U, span, u, j, r - 1))
  }

  /** Entry `r` of level `j` of the triangular recurrence, from level `j - 1`. */
  function LevelAt(U: seq<real>, span: nat, u: real, j: nat, r: nat): real
    requires 0 < j && BasisDomain(j, U, span) && r <= j
    decreases j, 1
  {
    if r < j then
      DenomPositive(j, U, span, u, j, r);
      Saved(U, span, u, j, r) + Right(U, span, u, r + 1) * (BasisAt(U, span, u, j - 1, r) / Denom(U, span, u, j, r))
    else Saved(U, span, u, j, j)
  }

  /**
   * One step of the inner loop, on the values the arrays hold: the entry
   * written and the `saved` carried to the next step.
   */
  lemma LevelStep(U: seq<real>, span: nat, u: real, j: nat, r: nat,
                  saved: real, rightR: real, leftJR: real, nr: real)
    requires 0 < j && BasisDomain(j, U, span) && r < j
    requires saved == Saved(U, span, u, j, r) && nr == BasisAt(U, span, u, j - 1, r)
    requires rightR == Right(U, span, u, r + 1) && leftJR == Left(U, span, u, j - r)
    ensures rightR + leftJR > 0.0
    ensures saved + rightR * (nr / (rightR + leftJR)) == BasisAt(U, span, u, j, r)
    ensures leftJR * (nr / (rightR + leftJR)) == Saved(U, span, u, j, r + 1)
  {
    DenomPositive(j, U, span, u, j, r);
    assert BasisAt(U, span, u, j, r) == LevelAt(U, span, u, j, r);
  }

  /** The last entry of a level is the `saved` left after its last step. */
  lemma LevelLast(U: seq<real>, span: nat, u: real, j: nat, saved: real)
    requires 0 < j && BasisDomain(j, U, span) && saved == Saved(U, span, u, j, j)
    ensures saved == BasisAt(U, span, u, j, j)
  {
    assert BasisAt(U, span, u, j, j) == LevelAt(U, span, u, j, j);
  }

  /** The `p + 1` non-zero basis functions of degree `p` at `u` on `span`. */
  function Basis(U: seq<real>, span: nat, u: real, p: nat): (n: seq<real>)
    requires BasisDomain(p, U, span)
    ensures |n| == p + 1
  {
    seq(p + 1, r requires 0 <= r <= p => BasisAt(U, span, u, p, r))
  }

  /** `left[1..j]` and `right[1..j]` hold the knot distances of the algorithm. */
  ghost predicate KnotDistances(left: array<real>, right: array<real>, U: seq<real>, span: nat, u: real, j: nat)
    reads left, right
    requires j < left.Length && j < right.Length && j <= span + 1 && span + j < |U|
  {
    forall i :: 1 <= i <= j ==> left[i] == Left(U, span, u, i) && right[i] == Right(U, span, u, i)
  }

  /**
   * The inner loop of A2.2: overwrites `n[0..j]` with the basis functions of
   * degree `j`, given those of degree `j - 1` in `n[0..j - 1]`.
   */
  method LevelInPlace(n: array<real>, left: array<real>, right: array<real>, U: seq<real>, span: nat, u: real, j: nat)
    requires 0 < j < n.Length && j < left.Length && j < right.Length && n != left && n != right
    requires BasisDomain(j, U, span) && KnotDistances(left, right, U, span, u, j)
    requires n[..j] == Basis(U, span, u, j - 1)
    modifies n
    ensures n[..j + 1] == Basis(U, span, u, j)
    ensures n[j + 1..] == old(n[j + 1..])
  {
    ghost var prev := n[..j];
    ghost var lv := Basis(U, span, u, j);
    var saved := 0.0;
    var r := 0;
    while r < j
      invariant 0 <= r <= j
      invariant saved == Saved(U, span, u, j, r)
      invariant n[..r] == lv[..r]
      invariant n[r..] == old(n[r..])
    {
      var rightR, leftJR, nr := right[r + 1], left[j - r], n[r];
      assert nr == prev[r];
      LevelStep(U, span, u, j, r, saved, rightR, leftJR, nr);
      var temp := nr / (rightR + leftJR);
      n[r] := saved + rightR * temp;
      saved := leftJR * temp;
      assert n[r] == lv[r];
      assert n[..r + 1] == n[..r] + [lv[r]];
      r := r + 1;
    }
    LevelLast(U, span, u, j, saved);
    assert n[j + 1..] == n[j..][1..] == old(n[j..])[1..] == old(n[j + 1..]);
    n[j] := saved;
    assert n[..j + 1] == lv;
  }

  /** The first statements of the outer loop of A2.2: `left[j]` and `right[j]`. */
  method ExtendDistances(left: array<real>, right: array<real>, U: seq<real>, span: nat, u: real, j: nat)
    requires 0 < j < left.Length && j < right.Length && left != right && j <= span + 1 && span + j < |U|
    requires KnotDistances(left, right, U, span, u, j - 1)
    modifies left, right
    ensures KnotDistances(left, right, U, span, u, j)
    ensures forall i :: 0 <= i < left.Length && i != j ==> left[i] == old(left[i])
    ensures forall i :: 0 <= i < right.Length && i != j ==> right[i] == old(right[i])
  {
    left[j] := u - U[span + 1 - j];
    right[j] := U[span + j] - u;
  }

  /** `basis_functions` (Algorithm A2.2). */
  method BasisFunctions(degree: nat, U: seq<real>, span: nat, knot: real) returns (basisFuns: seq<real>)
    requires BasisDomain(degree, U, span)
    ensures basisFuns == Basis(U, span, knot, degree)
  {
    var left := new real[degree + 1];
    var right := new real[degree + 1];
    var n := new real[degree + 1];
    n[0] := 1.0;
    var j := 1;
    DomainSmaller(degree, 0, U, span);
    while j <= degree
      invariant 1 <= j <= degree + 1
      invariant BasisDomain(j - 1, U, span)
      invariant n[..j] == Basis(U, span, knot, j - 1)
      invariant KnotDistances(left, right, U, span, knot, j - 1)
    {
      DomainSmaller(degree, j, U, span);
      ExtendDistances(left, right, U, span, knot, j);
      LevelInPlace(n, left, right, U, span, knot, j);
      j := j + 1;
    }
    assert n[..] == n[..degree + 1];
    basisFuns := n[..];
  }

  lemma Reciprocal(a: real, d: real)
    requires d != 0.0
    ensures 0.0 + a * (1.0 / d) == a / d && a * (1.0 / d) == a / d
  {
  }

  /** Degree one: the two hat functions of the span. */
  lemma BasisDegreeOne(U: seq<real>, span: nat, u: real)
    requires BasisDomain(1, U, span)
    ensures Basis(U, span, u, 1) == [(U[span + 1] - u) / (U[span + 1] - U[span]), (u - U[span]) / (U[span + 1] - U[span])]
  {
    var d := U[span + 1] - U[span];
    DomainSmaller(1, 0, U, span);
    DenomPositive(1, U, span, u, 1, 0);
    var n := Basis(U, span, u, 1);
    var a, b := Right(U, span, u, 1), Left(U, span, u, 1);
    assert Denom(U, span, u, 1, 0) == d;
    assert BasisAt(U, span, u, 0, 0) == 1.0;
    Reciprocal(a, d);
    Reciprocal(b, d);
    assert n[0] == LevelAt(U, span, u, 1, 0) == 0.0 + a * (1.0 / d);
    assert n[1] == LevelAt(U, span, u, 1, 1) == Saved(U, span, u, 1, 1) == b * (1.0 / d);
  }

  /** The knots `span + 1 - j .. span + j` of `U1` and `U2` agree. */
  ghost predicate SameWindow(U1: seq<real>, U2: seq<real>, span: nat, j: nat)
  {
    forall i :: span + 1 - j <= i <= span + j ==> 0 <= i < |U1| && 0 <= i < |U2| && U1[i] == U2[i]
  }

  /** Each basis function reads only the knots `span + 1 - p .. span + p`. */
  lemma {:induction false} BasisAtLocal(U1: seq<real>, U2: seq<real>, span: nat, u: real, p: nat, r: nat)
    requires BasisDomain(p, U1, span) && BasisDomain(p, U2, span) && SameWindow(U1, U2, span, p) && r <= p
    ensures BasisAt(U1, span, u, p, r) == BasisAt(U2, span, u, p, r)
  {
    if p > 0 {
      assert SameWindow(U1, U2, span, p - 1);
      assert BasisAt(U1, span, u, p, r) == LevelAt(U1, span, u, p, r);
      assert BasisAt(U2, span, u, p, r) == LevelAt(U2, span, u, p, r);
      if r > 0 {
        BasisAtLocal(U1, U2, span, u, p - 1, r - 1);
        assert U1[span + 1 - (p - r + 1)] == U2[span + 1 - (p - r + 1)];
        assert U1[span + r] == U2[span + r];
      }
      assert Saved(U1, span, u, p, r) == Saved(U2, span, u, p, r);
      if r < p {
        BasisAtLocal(U1, U2, span, u, p - 1, r);
        assert U1[span + r + 1] == U2[span + r + 1];
        assert U1[span + 1 - p + r] == U2[span + 1 - p + r];
      }
    }
  }

  /** So the non-zero basis functions read only the knots `span + 1 - p .. span + p`. */
  lemma BasisLocal(U1: seq<real>, U2: seq<real>, span: nat, u: real, p: nat)
    requires BasisDomain(p, U1, span) && BasisDomain(p, U2, span) && SameWindow(U1, U2, span, p)
    ensures Basis(U1, span, u, p) == Basis(U2, span, u, p)
  {
    forall r | 0 <= r <= p ensures Basis(U1, span, u, p)[r] == Basis(U2, span, u, p)[r] {
      BasisAtLocal(U1, U2, span, u, p, r);
    }
  }

  /** Sum of the first `m` entries. */
  function SumTo(s: seq<real>, m: nat): real
    requires m <= |s|
  {
    if m == 0 then 0.0 else SumTo(s, m - 1) + s[m - 1]
  }

  function Sum(s: seq<real>): real
  {
    SumTo(s, |s|)
  }

  /** One step of the telescoping sum: what is written plus what is carried is what was read. */
  lemma TelescopeStep(acc: real, saved: real, rightR: real, leftJR: real, x: real)
    requires rightR + leftJR != 0.0
    ensures acc + (saved + rightR * (x / (rightR + leftJR))) + leftJR * (x / (rightR + leftJR)) == acc + saved + x
  {
    var q := x / (rightR + leftJR);
    assert rightR * q + leftJR * q == (rightR + leftJR) * q;
  }

  /** The partial sums of one level telescope: the carried `saved` makes up the difference. */
  lemma {:induction false} LevelPartialSum(U: seq<real>, span: nat, u: real, j: nat, m: nat)
    requires 0 < j && BasisDomain(j, U, span) && m <= j
    ensures SumTo(Basis(U, span, u, j), m) + Saved(U, span, u, j, m) == SumTo(Basis(U, span, u, j - 1), m)
  {
    if m > 0 {
      LevelPartialSum(U, span, u, j, m - 1);
      var n, prev := Basis(U, span, u, j), Basis(U, span, u, j - 1);
      var acc, saved := SumTo(n, m - 1), Saved(U, span, u, j, m - 1);
      var rightR, leftJR, x := Right(U, span, u, m), Left(U, span, u, j - m + 1), prev[m - 1];
      LevelStep(U, span, u, j, m - 1, saved, rightR, leftJR, x);
      TelescopeStep(acc, saved, rightR, leftJR, x);
    }
  }

  /** Each level keeps the sum of the previous one. */
  lemma LevelSum(U: seq<real>, span: nat, u: real, j: nat)
    requires 0 < j && BasisDomain(j, U, span)
    ensures Sum(Basis(U, span, u, j)) == Sum(Basis(U, span, u, j - 1))
  {
    var n := Basis(U, span, u, j);
    LevelPartialSum(U, span, u, j, j);
    LevelLast(U, span, u, j, Saved(U, span, u, j, j));
    assert Sum(n) == SumTo(n, j) + n[j];
  }

  /** Partition of unity: the non-zero basis functions sum to one. */
  lemma {:induction false} BasisPartitionOfUnity(U: seq<real>, span: nat, u: real, p: nat)
    requires BasisDomain(p, U, span)
    ensures Sum(Basis(U, span, u, p)) == 1.0
  {
    if p == 0 {
      assert Basis(U, span, u, 0) == [1.0];
      assert Sum([1.0]) == SumTo([1.0], 0) + 1.0;
    } else {
      BasisPartitionOfUnity(U, span, u, p - 1);
      LevelSum(U, span, u, p);
    }
  }

  predicate AllNonNegative(s: seq<real>)
  {
    forall i :: 0 <= i < |s| ==> s[i] >= 0.0
  }

  lemma WeightedNonNegative(a: real, x: real, d: real)
    requires a >= 0.0 && x >= 0.0 && d > 0.0
    ensures a * (x / d) >= 0.0
  {
    assert x / d >= 0.0;
  }

  /** On the closed span interval every basis function is non-negative. */
  lemma {:induction false} BasisAtNonNegative(U: seq<real>, span: nat, u: real, p: nat, r: nat)
    requires BasisDomain(p, U, span) && r <= p && span + 1 < |U| && U[span] <= u <= U[span + 1]
    ensures BasisAt(U, span, u, p, r) >= 0.0
  {
    if p > 0 {
      assert BasisAt(U, span, u, p, r) == LevelAt(U, span, u, p, r);
      if r > 0 {
        BasisAtNonNegative(U, span, u, p - 1, r - 1);
        DenomPositive(p, U, span, u, p, r - 1);
        Ordered(U, span + 1 - (p - r + 1), span);
        WeightedNonNegative(Left(U, span, u, p - r + 1), BasisAt(U, span, u, p - 1, r - 1), Denom(U, span, u, p, r - 1));
      }
      assert Saved(U, span, u, p, r) >= 0.0;
      if r < p {
        BasisAtNonNegative(U, span, u, p - 1, r);
        DenomPositive(p, U, span, u, p, r);
        Ordered(U, span + 1, span + r + 1);
        WeightedNonNegative(Right(U, span, u, r + 1), BasisAt(U, span, u, p - 1, r), Denom(U, span, u, p, r));
      }
    }
  }

  lemma BasisNonNegative(U: seq<real>, span: nat, u: real, p: nat)
    requires BasisDomain(p, U, span) && span + 1 < |U| && U[span] <= u <= U[span + 1]
    ensures AllNonNegative(Basis(U, span, u, p))
  {
    forall r | 0 <= r <= p ensures Basis(U, span, u, p)[r] >= 0.0 {
      BasisAtNonNegative(U, span, u, p, r);
    }
  }
}
