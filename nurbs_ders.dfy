// Derivatives of the B-spline basis functions: Algorithm A2.3 of The NURBS
// Book (Piegl and Tiller), as `basis_functions_ders` implements it.
//
// The algorithm first fills the triangular table `ndu` (upper triangle: the
// basis functions of every degree up to `p`, as in A2.2; lower triangle: the
// knot differences that divide them), then, for every function `r`, runs
// the recurrence of equation (2.10) for the coefficients `a[k][j]` in two
// alternating rows, and finally multiplies row `k` by p! / (p - k)!.
module NurbsDers {
  import opened NurbsKnots
  import opened NurbsBasis

  /** `j1` of derivative `k` of function `r`: max(1, k - r). */
  function FirstJ(r: int, k: int): int
  {
    if r - k >= -1 then 1 else k - r
  }

  /** `j2` of derivative `k` of function `r`: min(k - 1, p - r). */
  function LastJ(p: int, r: int, k: int): int
  {
    if r - 1 <= p - k then k - 1 else p - r
  }

  /** The entries of `a` that step `k` of function `r` writes (step 0 writes `a[0][0]`). */
  predicate Written(p: nat, r: nat, k: nat, j: int)
  {
    if k == 0 then j == 0
    else (j == 0 && r >= k) || (FirstJ(r, k) <= j <= LastJ(p, r, k)) || (j == k && r <= p - k)
  }

  /**
   * The coefficient `a[k][j]` of equation (2.10) for function `r` (index
   * `span - p + r`), on the entries the algorithm computes; 0 elsewhere.
   */
  function Coef(U: seq<real>, span: nat, u: real, p: nat, r: nat, k: nat, j: int): real
    requires BasisDomain(p, U, span) && r <= p && k <= p
    decreases k
  {
    if k == 0 || !Written(p, r, k, j) then (if k == 0 && j == 0 then 1.0 else 0.0)
    else if j == 0 then
      CoefDenomsPositive(U, span, u, p, r, k, 0);
      Coef(U, span, u, p, r, k - 1, 0) / Denom(U, span, u, p - k + 1, r - k)
    else if j == k then
      CoefDenomsPositive(U, span, u, p, r, k, k);
      (-Coef(U, span, u, p, r, k - 1, k - 1)) / Denom(U, span, u, p - k + 1, r)
    else
      CoefDenomsPositive(U, span, u, p, r, k, j);
      (Coef(U, span, u, p, r, k - 1, j) - Coef(U, span, u, p, r, k - 1, j - 1)) / Denom(U, span, u, p - k + 1, r - k + j)
  }

  /** Every divisor of `Coef` at step `k` is positive. */
  lemma CoefDenomsPositive(U: seq<real>, span: nat, u: real, p: nat, r: nat, k: nat, j: int)
    requires BasisDomain(p, U, span) && r <= p && 0 < k <= p && 0 <= r - k + j <= p - k
    ensures Denom(U, span, u, p - k + 1, r - k + j) > 0.0
  {
    DenomPositive(p, U, span, u, p - k + 1, r - k + j);
  }

  /**
   * A product, named. The derivative sums are written with `Times`, so that
   * the lemmas about them match products by equal arguments instead of by
   * nonlinear arithmetic.
   */
  function Times(a: real, b: real): real
  {
    a * b
  }

  /** `d` after the first test of step `k`: the `j = 0` term. */
  function DStart(U: seq<real>, span: nat, u: real, p: nat, r: nat, k: nat): real
    requires BasisDomain(p, U, span) && r <= p && 0 < k <= p
  {
    DomainSmaller(p, p - k, U, span);
    if r >= k then Times(Coef(U, span, u, p, r, k, 0), BasisAt(U, span, u, p - k, r - k)) else 0.0
  }

  /** `d` once the inner loop of step `k` has added the terms `FirstJ .. m - 1`. */
  function DUpTo(U: seq<real>, span: nat, u: real, p: nat, r: nat, k: nat, m: int): real
    requires BasisDomain(p, U, span) && r <= p && 0 < k <= p
    requires FirstJ(r, k) <= m <= LastJ(p, r, k) + 1
    decreases m - FirstJ(r, k)
  {
    DomainSmaller(p, p - k, U, span);
    if m == FirstJ(r, k) then DStart(U, span, u, p, r, k)
    else DUpTo(U, span, u, p, r, k, m - 1) + Times(Coef(U, span, u, p, r, k, m - 1), BasisAt(U, span, u, p - k, r - k + m - 1))
  }

  /** `ders[k][r]` before the final multiplication: the sum of equation (2.10). */
  function DersRaw(U: seq<real>, span: nat, u: real, p: nat, r: nat, k: nat): real
    requires BasisDomain(p, U, span) && r <= p && 0 < k <= p
  {
    DomainSmaller(p, p - k, U, span);
    var d := DUpTo(U, span, u, p, r, k, LastJ(p, r, k) + 1);
    if r <= p - k then d + Times(Coef(U, span, u, p, r, k, k), BasisAt(U, span, u, p - k, r)) else d
  }

  /** p (p - 1) ... (p - k + 1), the factor of row `k`. */
  function Falling(p: int, k: nat): int
  {
    if k == 0 then 1 else Falling(p, k - 1) * (p - k + 1)
  }

  /** `ders[k][r]`: the `k`-th derivative of the `r`-th non-zero basis function of degree `p`. */
  function DersAt(U: seq<real>, span: nat, u: real, p: nat, k: nat, r: nat): real
    requires BasisDomain(p, U, span) && r <= p && k <= p
  {
    if k == 0 then BasisAt(U, span, u, p, r) else Times(DersRaw(U, span, u, p, r, k), Falling(p, k) as real)
  }

  /** Row 0 holds the basis functions. */
  lemma DersRowZero(U: seq<real>, span: nat, u: real, p: nat, r: nat)
    requires BasisDomain(p, U, span) && r <= p
    ensures DersAt(U, span, u, p, 0, r) == Basis(U, span, u, p)[r]
  {
  }

  /**
   * The term `N[i, p - 1] / (U[i + p] - U[i])` of the first derivative of
   * `N[i, p]`, `i = span - p + r` (`Denom(p, r - 1)` is that knot
   * difference); zero for `r = 0`, where `N[i, p - 1]` is not among the
   * non-zero functions of degree `p - 1`.
   */
  function LowerTerm(U: seq<real>, span: nat, u: real, p: nat, r: nat): real
    requires 0 < p && BasisDomain(p, U, span) && r <= p
  {
    DomainSmaller(p, p - 1, U, span);
    if r == 0 then 0.0
    else
      DenomPositive(p, U, span, u, p, r - 1);
      BasisAt(U, span, u, p - 1, r - 1) / Denom(U, span, u, p, r - 1)
  }

  /** The term `N[i + 1, p - 1] / (U[i + p + 1] - U[i + 1])` (`Denom(p, r)`); zero for `r = p`. */
  function UpperTerm(U: seq<real>, span: nat, u: real, p: nat, r: nat): real
    requires 0 < p && BasisDomain(p, U, span) && r <= p
  {
    DomainSmaller(p, p - 1, U, span);
    if r == p then 0.0
    else
      DenomPositive(p, U, span, u, p, r);
      BasisAt(U, span, u, p - 1, r) / Denom(U, span, u, p, r)
  }

  lemma PosQuotient(c: real, x: real, d: real, q: real)
    requires d != 0.0 && c == 1.0 / d && q == x / d
    ensures Times(c, x) == q
  {
  }

  lemma NegQuotient(c: real, x: real, d: real, q: real)
    requires d != 0.0 && c == (-1.0) / d && q == x / d
    ensures Times(c, x) == -q
  {
  }

  /** `a[1][0]` of function `r > 0`. */
  lemma CoefOneZero(U: seq<real>, span: nat, u: real, p: nat, r: nat)
    requires 0 < p && BasisDomain(p, U, span) && 0 < r <= p
    ensures Denom(U, span, u, p, r - 1) > 0.0
    ensures Coef(U, span, u, p, r, 1, 0) == 1.0 / Denom(U, span, u, p, r - 1)
  {
    CoefDenomsPositive(U, span, u, p, r, 1, 0);
    assert Coef(U, span, u, p, r, 0, 0) == 1.0;
  }

  /** `a[1][1]` of function `r < p`. */
  lemma CoefOneOne(U: seq<real>, span: nat, u: real, p: nat, r: nat)
    requires 0 < p && BasisDomain(p, U, span) && r < p
    ensures Denom(U, span, u, p, r) > 0.0
    ensures Coef(U, span, u, p, r, 1, 1) == (-1.0) / Denom(U, span, u, p, r)
  {
    CoefDenomsPositive(U, span, u, p, r, 1, 1);
    assert Coef(U, span, u, p, r, 0, 0) == 1.0;
  }

  /** The `j = 0` part of step 1 is the lower term. */
  lemma RowOneStart(U: seq<real>, span: nat, u: real, p: nat, r: nat)
    requires 0 < p && BasisDomain(p, U, span) && r <= p
    ensures DUpTo(U, span, u, p, r, 1, LastJ(p, r, 1) + 1) == LowerTerm(U, span, u, p, r)
  {
    assert FirstJ(r, 1) == 1 && LastJ(p, r, 1) == 0;
    assert DUpTo(U, span, u, p, r, 1, 1) == DStart(U, span, u, p, r, 1);
    if r > 0 {
      DomainSmaller(p, p - 1, U, span);
      CoefOneZero(U, span, u, p, r);
      PosQuotient(Coef(U, span, u, p, r, 1, 0), BasisAt(U, span, u, p - 1, r - 1), Denom(U, span, u, p, r - 1), LowerTerm(U, span, u, p, r));
    }
  }

  /** The `j = k` part of step 1 is minus the upper term. */
  lemma RowOneEnd(U: seq<real>, span: nat, u: real, p: nat, r: nat)
    requires 0 < p && BasisDomain(p, U, span) && r < p
    ensures Times(Coef(U, span, u, p, r, 1, 1), BasisAt(U, span, u, p - 1, r)) == -UpperTerm(U, span, u, p, r)
  {
    DomainSmaller(p, p - 1, U, span);
    CoefOneOne(U, span, u, p, r);
    NegQuotient(Coef(U, span, u, p, r, 1, 1), BasisAt(U, span, u, p - 1, r), Denom(U, span, u, p, r), UpperTerm(U, span, u, p, r));
  }

  lemma ScaleDifference(raw: real, f: real, pr: real, lower: real, upper: real)
    requires raw == lower - upper && f == pr
    ensures Times(raw, f) == Times(pr, lower - upper)
  {
  }

  /** Row 1 is the first derivative, equation (2.9): p (LowerTerm - UpperTerm). */
  lemma DersRowOne(U: seq<real>, span: nat, u: real, p: nat, r: nat)
    requires 0 < p && BasisDomain(p, U, span) && r <= p
    ensures DersAt(U, span, u, p, 1, r) == Times(p as real, LowerTerm(U, span, u, p, r) - UpperTerm(U, span, u, p, r))
  {
    RowOneStart(U, span, u, p, r);
    if r < p {
      RowOneEnd(U, span, u, p, r);
    }
    var raw, lower, upper := DersRaw(U, span, u, p, r, 1), LowerTerm(U, span, u, p, r), UpperTerm(U, span, u, p, r);
    assert raw == lower - upper;
    assert Falling(p, 1) == p;
    ScaleDifference(raw, Falling(p, 1) as real, p as real, lower, upper);
  }

  /** Consecutive functions share a term: `UpperTerm(r) == LowerTerm(r + 1)`. */
  lemma TermsShared(U: seq<real>, span: nat, u: real, p: nat, r: nat)
    requires 0 < p && BasisDomain(p, U, span) && r < p
    ensures UpperTerm(U, span, u, p, r) == LowerTerm(U, span, u, p, r + 1)
  {
  }

  lemma TelescopeFirst(s: real, t: real, pr: real, b: real)
    requires s == 0.0 + t && t == Times(pr, 0.0 - b)
    ensures s == Times(pr, -b)
  {
  }

  lemma TelescopeNext(s: real, t: real, pr: real, a: real, a2: real, b: real)
    requires s == Times(pr, -a) && t == Times(pr, a2 - b) && a == a2
    ensures s + t == Times(pr, -b)
  {
  }

  /** Partial sums of row 1 telescope. */
  lemma {:induction false} RowOnePartialSum(U: seq<real>, span: nat, u: real, p: nat, m: nat)
    requires 0 < p && BasisDomain(p, U, span) && 0 < m <= p + 1
    ensures SumTo(seq(p + 1, r requires 0 <= r <= p => DersAt(U, span, u, p, 1, r)), m)
            == Times(p as real, -UpperTerm(U, span, u, p, m - 1))
  {
    var row := seq(p + 1, r requires 0 <= r <= p => DersAt(U, span, u, p, 1, r));
    DersRowOne(U, span, u, p, m - 1);
    var pr, b := p as real, UpperTerm(U, span, u, p, m - 1);
    assert row[m - 1] == Times(pr, LowerTerm(U, span, u, p, m - 1) - b);
    if m == 1 {
      assert LowerTerm(U, span, u, p, 0) == 0.0;
      assert SumTo(row, 1) == SumTo(row, 0) + row[0];
      TelescopeFirst(SumTo(row, 1), row[0], pr, b);
    } else {
      RowOnePartialSum(U, span, u, p, m - 1);
      TermsShared(U, span, u, p, m - 2);
      var a := UpperTerm(U, span, u, p, m - 2);
      assert SumTo(row, m - 1) == Times(pr, -a);
      assert SumTo(row, m) == SumTo(row, m - 1) + row[m - 1];
      TelescopeNext(SumTo(row, m - 1), row[m - 1], pr, a, LowerTerm(U, span, u, p, m - 1), b);
    }
  }

  /** The first derivatives of the non-zero basis functions sum to zero (they sum to one everywhere). */
  lemma RowOneSumsToZero(U: seq<real>, span: nat, u: real, p: nat)
    requires 0 < p && BasisDomain(p, U, span)
    ensures Sum(seq(p + 1, r requires 0 <= r <= p => DersAt(U, span, u, p, 1, r))) == 0.0
  {
    RowOnePartialSum(U, span, u, p, p + 1);
  }

  // The table `ndu` of A2.3.

  /** Entry `(r, c)` of the upper triangle of `ndu` is the basis function `r` of degree `c`. */
  ghost predicate UpperEntry(ndu: array2<real>, U: seq<real>, span: nat, u: real, p: nat, c: nat, r: nat)
    reads ndu
    requires BasisDomain(p, U, span) && r <= c <= p < ndu.Length0 && p < ndu.Length1
  {
    DomainSmaller(p, c, U, span);
    ndu[r, c] == BasisAt(U, span, u, c, r)
  }

  /** Entry `(c, r)` of the lower triangle of `ndu` is the divisor of level `c`, step `r`. */
  ghost predicate LowerEntry(ndu: array2<real>, U: seq<real>, span: nat, u: real, p: nat, c: nat, r: nat)
    reads ndu
    requires BasisDomain(p, U, span) && r < c <= p < ndu.Length0 && p < ndu.Length1
  {
    ndu[c, r] == Denom(U, span, u, c, r)
  }

  /** Columns `0 .. j` of the upper triangle of `ndu` hold the basis functions of degrees `0 .. j`. */
  ghost predicate UpperUpTo(ndu: array2<real>, U: seq<real>, span: nat, u: real, p: nat, j: nat)
    reads ndu
    requires BasisDomain(p, U, span) && j <= p < ndu.Length0 && p < ndu.Length1
  {
    forall c, r :: 0 <= r <= c <= j ==> UpperEntry(ndu, U, span, u, p, c, r)
  }

  /** Rows `1 .. j` of the lower triangle of `ndu` hold the divisors of levels `1 .. j`. */
  ghost predicate LowerUpTo(ndu: array2<real>, U: seq<real>, span: nat, u: real, p: nat, j: nat)
    reads ndu
    requires BasisDomain(p, U, span) && j <= p < ndu.Length0 && p < ndu.Length1
  {
    forall c, r :: 0 <= r < c <= j ==> LowerEntry(ndu, U, span, u, p, c, r)
  }

  ghost predicate TableUpTo(ndu: array2<real>, U: seq<real>, span: nat, u: real, p: nat, j: nat)
    reads ndu
    requires BasisDomain(p, U, span) && j <= p < ndu.Length0 && p < ndu.Length1
  {
    UpperUpTo(ndu, U, span, u, p, j) && LowerUpTo(ndu, U, span, u, p, j)
  }

  /**
   * The inner loop of the `ndu` computation at level `j`: the divisors of
   * row `j` below the diagonal and the basis functions of degree `j` above it,
   * but for the last, which is the `saved` it returns.
   */
  method NduSweep(ndu: array2<real>, left: array<real>, right: array<real>, U: seq<real>, span: nat, u: real, p: nat, j: nat)
    returns (saved: real)
    requires BasisDomain(p, U, span) && 0 < j <= p < ndu.Length0 && p < ndu.Length1
    requires j < left.Length && j < right.Length && KnotDistances(left, right, U, span, u, j)
    requires UpperUpTo(ndu, U, span, u, p, j - 1)
    modifies ndu
    ensures saved == Saved(U, span, u, j, j)
    ensures forall r :: 0 <= r < j ==> ndu[r, j] == BasisAt(U, span, u, j, r) && ndu[j, r] == Denom(U, span, u, j, r)
    ensures forall a, b :: 0 <= a < ndu.Length0 && 0 <= b < ndu.Length1 && a != j && b != j ==> ndu[a, b] == old(ndu[a, b])
  {
    DomainSmaller(p, j, U, span);
    saved := 0.0;
    var r := 0;
    while r < j
      invariant 0 <= r <= j
      invariant saved == Saved(U, span, u, j, r)
      invariant forall rr :: 0 <= rr < r ==> ndu[rr, j] == BasisAt(U, span, u, j, rr) && ndu[j, rr] == Denom(U, span, u, j, rr)
      invariant forall a, b :: 0 <= a < ndu.Length0 && 0 <= b < ndu.Length1 && a != j && b != j ==> ndu[a, b] == old(ndu[a, b])
    {
      var rightR, leftJR := right[r + 1], left[j - r];
      var nr := ndu[r, j - 1];
      assert nr == old(ndu[r, j - 1]) && old(UpperEntry(ndu, U, span, u, p, j - 1, r));
      LevelStep(U, span, u, j, r, saved, rightR, leftJR, nr);
      ndu[j, r] := rightR + leftJR;
      var temp := nr / (rightR + leftJR);
      ndu[r, j] := saved + rightR * temp;
      saved := leftJR * temp;
      r := r + 1;
    }
  }

  /** One pass of the outer loop of the `ndu` computation: fills column `j` above the diagonal and row `j` below it. */
  method NduLevel(ndu: array2<real>, left: array<real>, right: array<real>, U: seq<real>, span: nat, u: real, p: nat, j: nat)
    requires BasisDomain(p, U, span) && 0 < j <= p < ndu.Length0 && p < ndu.Length1
    requires j < left.Length && j < right.Length && KnotDistances(left, right, U, span, u, j)
    requires TableUpTo(ndu, U, span, u, p, j - 1)
    modifies ndu
    ensures TableUpTo(ndu, U, span, u, p, j)
    ensures forall a, b :: 0 <= a < ndu.Length0 && 0 <= b < ndu.Length1 && a != j && b != j ==> ndu[a, b] == old(ndu[a, b])
  {
    DomainSmaller(p, j, U, span);
    var saved := NduSweep(ndu, left, right, U, span, u, p, j);
    LevelLast(U, span, u, j, saved);
    ndu[j, j] := saved;
    forall c, r | 0 <= r <= c <= j
      ensures UpperEntry(ndu, U, span, u, p, c, r)
    {
      if c < j {
        assert ndu[r, c] == old(ndu[r, c]) && old(UpperEntry(ndu, U, span, u, p, c, r));
      }
    }
    forall c, r | 0 <= r < c <= j
      ensures LowerEntry(ndu, U, span, u, p, c, r)
    {
      if c < j {
        assert ndu[c, r] == old(ndu[c, r]) && old(LowerEntry(ndu, U, span, u, p, c, r));
      }
    }
  }

  /** The `ndu` table of A2.3 for degree `p`. */
  method NduTable(p: nat, U: seq<real>, span: nat, u: real) returns (ndu: array2<real>)
    requires BasisDomain(p, U, span)
    ensures fresh(ndu) && ndu.Length0 == p + 1 && ndu.Length1 == p + 1
    ensures TableUpTo(ndu, U, span, u, p, p)
  {
    var left := new real[p + 1];
    var right := new real[p + 1];
    ndu := new real[p + 1, p + 1];
    ndu[0, 0] := 1.0;
    DomainSmaller(p, 0, U, span);
    var j := 1;
    while j <= p
      invariant 1 <= j <= p + 1
      invariant TableUpTo(ndu, U, span, u, p, j - 1)
      invariant KnotDistances(left, right, U, span, u, j - 1)
    {
      ExtendDistances(left, right, U, span, u, j);
      NduLevel(ndu, left, right, U, span, u, p, j);
      j := j + 1;
    }
  }

  // The coefficients `a[k][j]` of A2.3, two rows at a time.

  /** Entry `j` of row `row` of `a` is the coefficient `a[k][j]` of function `r`. */
  ghost predicate CoefEntry(a: array2<real>, row: nat, U: seq<real>, span: nat, u: real, p: nat, r: nat, k: nat, j: nat)
    reads a
    requires BasisDomain(p, U, span) && r <= p && k <= p && row < a.Length0 && j < a.Length1
  {
    a[row, j] == Coef(U, span, u, p, r, k, j)
  }

  /** Row `row` of `a` holds every coefficient step `k` of function `r` writes. */
  ghost predicate CoefRow(a: array2<real>, row: nat, U: seq<real>, span: nat, u: real, p: nat, r: nat, k: nat)
    reads a
    requires BasisDomain(p, U, span) && r <= p && k <= p && row < a.Length0 && p < a.Length1
  {
    forall j :: 0 <= j <= p && Written(p, r, k, j) ==> CoefEntry(a, row, U, span, u, p, r, k, j)
  }

  /** Step `k` reads only entries step `k - 1` wrote. */
  lemma ReadsWritten(p: nat, r: nat, k: nat)
    requires 0 < k <= p && r <= p
    ensures r >= k ==> Written(p, r, k - 1, 0)
    ensures r <= p - k ==> Written(p, r, k - 1, k - 1)
  {
  }

  /** ... and so do the steps of its inner loop. */
  lemma ReadsWrittenMiddle(p: nat, r: nat, k: nat, j: int)
    requires 0 < k <= p && r <= p && FirstJ(r, k) <= j <= LastJ(p, r, k)
    ensures Written(p, r, k - 1, j) && Written(p, r, k - 1, j - 1)
  {
  }

  /** `a[s2][0] = a[s1][0] / ndu[pk + 1][rk]` computes `a[k][0]`. */
  lemma CoefAtStart(U: seq<real>, span: nat, u: real, p: nat, r: nat, k: nat, x: real, dd: real)
    requires BasisDomain(p, U, span) && 0 < k <= r <= p
    requires x == Coef(U, span, u, p, r, k - 1, 0) && dd == Denom(U, span, u, p - k + 1, r - k)
    ensures dd > 0.0 && x / dd == Coef(U, span, u, p, r, k, 0)
  {
    CoefDenomsPositive(U, span, u, p, r, k, 0);
  }

  /** `a[s2][j] = (a[s1][j] - a[s1][j - 1]) / ndu[pk + 1][rk + j]` computes `a[k][j]`. */
  lemma CoefAtMiddle(U: seq<real>, span: nat, u: real, p: nat, r: nat, k: nat, j: nat, x: real, y: real, dd: real)
    requires BasisDomain(p, U, span) && 0 < k <= p && r <= p && FirstJ(r, k) <= j <= LastJ(p, r, k)
    requires x == Coef(U, span, u, p, r, k - 1, j) && y == Coef(U, span, u, p, r, k - 1, j - 1)
    requires dd == Denom(U, span, u, p - k + 1, r - k + j)
    ensures dd > 0.0 && (x - y) / dd == Coef(U, span, u, p, r, k, j)
  {
    CoefDenomsPositive(U, span, u, p, r, k, j);
  }

  /** `a[s2][k] = -a[s1][k - 1] / ndu[pk + 1][r]` computes `a[k][k]`. */
  lemma CoefAtEnd(U: seq<real>, span: nat, u: real, p: nat, r: nat, k: nat, x: real, dd: real)
    requires BasisDomain(p, U, span) && 0 < k <= p && r <= p - k
    requires x == Coef(U, span, u, p, r, k - 1, k - 1) && dd == Denom(U, span, u, p - k + 1, r)
    ensures dd > 0.0 && (-x) / dd == Coef(U, span, u, p, r, k, k)
  {
    CoefDenomsPositive(U, span, u, p, r, k, k);
  }

  /** One term of the inner loop's sum. */
  lemma DUpToStep(U: seq<real>, span: nat, u: real, p: nat, r: nat, k: nat, j: int, d: real, c: real, b: real)
    requires BasisDomain(p, U, span) && 0 < k <= p && r <= p && FirstJ(r, k) <= j <= LastJ(p, r, k)
    requires d == DUpTo(U, span, u, p, r, k, j) && c == Coef(U, span, u, p, r, k, j)
    requires 0 <= r - k + j <= p - k && b == BasisAt(U, span, u, p - k, r - k + j)
    ensures d + c * b == DUpTo(U, span, u, p, r, k, j + 1)
  {
  }

  /** One pass of the inner loop of step `k`: coefficient `j` and its term of the sum. */
  method CoefTerm(ndu: array2<real>, a: array2<real>, s1: nat, s2: nat,
                  U: seq<real>, span: nat, u: real, p: nat, r: nat, k: nat, j: int, d0: real)
    returns (d: real)
    requires BasisDomain(p, U, span) && 0 < k <= p && r <= p && p < ndu.Length0 && p < ndu.Length1 && ndu != a
    requires TableUpTo(ndu, U, span, u, p, p)
    requires a.Length0 == 2 && p < a.Length1 && s1 < 2 && s2 < 2 && s1 != s2
    requires FirstJ(r, k) <= j <= LastJ(p, r, k)
    requires CoefEntry(a, s1, U, span, u, p, r, k - 1, j) && CoefEntry(a, s1, U, span, u, p, r, k - 1, j - 1)
    requires d0 == DUpTo(U, span, u, p, r, k, j)
    modifies a
    ensures d == DUpTo(U, span, u, p, r, k, j + 1)
    ensures CoefEntry(a, s2, U, span, u, p, r, k, j)
    ensures forall i, jj :: 0 <= i < 2 && 0 <= jj < a.Length1 && !(i == s2 && jj == j) ==> a[i, jj] == old(a[i, jj])
  {
    var rk, pk := r - k, p - k;
    var x, y := a[s1, j], a[s1, j - 1];
    var dd := ndu[pk + 1, rk + j];
    assert LowerEntry(ndu, U, span, u, p, pk + 1, rk + j);
    CoefAtMiddle(U, span, u, p, r, k, j, x, y, dd);
    a[s2, j] := (x - y) / dd;
    var b := ndu[rk + j, pk];
    assert UpperEntry(ndu, U, span, u, p, pk, rk + j);
    var c := a[s2, j];
    DUpToStep(U, span, u, p, r, k, j, d0, c, b);
    d := d0 + c * b;
  }

  /** The inner loop of step `k`: the coefficients `j1 .. j2` and their terms of the sum. */
  method CoefMiddle(ndu: array2<real>, a: array2<real>, s1: nat, s2: nat,
                    U: seq<real>, span: nat, u: real, p: nat, r: nat, k: nat, d0: real)
    returns (d: real)
    requires BasisDomain(p, U, span) && 0 < k <= p && r <= p && p < ndu.Length0 && p < ndu.Length1 && ndu != a
    requires TableUpTo(ndu, U, span, u, p, p)
    requires a.Length0 == 2 && p < a.Length1 && s1 < 2 && s2 < 2 && s1 != s2
    requires CoefRow(a, s1, U, span, u, p, r, k - 1) && d0 == DStart(U, span, u, p, r, k)
    modifies a
    ensures d == DUpTo(U, span, u, p, r, k, LastJ(p, r, k) + 1)
    ensures forall j :: FirstJ(r, k) <= j <= LastJ(p, r, k) ==> CoefEntry(a, s2, U, span, u, p, r, k, j)
    ensures forall i, j :: 0 <= i < 2 && 0 <= j < a.Length1 && !(i == s2 && FirstJ(r, k) <= j <= LastJ(p, r, k)) ==> a[i, j] == old(a[i, j])
  {
    var j := FirstJ(r, k);
    d := d0;
    while j <= LastJ(p, r, k)
      invariant FirstJ(r, k) <= j <= LastJ(p, r, k) + 1
      invariant d == DUpTo(U, span, u, p, r, k, j)
      invariant forall jj :: FirstJ(r, k) <= jj < j ==> CoefEntry(a, s2, U, span, u, p, r, k, jj)
      invariant forall i, jj :: 0 <= i < 2 && 0 <= jj < a.Length1 && !(i == s2 && FirstJ(r, k) <= jj < j) ==> a[i, jj] == old(a[i, jj])
    {
      ReadsWrittenMiddle(p, r, k, j);
      assert old(CoefEntry(a, s1, U, span, u, p, r, k - 1, j)) && old(CoefEntry(a, s1, U, span, u, p, r, k - 1, j - 1));
      assert a[s1, j] == old(a[s1, j]) && a[s1, j - 1] == old(a[s1, j - 1]);
      label Before:
      d := CoefTerm(ndu, a, s1, s2, U, span, u, p, r, k, j, d);
      forall jj | FirstJ(r, k) <= jj < j
        ensures CoefEntry(a, s2, U, span, u, p, r, k, jj)
      {
        assert a[s2, jj] == old@Before(a[s2, jj]) && old@Before(CoefEntry(a, s2, U, span, u, p, r, k, jj));
      }
      j := j + 1;
    }
  }

  lemma DStartStep(U: seq<real>, span: nat, u: real, p: nat, r: nat, k: nat, c: real, b: real)
    requires BasisDomain(p, U, span) && 0 < k <= r <= p
    requires c == Coef(U, span, u, p, r, k, 0) && b == BasisAt(U, span, u, p - k, r - k)
    ensures c * b == DStart(U, span, u, p, r, k)
  {
  }

  lemma DersRawStep(U: seq<real>, span: nat, u: real, p: nat, r: nat, k: nat, d: real, c: real, b: real)
    requires BasisDomain(p, U, span) && 0 < k <= p && r <= p - k
    requires d == DUpTo(U, span, u, p, r, k, LastJ(p, r, k) + 1)
    requires c == Coef(U, span, u, p, r, k, k) && b == BasisAt(U, span, u, p - k, r)
    ensures d + c * b == DersRaw(U, span, u, p, r, k)
  {
  }

  /** The first test of step `k`: `a[k][0]` and the first term of the sum, when `r >= k`. */
  method CoefFirst(ndu: array2<real>, a: array2<real>, s1: nat, s2: nat,
                   U: seq<real>, span: nat, u: real, p: nat, r: nat, k: nat)
    returns (d: real)
    requires BasisDomain(p, U, span) && 0 < k <= r <= p && p < ndu.Length0 && p < ndu.Length1 && ndu != a
    requires TableUpTo(ndu, U, span, u, p, p)
    requires a.Length0 == 2 && p < a.Length1 && s1 < 2 && s2 < 2 && s1 != s2
    requires CoefEntry(a, s1, U, span, u, p, r, k - 1, 0)
    modifies a
    ensures d == DStart(U, span, u, p, r, k)
    ensures CoefEntry(a, s2, U, span, u, p, r, k, 0)
    ensures forall i, jj :: 0 <= i < 2 && 0 <= jj < a.Length1 && !(i == s2 && jj == 0) ==> a[i, jj] == old(a[i, jj])
  {
    var rk, pk := r - k, p - k;
    var x := a[s1, 0];
    var dd := ndu[pk + 1, rk];
    assert LowerEntry(ndu, U, span, u, p, pk + 1, rk);
    CoefAtStart(U, span, u, p, r, k, x, dd);
    a[s2, 0] := x / dd;
    var b := ndu[rk, pk];
    assert UpperEntry(ndu, U, span, u, p, pk, rk);
    var c := a[s2, 0];
    DStartStep(U, span, u, p, r, k, c, b);
    d := c * b;
  }

  /** The last test of step `k`: `a[k][k]` and the last term of the sum, when `r <= p - k`. */
  method CoefLast(ndu: array2<real>, a: array2<real>, s1: nat, s2: nat,
                  U: seq<real>, span: nat, u: real, p: nat, r: nat, k: nat, d0: real)
    returns (d: real)
    requires BasisDomain(p, U, span) && 0 < k <= p && r <= p - k && p < ndu.Length0 && p < ndu.Length1 && ndu != a
    requires TableUpTo(ndu, U, span, u, p, p)
    requires a.Length0 == 2 && p < a.Length1 && s1 < 2 && s2 < 2 && s1 != s2
    requires CoefEntry(a, s1, U, span, u, p, r, k - 1, k - 1)
    requires d0 == DUpTo(U, span, u, p, r, k, LastJ(p, r, k) + 1)
    modifies a
    ensures d == DersRaw(U, span, u, p, r, k)
    ensures CoefEntry(a, s2, U, span, u, p, r, k, k)
    ensures forall i, jj :: 0 <= i < 2 && 0 <= jj < a.Length1 && !(i == s2 && jj == k) ==> a[i, jj] == old(a[i, jj])
  {
    var pk := p - k;
    var x := a[s1, k - 1];
    var dd := ndu[pk + 1, r];
    assert LowerEntry(ndu, U, span, u, p, pk + 1, r);
    CoefAtEnd(U, span, u, p, r, k, x, dd);
    a[s2, k] := -x / dd;
    var b := ndu[r, pk];
    assert UpperEntry(ndu, U, span, u, p, pk, r);
    var c := a[s2, k];
    DersRawStep(U, span, u, p, r, k, d0, c, b);
    d := d0 + c * b;
  }

  /**
   * Step `k` of function `r`: row `s2` of `a` receives the coefficients of
   * step `k` from those of step `k - 1` in row `s1`, and `d` their sum
   * against the basis functions of degree `p - k`.
   */
  method CoefStep(ndu: array2<real>, a: array2<real>, s1: nat, s2: nat,
                  U: seq<real>, span: nat, u: real, p: nat, r: nat, k: nat)
    returns (d: real)
    requires BasisDomain(p, U, span) && 0 < k <= p && r <= p && p < ndu.Length0 && p < ndu.Length1 && ndu != a
    requires TableUpTo(ndu, U, span, u, p, p)
    requires a.Length0 == 2 && p < a.Length1 && s1 < 2 && s2 < 2 && s1 != s2
    requires CoefRow(a, s1, U, span, u, p, r, k - 1)
    modifies a
    ensures d == DersRaw(U, span, u, p, r, k)
    ensures CoefRow(a, s2, U, span, u, p, r, k)
    ensures forall j :: 0 <= j < a.Length1 ==> a[s1, j] == old(a[s1, j])
  {
    ReadsWritten(p, r, k);
    if r >= k {
      assert CoefEntry(a, s1, U, span, u, p, r, k - 1, 0);
      d := CoefFirst(ndu, a, s1, s2, U, span, u, p, r, k);
    } else {
      d := 0.0;
    }
    label First:
    ghost var km: nat := k - 1;
    assert CoefRow(a, s1, U, span, u, p, r, km) by {
      forall j | 0 <= j <= p && Written(p, r, km, j)
        ensures CoefEntry(a, s1, U, span, u, p, r, km, j)
      {
        assert a[s1, j] == old(a[s1, j]) && old(CoefEntry(a, s1, U, span, u, p, r, km, j));
      }
    }
    d := CoefMiddle(ndu, a, s1, s2, U, span, u, p, r, k, d);
    label Middle:
    if r <= p - k {
      assert a[s1, k - 1] == old(a[s1, k - 1]) && old(CoefEntry(a, s1, U, span, u, p, r, k - 1, k - 1));
      d := CoefLast(ndu, a, s1, s2, U, span, u, p, r, k, d);
    }
    forall j | 0 <= j <= p && Written(p, r, k, j)
      ensures CoefEntry(a, s2, U, span, u, p, r, k, j)
    {
      if j == k && r <= p - k {
      } else if FirstJ(r, k) <= j <= LastJ(p, r, k) {
        assert a[s2, j] == old@Middle(a[s2, j]) && old@Middle(CoefEntry(a, s2, U, span, u, p, r, k, j));
      } else {
        assert j == 0 && r >= k;
        assert a[s2, j] == old@First(a[s2, j]) && old@First(CoefEntry(a, s2, U, span, u, p, r, k, j));
      }
    }
  }

  /** The loop over `k` for function `r`: `ders[k][r]`, before the final factors, for `k = 1 .. n`. */
  method FunctionDers(ndu: array2<real>, a: array2<real>, ders: array2<real>,
                      U: seq<real>, span: nat, u: real, p: nat, n: nat, r: nat)
    requires BasisDomain(p, U, span) && r <= p && n <= p && p < ndu.Length0 && p < ndu.Length1
    requires TableUpTo(ndu, U, span, u, p, p)
    requires a.Length0 == 2 && p < a.Length1 && n < ders.Length0 && p < ders.Length1
    requires ndu != a && a != ders && ndu != ders
    modifies a, ders
    ensures forall k :: 1 <= k <= n ==> ders[k, r] == DersRaw(U, span, u, p, r, k)
    ensures forall i, j :: 0 <= i < ders.Length0 && 0 <= j < ders.Length1 && !(1 <= i <= n && j == r) ==> ders[i, j] == old(ders[i, j])
  {
    var s1, s2 := 0, 1;
    a[0, 0] := 1.0;
    assert CoefEntry(a, 0, U, span, u, p, r, 0, 0);
    var k := 1;
    while k <= n
      invariant 1 <= k <= n + 1
      invariant s1 < 2 && s2 == 1 - s1
      invariant CoefRow(a, s1, U, span, u, p, r, k - 1)
      invariant forall kk :: 1 <= kk < k ==> ders[kk, r] == DersRaw(U, span, u, p, r, kk)
      invariant forall i, j :: 0 <= i < ders.Length0 && 0 <= j < ders.Length1 && !(1 <= i < k && j == r) ==> ders[i, j] == old(ders[i, j])
    {
      var d := CoefStep(ndu, a, s1, s2, U, span, u, p, r, k);
      ders[k, r] := d;
      s1, s2 := s2, s1;
      k := k + 1;
    }
  }

  /** The loop over the functions `r = 0 .. p`. */
  method AllFunctionsDers(ndu: array2<real>, ders: array2<real>, U: seq<real>, span: nat, u: real, p: nat, n: nat)
    requires BasisDomain(p, U, span) && n <= p && p < ndu.Length0 && p < ndu.Length1
    requires TableUpTo(ndu, U, span, u, p, p)
    requires n < ders.Length0 && p < ders.Length1 && ndu != ders
    modifies ders
    ensures forall k, r :: 1 <= k <= n && 0 <= r <= p ==> ders[k, r] == DersRaw(U, span, u, p, r, k)
    ensures forall i, j :: 0 <= i < ders.Length0 && 0 <= j < ders.Length1 && !(1 <= i <= n && j <= p) ==> ders[i, j] == old(ders[i, j])
  {
    var a := new real[2, p + 1];
    var r := 0;
    while r <= p
      invariant 0 <= r <= p + 1
      invariant forall k, rr :: 1 <= k <= n && 0 <= rr < r ==> ders[k, rr] == DersRaw(U, span, u, p, rr, k)
      invariant forall i, j :: 0 <= i < ders.Length0 && 0 <= j < ders.Length1 && !(1 <= i <= n && j < r) ==> ders[i, j] == old(ders[i, j])
    {
      FunctionDers(ndu, a, ders, U, span, u, p, n, r);
      r := r + 1;
    }
  }

  /** The basis functions into row 0: `ders[0][j] = ndu[j][p]`. */
  method LoadBasis(ndu: array2<real>, ders: array2<real>, U: seq<real>, span: nat, u: real, p: nat)
    requires BasisDomain(p, U, span) && p < ndu.Length0 && p < ndu.Length1
    requires TableUpTo(ndu, U, span, u, p, p)
    requires 0 < ders.Length0 && p < ders.Length1 && ndu != ders
    modifies ders
    ensures forall j :: 0 <= j <= p ==> ders[0, j] == BasisAt(U, span, u, p, j)
    ensures forall i, j :: 0 <= i < ders.Length0 && 0 <= j < ders.Length1 && !(i == 0 && j <= p) ==> ders[i, j] == old(ders[i, j])
  {
    var j := 0;
    while j <= p
      invariant 0 <= j <= p + 1
      invariant forall jj :: 0 <= jj < j ==> ders[0, jj] == BasisAt(U, span, u, p, jj)
      invariant forall i, jj :: 0 <= i < ders.Length0 && 0 <= jj < ders.Length1 && !(i == 0 && jj < j) ==> ders[i, jj] == old(ders[i, jj])
    {
      assert UpperEntry(ndu, U, span, u, p, p, j);
      ders[0, j] := ndu[j, p];
      j := j + 1;
    }
  }

  /** `ders[k][j] *= r` for `j = 0 .. p`. */
  method ScaleRow(ders: array2<real>, k: nat, p: nat, f: real)
    requires k < ders.Length0 && p < ders.Length1
    modifies ders
    ensures forall j :: 0 <= j <= p ==> ders[k, j] == Times(old(ders[k, j]), f)
    ensures forall i, j :: 0 <= i < ders.Length0 && 0 <= j < ders.Length1 && !(i == k && j <= p) ==> ders[i, j] == old(ders[i, j])
  {
    var j := 0;
    while j <= p
      invariant 0 <= j <= p + 1
      invariant forall jj :: 0 <= jj < j ==> ders[k, jj] == Times(old(ders[k, jj]), f)
      invariant forall i, jj :: 0 <= i < ders.Length0 && 0 <= jj < ders.Length1 && !(i == k && jj < j) ==> ders[i, jj] == old(ders[i, jj])
    {
      ders[k, j] := ders[k, j] * f;
      j := j + 1;
    }
  }

  /** The last loop of A2.3: row `k` times p! / (p - k)!, kept in the integer `r` of the source. */
  method MultiplyFactors(ders: array2<real>, p: nat, n: nat)
    requires n < ders.Length0 && p < ders.Length1
    modifies ders
    ensures forall k, j :: 1 <= k <= n && 0 <= j <= p ==> ders[k, j] == Times(old(ders[k, j]), Falling(p, k) as real)
    ensures forall i, j :: 0 <= i < ders.Length0 && 0 <= j < ders.Length1 && !(1 <= i <= n && j <= p) ==> ders[i, j] == old(ders[i, j])
  {
    var r: int := p;
    var k := 1;
    while k <= n
      invariant 1 <= k <= n + 1
      invariant r == Falling(p, k)
      invariant forall kk, j :: 1 <= kk < k && 0 <= j <= p ==> ders[kk, j] == Times(old(ders[kk, j]), Falling(p, kk) as real)
      invariant forall i, j :: 0 <= i < ders.Length0 && 0 <= j < ders.Length1 && !(1 <= i < k && j <= p) ==> ders[i, j] == old(ders[i, j])
    {
      ScaleRow(ders, k, p, r as real);
      r := r * (p - k);
      k := k + 1;
    }
  }

  /**
   * `basis_functions_ders` (Algorithm A2.3): the basis functions of degree
   * `degree` at `knot` and their derivatives up to order `n` (`n <= degree`, as
   * every caller passes), `ders[k][r]` being derivative `k` of function `r`.
   */
  method BasisFunctionsDers(degree: nat, U: seq<real>, span: nat, knot: real, n: nat, ders: array2<real>)
    requires BasisDomain(degree, U, span) && n <= degree
    requires n < ders.Length0 && degree < ders.Length1
    modifies ders
    ensures forall k, r :: 0 <= k <= n && 0 <= r <= degree ==> ders[k, r] == DersAt(U, span, knot, degree, k, r)
    ensures forall i, j :: 0 <= i < ders.Length0 && 0 <= j < ders.Length1 && !(i <= n && j <= degree) ==> ders[i, j] == old(ders[i, j])
  {
    var ndu := NduTable(degree, U, span, knot);
    LoadBasis(ndu, ders, U, span, knot, degree);
    AllFunctionsDers(ndu, ders, U, span, knot, degree, n);
    MultiplyFactors(ders, degree, n);
  }
}
