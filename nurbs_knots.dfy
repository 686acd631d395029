// Knot vectors of the NURBS engine: normalisation to [0, 1] and the span
// search of Algorithm A2.1 of The NURBS Book (Piegl and Tiller).
module NurbsKnots {

  /** Knots `i` and `j` are in order (vacuous outside `0 <= i <= j < |s|`). */
  predicate KnotsOrdered(s: seq<real>, i: int, j: int)
  {
    0 <= i <= j < |s| ==> s[i] <= s[j]
  }

  /**
   * A sorted knot vector. The order of two knots is stated through
   * `KnotsOrdered`, so the quantifier is only instantiated where a proof
   * asks for it through `Ordered`.
   */
  ghost predicate NonDecreasing(s: seq<real>)
  {
    forall i, j :: KnotsOrdered(s, i, j)
  }

  lemma Ordered(s: seq<real>, i: int, j: int)
    requires NonDecreasing(s) && 0 <= i <= j < |s|
    ensures s[i] <= s[j]
  {
    assert KnotsOrdered(s, i, j);
  }

  /** A strictly smaller knot comes strictly earlier. */
  lemma OrderedStrict(s: seq<real>, i: int, j: int)
    requires NonDecreasing(s) && 0 <= i < |s| && 0 <= j < |s| && s[i] < s[j]
    ensures i < j
  {
    assert KnotsOrdered(s, j, i);
  }

  /** `normalize` divides by the knot range, so it needs a non-constant vector (or an empty one). */
  predicate Normalizable(s: seq<real>)
  {
    |s| == 0 || s[0] != s[|s| - 1]
  }

  /** The normalised knot vector: every knot shifted by the first and scaled by the range. */
  function Normalized(s: seq<real>): (r: seq<real>)
    requires Normalizable(s)
    ensures |r| == |s|
    ensures forall i :: 0 <= i < |s| ==> r[i] * (s[|s| - 1] - s[0]) == s[i] - s[0]
  {
    if |s| == 0 then []
    else seq(|s|, i requires 0 <= i < |s| => (s[i] - s[0]) / (s[|s| - 1] - s[0]))
  }

  /** The first knot becomes 0 and the last 1. */
  lemma NormalizedEnds(s: seq<real>)
    requires Normalizable(s) && |s| > 0
    ensures Normalized(s)[0] == 0.0 && Normalized(s)[|s| - 1] == 1.0
  {
    var d := s[|s| - 1] - s[0];
    assert Normalized(s)[0] == (s[0] - s[0]) / d == 0.0;
    assert Normalized(s)[|s| - 1] == d / d == 1.0;
  }

  lemma DivideMonotone(a: real, b: real, d: real)
    requires a <= b && d > 0.0
    ensures a / d <= b / d
  {
  }

  /** Normalising keeps the order of the knots. */
  lemma NormalizedMonotone(s: seq<real>)
    requires Normalizable(s) && NonDecreasing(s)
    ensures NonDecreasing(Normalized(s))
  {
    if |s| > 0 {
      var r, d := Normalized(s), s[|s| - 1] - s[0];
      Ordered(s, 0, |s| - 1);
      forall i, j ensures KnotsOrdered(r, i, j) {
        if 0 <= i <= j < |s| {
          Ordered(s, i, j);
          DivideMonotone(s[i] - s[0], s[j] - s[0], d);
        }
      }
    }
  }

  /** A vector that already runs from 0 to 1 comes back unchanged. */
  lemma NormalizedFixesUnitRange(s: seq<real>)
    requires |s| > 0 && s[0] == 0.0 && s[|s| - 1] == 1.0
    ensures Normalizable(s) && Normalized(s) == s
  {
  }

  /** So normalising twice is the same as normalising once. */
  lemma NormalizedIdempotent(s: seq<real>)
    requires Normalizable(s)
    ensures Normalizable(Normalized(s)) && Normalized(Normalized(s)) == Normalized(s)
  {
    if |s| > 0 {
      NormalizedEnds(s);
      NormalizedFixesUnitRange(Normalized(s));
    }
  }

  /** `normalize(in, n, out)`: writes the normalised knots into `out`; an empty input writes nothing. */
  method NormalizeInto(knotIn: seq<real>, knotOut: array<real>)
    requires Normalizable(knotIn) && |knotIn| <= knotOut.Length
    modifies knotOut
    ensures knotOut[..|knotIn|] == Normalized(knotIn)
    ensures knotOut[|knotIn|..] == old(knotOut[|knotIn|..])
  {
    var n := |knotIn|;
    if n == 0 {
      return;
    }
    var firstKnot, lastKnot := knotIn[0], knotIn[n - 1];
    var i := 0;
    while i < n
      invariant 0 <= i <= n
      invariant forall k :: 0 <= k < i ==> knotOut[k] == (knotIn[k] - firstKnot) / (lastKnot - firstKnot)
      invariant knotOut[n..] == old(knotOut[n..])
    {
      knotOut[i] := (knotIn[i] - firstKnot) / (lastKnot - firstKnot);
      i := i + 1;
    }
  }

  /** What `find_span` assumes of its inputs: sorted knots and `U[p] <= u < U[n]`, or `u == U[n]`. */
  ghost predicate SpanQuery(p: nat, U: seq<real>, n: nat, u: real)
  {
    NonDecreasing(U) && p < |U| && n < |U| && ((U[p] <= u < U[n]) || u == U[n])
  }

  /** Linear search for the span containing `u`, starting at span `s`. */
  function SpanSearch(U: seq<real>, u: real, s: nat, n: nat): (r: nat)
    requires NonDecreasing(U) && s < n < |U| && U[s] <= u < U[n]
    ensures s <= r < n && U[r] <= u < U[r + 1]
    decreases n - s
  {
    if u < U[s + 1] then s else SpanSearch(U, u, s + 1, n)
  }

  /** The knot span of `u`: reference definition for the binary search. */
  function KnotSpan(p: nat, U: seq<real>, n: nat, u: real): (s: int)
    requires SpanQuery(p, U, n, u)
    ensures u == U[n] ==> s == n - 1
    ensures u != U[n] ==> p <= s < n && U[s] <= u < U[s + 1]
  {
    if U[n] == u then n - 1
    else
      OrderedStrict(U, p, n);
      SpanSearch(U, u, p, n)
  }

  /** A half-open knot interval containing `u` is unique. */
  lemma SpanUnique(U: seq<real>, u: real, s: nat, t: nat)
    requires NonDecreasing(U) && s + 1 < |U| && t + 1 < |U|
    requires U[s] <= u < U[s + 1] && U[t] <= u < U[t + 1]
    ensures s == t
  {
    assert KnotsOrdered(U, s + 1, t) && KnotsOrdered(U, t + 1, s);
  }

  /** `find_span` (Algorithm A2.1): binary search between `p` and `n`. */
  method FindSpan(p: nat, U: seq<real>, n: nat, u: real) returns (s: int)
    requires SpanQuery(p, U, n, u)
    ensures s == KnotSpan(p, U, n, u)
    ensures u == U[n] ==> s == n - 1
    ensures u != U[n] ==> p <= s < n && U[s] <= u < U[s + 1]
  {
    if U[n] == u {
      return n - 1;
    }
    OrderedStrict(U, p, n);
    var low, high := p, n;
    var mid := (low + high) / 2;
    while u < U[mid] || u >= U[mid + 1]
      invariant p <= low < high <= n
      invariant U[low] <= u < U[high]
      invariant mid == (low + high) / 2
      decreases high - low
    {
      if u < U[mid] {
        high := mid;
      } else {
        low := mid;
      }
      mid := (low + high) / 2;
    }
    s := mid;
    SpanUnique(U, u, s, KnotSpan(p, U, n, u));
  }
}
