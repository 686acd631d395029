// The model builder's free utilities: reversing a point array, the
// left-of-line test, the winding-number point-in-polygon test (after
// geomalgorithms.com, "Inclusion of a Point in a Polygon"), the search for a
// point inside a delamination profile, the cleaning of license text, and the
// line structure of the CSV point files. Files are given as their lines;
// opening and reading them is not modelled.
module MbUtilities {
  import opened Wrappers
  import opened PointVector
  import opened ApiConfig
  import opened Sequences

  // Reversing a point array

  /** `point_array_flip`: a new array holding the first `size` points in the opposite order. */
  method PointArrayFlip(ptsin: array<Point3>, size: nat) returns (ptsout: array<Point3>)
    requires size <= ptsin.Length
    ensures fresh(ptsout) && ptsout[..] == Reversed(ptsin[..size])
  {
    ptsout := new Point3[size];
    var idx: int := size - 1;
    for i := 0 to size
      invariant idx == size - 1 - i
      invariant forall k :: 0 <= k < i ==> ptsout[k] == ptsin[size - 1 - k]
    {
      ptsout[i] := ptsin[idx];
      idx := idx - 1;
    }
    ReversedByIndex(ptsin[..size], ptsout[..]);
  }

  // Left of a line

  /** `is_left`: twice the signed area of the triangle `p0`, `p1`, `p`, in the xy-plane. */
  function IsLeft(p0: Point3, p1: Point3, p: Point3): real
  {
    (p1.x - p0.x) * (p.y - p0.y) - (p.x - p0.x) * (p1.y - p0.y)
  }

  /**
   * The test is the z-component of the cross product of the line's direction
   * with the direction to the point: positive to the left of the line, zero on
   * it, negative to the right.
   */
  lemma IsLeftIsCrossZ(p0: Point3, p1: Point3, p: Point3)
    ensures IsLeft(p0, p1, p) == VZ(Cross(Vector3(p0, p1), Vector3(p0, p)))
  {
  }

  /** Both points of the line lie on it, and reversing the line swaps left and right. */
  lemma IsLeftOnLineAndReversed(p0: Point3, p1: Point3, p: Point3)
    ensures IsLeft(p0, p1, p0) == 0.0 && IsLeft(p0, p1, p1) == 0.0
    ensures IsLeft(p1, p0, p) == -IsLeft(p0, p1, p)
  {
  }

  // The winding number

  /** The contribution of edge `a`-`b`: an upward crossing with `p` to its left, a downward one with `p` to its right, or none. */
  function Crossing(a: Point3, b: Point3, p: Point3): (c: int)
    ensures c == 1 <==> a.y <= p.y < b.y && IsLeft(a, b, p) > 0.0
    ensures c == -1 <==> b.y <= p.y < a.y && IsLeft(a, b, p) < 0.0
    ensures -1 <= c <= 1
  {
    if a.y <= p.y then
      if b.y > p.y && IsLeft(a, b, p) > 0.0 then 1 else 0
    else
      if b.y <= p.y && IsLeft(a, b, p) < 0.0 then -1 else 0
  }

  /** The same edge walked the other way contributes the opposite. */
  lemma CrossingReversed(a: Point3, b: Point3, p: Point3)
    ensures Crossing(b, a, p) == -Crossing(a, b, p)
  {
    IsLeftOnLineAndReversed(a, b, p);
  }

  /** The winding number of `p` over the first `n` edges `s[i]`-`s[i + 1]`. */
  function Wn(s: seq<Point3>, p: Point3, n: nat): int
    requires n == 0 || n < |s|
  {
    if n == 0 then 0 else Wn(s, p, n - 1) + Crossing(s[n - 1], s[n], p)
  }

  /** Each edge moves the count by at most one. */
  lemma {:induction false} WnBounded(s: seq<Point3>, p: Point3, n: nat)
    requires n == 0 || n < |s|
    ensures -(n as int) <= Wn(s, p, n) <= n
  {
    if n > 0 {
      WnBounded(s, p, n - 1);
    }
  }

  /** The count reads only the points up to `s[n]`. */
  lemma {:induction false} WnPrefix(s: seq<Point3>, t: seq<Point3>, p: Point3, n: nat)
    requires n < |s| && s <= t
    ensures Wn(s, p, n) == Wn(t, p, n)
  {
    if n > 0 {
      WnPrefix(s, t, p, n - 1);
    }
  }

  /** The count splits into the first edge and the edges after it. */
  lemma {:induction false} WnFirstEdge(s: seq<Point3>, p: Point3, n: nat)
    requires 1 <= n < |s|
    ensures Wn(s, p, n) == Crossing(s[0], s[1], p) + Wn(s[1..], p, n - 1)
  {
    if n > 1 {
      WnFirstEdge(s, p, n - 1);
    }
  }

  /** Walking a closed outline backwards negates its winding number. */
  lemma {:induction false} WnReversed(s: seq<Point3>, p: Point3)
    requires |s| > 0
    ensures |Reversed(s)| == |s| && Wn(Reversed(s), p, |s| - 1) == -Wn(s, p, |s| - 1)
  {
    ReversedLength(s);
    if |s| > 1 {
      var n := |s| - 1;
      var rt := Reversed(s[1..]);
      ReversedFirstLast(s);
      WnReversed(s[1..], p);
      ReversedAt(s[1..], n - 1);
      assert Reversed(s)[n - 1] == s[1];
      WnPrefix(rt, Reversed(s), p, n - 1);
      CrossingReversed(s[0], s[1], p);
      WnFirstEdge(s, p, n);
    }
  }

  /** Edge `i` reads points `i` and `i + 1` of an array of `len` points. */
  predicate EdgeInBounds(len: nat, i: nat)
  {
    i + 1 < len
  }

  /** What `wn_pnpoly` reads over `n` edges stays inside an array of `len` points. */
  predicate WindingReadsInBounds(len: nat, n: nat)
  {
    n == 0 || n < len
  }

  /** The count stays inside the array exactly when every edge it visits does. */
  lemma WindingReadsInBoundsEdges(len: nat, n: nat)
    ensures WindingReadsInBounds(len, n) <==> forall i: nat :: i < n ==> EdgeInBounds(len, i)
  {
    if n > 0 && !WindingReadsInBounds(len, n) {
      assert !EdgeInBounds(len, n - 1);
    }
  }

  /** `wn_pnpoly`: the winding number of `ptCheck` over the edges `pts[i]`-`pts[i + 1]`, `i < n`. */
  method WnPnPoly(ptCheck: Point3, pts: array<Point3>, n: nat) returns (wn: int)
    requires WindingReadsInBounds(pts.Length, n)
    ensures wn == Wn(pts[..], ptCheck, n)
  {
    wn := 0;
    for i := 0 to n
      invariant wn == Wn(pts[..], ptCheck, i)
    {
      if pts[i].y <= ptCheck.y {
        if pts[i + 1].y > ptCheck.y {
          if IsLeft(pts[i], pts[i + 1], ptCheck) > 0.0 {
            wn := wn + 1;
          }
        }
      } else {
        if pts[i + 1].y <= ptCheck.y {
          if IsLeft(pts[i], pts[i + 1], ptCheck) < 0.0 {
            wn := wn - 1;
          }
        }
      }
    }
  }

  /**
   * `find_point_inside_polygon` passes the number of points as the edge
   * count (`wn_pnpoly(pt, ptsarr, ptsarr_size)` at both of its calls), that
   * is `WnPnPoly(pt, pts, pts.Length)`: that call does not meet the method's
   * precondition, as its last edge reads one point past the end. Over a
   * closed outline, whose last point repeats the first, one edge fewer is
   * the whole outline and stays inside.
   */
  lemma AsWrittenWindingReadsPastEnd(pts: array<Point3>)
    requires pts.Length > 0
    ensures !WindingReadsInBounds(pts.Length, pts.Length) && !EdgeInBounds(pts.Length, pts.Length - 1)
    ensures WindingReadsInBounds(pts.Length, pts.Length - 1)
  {
    WindingReadsInBoundsEdges(pts.Length, pts.Length);
  }

  // A point inside a polygon

  /** The number of tries toward each extreme. */
  const Trials: nat := 10

  function Mid(a: Point3, b: Point3): (m: Point3)
    ensures Add(m, m) == Add(a, b)
  {
    Point3((a.x + b.x) / 2.0, (a.y + b.y) / 2.0, (a.z + b.z) / 2.0)
  }

  /** The first point of smallest x, scanning from `start` through `s`, replacing only on a strictly smaller x. */
  function SmallestX(s: seq<Point3>, start: Point3): (m: Point3)
    ensures m == start || m in s
    ensures m.x <= start.x && forall i :: 0 <= i < |s| ==> m.x <= s[i].x
  {
    if |s| == 0 then start
    else
      var m := SmallestX(s[..|s| - 1], start);
      if m.x > s[|s| - 1].x then s[|s| - 1] else m
  }

  /** The first point of largest x, scanning from `start` through `s`, replacing only on a strictly larger x. */
  function LargestX(s: seq<Point3>, start: Point3): (m: Point3)
    ensures m == start || m in s
    ensures m.x >= start.x && forall i :: 0 <= i < |s| ==> m.x >= s[i].x
  {
    if |s| == 0 then start
    else
      var m := LargestX(s[..|s| - 1], start);
      if m.x < s[|s| - 1].x then s[|s| - 1] else m
  }

  /**
   * The extremes by x: `ptMin`, despite its name, has the largest x (the scan
   * starts at the first point), `ptMax` the smallest (the scan starts at the
   * last point).
   */
  method FindExtremes(pts: array<Point3>) returns (ptMin: Point3, ptMax: Point3)
    requires pts.Length > 0
    ensures ptMin == LargestX(pts[..], pts[0]) && ptMax == SmallestX(pts[..], pts[pts.Length - 1])
  {
    ptMin, ptMax := pts[0], pts[pts.Length - 1];
    for i := 0 to pts.Length
      invariant ptMin == LargestX(pts[..i], pts[0]) && ptMax == SmallestX(pts[..i], pts[pts.Length - 1])
    {
      assert pts[..i + 1][..i] == pts[..i];
      if ptMax.x > pts[i].x {
        ptMax := pts[i];
      }
      if ptMin.x < pts[i].x {
        ptMin := pts[i];
      }
    }
    assert pts[..pts.Length] == pts[..];
  }

  /** The `k`-th point on the way from `p` toward `target`, halving the distance each time. */
  function Approach(p: Point3, target: Point3, k: nat): Point3
    decreases k
  {
    if k == 0 then p else Approach(Mid(p, target), target, k - 1)
  }

  /** At most `tries` points on the way from `p` toward `target`: the first one the closed outline `s` winds around. */
  function Probe(s: seq<Point3>, p: Point3, target: Point3, tries: nat): Option<Point3>
    requires |s| > 0
    decreases tries
  {
    if tries == 0 then None
    else if Wn(s, p, |s| - 1) != 0 then Some(p)
    else Probe(s, Mid(p, target), target, tries - 1)
  }

  /** The probe fails exactly when the outline winds around none of the `tries` points. */
  lemma {:induction false} ProbeFails(s: seq<Point3>, p: Point3, target: Point3, tries: nat)
    requires |s| > 0
    ensures Probe(s, p, target, tries).None? <==>
      forall k :: 0 <= k < tries ==> Wn(s, Approach(p, target, k), |s| - 1) == 0
    decreases tries
  {
    if tries > 0 {
      var q := Mid(p, target);
      ProbeFails(s, q, target, tries - 1);
      if Wn(s, p, |s| - 1) == 0 && Probe(s, q, target, tries - 1).None? {
        forall k | 0 <= k < tries
          ensures Wn(s, Approach(p, target, k), |s| - 1) == 0
        {
          if k > 0 {
            assert Approach(p, target, k) == Approach(q, target, k - 1);
            assert Wn(s, Approach(q, target, k - 1), |s| - 1) == 0;
          } else {
            assert Approach(p, target, k) == p;
          }
        }
      } else if Wn(s, p, |s| - 1) == 0 {
        var k :| 0 <= k < tries - 1 && Wn(s, Approach(q, target, k), |s| - 1) != 0;
        assert Approach(p, target, k + 1) == Approach(q, target, k);
      } else {
        assert Approach(p, target, 0) == p;
      }
    }
  }

  /** `k` is the first step on the way from `p` toward `target` that the outline winds around. */
  ghost predicate FirstWound(s: seq<Point3>, p: Point3, target: Point3, k: nat)
    requires |s| > 0
  {
    Wn(s, Approach(p, target, k), |s| - 1) != 0 &&
    forall j :: 0 <= j < k ==> Wn(s, Approach(p, target, j), |s| - 1) == 0
  }

  /** A point the probe finds is the first of the `tries` points that the outline winds around. */
  lemma {:induction false} ProbeFindsFirst(s: seq<Point3>, p: Point3, target: Point3, tries: nat)
    requires |s| > 0 && Probe(s, p, target, tries).Some?
    ensures exists k :: 0 <= k < tries && FirstWound(s, p, target, k) && Probe(s, p, target, tries).value == Approach(p, target, k)
    decreases tries
  {
    var q := Mid(p, target);
    if Wn(s, p, |s| - 1) != 0 {
      assert Approach(p, target, 0) == p;
      assert FirstWound(s, p, target, 0);
    } else {
      ProbeFindsFirst(s, q, target, tries - 1);
      var k :| 0 <= k < tries - 1 && FirstWound(s, q, target, k) && Probe(s, q, target, tries - 1).value == Approach(q, target, k);
      assert Approach(p, target, k + 1) == Approach(q, target, k);
      forall j | 0 <= j < k + 1
        ensures Wn(s, Approach(p, target, j), |s| - 1) == 0
      {
        if j > 0 {
          assert Approach(p, target, j) == Approach(q, target, j - 1);
        } else {
          assert Approach(p, target, j) == p;
        }
      }
      assert FirstWound(s, p, target, k + 1);
    }
  }

  /** A point the probe returns is one the outline winds around. */
  lemma {:induction false} ProbeWinds(s: seq<Point3>, p: Point3, target: Point3, tries: nat)
    requires |s| > 0
    ensures Probe(s, p, target, tries).Some? ==> Wn(s, Probe(s, p, target, tries).value, |s| - 1) != 0
    decreases tries
  {
    if tries > 0 && Wn(s, p, |s| - 1) == 0 {
      ProbeWinds(s, Mid(p, target), target, tries - 1);
    }
  }

  /**
   * The search over the closed outline `s`: up to ten points from the middle of
   * the extremes toward the one of largest x, then up to ten points from the
   * origin toward the one of smallest x; the error when none is inside.
   */
  function InsidePoint(s: seq<Point3>): (r: Result<Point3>)
    requires |s| > 0
    ensures r.Success? ==> Wn(s, r.value, |s| - 1) != 0
    ensures r.Failure? ==> r.error == OperationFailed
  {
    var ptMin := LargestX(s, s[0]);
    var ptMax := SmallestX(s, s[|s| - 1]);
    ProbeWinds(s, Mid(ptMax, ptMin), ptMin, Trials);
    ProbeWinds(s, Origin(), ptMax, Trials);
    match Probe(s, Mid(ptMax, ptMin), ptMin, Trials)
    case Some(p) => Success(p)
    case None =>
      match Probe(s, Origin(), ptMax, Trials)
      case Some(p) => Success(p)
      case None => Failure(OperationFailed)
  }

  /** One of the two search loops: up to `Trials` points from `start` toward `target`. */
  method ProbeToward(pts: array<Point3>, start: Point3, target: Point3) returns (r: Option<Point3>)
    requires pts.Length > 0
    ensures r == Probe(pts[..], start, target, Trials)
  {
    var ptMid := start;
    var trials := 0;
    while trials < Trials
      invariant trials <= Trials
      invariant Probe(pts[..], ptMid, target, Trials - trials) == Probe(pts[..], start, target, Trials)
    {
      var wn := WnPnPoly(ptMid, pts, pts.Length - 1);
      if wn != 0 {
        return Some(ptMid);
      }
      ptMid := Mid(ptMid, target);
      trials := trials + 1;
    }
    r := None;
  }

  /**
   * `find_point_inside_polygon` over a closed outline, with the winding number
   * counted over its `pts.Length - 1` edges.
   */
  method FindPointInsidePolygon(pts: array<Point3>) returns (r: Result<Point3>)
    requires pts.Length > 0
    ensures r == InsidePoint(pts[..])
  {
    var ptMin, ptMax := FindExtremes(pts);
    var found := ProbeToward(pts, Mid(ptMax, ptMin), ptMin);
    if found.Some? {
      return Success(found.value);
    }
    found := ProbeToward(pts, Origin(), ptMax);
    if found.Some? {
      return Success(found.value);
    }
    r := Failure(OperationFailed);
  }

  // License text

  /** The characters `std::isspace` accepts in the C locale. */
  const Whitespace: set<char> := {' ', '\t', '\n', '\U{B}', '\U{C}', '\r'}

  /** `s` without the characters of `drop`, the others kept in order. */
  function RemoveAll(s: string, drop: set<char>): (r: string)
    ensures |r| <= |s|
    ensures forall i :: 0 <= i < |r| ==> r[i] !in drop
  {
    if |s| == 0 then "" else (if s[0] in drop then "" else [s[0]]) + RemoveAll(s[1..], drop)
  }

  lemma {:induction false} RemoveAllAppend(a: string, b: string, drop: set<char>)
    ensures RemoveAll(a + b, drop) == RemoveAll(a, drop) + RemoveAll(b, drop)
  {
    if |a| > 0 {
      assert (a + b)[0] == a[0];
      assert (a + b)[1..] == a[1..] + b;
      RemoveAllAppend(a[1..], b, drop);
    } else {
      assert a + b == b;
    }
  }

  /** Removing from a string that holds none of the characters changes nothing. */
  lemma {:induction false} RemoveAllAbsent(s: string, drop: set<char>)
    requires forall i :: 0 <= i < |s| ==> s[i] !in drop
    ensures RemoveAll(s, drop) == s
  {
    if |s| > 0 {
      RemoveAllAbsent(s[1..], drop);
      assert s == [s[0]] + s[1..];
    }
  }

  /** Removing characters brings no character of `other` back. */
  lemma {:induction false} RemoveAllKeepsAbsent(s: string, drop: set<char>, other: set<char>)
    requires forall i :: 0 <= i < |s| ==> s[i] !in other
    ensures forall i :: 0 <= i < |RemoveAll(s, drop)| ==> RemoveAll(s, drop)[i] !in other
  {
    if |s| > 0 {
      RemoveAllKeepsAbsent(s[1..], drop, other);
    }
  }

  /** Erasing one dropped character leaves the same result. */
  lemma EraseOne(s: string, i: nat, drop: set<char>)
    requires i < |s| && s[i] in drop
    ensures RemoveAll(s[..i] + s[i + 1..], drop) == RemoveAll(s, drop)
  {
    assert s == s[..i] + ([s[i]] + s[i + 1..]);
    RemoveAllAppend(s[..i], [s[i]] + s[i + 1..], drop);
    RemoveAllAppend(s[..i], s[i + 1..], drop);
    assert ([s[i]] + s[i + 1..])[1..] == s[i + 1..];
  }

  /** The first index of `c` in `s`, or `None` for `npos`. */
  function Find(s: string, c: char): (r: Option<nat>)
    ensures r.Some? ==> r.value < |s| && s[r.value] == c && forall k :: 0 <= k < r.value ==> s[k] != c
    ensures r.None? ==> forall k :: 0 <= k < |s| ==> s[k] != c
  {
    FindFrom(s, c, 0)
  }

  /** The first index at or after `from` holding `c`, or `None` for `npos`. */
  function FindFrom(s: string, c: char, from: nat): (r: Option<nat>)
    ensures r.Some? ==> from <= r.value < |s| && s[r.value] == c && forall k :: from <= k < r.value ==> s[k] != c
    ensures r.None? ==> forall k :: from <= k < |s| ==> s[k] != c
    decreases |s| - from
  {
    if from >= |s| then None
    else if s[from] == c then Some(from)
    else FindFrom(s, c, from + 1)
  }

  /** The erase loop: while `c` is found, the character at the found index is erased. */
  method EraseAll(line: string, c: char) returns (out: string)
    ensures out == RemoveAll(line, {c})
  {
    out := line;
    var found := Find(out, c);
    while found.Some?
      invariant RemoveAll(out, {c}) == RemoveAll(line, {c})
      invariant found == Find(out, c)
      decreases |out|
    {
      EraseOne(out, found.value, {c});
      out := out[..found.value] + out[found.value + 1..];
      found := Find(out, c);
    }
    RemoveAllAbsent(out, {c});
  }

  /** A line cleaned of whitespace, double quotes and semicolons. */
  function Cleaned(line: string): string
  {
    RemoveAll(RemoveAll(RemoveAll(line, Whitespace), {'"'}), {';'})
  }

  /** The key data: the cleaned non-empty lines, concatenated. */
  function LicenseKey(lines: seq<string>): string
  {
    if |lines| == 0 then ""
    else LicenseKey(lines[..|lines| - 1]) + (if lines[|lines| - 1] == "" then "" else Cleaned(lines[|lines| - 1]))
  }

  function Concat(lines: seq<string>): string
  {
    if |lines| == 0 then "" else Concat(lines[..|lines| - 1]) + lines[|lines| - 1]
  }

  /** Cleaning line by line is cleaning the whole text: the separators are simply gone. */
  lemma {:induction false} LicenseKeyIsCleanedText(lines: seq<string>)
    ensures LicenseKey(lines) == Cleaned(Concat(lines))
  {
    if |lines| > 0 {
      var init, last := lines[..|lines| - 1], lines[|lines| - 1];
      LicenseKeyIsCleanedText(init);
      var t := Concat(init);
      RemoveAllAppend(t, last, Whitespace);
      RemoveAllAppend(RemoveAll(t, Whitespace), RemoveAll(last, Whitespace), {'"'});
      RemoveAllAppend(RemoveAll(RemoveAll(t, Whitespace), {'"'}), RemoveAll(RemoveAll(last, Whitespace), {'"'}), {';'});
      if last == "" {
        assert Cleaned(last) == "";
      }
    }
  }

  /** The key holds no whitespace, double quote or semicolon, and cleaning it again changes nothing. */
  lemma LicenseKeyIsClean(lines: seq<string>)
    ensures forall i :: 0 <= i < |LicenseKey(lines)| ==>
      LicenseKey(lines)[i] !in Whitespace && LicenseKey(lines)[i] != '"' && LicenseKey(lines)[i] != ';'
    ensures Cleaned(LicenseKey(lines)) == LicenseKey(lines)
  {
    LicenseKeyIsCleanedText(lines);
    var k := LicenseKey(lines);
    var a := RemoveAll(Concat(lines), Whitespace);
    var b := RemoveAll(a, {'"'});
    RemoveAllKeepsAbsent(a, {'"'}, Whitespace);
    RemoveAllKeepsAbsent(b, {';'}, Whitespace);
    RemoveAllKeepsAbsent(b, {';'}, {'"'});
    RemoveAllAbsent(k, Whitespace);
    RemoveAllAbsent(k, {'"'});
    RemoveAllAbsent(k, {';'});
  }

  /** The loop of `read_license_file` over the file's lines. */
  method CleanLicenseLines(lines: seq<string>) returns (keydata: string)
    ensures keydata == LicenseKey(lines)
  {
    keydata := "";
    for i := 0 to |lines|
      invariant keydata == LicenseKey(lines[..i])
    {
      assert lines[..i + 1][..i] == lines[..i];
      var line := lines[i];
      if line == "" {
        continue;
      }
      line := RemoveAll(line, Whitespace);
      line := EraseAll(line, '"');
      line := EraseAll(line, ';');
      keydata := keydata + line;
    }
    assert lines[..|lines|] == lines;
  }

  /** `read_license_file`: `false` when there is no file; otherwise `true` and the key data. */
  method ReadLicenseFile(file: Option<seq<string>>) returns (ok: bool, unlockStr: string)
    ensures ok <==> file.Some?
    ensures ok ==> unlockStr == LicenseKey(file.value)
  {
    if file.None? {
      return false, "";
    }
    unlockStr := CleanLicenseLines(file.value);
    ok := true;
  }

  // CSV point files

  /** `substr(from, pos - from)`, with `npos` as `None` reaching the end. */
  function Substr(s: string, from: nat, pos: Option<nat>): string
    requires from <= |s| && (pos.Some? ==> from <= pos.value <= |s|)
  {
    if pos.None? then s[from..] else s[from..pos.value]
  }

  /** `++pos`: the index after the delimiter; incrementing `npos` wraps around to 0. */
  function After(pos: Option<nat>): nat
  {
    if pos.None? then 0 else pos.value + 1
  }

  /** The three fields the parser cuts out of a line, at the commas. */
  function CsvFields(line: string): (string, string, string)
  {
    var p1 := Find(line, ',');
    var i1 := After(p1);
    var p2 := FindFrom(line, ',', i1);
    var i2 := After(p2);
    var p3 := FindFrom(line, ',', i2);
    (Substr(line, 0, p1), Substr(line, i1, p2), Substr(line, i2, p3))
  }

  predicate NoComma(s: string)
  {
    forall i :: 0 <= i < |s| ==> s[i] != ','
  }

  /** Three comma-free fields joined by commas are cut back out. */
  lemma CsvFieldsJoined(a: string, b: string, c: string)
    requires NoComma(a) && NoComma(b) && NoComma(c)
    ensures CsvFields(a + "," + b + "," + c) == (a, b, c)
  {
    var line := a + "," + b + "," + c;
    assert line[|a|] == ',';
    assert forall k :: 0 <= k < |a| ==> line[k] == a[k];
    assert Find(line, ',') == Some(|a|);
    assert line[|a| + 1 + |b|] == ',';
    assert forall k :: |a| + 1 <= k < |a| + 1 + |b| ==> line[k] == b[k - |a| - 1];
    assert FindFrom(line, ',', |a| + 1) == Some(|a| + 1 + |b|);
    assert forall k :: |a| + |b| + 2 <= k < |line| ==> line[k] == c[k - |a| - |b| - 2];
    assert FindFrom(line, ',', |a| + |b| + 2) == None;
    assert line[..|a|] == a;
    assert line[|a| + 1..|a| + 1 + |b|] == b;
    assert line[|a| + |b| + 2..] == c;
  }

  /** A line without a comma is read as the same number three times, since the index wraps around to the start. */
  lemma CsvFieldsNoComma(line: string)
    requires NoComma(line)
    ensures CsvFields(line) == (line, line, line)
  {
    assert Find(line, ',') == None;
    assert FindFrom(line, ',', 0) == None;
  }

  /** A point from a line, each field converted by `toReal` (the role of `std::stod`). */
  function CsvPoint(line: string, toReal: string -> real): Point3
  {
    var (x, y, z) := CsvFields(line);
    Point3(toReal(x), toReal(y), toReal(z))
  }

  /** One point per non-empty line, in file order. */
  function CsvPoints(lines: seq<string>, toReal: string -> real): (pts: seq<Point3>)
    ensures |pts| <= |lines|
  {
    if |lines| == 0 then []
    else CsvPoints(lines[..|lines| - 1], toReal) +
         (if lines[|lines| - 1] == "" then [] else [CsvPoint(lines[|lines| - 1], toReal)])
  }

  /** The number of non-empty lines. */
  function NonEmptyCount(lines: seq<string>): nat
  {
    if |lines| == 0 then 0 else NonEmptyCount(lines[..|lines| - 1]) + (if lines[|lines| - 1] == "" then 0 else 1)
  }

  /** Exactly one point per non-empty line. */
  lemma {:induction false} CsvPointsCount(lines: seq<string>, toReal: string -> real)
    ensures |CsvPoints(lines, toReal)| == NonEmptyCount(lines)
  {
    if |lines| > 0 {
      CsvPointsCount(lines[..|lines| - 1], toReal);
    }
  }

  /** Reading the lines in two parts reads their points in two parts, the first part's first. */
  lemma {:induction false} CsvPointsAppend(a: seq<string>, b: seq<string>, toReal: string -> real)
    ensures CsvPoints(a + b, toReal) == CsvPoints(a, toReal) + CsvPoints(b, toReal)
  {
    if |b| == 0 {
      assert a + b == a;
    } else {
      assert (a + b)[..|a + b| - 1] == a + b[..|b| - 1];
      CsvPointsAppend(a, b[..|b| - 1], toReal);
    }
  }

  /**
   * `read_csv_file`: the error when the file cannot be opened; otherwise the
   * first line is skipped and every later non-empty line gives one point.
   */
  method ReadCsvFile(file: Option<seq<string>>, toReal: string -> real) returns (r: Result<array<Point3>>)
    ensures file.None? ==> r == Failure(OperationFailed)
    ensures file.Some? ==>
      (r.Success? && fresh(r.value) &&
       r.value[..] == (if |file.value| == 0 then [] else CsvPoints(file.value[1..], toReal)))
  {
    if file.None? {
      return Failure(OperationFailed);
    }
    var lines := file.value;
    var output: seq<Point3> := [];
    if |lines| > 0 {
      var body := lines[1..];
      for i := 0 to |body|
        invariant output == CsvPoints(body[..i], toReal)
      {
        assert body[..i + 1][..i] == body[..i];
        if body[i] == "" {
          continue;
        }
        output := output + [CsvPoint(body[i], toReal)];
      }
      assert body[..|body|] == body;
    }
    var ptsarr := new Point3[|output|](k => if 0 <= k < |output| then output[k] else Origin());
    r := Success(ptsarr);
  }
}
