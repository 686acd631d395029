// The parts of the ACIS model builder that do not call the solid-modelling
// kernel: the edge-point translation, the initial side of a layer surface,
// the mold partition, the closest side surface, the checks and placement at
// the start of `create_layer`, the closed-profile check of
// `adjacent_layers(file)` and the control-point packing handed to the kernel.
// Whatever the kernel computes (distances, angles, parallelism, positions of
// sheet bodies) arrives as a parameter.
module AcisFragments {
  import opened Wrappers
  import opened PointVector
  import opened ApiConfig
  import opened Layers
  import opened ContainerList
  import opened NurbsGrid
  import opened NurbsSurface
  import opened Nurbs
  import opened MbUtilities
  import opened Builder

  // translate_shell_edge_points

  /** One edge point moved along its normal by the thickness, coordinate by coordinate. */
  function Translate(p: Point3, n: Point3, t: real): Point3
  {
    Add(p, Scale(n, t))
  }

  /** The edge points, each moved along the normal with the same index. */
  function TranslatedPoints(points: seq<Point3>, normals: seq<Point3>, t: real): (r: seq<Point3>)
    requires |points| <= |normals|
    ensures |r| == |points|
  {
    seq(|points|, i requires 0 <= i < |points| => Translate(points[i], normals[i], t))
  }

  /** Moving back by the opposite thickness gives the edge points again. */
  lemma TranslateBack(points: seq<Point3>, normals: seq<Point3>, t: real)
    requires |points| <= |normals|
    ensures TranslatedPoints(TranslatedPoints(points, normals, t), normals, -t) == points
  {
    var once := TranslatedPoints(points, normals, t);
    var back := TranslatedPoints(once, normals, -t);
    forall i | 0 <= i < |points|
      ensures back[i] == points[i]
    {
      assert once[i] == Translate(points[i], normals[i], t);
    }
  }

  /** A zero thickness leaves every point where it is. */
  lemma TranslateByZero(points: seq<Point3>, normals: seq<Point3>)
    requires |points| <= |normals|
    ensures TranslatedPoints(points, normals, 0.0) == points
  {
    var r := TranslatedPoints(points, normals, 0.0);
    forall i | 0 <= i < |points|
      ensures r[i] == points[i]
    {
      assert r[i] == Translate(points[i], normals[i], 0.0);
    }
  }

  /**
   * `translate_shell_edge_points`: appends to the output list, in input order,
   * every edge point moved along its normal by the thickness; the entries
   * already in the list stay as they are.
   */
  method TranslateShellEdgePoints(points: seq<Point3>, normals: seq<Point3>, thickness: real, out: List<Point3>)
    requires |points| <= |normals| && out.Valid()
    modifies out, out.elems
    ensures out.Valid()
    ensures out.Contents() == old(out.Contents()) + TranslatedPoints(points, normals, thickness)
  {
    for edgeNum := 0 to |points|
      invariant out.Valid()
      invariant out.elems == old(out.elems) || fresh(out.elems)
      invariant out.Contents() == old(out.Contents()) + TranslatedPoints(points[..edgeNum], normals, thickness)
    {
      var translated := Translate(points[edgeNum], normals[edgeNum], thickness);
      out.PushBack(translated);
      assert TranslatedPoints(points[..edgeNum + 1], normals, thickness) ==
             TranslatedPoints(points[..edgeNum], normals, thickness) + [translated];
    }
    assert points[..|points|] == points;
  }

  // find_initial_ls_direction_simple

  /** The inclination window of the faces on the offset side, in degrees. */
  predicate OffsetWindow(angle: real, tol: real)
  {
    1.0 + tol <= angle <= 89.0 - tol
  }

  /** The inclination window of the faces on the orig side, in degrees. */
  predicate OrigWindow(angle: real, tol: real)
  {
    91.0 + tol <= angle <= 179.0 - tol
  }

  /**
   * The side of a face from its normal and the reference normal: parallel is
   * the offset side, antiparallel the orig side, then the two inclination
   * windows are tried in turn, and anything else is a side face.
   */
  function InitialDirection(parallel: bool, antiparallel: bool, angle: real, tol: real): (d: Direction)
    ensures d != NoDir
    ensures d == Offset <==> parallel || (!antiparallel && OffsetWindow(angle, tol))
    ensures d == Orig <==> !parallel && (antiparallel || (!OffsetWindow(angle, tol) && OrigWindow(angle, tol)))
    ensures d == Side <==> !parallel && !antiparallel && !OffsetWindow(angle, tol) && !OrigWindow(angle, tol)
  {
    if parallel then Offset
    else if antiparallel then Orig
    else if OffsetWindow(angle, tol) then Offset
    else if OrigWindow(angle, tol) then Orig
    else Side
  }

  /** The other side of a layer; side faces and unset directions stay as they are. */
  function Mirror(d: Direction): Direction
  {
    match d
    case Offset => Orig
    case Orig => Offset
    case other => other
  }

  /**
   * Reversing the reference normal swaps parallel with antiparallel and turns
   * the angle into its supplement; with a non-negative tolerance every face
   * then lands on the other side, and side faces stay side faces.
   */
  lemma InitialDirectionMirror(parallel: bool, antiparallel: bool, angle: real, tol: real)
    requires tol >= 0.0 && !(parallel && antiparallel)
    ensures InitialDirection(antiparallel, parallel, 180.0 - angle, tol) ==
            Mirror(InitialDirection(parallel, antiparallel, angle, tol))
  {
    assert OffsetWindow(angle, tol) <==> OrigWindow(180.0 - angle, tol);
    assert OrigWindow(angle, tol) <==> OffsetWindow(180.0 - angle, tol);
  }

  /**
   * `find_initial_ls_direction_simple`: stores the side found with the builder's
   * tolerance; a side face is also marked as having no delamination.
   */
  method FindInitialDirectionSimple(mb: ModelBuilder, ls: LayerSurface, parallel: bool, antiparallel: bool, angle: real)
    modifies ls
    ensures ls.State() == old(ls.State()).(
      direction := InitialDirection(parallel, antiparallel, angle, mb.delta),
      delamType := if InitialDirection(parallel, antiparallel, angle, mb.delta) == Side then NoDelam else old(ls.delamType))
  {
    var tol := mb.delta;
    if parallel {
      ls.SetDirection(Offset);
    } else if antiparallel {
      ls.SetDirection(Orig);
    } else if angle >= 1.0 + tol && angle <= 89.0 - tol {
      ls.SetDirection(Offset);
    } else if angle >= 91.0 + tol && angle <= 179.0 - tol {
      ls.SetDirection(Orig);
    } else {
      ls.SetDirection(Side);
      ls.SetDelamType(NoDelam);
    }
  }

  // generate_mold

  /** The surfaces of a list that face a direction, in list order. */
  function Facing(ss: seq<LayerSurface>, d: Direction): seq<LayerSurface>
    reads set s | s in ss
  {
    if |ss| == 0 then []
    else Facing(ss[..|ss| - 1], d) + (if ss[|ss| - 1].direction == d then [ss[|ss| - 1]] else [])
  }

  /** A surface is kept exactly when it is in the list and faces the direction. */
  lemma {:induction false} FacingMembers(ss: seq<LayerSurface>, d: Direction)
    ensures forall s :: s in Facing(ss, d) <==> s in ss && s.direction == d
  {
    if |ss| > 0 {
      FacingMembers(ss[..|ss| - 1], d);
      assert ss == ss[..|ss| - 1] + [ss[|ss| - 1]];
    }
  }

  /** Filtering a concatenation filters each part: the order of the list is kept. */
  lemma {:induction false} FacingAppend(a: seq<LayerSurface>, b: seq<LayerSurface>, d: Direction)
    ensures Facing(a + b, d) == Facing(a, d) + Facing(b, d)
  {
    if |b| == 0 {
      assert a + b == a;
    } else {
      FacingAppend(a, b[..|b| - 1], d);
      assert (a + b)[..|a + b| - 1] == a + b[..|b| - 1];
    }
  }

  /** The two lists of a mold share no surface, and together hold no more surfaces than the body. */
  lemma {:induction false} FacingSplit(ss: seq<LayerSurface>)
    ensures |Facing(ss, Offset)| + |Facing(ss, Orig)| <= |ss|
    ensures forall s :: s in Facing(ss, Offset) ==> s !in Facing(ss, Orig)
  {
    FacingMembers(ss, Offset);
    FacingMembers(ss, Orig);
    if |ss| > 0 {
      FacingSplit(ss[..|ss| - 1]);
    }
  }

  /** The surfaces a mold of one body is built from. */
  datatype MoldSides = MoldSides(offset: seq<LayerSurface>, orig: seq<LayerSurface>)

  function MoldSidesOf(b: LayerBody): MoldSides
    reads b, set s | s in b.surfaces
  {
    MoldSides(Facing(b.surfaces, Offset), Facing(b.surfaces, Orig))
  }

  /** Every body has a surface on each side. */
  ghost predicate Moldable(bodies: seq<LayerBody>)
    reads bodies, set b, s | b in bodies && s in b.surfaces :: s
  {
    forall k :: 0 <= k < |bodies| ==> MoldSidesOf(bodies[k]).offset != [] && MoldSidesOf(bodies[k]).orig != []
  }

  /** The offset and orig surfaces of one body, in order; every other surface is dropped. */
  method PartitionSurfaces(b: LayerBody) returns (sides: MoldSides)
    ensures sides == MoldSidesOf(b)
  {
    var ss := b.surfaces;
    var offset, orig := [], [];
    for j := 0 to |ss|
      invariant offset == Facing(ss[..j], Offset) && orig == Facing(ss[..j], Orig)
    {
      assert ss[..j + 1][..j] == ss[..j];
      var ls := ss[j];
      if ls.direction == Offset {
        offset := offset + [ls];
      } else if ls.direction == Orig {
        orig := orig + [ls];
      }
    }
    assert ss[..|ss|] == ss;
    sides := MoldSides(offset, orig);
  }

  /**
   * The partition in `generate_mold`: the surfaces of each body in turn, and
   * the builder's error as soon as one body lacks a side.
   */
  method GenerateMold(layer: Layer) returns (r: Result<seq<MoldSides>>)
    ensures r.Success? <==> Moldable(layer.bodies)
    ensures r.Success? ==> |r.value| == |layer.bodies| &&
                           forall k :: 0 <= k < |r.value| ==> r.value[k] == MoldSidesOf(layer.bodies[k])
    ensures r.Failure? ==> r.error == OperationFailed
  {
    var bs := layer.bodies;
    var acc := [];
    for i := 0 to |bs|
      invariant |acc| == i
      invariant forall k :: 0 <= k < i ==> acc[k] == MoldSidesOf(bs[k])
      invariant forall k :: 0 <= k < i ==> MoldSidesOf(bs[k]).offset != [] && MoldSidesOf(bs[k]).orig != []
    {
      var sides := PartitionSurfaces(bs[i]);
      if |sides.orig| == 0 || |sides.offset| == 0 {
        return Failure(OperationFailed);
      }
      acc := acc + [sides];
    }
    r := Success(acc);
  }

  // find_closest_side

  /** An `LSDistanceRel`: a side surface and its distance to the query point. */
  datatype SideDistance = SideDistance(ls: LayerSurface, dist: real)

  /** `std::numeric_limits<double>::max()`. */
  const DoubleMax: real := 179769313486231570814527423731704356798070567525844996598917476803157260780028538760589558632766878171540458953514382464234321326889464182768467546703537516986049910576551282076245490090389328944075868508455133942304583236903222948165808559332123348274797826204144723168738177180919299881250404026184124858368.0

  /** The side surfaces of one body with their distances, in order. */
  function SideDistances(ss: seq<LayerSurface>, dist: Handle -> real): seq<SideDistance>
    reads set s | s in ss
  {
    if |ss| == 0 then []
    else SideDistances(ss[..|ss| - 1], dist) +
         (if ss[|ss| - 1].direction == Side then [SideDistance(ss[|ss| - 1], dist(ss[|ss| - 1].face))] else [])
  }

  /** The side surfaces of all bodies of a layer, body after body. */
  function LayerSideDistances(bodies: seq<LayerBody>, dist: Handle -> real): seq<SideDistance>
    reads bodies, set b, s | b in bodies && s in b.surfaces :: s
  {
    if |bodies| == 0 then []
    else LayerSideDistances(bodies[..|bodies| - 1], dist) + SideDistances(bodies[|bodies| - 1].surfaces, dist)
  }

  /** Every entry is a side surface of the list, paired with the distance of its face. */
  lemma {:induction false} SideDistancesAreSides(ss: seq<LayerSurface>, dist: Handle -> real)
    ensures forall k :: 0 <= k < |SideDistances(ss, dist)| ==>
      SideDistances(ss, dist)[k].ls in ss && SideDistances(ss, dist)[k].ls.direction == Side &&
      SideDistances(ss, dist)[k].dist == dist(SideDistances(ss, dist)[k].ls.face)
  {
    if |ss| > 0 {
      SideDistancesAreSides(ss[..|ss| - 1], dist);
    }
  }

  /** Every entry of a layer's list is a side surface of one of its bodies. */
  lemma {:induction false} LayerSideDistancesAreSides(bodies: seq<LayerBody>, dist: Handle -> real)
    ensures forall k :: 0 <= k < |LayerSideDistances(bodies, dist)| ==>
      LayerSideDistances(bodies, dist)[k].ls.direction == Side &&
      exists b :: b in bodies && LayerSideDistances(bodies, dist)[k].ls in b.surfaces
  {
    if |bodies| > 0 {
      var front := bodies[..|bodies| - 1];
      var last := bodies[|bodies| - 1];
      LayerSideDistancesAreSides(front, dist);
      SideDistancesAreSides(last.surfaces, dist);
      var r, p := LayerSideDistances(bodies, dist), LayerSideDistances(front, dist);
      forall k | 0 <= k < |r|
        ensures r[k].ls.direction == Side && exists b :: b in bodies && r[k].ls in b.surfaces
      {
        if k < |p| {
          assert r[k] == p[k];
          var b :| b in front && p[k].ls in b.surfaces;
          assert b in bodies;
        } else {
          assert r[k] == SideDistances(last.surfaces, dist)[k - |p|];
          assert last in bodies;
        }
      }
    }
  }

  /** The selection loop: the entry that first beats the running minimum, which starts at the largest double. */
  function ClosestScan(rels: seq<SideDistance>): (LayerSurface?, real)
  {
    if |rels| == 0 then (null, DoubleMax)
    else
      var prev := ClosestScan(rels[..|rels| - 1]);
      var last := rels[|rels| - 1];
      if prev.1 > last.dist then (last.ls, last.dist) else prev
  }

  /** No entry is selected exactly when no distance is below the largest double; the minimum is a lower bound. */
  lemma {:induction false} ClosestScanNone(rels: seq<SideDistance>)
    ensures ClosestScan(rels).1 <= DoubleMax
    ensures forall j :: 0 <= j < |rels| ==> ClosestScan(rels).1 <= rels[j].dist
    ensures ClosestScan(rels).0 == null <==> forall j :: 0 <= j < |rels| ==> rels[j].dist >= DoubleMax
    ensures ClosestScan(rels).0 == null ==> ClosestScan(rels).1 == DoubleMax
    ensures ClosestScan(rels).0 != null ==> ClosestScan(rels).1 < DoubleMax
  {
    if |rels| > 0 {
      ClosestScanNone(rels[..|rels| - 1]);
    }
  }

  /** Entry `k` is strictly smaller than every earlier entry and no larger than any later one. */
  ghost predicate FirstSmallest(rels: seq<SideDistance>, k: nat)
  {
    k < |rels| &&
    (forall j :: 0 <= j < k ==> rels[j].dist > rels[k].dist) &&
    (forall j :: k < j < |rels| ==> rels[j].dist >= rels[k].dist)
  }

  /** A selected surface is the one with the first strictly smallest distance. */
  lemma {:induction false} ClosestScanFirst(rels: seq<SideDistance>)
    requires ClosestScan(rels).0 != null
    ensures exists k :: 0 <= k < |rels| && FirstSmallest(rels, k) && ClosestScan(rels) == (rels[k].ls, rels[k].dist)
  {
    var n := |rels|;
    var front := rels[..n - 1];
    var prev := ClosestScan(front);
    ClosestScanNone(front);
    if prev.1 > rels[n - 1].dist {
      forall j | 0 <= j < n - 1
        ensures rels[j].dist > rels[n - 1].dist
      {
        assert front[j] == rels[j];
      }
      assert FirstSmallest(rels, n - 1);
    } else {
      ClosestScanFirst(front);
      var k :| 0 <= k < |front| && FirstSmallest(front, k) && prev == (front[k].ls, front[k].dist);
      assert rels[k] == front[k];
      forall j | 0 <= j < k
        ensures rels[j].dist > rels[k].dist
      {
        assert front[j] == rels[j];
      }
      forall j | k < j < n
        ensures rels[j].dist >= rels[k].dist
      {
        if j < n - 1 {
          assert front[j] == rels[j];
        }
      }
      assert FirstSmallest(rels, k);
    }
  }

  /** The side surfaces of one body, each with the distance the solid modeller reports for its face. */
  method BodySideDistances(b: LayerBody, dist: Handle -> real) returns (rels: seq<SideDistance>)
    ensures rels == SideDistances(b.surfaces, dist)
  {
    var ss := b.surfaces;
    rels := [];
    for j := 0 to |ss|
      invariant rels == SideDistances(ss[..j], dist)
    {
      assert ss[..j + 1][..j] == ss[..j];
      var ls := ss[j];
      if ls.direction == Side {
        rels := rels + [SideDistance(ls, dist(ls.face))];
      }
    }
    assert ss[..|ss|] == ss;
  }

  /** The loop that keeps the running minimum and the surface that reached it. */
  method SelectClosest(rels: seq<SideDistance>) returns (closest: LayerSurface?)
    ensures closest == ClosestScan(rels).0
  {
    closest := null;
    var minDistance := DoubleMax;
    for k := 0 to |rels|
      invariant (closest, minDistance) == ClosestScan(rels[..k])
    {
      assert rels[..k + 1][..k] == rels[..k];
      if minDistance > rels[k].dist {
        minDistance := rels[k].dist;
        closest := rels[k].ls;
      }
    }
    assert rels[..|rels|] == rels;
  }

  /**
   * `find_closest_side`: the side surface of the layer with the first strictly
   * smallest distance to the query point, or null when there is none.
   */
  method FindClosestSide(layer: Layer, dist: Handle -> real) returns (closest: LayerSurface?)
    ensures closest == ClosestScan(LayerSideDistances(layer.bodies, dist)).0
    ensures closest != null ==> closest.direction == Side && exists b :: b in layer.bodies && closest in b.surfaces
  {
    var bs := layer.bodies;
    var rels := [];
    for i := 0 to |bs|
      invariant rels == LayerSideDistances(bs[..i], dist)
    {
      assert bs[..i + 1][..i] == bs[..i];
      var more := BodySideDistances(bs[i], dist);
      rels := rels + more;
    }
    assert bs[..|bs|] == bs;
    closest := SelectClosest(rels);
    if closest != null {
      ClosestScanFirst(rels);
      LayerSideDistancesAreSides(bs, dist);
    }
  }

  // create_layer

  /** Where a layer grown from another starts: the input's offset side when growing toward the offset, else its orig side. */
  function StackStart(ldir: Direction, inOrig: real, inOffset: real): real
  {
    if ldir == Offset then inOffset else inOrig
  }

  /**
   * `create_layer(NURBS, ldir, thickness, layer)` up to the kernel: a
   * non-positive thickness raises the builder's error; otherwise the layer is
   * a lamina growing toward `ldir`, placed from 0 to the thickness, and gets
   * the next layer id.
   */
  method CreateLayerFromNurbs(mb: ModelBuilder, ldir: Direction, thickness: real, layerOut: Layer) returns (r: Result<()>)
    modifies layerOut, mb`layerId
    ensures thickness <= 0.0 ==> r == Failure(OperationFailed) && unchanged(layerOut) && unchanged(mb)
    ensures thickness > 0.0 ==>
      (r == Success(()) && mb.layerId == old(mb.layerId) + 1 && layerOut.Thickness() == thickness &&
       layerOut.State() == old(layerOut.State()).(layerType := Lamina, direction := ldir, posOrig := 0.0,
                                                  posOffset := thickness, id := old(mb.layerId)))
  {
    if thickness <= 0.0 {
      return Failure(OperationFailed);
    }
    layerOut.SetType(Lamina);
    layerOut.SetDirection(ldir);
    layerOut.Position(0.0, thickness);
    var id := mb.NextLayerId();
    layerOut.SetId(id);
    r := Success(());
  }

  /** The overload without a direction grows the layer toward the offset side. */
  method CreateLayerFromNurbsOffset(mb: ModelBuilder, thickness: real, layerOut: Layer) returns (r: Result<()>)
    modifies layerOut, mb`layerId
    ensures thickness <= 0.0 ==> r == Failure(OperationFailed) && unchanged(layerOut) && unchanged(mb)
    ensures thickness > 0.0 ==>
      (r == Success(()) && mb.layerId == old(mb.layerId) + 1 &&
       layerOut.State() == old(layerOut.State()).(layerType := Lamina, direction := Offset, posOrig := 0.0,
                                                  posOffset := thickness, id := old(mb.layerId)))
  {
    r := CreateLayerFromNurbs(mb, Offset, thickness, layerOut);
  }

  /** The molds of a list that lie toward a direction, in list order. */
  function MoldsToward(molds: seq<LayerMold>, d: Direction): seq<LayerMold>
    reads set m | m in molds
  {
    if |molds| == 0 then []
    else MoldsToward(molds[..|molds| - 1], d) + (if molds[|molds| - 1].direction == d then [molds[|molds| - 1]] else [])
  }

  /** A mold is swept exactly when it is in the list and lies toward the direction. */
  lemma {:induction false} MoldsTowardMembers(molds: seq<LayerMold>, d: Direction)
    ensures forall m :: m in MoldsToward(molds, d) <==> m in molds && m.direction == d
  {
    if |molds| > 0 {
      MoldsTowardMembers(molds[..|molds| - 1], d);
      assert molds == molds[..|molds| - 1] + [molds[|molds| - 1]];
    }
  }

  /** The molds of the input layer whose sheet bodies `create_layer` sweeps, in list order. */
  method MoldsToSweep(molds: seq<LayerMold>, ldir: Direction) returns (used: seq<LayerMold>)
    ensures used == MoldsToward(molds, ldir)
  {
    used := [];
    for i := 0 to |molds|
      invariant used == MoldsToward(molds[..i], ldir)
    {
      assert molds[..i + 1][..i] == molds[..i];
      if ldir == molds[i].direction {
        used := used + [molds[i]];
      }
    }
    assert molds[..|molds|] == molds;
  }

  /**
   * `create_layer(Layer, ldir, thickness, layer)` up to the kernel: a
   * non-positive thickness or an input layer without bodies raises the
   * builder's error; otherwise the layer is a lamina growing toward `ldir`,
   * placed from the input's side in that direction to that plus the
   * thickness, built from the input's molds toward `ldir`, and gets the next
   * layer id.
   */
  method CreateLayerFromLayer(mb: ModelBuilder, layerIn: Layer, ldir: Direction, thickness: real, layerOut: Layer)
    returns (r: Result<seq<LayerMold>>)
    modifies layerOut, mb`layerId
    ensures r.Success? <==> thickness > 0.0 && |old(layerIn.bodies)| != 0
    ensures r.Failure? ==> r.error == OperationFailed && unchanged(layerOut) && unchanged(mb)
    ensures r.Success? ==>
      (r.value == MoldsToward(old(layerIn.molds), ldir) && mb.layerId == old(mb.layerId) + 1 &&
       layerOut.Thickness() == thickness &&
       layerOut.State() == old(layerOut.State()).(
         layerType := Lamina, direction := ldir,
         posOrig := StackStart(ldir, old(layerIn.posOrig), old(layerIn.posOffset)),
         posOffset := StackStart(ldir, old(layerIn.posOrig), old(layerIn.posOffset)) + thickness,
         id := old(mb.layerId)))
  {
    if thickness <= 0.0 {
      return Failure(OperationFailed);
    }
    if 0 == |layerIn.bodies| {
      return Failure(OperationFailed);
    }
    ghost var molds := layerIn.molds;
    layerOut.SetType(Lamina);
    layerOut.SetDirection(ldir);
    var posAtOrig;
    if ldir == Offset {
      posAtOrig := layerIn.posOffset;
    } else {
      posAtOrig := layerIn.posOrig;
    }
    layerOut.Position(posAtOrig, posAtOrig + thickness);
    var used := MoldsToSweep(layerIn.molds, ldir);
    var id := mb.NextLayerId();
    layerOut.SetId(id);
    r := Success(used);
  }

  /**
   * `create_layer(LayerMold, ldir, thickness, layer)` up to the kernel: a
   * non-positive thickness or a mold without a sheet body raises the builder's
   * error; otherwise the layer is a lamina growing toward `ldir`, placed from
   * the height of the sheet (computed by the kernel) to that plus the
   * thickness, and gets the next layer id.
   */
  method CreateLayerFromMold(mb: ModelBuilder, moldIn: LayerMold, ldir: Direction, thickness: real, sheetZ: real,
                             layerOut: Layer) returns (r: Result<()>)
    modifies layerOut, mb`layerId
    ensures r.Success? <==> thickness > 0.0 && moldIn.body != NullHandle
    ensures r.Failure? ==> r.error == OperationFailed && unchanged(layerOut) && unchanged(mb)
    ensures r.Success? ==>
      (mb.layerId == old(mb.layerId) + 1 && layerOut.Thickness() == thickness &&
       layerOut.State() == old(layerOut.State()).(layerType := Lamina, direction := ldir, posOrig := sheetZ,
                                                  posOffset := sheetZ + thickness, id := old(mb.layerId)))
  {
    if thickness <= 0.0 {
      return Failure(OperationFailed);
    }
    if moldIn.body == NullHandle {
      return Failure(OperationFailed);
    }
    layerOut.SetType(Lamina);
    layerOut.SetDirection(ldir);
    layerOut.Position(sheetZ, sheetZ + thickness);
    var id := mb.NextLayerId();
    layerOut.SetId(id);
    r := Success(());
  }

  // adjacent_layers(layer, layer, file)

  /** What `adjacent_layers(file)` goes on to do with the profile it read. */
  datatype ProfileStep = Imprint(profile: seq<Point3>) | BondOnly

  /** The profile points of a CSV file as `read_csv_file` leaves them; `None` when the file cannot be read. */
  function CsvProfile(file: Option<seq<string>>, toReal: string -> real): Option<seq<Point3>>
  {
    if file.None? then None
    else Some(if |file.value| == 0 then [] else CsvPoints(file.value[1..], toReal))
  }

  /**
   * The profile check: no profile (or an empty one) raises the builder's
   * error; a profile whose first and last points differ falls back to bonding
   * without a delamination; a closed profile is imprinted.
   */
  function ProfileDecision(profile: Option<seq<Point3>>): (r: Result<ProfileStep>)
    ensures r.Failure? <==> profile.None? || |profile.value| == 0
    ensures r.Failure? ==> r.error == OperationFailed
    ensures r == Success(BondOnly) <==>
      profile.Some? && |profile.value| > 0 && PtNe(profile.value[0], profile.value[|profile.value| - 1])
    ensures r.Success? && r.value.Imprint? ==>
      r.value.profile == profile.value && PtEq(profile.value[0], profile.value[|profile.value| - 1])
  {
    if profile.None? || |profile.value| == 0 then Failure(OperationFailed)
    else if PtNe(profile.value[0], profile.value[|profile.value| - 1]) then Success(BondOnly)
    else Success(Imprint(profile.value))
  }

  /** Walking the profile the other way round does not change whether it is closed. */
  lemma ProfileDecisionReversed(pts: seq<Point3>)
    ensures ProfileDecision(Some(Sequences.Reversed(pts))).Success? == ProfileDecision(Some(pts)).Success?
    ensures ProfileDecision(Some(Sequences.Reversed(pts))) == Success(BondOnly) <==>
            ProfileDecision(Some(pts)) == Success(BondOnly)
  {
    var rev := Sequences.Reversed(pts);
    Sequences.ReversedLength(pts);
    if |pts| > 0 {
      Sequences.ReversedAt(pts, 0);
      Sequences.ReversedAt(pts, |pts| - 1);
      assert rev[0] == pts[|pts| - 1] && rev[|rev| - 1] == pts[0];
      PtEqReflexiveSymmetric(pts[0], pts[|pts| - 1]);
    }
  }

  /** The two reads of the closed-profile check, index 0 and index `size - 1`, lie inside an array of `size` points. */
  predicate ProfileEndsInBounds(size: int)
  {
    0 <= 0 < size && 0 <= size - 1 < size
  }

  /** The closed-profile check `delampts[0] != delampts[delampts_size - 1]`: whether the first and the last points differ. */
  method ProfileEndsDiffer(delampts: array<Point3>) returns (differ: bool)
    requires ProfileEndsInBounds(delampts.Length)
    ensures differ == PtNe(delampts[0], delampts[delampts.Length - 1])
  {
    differ := PtNe(delampts[0], delampts[delampts.Length - 1]);
  }

  /** `read_csv_file` reads ahead of the check, so the decision is the one for the file's profile. */
  method AdjacentLayersFromFile(file: Option<seq<string>>, toReal: string -> real) returns (r: Result<ProfileStep>)
    ensures r == ProfileDecision(CsvProfile(file, toReal))
  {
    var read := ReadCsvFile(file, toReal);
    if read.Failure? {
      return Failure(OperationFailed);
    }
    var delampts := read.value;
    if delampts.Length == 0 {
      return Failure(OperationFailed);
    }
    var differ := ProfileEndsDiffer(delampts);
    if differ {
      return Success(BondOnly);
    }
    r := Success(Imprint(delampts[..]));
  }

  /**
   * A CSV file with only its header line gives an empty point array, which
   * the source hands to the closed-profile check (the array pointer is not
   * null): that array does not meet `ProfileEndsDiffer`'s precondition, as
   * both its reads fall outside it.
   */
  lemma AsWrittenEmptyProfileReadsOutside(toReal: string -> real)
    ensures CsvProfile(Some(["x,y,z"]), toReal) == Some([])
    ensures !ProfileEndsInBounds(|CsvProfile(Some(["x,y,z"]), toReal).value|)
  {
    assert ["x,y,z"][1..] == [];
  }

  // convert_nurbs_to_face

  /** The surface's normal at `(u, v)` points downward, so the surface is transposed first. */
  ghost predicate NormalPointsDown(st: NurbsState, u: real, v: real)
    requires Consistent(st)
  {
    PreCalculate(st) && CheckUV(u, v, st.delta, true) && VZ(NormalSpec(Snapshot(st), u, v)) < 0.0
  }

  /** Copies one row of control points into the packed array from `start` on, leaving the entries before it alone. */
  method PackRow(row: seq<Point3>, packed: array<Point3>, start: nat)
    requires start + |row| <= packed.Length
    modifies packed
    ensures packed[..start] == old(packed[..start])
    ensures packed[start..start + |row|] == row
  {
    for j := 0 to |row|
      invariant packed[..start] == old(packed[..start])
      invariant packed[start..start + j] == row[..j]
    {
      packed[start + j] := row[j];
    }
  }

  /** The control points row by row, the `v` index varying first, as the kernel expects them. */
  method PackCtrlPts(g: seq<seq<Point3>>, nu: nat, nv: nat) returns (packed: array<Point3>)
    requires IsGrid(g, nu, nv)
    ensures fresh(packed) && packed.Length == nu * nv
    ensures packed[..] == Flatten(g)
  {
    FlattenLength(g, nu, nv);
    packed := new Point3[nu * nv];
    var poscnt := 0;
    for i := 0 to nu
      invariant poscnt == i * nv
      invariant packed[..poscnt] == Flatten(g[..i])
    {
      MulStep(i + 1, nv);
      MulMonotone(i + 1, nu, nv);
      PackRow(g[i], packed, poscnt);
      FlattenSnoc(g[..i], g[i]);
      assert g[..i + 1] == g[..i] + [g[i]];
      assert packed[..poscnt + nv] == packed[..poscnt] + packed[poscnt..poscnt + nv];
      poscnt := poscnt + nv;
    }
    assert g[..nu] == g;
    assert packed[..] == packed[..poscnt];
  }

  /** The position of entry `(i, j)` in a row-major layout with `nv` entries per row: `i * nv + j`. */
  function RowMajor(i: nat, j: nat, nv: nat): nat
  {
    i * nv + j
  }

  /** Entry `(i, j)` of the grid sits at `i * nv + j` of the layout the kernel is given. */
  lemma FlattenIndexed(g: seq<seq<Point3>>, nu: nat, nv: nat)
    requires IsGrid(g, nu, nv)
    ensures forall i, j :: 0 <= i < nu && 0 <= j < nv ==>
      RowMajor(i, j, nv) < |Flatten(g)| && Flatten(g)[RowMajor(i, j, nv)] == g[i][j]
  {
    forall i, j | 0 <= i < nu && 0 <= j < nv
      ensures RowMajor(i, j, nv) < |Flatten(g)| && Flatten(g)[RowMajor(i, j, nv)] == g[i][j]
    {
      FlattenAt(g, nu, nv, i, j);
    }
  }

  /**
   * `convert_nurbs_to_face` up to the kernel: the surface is transposed when
   * its normal at the builder's `(u, v)` has a negative z component (a failed
   * normal evaluation leaves the zero vector, so nothing is transposed), and
   * its control points are then packed row by row.
   */
  method ConvertNurbsToFace(nurbs: Nurbs, uPos: real, vPos: real) returns (packed: array<Point3>)
    requires nurbs.Valid() && Consistent(nurbs.State())
    modifies nurbs
    ensures nurbs.Valid()
    ensures nurbs.State() ==
      if NormalPointsDown(old(nurbs.State()), uPos, vPos) then TransposedState(old(nurbs.State())) else old(nurbs.State())
    ensures fresh(packed) && packed.Length == nurbs.numCtrlPtsU * nurbs.numCtrlPtsV
    ensures packed[..] == Flatten(nurbs.ctrlPts2D)
  {
    var ok, surfNormal := nurbs.Normal(uPos, vPos, ZeroVector());
    if VZ(surfNormal) < 0.0 {
      var _ := nurbs.Transpose();
    }
    packed := PackCtrlPts(nurbs.ctrlPts2D, nurbs.numCtrlPtsU, nurbs.numCtrlPtsV);
  }
}
