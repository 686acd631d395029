// The part of the model builder that does not call the solid modeller: the
// mapping from geometric region types to boundary conditions, the face
// adjacency list built between two bonded layers, the list of layers handed
// to the modeller on save and the body names returned with it, and the
// builder's own settings and counters.
module Builder {
  import opened Wrappers
  import opened PointVector
  import opened ApiConfig
  import opened Layers

  // Boundary-condition mapping

  /** The boundary condition a user request stands for; a cohesive-layer request stands for none. */
  function StatusBC(s: BCStatus): (r: Option<DelaminationType>)
    ensures r.None? <==> s == IsCohesiveLayer
    ensures r != Some(NoDelam)
  {
    match s
    case IsContact => Some(Contact)
    case IsNone => Some(NoModel)
    case IsCohesive => Some(Cohesive)
    case IsTie => Some(Tie)
    case IsCohesiveLayer => None
  }

  /** The request that yields a boundary condition; the side-face marker is never requested. */
  function RequestFor(t: DelaminationType): (r: Option<BCStatus>)
    ensures r.None? <==> t == NoDelam
    ensures r.Some? ==> StatusBC(r.value) == Some(t)
    ensures forall s :: StatusBC(s) == Some(t) ==> r == Some(s)
  {
    match t
    case Contact => Some(IsContact)
    case NoModel => Some(IsNone)
    case Cohesive => Some(IsCohesive)
    case Tie => Some(IsTie)
    case NoDelam => None
  }

  /**
   * The boundary condition written between a surface whose region type is
   * `delam` and its pair: the bonded surroundings follow `dflt`, the
   * delamination region follows `region`, the ring just inside the
   * delamination boundary follows `ring`, side faces pass through. `None` is
   * the error path.
   */
  function MapBC(delam: DelaminationType, dflt: BCStatus, region: BCStatus, ring: BCStatus): (r: Option<DelaminationType>)
  {
    match delam
    case Cohesive =>
      if dflt == IsCohesive then Some(Cohesive) else if dflt == IsTie then Some(Tie) else None
    case NoDelam => Some(NoDelam)
    case NoModel => StatusBC(ring)
    case Contact => StatusBC(region)
    case Tie => None
  }

  /**
   * The mapping follows the requests: only side faces get `NoDelam`; a tie
   * region type is an error; the surroundings may only ask for cohesive or tie;
   * the region and the ring get exactly the condition requested, and an error
   * only when a cohesive layer is requested.
   */
  lemma MapBCFollowsRequests(delam: DelaminationType, dflt: BCStatus, region: BCStatus, ring: BCStatus)
    ensures MapBC(delam, dflt, region, ring) == Some(NoDelam) <==> delam == NoDelam
    ensures delam == Tie ==> MapBC(delam, dflt, region, ring).None?
    ensures delam == Cohesive ==> (MapBC(delam, dflt, region, ring).Some? <==> dflt == IsCohesive || dflt == IsTie)
    ensures delam == Cohesive && MapBC(delam, dflt, region, ring).Some? ==>
      RequestFor(MapBC(delam, dflt, region, ring).value) == Some(dflt)
    ensures delam == Contact ==> (MapBC(delam, dflt, region, ring).Some? <==> region != IsCohesiveLayer)
    ensures delam == Contact && MapBC(delam, dflt, region, ring).Some? ==>
      RequestFor(MapBC(delam, dflt, region, ring).value) == Some(region)
    ensures delam == NoModel ==> (MapBC(delam, dflt, region, ring).Some? <==> ring != IsCohesiveLayer)
    ensures delam == NoModel && MapBC(delam, dflt, region, ring).Some? ==>
      RequestFor(MapBC(delam, dflt, region, ring).value) == Some(ring)
  {
  }

  // The adjacency list, on values

  /** What the generation reads of the pair of an orig-side surface: its body's name, that body's layer type, its point and normal. */
  datatype PairView = PairView(bodyName: Option<string>, layerType: Option<LayerType>,
                               point: Point3, normal: Point3, stiffenerPaired: bool)

  /** One surface of a body of the orig layer, with the name of the body that holds it. */
  datatype Candidate = Candidate(bodyName: Option<string>, direction: Direction, delamType: DelaminationType,
                                 point: Point3, normal: Point3, stiffenerPaired: bool,
                                 pair: Option<PairView>)

  /** An offset-side surface paired with a surface of a lamina layer. */
  predicate Relevant(c: Candidate)
  {
    c.direction == Offset && c.pair.Some? && c.pair.value.layerType == Some(Lamina)
  }

  /** A relevant surface whose region type has no boundary condition under the requests. */
  predicate Unmappable(c: Candidate, dflt: BCStatus, region: BCStatus, ring: BCStatus)
  {
    Relevant(c) && MapBC(c.delamType, dflt, region, ring).None?
  }

  /** A surface or its pair lies against a stiffener. */
  predicate Excluded(c: Candidate)
  {
    c.stiffenerPaired || (c.pair.Some? && c.pair.value.stiffenerPaired)
  }

  function Entry(c: Candidate, bc: DelaminationType): Adjacency
    requires c.pair.Some?
  {
    Adjacency(c.bodyName, c.point, c.normal, c.pair.value.bodyName, c.pair.value.point, c.pair.value.normal, bc)
  }

  /** One surface visited: skipped, rejected with the error, excluded against a stiffener, or appended. */
  function Visit(acc: seq<Adjacency>, c: Candidate, dflt: BCStatus, region: BCStatus, ring: BCStatus): Result<seq<Adjacency>>
  {
    if !Relevant(c) then Success(acc)
    else match MapBC(c.delamType, dflt, region, ring)
      case None => Failure(OperationFailed)
      case Some(bc) => if Excluded(c) then Success(acc) else Success(acc + [Entry(c, bc)])
  }

  /** The adjacency list as the loops build it, in visiting order; the first error ends it. */
  function AdjacencyList(cs: seq<Candidate>, dflt: BCStatus, region: BCStatus, ring: BCStatus): Result<seq<Adjacency>>
  {
    if |cs| == 0 then Success([])
    else match AdjacencyList(cs[..|cs| - 1], dflt, region, ring)
      case Failure(e) => Failure(e)
      case Success(acc) => Visit(acc, cs[|cs| - 1], dflt, region, ring)
  }

  /** The reference: one entry per relevant, mappable surface not lying against a stiffener. */
  function Emitted(cs: seq<Candidate>, dflt: BCStatus, region: BCStatus, ring: BCStatus): seq<Adjacency>
  {
    if |cs| == 0 then []
    else
      var c := cs[0];
      var bc := MapBC(c.delamType, dflt, region, ring);
      (if Relevant(c) && !Excluded(c) && bc.Some? then [Entry(c, bc.value)] else [])
      + Emitted(cs[1..], dflt, region, ring)
  }

  lemma {:induction false} EmittedAppend(a: seq<Candidate>, b: seq<Candidate>, dflt: BCStatus, region: BCStatus, ring: BCStatus)
    ensures Emitted(a + b, dflt, region, ring) == Emitted(a, dflt, region, ring) + Emitted(b, dflt, region, ring)
  {
    if |a| == 0 {
      assert a + b == b;
    } else {
      assert (a + b)[0] == a[0];
      assert (a + b)[1..] == a[1..] + b;
      EmittedAppend(a[1..], b, dflt, region, ring);
    }
  }

  /** Visiting a surface that can be mapped appends its reference entries. */
  lemma VisitEmitted(acc: seq<Adjacency>, c: Candidate, dflt: BCStatus, region: BCStatus, ring: BCStatus)
    requires !Unmappable(c, dflt, region, ring)
    ensures Visit(acc, c, dflt, region, ring) == Success(acc + Emitted([c], dflt, region, ring))
  {
    assert [c][1..] == [];
    assert Emitted([c][1..], dflt, region, ring) == [];
    var bc := MapBC(c.delamType, dflt, region, ring);
    assert Emitted([c], dflt, region, ring) ==
      (if Relevant(c) && !Excluded(c) && bc.Some? then [Entry(c, bc.value)] else []) + [];
    if Relevant(c) && !Excluded(c) {
      assert [Entry(c, bc.value)] + [] == [Entry(c, bc.value)];
    } else {
      assert acc + [] == acc;
    }
  }

  /**
   * The generation fails, with the builder's error, exactly when some relevant
   * surface cannot be mapped; otherwise its list is the reference list.
   */
  lemma {:induction false} AdjacencyListCharacterised(cs: seq<Candidate>, dflt: BCStatus, region: BCStatus, ring: BCStatus)
    ensures AdjacencyList(cs, dflt, region, ring) ==
      if exists i :: 0 <= i < |cs| && Unmappable(cs[i], dflt, region, ring) then Failure(OperationFailed)
      else Success(Emitted(cs, dflt, region, ring))
  {
    if exists i :: 0 <= i < |cs| && Unmappable(cs[i], dflt, region, ring) {
      var i :| 0 <= i < |cs| && Unmappable(cs[i], dflt, region, ring);
      UnmappableFails(cs, i, dflt, region, ring);
    } else {
      MappableEmits(cs, dflt, region, ring);
    }
  }

  /** The only error the generation raises is the builder's. */
  lemma {:induction false} FailureIsOperationFailed(cs: seq<Candidate>, dflt: BCStatus, region: BCStatus, ring: BCStatus)
    ensures AdjacencyList(cs, dflt, region, ring).Failure? ==> AdjacencyList(cs, dflt, region, ring) == Failure(OperationFailed)
  {
    if |cs| > 0 {
      FailureIsOperationFailed(cs[..|cs| - 1], dflt, region, ring);
    }
  }

  /** An unmappable surface makes the generation fail. */
  lemma {:induction false} UnmappableFails(cs: seq<Candidate>, i: nat, dflt: BCStatus, region: BCStatus, ring: BCStatus)
    requires i < |cs| && Unmappable(cs[i], dflt, region, ring)
    ensures AdjacencyList(cs, dflt, region, ring) == Failure(OperationFailed)
  {
    var init := cs[..|cs| - 1];
    if i < |init| {
      assert init[i] == cs[i];
      UnmappableFails(init, i, dflt, region, ring);
    } else {
      FailureIsOperationFailed(init, dflt, region, ring);
    }
  }

  /** Without an unmappable surface the generation gives the reference list. */
  lemma {:induction false} MappableEmits(cs: seq<Candidate>, dflt: BCStatus, region: BCStatus, ring: BCStatus)
    requires forall i :: 0 <= i < |cs| ==> !Unmappable(cs[i], dflt, region, ring)
    ensures AdjacencyList(cs, dflt, region, ring) == Success(Emitted(cs, dflt, region, ring))
  {
    if |cs| > 0 {
      var init, c := cs[..|cs| - 1], cs[|cs| - 1];
      assert cs == init + [c];
      assert forall i :: 0 <= i < |init| ==> init[i] == cs[i];
      MappableEmits(init, dflt, region, ring);
      EmittedAppend(init, [c], dflt, region, ring);
      VisitEmitted(Emitted(init, dflt, region, ring), c, dflt, region, ring);
    }
  }

  /**
   * With the requests the single-outline overloads pass (cohesive surroundings,
   * no-model ring), the generation fails exactly when a relevant surface has the
   * tie region type, or lies in the delamination region while that asks for a
   * cohesive layer.
   */
  lemma DefaultRequestsFailure(cs: seq<Candidate>, region: BCStatus)
    ensures AdjacencyList(cs, IsCohesive, region, IsNone).Failure? <==>
      exists i :: 0 <= i < |cs| && Relevant(cs[i]) &&
        (cs[i].delamType == Tie || (cs[i].delamType == Contact && region == IsCohesiveLayer))
  {
    AdjacencyListCharacterised(cs, IsCohesive, region, IsNone);
  }

  /** A failure stays the result whatever surfaces come after it. */
  lemma {:induction false} FailurePersists(p: seq<Candidate>, q: seq<Candidate>, dflt: BCStatus, region: BCStatus, ring: BCStatus)
    requires p <= q && AdjacencyList(p, dflt, region, ring).Failure?
    ensures AdjacencyList(q, dflt, region, ring) == AdjacencyList(p, dflt, region, ring)
  {
    if |q| > |p| {
      assert p <= q[..|q| - 1];
      FailurePersists(p, q[..|q| - 1], dflt, region, ring);
    } else {
      assert p == q;
    }
  }

  // The adjacency list, as the loops read it from the layers

  ghost function PairViewOf(p: LayerSurface): PairView
    reads *
  {
    PairView(if p.owner == null then None else p.owner.name,
             if p.owner == null || p.owner.owner == null then None else Some(p.owner.owner.layerType),
             p.point, p.normal, p.stiffenerPaired)
  }

  ghost function CandidateOf(b: LayerBody, s: LayerSurface): Candidate
    reads *
  {
    Candidate(b.name, s.direction, s.delamType, s.point, s.normal, s.stiffenerPaired,
              if s.pair == null then None else Some(PairViewOf(s.pair)))
  }

  ghost function BodyCandidates(b: LayerBody, ss: seq<LayerSurface>): seq<Candidate>
    reads *
  {
    if |ss| == 0 then [] else BodyCandidates(b, ss[..|ss| - 1]) + [CandidateOf(b, ss[|ss| - 1])]
  }

  /** The surfaces of the orig layer in visiting order: body by body, surface by surface. */
  ghost function Candidates(bodies: seq<LayerBody>): seq<Candidate>
    reads *
  {
    if |bodies| == 0 then []
    else Candidates(bodies[..|bodies| - 1]) + BodyCandidates(bodies[|bodies| - 1], bodies[|bodies| - 1].surfaces)
  }

  /**
   * What the generation dereferences exists: the pair of an offset-side surface
   * has an owning body in a layer, and when that layer is a lamina both body
   * names are set.
   */
  ghost predicate Linked(b: LayerBody, s: LayerSurface)
    reads *
  {
    s.direction == Offset && s.pair != null ==>
      s.pair.owner != null && s.pair.owner.owner != null &&
      (s.pair.owner.owner.layerType == Lamina ==> b.name.Some? && s.pair.owner.name.Some?)
  }

  ghost predicate WellLinked(layer: Layer)
    reads *
  {
    forall k, j :: 0 <= k < |layer.bodies| && 0 <= j < |layer.bodies[k].surfaces| ==>
      Linked(layer.bodies[k], layer.bodies[k].surfaces[j])
  }

  lemma {:induction false} BodyCandidatesPrefix(b: LayerBody, ss: seq<LayerSurface>, j: nat)
    requires j <= |ss|
    ensures BodyCandidates(b, ss[..j]) <= BodyCandidates(b, ss)
  {
    if j < |ss| {
      assert ss[..|ss| - 1][..j] == ss[..j];
      BodyCandidatesPrefix(b, ss[..|ss| - 1], j);
    } else {
      assert ss[..j] == ss;
    }
  }

  lemma {:induction false} CandidatesPrefix(bodies: seq<LayerBody>, i: nat)
    requires i <= |bodies|
    ensures Candidates(bodies[..i]) <= Candidates(bodies)
  {
    if i < |bodies| {
      assert bodies[..|bodies| - 1][..i] == bodies[..i];
      CandidatesPrefix(bodies[..|bodies| - 1], i);
    } else {
      assert bodies[..i] == bodies;
    }
  }

  /** What visiting one surface does, read off the layer structure. */
  lemma VisitSurface(b: LayerBody, s: LayerSurface, out: seq<Adjacency>, dflt: BCStatus, region: BCStatus, ring: BCStatus)
    requires Linked(b, s)
    ensures Visit(out, CandidateOf(b, s), dflt, region, ring) ==
      if s.direction == Offset && s.pair != null && s.pair.owner.owner.layerType == Lamina then
        match MapBC(s.delamType, dflt, region, ring)
        case None => Failure(OperationFailed)
        case Some(bc) =>
          if s.stiffenerPaired || s.pair.stiffenerPaired then Success(out)
          else Success(out + [Adjacency(b.name, s.point, s.normal, s.pair.owner.name, s.pair.point, s.pair.normal, bc)])
      else Success(out)
  {
  }

  /** The list one candidate further: the visit of that candidate, unless the list failed already. */
  lemma AdjacencyListSnoc(cs: seq<Candidate>, c: Candidate, acc: seq<Adjacency>, dflt: BCStatus, region: BCStatus, ring: BCStatus)
    requires AdjacencyList(cs, dflt, region, ring) == Success(acc)
    ensures AdjacencyList(cs + [c], dflt, region, ring) == Visit(acc, c, dflt, region, ring)
  {
    assert (cs + [c])[..|cs|] == cs;
  }

  /** One pass of the inner loop: the visit of surface `s` of body `b`. */
  method GenerateSurface(b: LayerBody, s: LayerSurface, acc: seq<Adjacency>, dflt: BCStatus, region: BCStatus, ring: BCStatus)
    returns (r: Result<seq<Adjacency>>)
    requires Linked(b, s)
    ensures r == Visit(acc, CandidateOf(b, s), dflt, region, ring)
  {
    VisitSurface(b, s, acc, dflt, region, ring);
    r := Success(acc);
    if s.direction == Offset && s.pair != null && s.pair.owner.owner.layerType == Lamina {
      var p := s.pair;
      var bc := MapBC(s.delamType, dflt, region, ring);
      if bc.None? {
        r := Failure(OperationFailed);
      } else if !(s.stiffenerPaired || p.stiffenerPaired) {
        r := Success(acc + [Adjacency(b.name, s.point, s.normal, p.owner.name, p.point, p.normal, bc.value)]);
      }
    }
  }

  /** The candidates of one more surface are those before it and then its own. */
  lemma BodyCandidatesSnoc(seen: seq<Candidate>, b: LayerBody, ss: seq<LayerSurface>, j: nat)
    requires j < |ss|
    ensures seen + BodyCandidates(b, ss[..j + 1]) == (seen + BodyCandidates(b, ss[..j])) + [CandidateOf(b, ss[j])]
  {
    assert ss[..j + 1][..j] == ss[..j];
  }

  /** One surface further: the list is the visit of that surface. */
  lemma BodyStep(seen: seq<Candidate>, b: LayerBody, ss: seq<LayerSurface>, j: nat, acc: seq<Adjacency>,
                 dflt: BCStatus, region: BCStatus, ring: BCStatus)
    requires j < |ss|
    requires AdjacencyList(seen + BodyCandidates(b, ss[..j]), dflt, region, ring) == Success(acc)
    ensures AdjacencyList(seen + BodyCandidates(b, ss[..j + 1]), dflt, region, ring) == Visit(acc, CandidateOf(b, ss[j]), dflt, region, ring)
  {
    BodyCandidatesSnoc(seen, b, ss, j);
    AdjacencyListSnoc(seen + BodyCandidates(b, ss[..j]), CandidateOf(b, ss[j]), acc, dflt, region, ring);
  }

  /** A failure at a surface is the failure of the whole body. */
  lemma BodyStepFails(seen: seq<Candidate>, b: LayerBody, ss: seq<LayerSurface>, j: nat, r: Result<seq<Adjacency>>,
                      dflt: BCStatus, region: BCStatus, ring: BCStatus)
    requires j < |ss| && r.Failure?
    requires AdjacencyList(seen + BodyCandidates(b, ss[..j + 1]), dflt, region, ring) == r
    ensures AdjacencyList(seen + BodyCandidates(b, ss), dflt, region, ring) == r
  {
    BodyCandidatesPrefix(b, ss, j + 1);
    FailurePersists(seen + BodyCandidates(b, ss[..j + 1]), seen + BodyCandidates(b, ss), dflt, region, ring);
  }

  /** One pass of the inner loop, surface `j` of the list `ss` of body `b`. */
  method GenerateBodyStep(b: LayerBody, ss: seq<LayerSurface>, j: nat, ghost seen: seq<Candidate>, acc: seq<Adjacency>,
                          dflt: BCStatus, region: BCStatus, ring: BCStatus)
    returns (r: Result<seq<Adjacency>>)
    requires j < |ss| && Linked(b, ss[j])
    requires AdjacencyList(seen + BodyCandidates(b, ss[..j]), dflt, region, ring) == Success(acc)
    ensures r == AdjacencyList(seen + BodyCandidates(b, ss[..j + 1]), dflt, region, ring)
    ensures r.Failure? ==> r == AdjacencyList(seen + BodyCandidates(b, ss), dflt, region, ring)
  {
    BodyStep(seen, b, ss, j, acc, dflt, region, ring);
    r := GenerateSurface(b, ss[j], acc, dflt, region, ring);
    if r.Failure? {
      BodyStepFails(seen, b, ss, j, r, dflt, region, ring);
    }
  }

  /** The inner loop: the surfaces of one body, after the candidates `seen` gave `out`. */
  method GenerateBody(b: LayerBody, ghost seen: seq<Candidate>, out: seq<Adjacency>,
                      dflt: BCStatus, region: BCStatus, ring: BCStatus)
    returns (r: Result<seq<Adjacency>>)
    requires forall j :: 0 <= j < |b.surfaces| ==> Linked(b, b.surfaces[j])
    requires AdjacencyList(seen, dflt, region, ring) == Success(out)
    ensures r == AdjacencyList(seen + BodyCandidates(b, b.surfaces), dflt, region, ring)
  {
    var ss := b.surfaces;
    var acc := out;
    assert seen + BodyCandidates(b, ss[..0]) == seen;
    for j := 0 to |ss|
      invariant AdjacencyList(seen + BodyCandidates(b, ss[..j]), dflt, region, ring) == Success(acc)
    {
      var step := GenerateBodyStep(b, ss, j, seen, acc, dflt, region, ring);
      if step.Failure? {
        return step;
      }
      acc := step.value;
    }
    assert ss[..|ss|] == ss;
    r := Success(acc);
  }

  /** One body further: its candidates follow those before it, and a failure there is the failure of the whole layer. */
  lemma LayerStep(bodies: seq<LayerBody>, i: nat, dflt: BCStatus, region: BCStatus, ring: BCStatus)
    requires i < |bodies|
    ensures Candidates(bodies[..i + 1]) == Candidates(bodies[..i]) + BodyCandidates(bodies[i], bodies[i].surfaces)
    ensures AdjacencyList(Candidates(bodies[..i + 1]), dflt, region, ring).Failure? ==>
      AdjacencyList(Candidates(bodies), dflt, region, ring) == AdjacencyList(Candidates(bodies[..i + 1]), dflt, region, ring)
  {
    assert bodies[..i + 1][..i] == bodies[..i];
    if AdjacencyList(Candidates(bodies[..i + 1]), dflt, region, ring).Failure? {
      CandidatesPrefix(bodies, i + 1);
      FailurePersists(Candidates(bodies[..i + 1]), Candidates(bodies), dflt, region, ring);
    }
  }

  /** One pass of the outer loop, body `i` of the orig layer. */
  method GenerateLayerStep(layerOrig: Layer, i: nat, out: seq<Adjacency>, dflt: BCStatus, region: BCStatus, ring: BCStatus)
    returns (r: Result<seq<Adjacency>>)
    requires WellLinked(layerOrig) && i < |layerOrig.bodies|
    requires AdjacencyList(Candidates(layerOrig.bodies[..i]), dflt, region, ring) == Success(out)
    ensures r == AdjacencyList(Candidates(layerOrig.bodies[..i + 1]), dflt, region, ring)
    ensures r.Failure? ==> r == AdjacencyList(Candidates(layerOrig.bodies), dflt, region, ring)
  {
    var b := layerOrig.bodies[i];
    LayerStep(layerOrig.bodies, i, dflt, region, ring);
    r := GenerateBody(b, Candidates(layerOrig.bodies[..i]), out, dflt, region, ring);
  }

  /**
   * `generate_adjacency_list`: visits every surface of every body of the orig
   * layer; an offset-side surface whose pair belongs to a lamina gets its
   * boundary condition mapped (an unmappable one raises the error) and, unless
   * either surface lies against a stiffener, an entry naming both bodies. The
   * offset layer is not read.
   */
  method GenerateAdjacencyList(layerOrig: Layer, layerOffset: Layer, dflt: BCStatus, region: BCStatus, ring: BCStatus)
    returns (r: Result<seq<Adjacency>>)
    requires WellLinked(layerOrig)
    ensures r == AdjacencyList(Candidates(layerOrig.bodies), dflt, region, ring)
  {
    var bodies := layerOrig.bodies;
    var out: seq<Adjacency> := [];
    for i := 0 to |bodies|
      invariant AdjacencyList(Candidates(bodies[..i]), dflt, region, ring) == Success(out)
    {
      var step := GenerateLayerStep(layerOrig, i, out, dflt, region, ring);
      if step.Failure? {
        return step;
      }
      out := step.value;
    }
    assert bodies[..|bodies|] == bodies;
    r := Success(out);
  }

  /**
   * `adjacent_layers` with one outline or none: after the imprint, which is not
   * modelled, the list is generated with cohesive surroundings and a no-model ring.
   */
  method AdjacentLayers(layerOrig: Layer, layerOffset: Layer, region: BCStatus) returns (r: Result<seq<Adjacency>>)
    requires WellLinked(layerOrig)
    ensures r == AdjacencyList(Candidates(layerOrig.bodies), IsCohesive, region, IsNone)
    ensures r.Failure? <==>
      (exists i :: 0 <= i < |Candidates(layerOrig.bodies)| && Relevant(Candidates(layerOrig.bodies)[i]) &&
                   (Candidates(layerOrig.bodies)[i].delamType == Tie ||
                    (Candidates(layerOrig.bodies)[i].delamType == Contact && region == IsCohesiveLayer)))
  {
    r := GenerateAdjacencyList(layerOrig, layerOffset, IsCohesive, region, IsNone);
    DefaultRequestsFailure(Candidates(layerOrig.bodies), region);
  }

  // Decimal text of a counter

  function Digit(d: nat): char
    requires d < 10
  {
    ('0' as int + d) as char
  }

  /** `std::to_string` of a non-negative counter. */
  function NatToString(n: nat): (s: string)
    ensures |s| > 0
    ensures forall k :: 0 <= k < |s| ==> '0' <= s[k] <= '9'
  {
    if n < 10 then [Digit(n)] else NatToString(n / 10) + [Digit(n % 10)]
  }

  function DigitsValue(s: string): nat
  {
    if |s| == 0 then 0
    else
      var c := s[|s| - 1];
      10 * DigitsValue(s[..|s| - 1]) + (if '0' <= c <= '9' then c as int - '0' as int else 0)
  }

  /** Reading the decimal text back gives the counter. */
  lemma {:induction false} NatToStringRoundTrip(n: nat)
    ensures DigitsValue(NatToString(n)) == n
  {
    if n >= 10 {
      var s := NatToString(n / 10);
      NatToStringRoundTrip(n / 10);
      assert (s + [Digit(n % 10)])[..|s|] == s;
    }
  }

  /** Distinct counters give distinct generated shell body names. */
  lemma ShellBodyNamesDistinct(j: nat, k: nat)
    requires j != k
    ensures "ShellBody" + NatToString(j) != "ShellBody" + NatToString(k)
  {
    NatToStringRoundTrip(j);
    NatToStringRoundTrip(k);
    var a, b := "ShellBody" + NatToString(j), "ShellBody" + NatToString(k);
    assert a[9..] == NatToString(j) && b[9..] == NatToString(k);
    assert a[9..] != b[9..];
  }

  // Body names returned with a save

  ghost predicate AllNamed(layers: seq<Layer>)
    reads *
  {
    forall i, k :: 0 <= i < |layers| && 0 <= k < |layers[i].bodies| ==> layers[i].bodies[k].name.Some?
  }

  ghost function LayerBodyNames(bodies: seq<LayerBody>): seq<string>
    requires forall k :: 0 <= k < |bodies| ==> bodies[k].name.Some?
    reads bodies
  {
    if |bodies| == 0 then [] else LayerBodyNames(bodies[..|bodies| - 1]) + [bodies[|bodies| - 1].name.value]
  }

  /** The names of the layer bodies, layer by layer, in list order. */
  ghost function BodyNames(layers: seq<Layer>): seq<string>
    requires AllNamed(layers)
    reads *
  {
    if |layers| == 0 then []
    else
      var last := layers[|layers| - 1];
      assert forall k :: 0 <= k < |last.bodies| ==> last.bodies[k].name.Some?;
      BodyNames(layers[..|layers| - 1]) + LayerBodyNames(last.bodies)
  }

  /** The number of bodies of each layer. */
  ghost function BodyCounts(layers: seq<Layer>): (counts: seq<nat>)
    reads layers
    ensures |counts| == |layers|
  {
    if |layers| == 0 then [] else BodyCounts(layers[..|layers| - 1]) + [|layers[|layers| - 1].bodies|]
  }

  function Sum(counts: seq<nat>): nat
  {
    if |counts| == 0 then 0 else Sum(counts[..|counts| - 1]) + counts[|counts| - 1]
  }

  lemma {:induction false} LayerBodyNamesCount(bodies: seq<LayerBody>)
    requires forall k :: 0 <= k < |bodies| ==> bodies[k].name.Some?
    ensures |LayerBodyNames(bodies)| == |bodies|
    ensures forall k :: 0 <= k < |bodies| ==> LayerBodyNames(bodies)[k] == bodies[k].name.value
  {
    if |bodies| > 0 {
      LayerBodyNamesCount(bodies[..|bodies| - 1]);
    }
  }

  lemma AllNamedPrefix(layers: seq<Layer>, p: seq<Layer>)
    requires AllNamed(layers) && p <= layers
    ensures AllNamed(p)
  {
    forall i, k | 0 <= i < |p| && 0 <= k < |p[i].bodies|
      ensures p[i].bodies[k].name.Some?
    {
      assert p[i] == layers[i];
    }
  }

  /** One name per layer body: as many names as the body counts add up to. */
  lemma {:induction false} BodyNamesCount(layers: seq<Layer>)
    requires AllNamed(layers)
    ensures |BodyNames(layers)| == Sum(BodyCounts(layers))
  {
    if |layers| > 0 {
      var init := layers[..|layers| - 1];
      AllNamedPrefix(layers, init);
      BodyNamesCount(init);
      var last := layers[|layers| - 1];
      assert forall k :: 0 <= k < |last.bodies| ==> last.bodies[k].name.Some?;
      LayerBodyNamesCount(last.bodies);
      assert BodyCounts(layers)[..|layers| - 1] == BodyCounts(init);
    }
  }

  /** The inner loop of the name collection: the names of one layer's bodies. */
  method AppendLayerBodyNames(bodies: seq<LayerBody>, names: seq<string>) returns (out: seq<string>)
    requires forall k :: 0 <= k < |bodies| ==> bodies[k].name.Some?
    ensures out == names + LayerBodyNames(bodies)
  {
    out := names;
    var k := 0;
    while k < |bodies|
      invariant 0 <= k <= |bodies|
      invariant out == names + LayerBodyNames(bodies[..k])
    {
      assert bodies[..k + 1][..k] == bodies[..k];
      out := out + [bodies[k].name.value];
      k := k + 1;
    }
    assert bodies[..k] == bodies;
  }

  /** One layer further: its bodies' names follow those of the layers before it. */
  lemma BodyNamesStep(layers: seq<Layer>, i: nat)
    requires AllNamed(layers) && i < |layers|
    ensures AllNamed(layers[..i]) && AllNamed(layers[..i + 1])
    ensures forall k :: 0 <= k < |layers[i].bodies| ==> layers[i].bodies[k].name.Some?
    ensures BodyNames(layers[..i + 1]) == BodyNames(layers[..i]) + LayerBodyNames(layers[i].bodies)
  {
    AllNamedPrefix(layers, layers[..i]);
    AllNamedPrefix(layers, layers[..i + 1]);
    assert layers[..i + 1][..i] == layers[..i];
  }

  /** Appends the names of the layer bodies to `names`, as every save overload that returns names does. */
  method CollectBodyNames(layers: seq<Layer>, names: seq<string>) returns (out: seq<string>)
    requires AllNamed(layers)
    ensures out == names + BodyNames(layers)
  {
    out := names;
    for i := 0 to |layers|
      invariant AllNamed(layers[..i])
      invariant out == names + BodyNames(layers[..i])
    {
      BodyNamesStep(layers, i);
      out := AppendLayerBodyNames(layers[i].bodies, out);
    }
    assert layers[..|layers|] == layers;
  }

  /** The name saved for shell body number `k`: its own, or a generated one when it has none. */
  function ShellName(name: Option<string>, k: nat): string
  {
    if name.Some? then name.value else "ShellBody" + NatToString(k)
  }

  ghost function ShellNames(shells: seq<MBBody>): seq<string>
    reads shells
  {
    if |shells| == 0 then [] else ShellNames(shells[..|shells| - 1]) + [ShellName(shells[|shells| - 1].name, |shells| - 1)]
  }

  /** Shell body `k` is saved under its own name or as `ShellBody<k>`; unnamed shells get distinct names. */
  lemma {:induction false} ShellNamesAt(shells: seq<MBBody>)
    ensures |ShellNames(shells)| == |shells|
    ensures forall k :: 0 <= k < |shells| ==> ShellNames(shells)[k] == ShellName(shells[k].name, k)
    ensures forall j, k :: 0 <= j < k < |shells| && shells[j].name.None? && shells[k].name.None? ==>
      ShellNames(shells)[j] != ShellNames(shells)[k]
  {
    if |shells| > 0 {
      ShellNamesAt(shells[..|shells| - 1]);
    }
    forall j, k | 0 <= j < k < |shells| && shells[j].name.None? && shells[k].name.None?
      ensures ShellNames(shells)[j] != ShellNames(shells)[k]
    {
      ShellBodyNamesDistinct(j, k);
    }
  }

  /** Appends the saved names of the shell bodies, counting every shell, named or not. */
  method CollectShellNames(shells: seq<MBBody>, names: seq<string>) returns (out: seq<string>)
    ensures out == names + ShellNames(shells)
  {
    out := names;
    var bodyNum := 0;
    while bodyNum < |shells|
      invariant 0 <= bodyNum <= |shells|
      invariant out == names + ShellNames(shells[..bodyNum])
    {
      var body := shells[bodyNum];
      assert shells[..bodyNum + 1][..bodyNum] == shells[..bodyNum];
      if body.name.Some? {
        out := out + [body.name.value];
      } else {
        out := out + ["ShellBody" + NatToString(bodyNum)];
      }
      bodyNum := bodyNum + 1;
    }
    assert shells[..bodyNum] == shells;
  }

  // The name array of `save(file, char**&, int&)`

  /** The index at which body `k` of layer `i` is written: one running counter over all layer bodies. */
  function WriteIndex(counts: seq<nat>, i: nat, k: nat): nat
    requires i <= |counts|
  {
    Sum(counts[..i]) + k
  }

  /**
   * As written, the array is sized by the number of layers while one entry is
   * written per layer body, layer by layer.
   */
  predicate AsWrittenWritesInBounds(counts: seq<nat>)
  {
    forall i, k :: 0 <= i < |counts| && 0 <= k < counts[i] ==> WriteIndex(counts, i, k) < |counts|
  }

  lemma {:induction false} SumPrefixBound(counts: seq<nat>, i: nat)
    requires i < |counts|
    ensures Sum(counts[..i]) + counts[i] <= Sum(counts)
  {
    if i < |counts| - 1 {
      assert counts[..|counts| - 1][..i] == counts[..i];
      SumPrefixBound(counts[..|counts| - 1], i);
    } else {
      assert counts[..i + 1] == counts;
      assert counts[..i + 1][..i] == counts[..i];
    }
  }

  /** When any body is written, the last write lands at the total count less one. */
  lemma {:induction false} LastWrite(counts: seq<nat>) returns (i: nat, k: nat)
    requires Sum(counts) > 0
    ensures i < |counts| && k < counts[i] && WriteIndex(counts, i, k) == Sum(counts) - 1
  {
    var init := counts[..|counts| - 1];
    if counts[|counts| - 1] > 0 {
      i, k := |counts| - 1, counts[|counts| - 1] - 1;
    } else {
      i, k := LastWrite(init);
      assert init[..i] == counts[..i];
    }
  }

  /** The writes stay inside the array exactly when the layers hold no more bodies than there are layers. */
  lemma AsWrittenWritesInBoundsExactly(counts: seq<nat>)
    ensures AsWrittenWritesInBounds(counts) <==> Sum(counts) <= |counts|
  {
    if Sum(counts) <= |counts| {
      forall i, k | 0 <= i < |counts| && 0 <= k < counts[i]
        ensures WriteIndex(counts, i, k) < |counts|
      {
        SumPrefixBound(counts, i);
      }
    } else {
      var i, k := LastWrite(counts);
      assert WriteIndex(counts, i, k) >= |counts|;
    }
  }

  /** One layer holding two bodies: index 1 is written into an array of one entry. */
  lemma AsWrittenOverflow()
    ensures WriteIndex([2], 0, 1) == 1 && !AsWrittenWritesInBounds([2])
  {
    assert [2][..0] == [];
    assert WriteIndex([2], 0, 1) == 1;
  }

  // Layer chains

  /**
   * `chain` lists, in order, the layers reached from `first` by following the
   * neighbour on side `d` until it is null.
   */
  ghost predicate Chain(first: Layer?, d: Direction, chain: seq<Layer>)
    reads chain
  {
    (if |chain| == 0 then first == null else first == chain[0]) &&
    forall k :: 0 <= k < |chain| ==> chain[k].BondPair(d) == (if k + 1 < |chain| then chain[k + 1] else null)
  }

  lemma ChainLink(first: Layer?, d: Direction, chain: seq<Layer>, k: nat)
    requires Chain(first, d, chain) && k < |chain|
    ensures chain[k].BondPair(d) == if k + 1 < |chain| then chain[k + 1] else null
  {
  }

  /** The chain after its first layer is the chain from that layer's neighbour. */
  lemma ChainTail(first: Layer?, d: Direction, chain: seq<Layer>)
    requires Chain(first, d, chain) && |chain| > 0
    ensures Chain(chain[0].BondPair(d), d, chain[1..])
  {
    var tail := chain[1..];
    ChainLink(first, d, chain, 0);
    forall k | 0 <= k < |tail|
      ensures tail[k].BondPair(d) == (if k + 1 < |tail| then tail[k + 1] else null)
    {
      ChainLink(first, d, chain, k + 1);
    }
    assert Chain(chain[0].BondPair(d), d, tail);
  }

  /** The links determine the chain. */
  lemma {:induction false} ChainDetermined(first: Layer?, d: Direction, a: seq<Layer>, b: seq<Layer>)
    requires Chain(first, d, a) && Chain(first, d, b)
    ensures a == b
  {
    if |a| > 0 && |b| > 0 {
      ChainTail(first, d, a);
      ChainTail(first, d, b);
      ChainDetermined(a[0].BondPair(d), d, a[1..], b[1..]);
      assert a == [a[0]] + a[1..];
      assert b == [b[0]] + b[1..];
    }
  }

  /** A fresh array holding `names` in order. */
  method NameArray(names: seq<string>) returns (a: array<string>)
    ensures fresh(a) && a[..] == names
  {
    a := new string[|names|](k => if 0 <= k < |names| then names[k] else "");
  }

  /** The only states of the builder its core logic distinguishes. */
  datatype BuilderState = BuilderState(crashOnException: bool, delta: real, initialLayer: Layer?,
                                       unlockKey: Option<string>, ptNmAlgo: Handle, layerId: int,
                                       offsetDistance: real, debugMode: bool)

  /** The builder's settings and counters; the solid-modeller operations are not modelled. */
  class ModelBuilder {
    var crashOnException: bool
    var delta: real
    var initialLayer: Layer?
    var unlockKey: Option<string>
    var ptNmAlgo: Handle
    var layerId: int
    var offsetDistance: real
    var debugMode: bool

    function State(): BuilderState
      reads this
    {
      BuilderState(crashOnException, delta, initialLayer, unlockKey, ptNmAlgo, layerId, offsetDistance, debugMode)
    }

    /** Exceptions are thrown, tolerance 1e-5, no initial layer, no key, no algorithm, ids from 0, offset distance 1. */
    constructor ()
      ensures State() == BuilderState(false, 0.00001, null, None, NullHandle, 0, 1.0, false)
    {
      crashOnException, delta, initialLayer, unlockKey := false, 0.00001, null, None;
      ptNmAlgo, layerId, offsetDistance, debugMode := NullHandle, 0, 1.0, false;
    }

    /** `set_license_key`: a null key raises the error and keeps the stored key; any other key is stored. */
    method SetLicenseKey(key: Option<string>) returns (r: Result<()>)
      modifies this`unlockKey
      ensures key.None? ==> r == Failure(OperationFailed) && unlockKey == old(unlockKey)
      ensures key.Some? ==> r == Success(()) && unlockKey == key
    {
      if key.None? {
        return Failure(OperationFailed);
      }
      unlockKey := key;
      r := Success(());
    }

    method SetOffsetDistance(value: real)
      modifies this`offsetDistance
      ensures offsetDistance == value
    {
      offsetDistance := value;
    }

    /** `next_layer_id`: the current id, and the counter moves past it. */
    method NextLayerId() returns (id: int)
      modifies this`layerId
      ensures id == old(layerId) && layerId == id + 1
    {
      id := layerId;
      layerId := layerId + 1;
    }

    /**
     * The bonding recorded after two layers are imprinted to each other: each
     * becomes the other's neighbour on the facing side, and the first orig
     * layer ever bonded becomes the initial layer.
     */
    method BondLayers(layerOrig: Layer, layerOffset: Layer)
      modifies layerOrig, layerOffset, this`initialLayer
      ensures layerOrig != layerOffset ==>
        layerOffset.State() == old(layerOffset.State()).(pairOrig := layerOrig) &&
        layerOrig.State() == old(layerOrig.State()).(pairOffset := layerOffset)
      ensures layerOrig == layerOffset ==>
        layerOrig.State() == old(layerOrig.State()).(pairOrig := layerOrig, pairOffset := layerOrig)
      ensures initialLayer == if old(initialLayer) == null then layerOrig else old(initialLayer)
    {
      layerOffset.SetBondPair(Orig, layerOrig);
      layerOrig.SetBondPair(Offset, layerOffset);
      if initialLayer == null {
        initialLayer := layerOrig;
      }
    }

    /**
     * `prepare_layers`: appends the initial layer, then the layers reached from
     * it on the orig side, then those reached on the offset side.
     */
    method PrepareLayers(acc: seq<Layer>, ghost origChain: seq<Layer>, ghost offsetChain: seq<Layer>)
      returns (out: seq<Layer>)
      requires initialLayer != null
      requires Chain(initialLayer.BondPair(Orig), Orig, origChain)
      requires Chain(initialLayer.BondPair(Offset), Offset, offsetChain)
      ensures out == acc + [initialLayer] + origChain + offsetChain
    {
      out := acc + [initialLayer];
      ghost var start := out;
      var origSide := initialLayer.BondPair(Orig);
      ghost var k := 0;
      while origSide != null
        invariant 0 <= k <= |origChain|
        invariant origSide == if k < |origChain| then origChain[k] else null
        invariant out == start + origChain[..k]
        decreases |origChain| - k
      {
        assert origChain[..k + 1] == origChain[..k] + [origSide];
        ChainLink(initialLayer.BondPair(Orig), Orig, origChain, k);
        out := out + [origSide];
        origSide := origSide.BondPair(Orig);
        k := k + 1;
      }
      assert origChain[..k] == origChain;
      start := out;
      var offsetSide := initialLayer.BondPair(Offset);
      k := 0;
      while offsetSide != null
        invariant 0 <= k <= |offsetChain|
        invariant offsetSide == if k < |offsetChain| then offsetChain[k] else null
        invariant out == start + offsetChain[..k]
        decreases |offsetChain| - k
      {
        assert offsetChain[..k + 1] == offsetChain[..k] + [offsetSide];
        ChainLink(initialLayer.BondPair(Offset), Offset, offsetChain, k);
        out := out + [offsetSide];
        offsetSide := offsetSide.BondPair(Offset);
        k := k + 1;
      }
      assert offsetChain[..k] == offsetChain;
      assert out == acc + [initialLayer] + origChain + offsetChain;
    }

    /** `save(file)`: a null file name raises the error; otherwise the prepared layers go to the modeller. */
    method Save(fileName: Option<string>, ghost origChain: seq<Layer>, ghost offsetChain: seq<Layer>)
      returns (r: Result<seq<Layer>>)
      requires initialLayer != null
      requires Chain(initialLayer.BondPair(Orig), Orig, origChain)
      requires Chain(initialLayer.BondPair(Offset), Offset, offsetChain)
      ensures fileName.None? ==> r == Failure(OperationFailed)
      ensures fileName.Some? ==> r == Success([initialLayer] + origChain + offsetChain)
    {
      if fileName.None? {
        return Failure(OperationFailed);
      }
      var layers := PrepareLayers([], origChain, offsetChain);
      assert layers == [initialLayer] + origChain + offsetChain;
      r := Success(layers);
    }

    /** `save(file, names)`: as `Save`, then the body names of the saved layers are appended to `names`. */
    method SaveWithNames(fileName: Option<string>, names: seq<string>,
                         ghost origChain: seq<Layer>, ghost offsetChain: seq<Layer>)
      returns (r: Result<seq<string>>)
      requires initialLayer != null
      requires Chain(initialLayer.BondPair(Orig), Orig, origChain)
      requires Chain(initialLayer.BondPair(Offset), Offset, offsetChain)
      requires AllNamed([initialLayer] + origChain + offsetChain)
      ensures fileName.None? ==> r == Failure(OperationFailed)
      ensures fileName.Some? ==> r == Success(names + BodyNames([initialLayer] + origChain + offsetChain))
    {
      if fileName.None? {
        return Failure(OperationFailed);
      }
      var layers := PrepareLayers([], origChain, offsetChain);
      assert layers == [initialLayer] + origChain + offsetChain;
      var collected := CollectBodyNames(layers, names);
      r := Success(collected);
    }

    /**
     * `save(file, char**&, int&)` with the array sized by the number of body
     * names it receives: entry `k` is name `k`.
     */
    method SaveNameArray(fileName: Option<string>, ghost origChain: seq<Layer>, ghost offsetChain: seq<Layer>)
      returns (r: Result<array<string>>)
      requires initialLayer != null
      requires Chain(initialLayer.BondPair(Orig), Orig, origChain)
      requires Chain(initialLayer.BondPair(Offset), Offset, offsetChain)
      requires AllNamed([initialLayer] + origChain + offsetChain)
      ensures fileName.None? ==> r == Failure(OperationFailed)
      ensures fileName.Some? ==> (r.Success? && fresh(r.value) &&
        r.value[..] == BodyNames([initialLayer] + origChain + offsetChain) &&
        r.value.Length == Sum(BodyCounts([initialLayer] + origChain + offsetChain)))
    {
      var saved := SaveWithNames(fileName, [], origChain, offsetChain);
      if saved.Failure? {
        return Failure(saved.error);
      }
      ghost var layers := [initialLayer] + origChain + offsetChain;
      assert saved.value == BodyNames(layers);
      BodyNamesCount(layers);
      var a := NameArray(saved.value);
      r := Success(a);
    }

    /** `save(file, layers, names)`: the body names of the given layers are appended; no file check. */
    method SaveLayers(fileName: Option<string>, layers: seq<Layer>, names: seq<string>) returns (out: seq<string>)
      requires AllNamed(layers)
      ensures out == names + BodyNames(layers)
    {
      out := CollectBodyNames(layers, names);
    }

    /** `save(file, layers, shells, names)`: the layer body names, then the saved name of every shell body. */
    method SaveLayersAndShells(fileName: Option<string>, layers: seq<Layer>, shells: seq<MBBody>, names: seq<string>)
      returns (out: seq<string>)
      requires AllNamed(layers)
      ensures out == names + BodyNames(layers) + ShellNames(shells)
    {
      out := CollectBodyNames(layers, names);
      out := CollectShellNames(shells, out);
    }
  }

  /**
   * `ModelBuilder(const char* key)`: the default builder, then
   * `set_license_key(key)`. A null key raises the builder's error, so no
   * builder comes out; any other key is stored in an otherwise default builder.
   */
  method WithLicense(key: Option<string>) returns (r: Result<ModelBuilder>)
    ensures key.None? <==> r.Failure?
    ensures r.Failure? ==> r.error == OperationFailed
    ensures r.Success? ==> fresh(r.value)
    ensures r.Success? ==> r.value.State() == BuilderState(false, 0.00001, null, key, NullHandle, 0, 1.0, false)
  {
    var mb := new ModelBuilder();
    var stored := mb.SetLicenseKey(key);
    if stored.Failure? {
      return Failure(stored.error);
    }
    r := Success(mb);
  }
}
