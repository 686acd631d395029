// The layer data model: a `Layer` owns a list of `LayerBody` objects, each
// of which owns a list of `LayerSurface` objects; molds (`LayerMold`) and
// plain shell bodies (`MBBody`) wrap a solid-modeller body. Pointers between
// the objects are nullable references; solid-modeller bodies and faces are
// opaque handles; C strings are `Option<string>` (`None` for null).
module Layers {
  import opened Wrappers
  import opened PointVector
  import opened ApiConfig

  /** `std::numeric_limits<int>::max()`, the "not set" layer id. */
  const IntMax: int := 0x7fff_ffff

  /** The default layer name. */
  const UnnamedLayer: string := "UnnamedLayer"

  // MBBody

  datatype ShellState = ShellState(body: Handle, name: Option<string>)

  /** A shell body loaded from a file: a solid-modeller body and its name. */
  class MBBody {
    var body: Handle
    var name: Option<string>

    function State(): ShellState
      reads this
    {
      ShellState(body, name)
    }

    /** Null body, null name. */
    constructor ()
      ensures State() == ShellState(NullHandle, None)
    {
      body, name := NullHandle, None;
    }

    method SetBody(b: Handle)
      modifies this
      ensures State() == old(State()).(body := b)
    {
      body := b;
    }

    /** A null name is ignored; otherwise the name becomes a copy of `n`. */
    method SetName(n: Option<string>)
      modifies this
      ensures State() == if n.None? then old(State()) else old(State()).(name := n)
    {
      if n.Some? {
        name := n;
      }
    }

    /** Assignment copies the body handle and the name pointer (a shallow copy); a no-op on self-assignment. */
    method Assign(rhs: MBBody)
      modifies this
      ensures State() == old(rhs.State())
    {
      if this != rhs {
        body, name := rhs.body, rhs.name;
      }
    }
  }

  // LayerMold

  datatype MoldState = MoldState(owner: Layer?, direction: Direction, body: Handle,
                                 name: Option<string>, stiffenerGen: bool)

  function InitialMold(): MoldState
  {
    MoldState(null, NoDir, NullHandle, None, false)
  }

  /** The sheet body on one side of a layer, and the side it is on. */
  class LayerMold {
    var owner: Layer?
    var direction: Direction
    var body: Handle
    var name: Option<string>
    var stiffenerGen: bool

    function State(): MoldState
      reads this
    {
      MoldState(owner, direction, body, name, stiffenerGen)
    }

    /** No direction, no owner, null body and name, not generated from a stiffener. */
    constructor ()
      ensures State() == InitialMold()
    {
      owner, direction, body := null, NoDir, NullHandle;
      name, stiffenerGen := None, false;
    }

    method SetOwner(l: Layer?)
      modifies this
      ensures State() == old(State()).(owner := l)
    {
      owner := l;
    }

    method SetDirection(d: Direction)
      modifies this
      ensures State() == old(State()).(direction := d)
    {
      direction := d;
    }

    method SetBody(b: Handle)
      modifies this
      ensures State() == old(State()).(body := b)
    {
      body := b;
    }

    /** A null name is ignored; otherwise the name becomes a copy of `n`. */
    method SetName(n: Option<string>)
      modifies this
      ensures State() == if n.None? then old(State()) else old(State()).(name := n)
    {
      if n.Some? {
        name := n;
      }
    }

    method SetStiffenerGen(value: bool)
      modifies this
      ensures State() == old(State()).(stiffenerGen := value)
    {
      stiffenerGen := value;
    }

    /** Assignment copies owner, direction, body, the name pointer and the flag; a no-op on self-assignment. */
    method Assign(rhs: LayerMold)
      modifies this
      ensures State() == old(rhs.State())
    {
      if this != rhs {
        owner, direction, body := rhs.owner, rhs.direction, rhs.body;
        name, stiffenerGen := rhs.name, rhs.stiffenerGen;
      }
    }
  }

  // LayerSurface

  datatype SurfaceState = SurfaceState(
    id: int, face: Handle, point: Point3, normal: Point3, angle: real, initial: bool,
    direction: Direction, owner: LayerBody?, delamType: DelaminationType, pair: LayerSurface?,
    stiffenerGen: bool, stiffenerPaired: bool, createdFrom: LayerSurface?)

  /** One face of a layer body, with its reference point and normal, its side and its bonding information. */
  class LayerSurface {
    var id: int
    var face: Handle
    var point: Point3
    var normal: Point3
    var angle: real
    var initial: bool
    var direction: Direction
    var owner: LayerBody?
    var delamType: DelaminationType
    var pair: LayerSurface?
    var stiffenerGen: bool
    var stiffenerPaired: bool
    var createdFrom: LayerSurface?

    function State(): SurfaceState
      reads this
    {
      SurfaceState(id, face, point, normal, angle, initial, direction, owner, delamType, pair,
                   stiffenerGen, stiffenerPaired, createdFrom)
    }

    /**
     * Id 0, angle 0, cohesive, no direction, not initial, no owner, pair or
     * origin, both stiffener flags false (the point and normal are left at
     * the solid modeller's defaults).
     */
    constructor ()
      ensures id == 0 && angle == 0.0 && delamType == Cohesive && direction == NoDir && !initial
      ensures face == NullHandle && owner == null && pair == null && createdFrom == null
      ensures !stiffenerGen && !stiffenerPaired
    {
      id, angle, delamType, initial := 0, 0.0, Cohesive, false;
      owner, pair, face := null, null, NullHandle;
      stiffenerGen, stiffenerPaired, createdFrom, direction := false, false, null, NoDir;
    }

    method SetDelamType(t: DelaminationType)
      modifies this
      ensures State() == old(State()).(delamType := t)
    {
      delamType := t;
    }

    method SetFace(f: Handle)
      modifies this
      ensures State() == old(State()).(face := f)
    {
      face := f;
    }

    method SetPoint(p: Point3)
      modifies this
      ensures State() == old(State()).(point := p)
    {
      point := p;
    }

    method SetNormal(n: Point3)
      modifies this
      ensures State() == old(State()).(normal := n)
    {
      normal := n;
    }

    method SetAngle(value: real)
      modifies this
      ensures State() == old(State()).(angle := value)
    {
      angle := value;
    }

    method SetInitial(flag: bool)
      modifies this
      ensures State() == old(State()).(initial := flag)
    {
      initial := flag;
    }

    method SetOwner(b: LayerBody?)
      modifies this`owner
      ensures State() == old(State()).(owner := b)
    {
      owner := b;
    }

    method SetDirection(d: Direction)
      modifies this
      ensures State() == old(State()).(direction := d)
    {
      direction := d;
    }

    method SetId(value: int)
      modifies this
      ensures State() == old(State()).(id := value)
    {
      id := value;
    }

    method SetPair(s: LayerSurface?)
      modifies this
      ensures State() == old(State()).(pair := s)
    {
      pair := s;
    }

    /** `pair_clear`: the pair becomes null and nothing else changes. */
    method PairClear()
      modifies this
      ensures State() == old(State()).(pair := null)
    {
      pair := null;
    }

    method SetStiffenerGen(value: bool)
      modifies this
      ensures State() == old(State()).(stiffenerGen := value)
    {
      stiffenerGen := value;
    }

    method SetStiffenerPaired(value: bool)
      modifies this
      ensures State() == old(State()).(stiffenerPaired := value)
    {
      stiffenerPaired := value;
    }

    method SetCreatedFrom(s: LayerSurface?)
      modifies this
      ensures State() == old(State()).(createdFrom := s)
    {
      createdFrom := s;
    }

    /** Assignment copies every field; a no-op on self-assignment. */
    method Assign(rhs: LayerSurface)
      modifies this
      ensures State() == old(rhs.State())
    {
      if this != rhs {
        CopyIdentity(rhs);
        CopyBonding(rhs);
      }
    }

    /** The first half of `copy_vars`: id, face, point, normal, angle, initial flag and direction. */
    method CopyIdentity(rhs: LayerSurface)
      requires rhs != this
      modifies this
      ensures State() == old(State()).(id := rhs.id, face := rhs.face, point := rhs.point, normal := rhs.normal,
                                       angle := rhs.angle, initial := rhs.initial, direction := rhs.direction)
    {
      id, face, point, normal := rhs.id, rhs.face, rhs.point, rhs.normal;
      angle, initial, direction := rhs.angle, rhs.initial, rhs.direction;
    }

    /** The second half of `copy_vars`: owner, delamination type, pair, stiffener flags and origin. */
    method CopyBonding(rhs: LayerSurface)
      requires rhs != this
      modifies this
      ensures State() == old(State()).(owner := rhs.owner, delamType := rhs.delamType, pair := rhs.pair,
                                       stiffenerGen := rhs.stiffenerGen, stiffenerPaired := rhs.stiffenerPaired,
                                       createdFrom := rhs.createdFrom)
    {
      owner, delamType, pair := rhs.owner, rhs.delamType, rhs.pair;
      stiffenerGen, stiffenerPaired, createdFrom := rhs.stiffenerGen, rhs.stiffenerPaired, rhs.createdFrom;
    }
  }

  // LayerBody

  datatype BodyState = BodyState(name: Option<string>, owner: Layer?, surfaces: seq<LayerSurface>,
                                 nextLsId: int, body: Handle)

  /** One solid body of a layer and the list of its surfaces; `mold` is a mold held by value. */
  class LayerBody {
    var name: Option<string>
    var owner: Layer?
    var surfaces: seq<LayerSurface>
    var nextLsId: int
    var body: Handle
    const mold: LayerMold

    function State(): BodyState
      reads this
    {
      BodyState(name, owner, surfaces, nextLsId, body)
    }

    /** The surface counter counts the surfaces added since the last `clear`. */
    ghost predicate Valid()
      reads this
    {
      nextLsId == |surfaces|
    }

    /** No name, no owner, no surfaces, counter 0, null body; the embedded mold is a default one. */
    constructor ()
      ensures Valid() && State() == BodyState(None, null, [], 0, NullHandle)
      ensures fresh(mold) && mold.State() == InitialMold()
    {
      name, owner, surfaces, nextLsId, body := None, null, [], 0, NullHandle;
      mold := new LayerMold();
    }

    /** A null name is ignored; otherwise the name becomes a copy of `n`. */
    method SetName(n: Option<string>)
      modifies this`name
      ensures State() == if n.None? then old(State()) else old(State()).(name := n)
    {
      if n.Some? {
        name := n;
      }
    }

    method SetBody(b: Handle)
      modifies this
      ensures State() == old(State()).(body := b)
    {
      body := b;
    }

    method SetOwner(l: Layer?)
      modifies this`owner
      ensures State() == old(State()).(owner := l)
    {
      owner := l;
    }

    /** `add_surface`: append at the end and count it. */
    method AddSurface(s: LayerSurface)
      requires Valid()
      modifies this
      ensures Valid()
      ensures State() == old(State()).(surfaces := old(surfaces) + [s], nextLsId := old(nextLsId) + 1)
    {
      surfaces, nextLsId := surfaces + [s], nextLsId + 1;
    }

    /** `at(idx)`: the surface at `idx`, or the out-of-range exception. */
    method At(idx: int) returns (r: Result<LayerSurface>)
      ensures r.Success? <==> 0 <= idx < |surfaces|
      ensures r.Success? ==> r.value == surfaces[idx]
    {
      if idx < 0 || idx >= |surfaces| {
        return Failure("Index value exceeds container size");
      }
      return Success(surfaces[idx]);
    }

    /** `clear`: no surfaces and the counter back to 0. */
    method Clear()
      modifies this
      ensures Valid()
      ensures State() == old(State()).(surfaces := [], nextLsId := 0)
    {
      surfaces, nextLsId := [], 0;
    }

    /** `face_id(f)`: the first index whose surface has face `f`, or -1 when none has. */
    method FaceId(f: Handle) returns (idx: int)
      ensures -1 <= idx < |surfaces|
      ensures idx >= 0 ==> surfaces[idx].face == f && forall j :: 0 <= j < idx ==> surfaces[j].face != f
      ensures idx == -1 <==> forall j :: 0 <= j < |surfaces| ==> surfaces[j].face != f
    {
      var i := 0;
      while i < |surfaces|
        invariant 0 <= i <= |surfaces|
        invariant forall j :: 0 <= j < i ==> surfaces[j].face != f
      {
        if f == surfaces[i].face {
          return i;
        }
        i := i + 1;
      }
      return -1;
    }

    /** `mold(m)`: the embedded mold becomes a copy of `*m`. */
    method SetMold(m: LayerMold)
      modifies mold
      ensures mold.State() == old(m.State())
    {
      mold.Assign(m);
    }

    /** `mold()`: the embedded mold, or null while it has no body. */
    function MoldRef(): (m: LayerMold?)
      reads this, mold
      ensures m == null <==> mold.body == NullHandle
      ensures m != null ==> m == mold
    {
      if mold.body == NullHandle then null else mold
    }

    /** Assignment copies name, body, surface list, owner and counter but not the embedded mold; a no-op on self-assignment. */
    method Assign(rhs: LayerBody)
      modifies this
      ensures State() == old(rhs.State())
      ensures rhs.Valid() ==> Valid()
    {
      if this != rhs {
        name, body, surfaces := rhs.name, rhs.body, rhs.surfaces;
        owner, nextLsId := rhs.owner, rhs.nextLsId;
      }
    }
  }

  // Layer

  datatype LayerState = LayerState(
    posOrig: real, posOffset: real, name: Option<string>, id: int, layup: int,
    layerType: LayerType, direction: Direction, bodies: seq<LayerBody>, molds: seq<LayerMold>,
    pairOrig: Layer?, pairOffset: Layer?, nextLbId: int, delamRefMold: LayerMold?)

  /** A new layer (its direction is left uninitialised, so it is a parameter here). */
  function InitialLayer(d: Direction): LayerState
  {
    LayerState(0.0, 0.0, Some(UnnamedLayer), IntMax, 0, Lamina, d, [], [], null, null, 0, null)
  }

  /** A composite layer: its bodies, its molds, its position and its bonded neighbours. */
  class Layer {
    var posOrig: real
    var posOffset: real
    var name: Option<string>
    var id: int
    var layup: int
    var layerType: LayerType
    var direction: Direction
    var bodies: seq<LayerBody>
    var molds: seq<LayerMold>
    var pairOrig: Layer?
    var pairOffset: Layer?
    var nextLbId: int
    var delamRefMold: LayerMold?

    function State(): LayerState
      reads this
    {
      LayerState(posOrig, posOffset, name, id, layup, layerType, direction, bodies, molds,
                 pairOrig, pairOffset, nextLbId, delamRefMold)
    }

    /** The body counter is never below the number of bodies: `remove` keeps it. */
    ghost predicate Valid()
      reads this
    {
      |bodies| <= nextLbId
    }

    /** `init_vars` and then `name("UnnamedLayer")`, which has no bodies to rename. */
    constructor ()
      ensures Valid() && State() == InitialLayer(direction)
    {
      posOrig, posOffset, name, id, layup := 0.0, 0.0, Some(UnnamedLayer), IntMax, 0;
      layerType, bodies, molds := Lamina, [], [];
      pairOrig, pairOffset, nextLbId, delamRefMold := null, null, 0, null;
    }

    /** `thickness()`: the distance between the two positions. */
    function Thickness(): (t: real)
      reads this
      ensures t >= 0.0 && (t == posOffset - posOrig || t == posOrig - posOffset)
    {
      Abs(posOffset - posOrig)
    }

    /** `position(a, b)`: the positions at the orig and the offset side. */
    method Position(atOrig: real, atOffset: real)
      modifies this
      ensures State() == old(State()).(posOrig := atOrig, posOffset := atOffset)
      ensures Thickness() == Abs(atOffset - atOrig)
    {
      posOrig, posOffset := atOrig, atOffset;
    }

    /**
     * `name(s)`: a null name is ignored; otherwise the layer takes the name and
     * prefixes it to the current name of each of its bodies, once per time the
     * body occurs in the list.
     */
    method SetName(n: Option<string>)
      requires forall b :: b in bodies ==> b.name.Some?
      modifies this`name, bodies`name
      ensures n.None? ==> State() == old(State()) && forall b :: b in bodies ==> b.State() == old(b.State())
      ensures n.Some? ==> State() == old(State()).(name := n)
      ensures n.Some? ==> forall b :: b in bodies ==>
        b.State() == old(b.State()).(name := Some(Repeat(n.value, multiset(bodies)[b]) + old(b.name.value)))
    {
      if n.Some? {
        name := n;
        PrefixNames(bodies, n.value);
      }
    }

    method SetId(value: int)
      modifies this
      ensures State() == old(State()).(id := value)
    {
      id := value;
    }

    method SetLayup(value: int)
      modifies this
      ensures State() == old(State()).(layup := value)
    {
      layup := value;
    }

    method SetType(t: LayerType)
      modifies this
      ensures State() == old(State()).(layerType := t)
    {
      layerType := t;
    }

    method SetDirection(d: Direction)
      modifies this
      ensures State() == old(State()).(direction := d)
    {
      direction := d;
    }

    /** `update_owners`: every body is owned by this layer, and every surface by the last body that lists it. */
    method UpdateOwners()
      modifies bodies`owner, SurfacesOf(bodies)`owner
      ensures forall b :: b in bodies ==> b.owner == this
      ensures forall k, j :: 0 <= k < |bodies| && 0 <= j < |bodies[k].surfaces| ==>
        LastHolder(SurfaceLists(bodies), bodies[k].surfaces[j]) >= 0 &&
        bodies[k].surfaces[j].owner == bodies[LastHolder(SurfaceLists(bodies), bodies[k].surfaces[j])]
    {
      AssignOwners(bodies, this);
    }

    /** `add_body`: append at the end and count it. */
    method AddBody(b: LayerBody)
      requires Valid()
      modifies this
      ensures Valid()
      ensures State() == old(State()).(bodies := old(bodies) + [b], nextLbId := old(nextLbId) + 1)
    {
      bodies, nextLbId := bodies + [b], nextLbId + 1;
    }

    /** `at(idx)`: the body at `idx`, or the out-of-range exception. */
    method At(idx: int) returns (r: Result<LayerBody>)
      ensures r.Success? <==> 0 <= idx < |bodies|
      ensures r.Success? ==> r.value == bodies[idx]
    {
      if idx < 0 || idx >= |bodies| {
        return Failure("Index value exceeds container size");
      }
      return Success(bodies[idx]);
    }

    /** `clear`: no bodies and the counter back to 0. */
    method Clear()
      modifies this
      ensures Valid()
      ensures State() == old(State()).(bodies := [], nextLbId := 0)
    {
      bodies, nextLbId := [], 0;
    }

    /** `remove(idx)`: an index out of range changes nothing; otherwise the body at `idx` goes and the counter stays. */
    method Remove(idx: int)
      requires Valid()
      modifies this
      ensures Valid()
      ensures State() == if 0 <= idx < |old(bodies)| then old(State()).(bodies := old(bodies[..idx] + bodies[idx + 1..]))
                         else old(State())
    {
      if idx < 0 || idx >= |bodies| {
        return;
      }
      var rest := Without(bodies, idx);
      bodies := rest;
    }

    /** `add_mold`: append at the end. */
    method AddMold(m: LayerMold)
      modifies this
      ensures State() == old(State()).(molds := old(molds) + [m])
    {
      molds := molds + [m];
    }

    /** `clear_mold`: only the mold list is emptied. */
    method ClearMold()
      modifies this
      ensures State() == old(State()).(molds := [])
    {
      molds := [];
    }

    /** `is_bonded(d)`: the neighbour on side `d` is set (only the orig and offset sides have one). */
    function IsBonded(d: Direction): (r: bool)
      reads this
      ensures r <==> (d == Offset && pairOffset != null) || (d == Orig && pairOrig != null)
    {
      if d == Offset && pairOffset != null then true
      else if d == Orig && pairOrig != null then true
      else false
    }

    /** `bond_pair(d)`: the neighbour on side `d`, null for the other directions. */
    function BondPair(d: Direction): (l: Layer?)
      reads this
      ensures IsBonded(d) <==> l != null
    {
      if d == Offset then pairOffset
      else if d == Orig then pairOrig
      else null
    }

    /** `bond_pair(d, l)`: sets the neighbour on side `d`; any other direction changes nothing. */
    method SetBondPair(d: Direction, l: Layer?)
      modifies this
      ensures State() == if d == Offset then old(State()).(pairOffset := l)
                         else if d == Orig then old(State()).(pairOrig := l)
                         else old(State())
      ensures d == Offset || d == Orig ==> BondPair(d) == l && (IsBonded(d) <==> l != null)
    {
      if d == Offset {
        pairOffset := l;
      } else if d == Orig {
        pairOrig := l;
      }
    }

    /** `delam_profile_ref()`: the reference mold, or null when it is unset or has no direction. */
    function DelamProfileRef(): (m: LayerMold?)
      reads this, delamRefMold
      ensures m == null <==> delamRefMold == null || delamRefMold.direction == NoDir
      ensures m != null ==> m == delamRefMold
    {
      if delamRefMold == null || delamRefMold.direction == NoDir then null else delamRefMold
    }

    method SetDelamProfileRef(m: LayerMold?)
      modifies this
      ensures State() == old(State()).(delamRefMold := m)
    {
      delamRefMold := m;
    }

    /** Assignment copies every field (the body and mold lists as new arrays of the same pointers); a no-op on self-assignment. */
    method Assign(rhs: Layer)
      modifies this
      ensures State() == old(rhs.State())
      ensures rhs.Valid() ==> Valid()
    {
      if this != rhs {
        CopyPlacement(rhs);
        CopyLists(rhs);
      }
    }

    /** The scalar half of `copy_vars`: name, positions, id, layup, type and direction. */
    method CopyPlacement(rhs: Layer)
      requires rhs != this
      modifies this
      ensures State() == old(State()).(name := rhs.name, posOrig := rhs.posOrig, posOffset := rhs.posOffset,
                                       id := rhs.id, layup := rhs.layup, layerType := rhs.layerType,
                                       direction := rhs.direction)
    {
      name, posOrig, posOffset, id := rhs.name, rhs.posOrig, rhs.posOffset, rhs.id;
      layup, layerType, direction := rhs.layup, rhs.layerType, rhs.direction;
    }

    /** The list half of `copy_vars`: bodies, molds, bond pairs, counter and reference mold. */
    method CopyLists(rhs: Layer)
      requires rhs != this
      modifies this
      ensures State() == old(State()).(bodies := rhs.bodies, molds := rhs.molds, pairOrig := rhs.pairOrig,
                                       pairOffset := rhs.pairOffset, nextLbId := rhs.nextLbId,
                                       delamRefMold := rhs.delamRefMold)
    {
      bodies, molds, pairOrig := rhs.bodies, rhs.molds, rhs.pairOrig;
      pairOffset, nextLbId, delamRefMold := rhs.pairOffset, rhs.nextLbId, rhs.delamRefMold;
    }
  }

  /** `n` copies of `s` laid end to end. */
  function Repeat(s: string, n: nat): string
  {
    if n == 0 then [] else s + Repeat(s, n - 1)
  }

  /** The copy loop of `remove`: every body but the one at `idx`, in order. */
  method Without(bodies: seq<LayerBody>, idx: nat) returns (r: seq<LayerBody>)
    requires idx < |bodies|
    ensures r == bodies[..idx] + bodies[idx + 1..]
    ensures |r| == |bodies| - 1 && forall k :: 0 <= k < |r| ==> r[k] == bodies[if k < idx then k else k + 1]
  {
    r := [];
    var i := 0;
    while i < |bodies|
      invariant 0 <= i <= |bodies|
      invariant r == if i <= idx then bodies[..i] else bodies[..idx] + bodies[idx + 1..i]
    {
      if i != idx {
        r := r + [bodies[i]];
      }
      i := i + 1;
    }
  }

  /** The loop of `update_bodynames`: each body's name becomes `prefix` followed by its current name. */
  method PrefixNames(bodies: seq<LayerBody>, prefix: string)
    requires forall b :: b in bodies ==> b.name.Some?
    modifies bodies`name
    ensures forall b :: b in bodies ==>
      b.State() == old(b.State()).(name := Some(Repeat(prefix, multiset(bodies)[b]) + old(b.name.value)))
  {
    var i := 0;
    assert multiset(bodies[..0]) == multiset{};
    forall b | b in bodies
      ensures b.name == Some(Repeat(prefix, 0) + old(b.name.value))
    {
      assert b.name == Some(old(b.name.value));
      assert Repeat(prefix, 0) + old(b.name.value) == old(b.name.value);
    }
    while i < |bodies|
      invariant 0 <= i <= |bodies|
      invariant forall b :: b in bodies ==> b.name == Some(Repeat(prefix, multiset(bodies[..i])[b]) + old(b.name.value))
    {
      var b := bodies[i];
      ghost var before := multiset(bodies[..i]);
      assert bodies[..i + 1] == bodies[..i] + [b];
      RepeatStep(prefix, before[b], old(b.name.value));
      b.SetName(Some(prefix + b.name.value));
      NextCounts(bodies, i, before);
      i := i + 1;
    }
    assert bodies[..i] == bodies;
  }

  lemma RepeatStep(prefix: string, n: nat, s: string)
    ensures prefix + (Repeat(prefix, n) + s) == Repeat(prefix, n + 1) + s
  {
  }

  /** One more element counted: only its own multiplicity grows. */
  lemma NextCounts<T>(xs: seq<T>, i: nat, before: multiset<T>)
    requires i < |xs| && before == multiset(xs[..i])
    ensures forall c :: multiset(xs[..i + 1])[c] == if c == xs[i] then before[c] + 1 else before[c]
  {
    assert xs[..i + 1] == xs[..i] + [xs[i]];
  }

  /** The surface list of each body. */
  ghost function SurfaceLists(bodies: seq<LayerBody>): (lists: seq<seq<LayerSurface>>)
    reads bodies`surfaces
    ensures |lists| == |bodies| && forall k :: 0 <= k < |bodies| ==> lists[k] == bodies[k].surfaces
  {
    if |bodies| == 0 then [] else SurfaceLists(bodies[..|bodies| - 1]) + [bodies[|bodies| - 1].surfaces]
  }

  /** Every surface listed by one of the bodies. */
  ghost function SurfacesOf(bodies: seq<LayerBody>): (r: set<LayerSurface>)
    reads bodies`surfaces
    ensures forall k, j :: 0 <= k < |bodies| && 0 <= j < |bodies[k].surfaces| ==> bodies[k].surfaces[j] in r
  {
    set k, j | 0 <= k < |bodies| && 0 <= j < |bodies[k].surfaces| :: bodies[k].surfaces[j]
  }

  /** The index of the last list that contains `s`, or -1 when no list does. */
  ghost function LastHolder(lists: seq<seq<LayerSurface>>, s: LayerSurface): (k: int)
    ensures -1 <= k < |lists|
    ensures k >= 0 ==> s in lists[k] && forall m :: k < m < |lists| ==> s !in lists[m]
    ensures k == -1 ==> forall m :: 0 <= m < |lists| ==> s !in lists[m]
  {
    if |lists| == 0 then -1
    else if s in lists[|lists| - 1] then |lists| - 1
    else LastHolder(lists[..|lists| - 1], s)
  }

  /** The loops of `update_owners`. */
  method AssignOwners(bodies: seq<LayerBody>, layer: Layer)
    modifies bodies`owner, SurfacesOf(bodies)`owner
    ensures forall b :: b in bodies ==> b.owner == layer
    ensures forall k, j :: 0 <= k < |bodies| && 0 <= j < |bodies[k].surfaces| ==>
      LastHolder(SurfaceLists(bodies), bodies[k].surfaces[j]) >= 0 &&
      bodies[k].surfaces[j].owner == bodies[LastHolder(SurfaceLists(bodies), bodies[k].surfaces[j])]
  {
    ghost var lists: seq<seq<LayerSurface>> := SurfaceLists(bodies);
    var i := 0;
    while i < |bodies|
      invariant 0 <= i <= |bodies|
      invariant SurfaceLists(bodies) == lists
      invariant forall k :: 0 <= k < i ==> bodies[k].owner == layer
      invariant forall k, j :: 0 <= k < |lists| && 0 <= j < |lists[k]| && LastHolder(lists[..i], lists[k][j]) >= 0 ==>
        lists[k][j].owner == bodies[LastHolder(lists[..i], lists[k][j])]
    {
      assert forall j :: 0 <= j < |bodies[i].surfaces| ==> bodies[i].surfaces[j] in old(SurfacesOf(bodies));
      OwnBody(bodies, i, layer, lists);
      i := i + 1;
    }
    assert lists[..i] == lists;
  }

  /** One pass of the outer loop of `update_owners`: body `i` and then each of its surfaces. */
  method OwnBody(bodies: seq<LayerBody>, i: nat, layer: Layer, ghost lists: seq<seq<LayerSurface>>)
    requires i < |bodies| && SurfaceLists(bodies) == lists
    requires forall k :: 0 <= k < i ==> bodies[k].owner == layer
    requires forall k, j :: 0 <= k < |lists| && 0 <= j < |lists[k]| && LastHolder(lists[..i], lists[k][j]) >= 0 ==>
      lists[k][j].owner == bodies[LastHolder(lists[..i], lists[k][j])]
    modifies bodies[i..i + 1]`owner, bodies[i].surfaces`owner
    ensures forall k :: 0 <= k < i + 1 ==> bodies[k].owner == layer
    ensures forall k, j :: 0 <= k < |lists| && 0 <= j < |lists[k]| && LastHolder(lists[..i + 1], lists[k][j]) >= 0 ==>
      lists[k][j].owner == bodies[LastHolder(lists[..i + 1], lists[k][j])]
  {
    var b := bodies[i];
    assert b.surfaces == lists[i];
    b.SetOwner(layer);
    OwnSurfaces(b);
    assert lists[..i + 1][..i] == lists[..i];
    forall k, j | 0 <= k < |lists| && 0 <= j < |lists[k]| && LastHolder(lists[..i + 1], lists[k][j]) >= 0
      ensures lists[k][j].owner == bodies[LastHolder(lists[..i + 1], lists[k][j])]
    {
      var s := lists[k][j];
      if s in lists[i] {
        assert LastHolder(lists[..i + 1], s) == i;
      } else {
        assert s.owner == old(s.owner);
        assert LastHolder(lists[..i + 1], s) == LastHolder(lists[..i], s);
      }
    }
  }

  /** The inner loop of `update_owners`: every surface of `b` is owned by `b`. */
  method OwnSurfaces(b: LayerBody)
    modifies b.surfaces`owner
    ensures forall s :: s in b.surfaces ==> s.owner == b
  {
    var j := 0;
    while j < |b.surfaces|
      invariant 0 <= j <= |b.surfaces|
      invariant forall k :: 0 <= k < j ==> b.surfaces[k].owner == b
    {
      b.surfaces[j].SetOwner(b);
      j := j + 1;
    }
  }
}
