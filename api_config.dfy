// The shared vocabulary of the model builder: layer types, directions,
// delamination types, boundary-condition requests, opaque solid-modeller
// handles, and the face adjacency record handed to the Python side.
module ApiConfig {
  import opened Wrappers
  import opened PointVector

  /** The message of every runtime error the builder and its utilities raise. */
  const OperationFailed := "CAD Model Builder: Operation failed!"

  /** Layer types, in declaration order. */
  datatype LayerType = Lamina | Stiffener

  /** Which side of a layer a surface or a mold lies on. */
  datatype Direction = NoDir | Orig | Offset | Side

  /** Region type found between two layers, or the boundary condition requested for it. */
  datatype DelaminationType = NoDelam | NoModel | Cohesive | Contact | Tie

  /** The boundary-condition requests that arrive from the Python side. */
  datatype BCStatus = IsContact | IsCohesive | IsTie | IsNone | IsCohesiveLayer

  /**
   * A `BODY*` or `FACE*` of the solid modeller: compared by identity only,
   * `NullHandle` for the null pointer.
   */
  datatype Handle = NullHandle | Handle(id: nat)

  // The integer each enumerator has on the C++ and Python sides.

  function LayerTypeCode(t: LayerType): (c: nat)
    ensures c < 2
  {
    match t
    case Lamina => 0
    case Stiffener => 1
  }

  function DirectionCode(d: Direction): (c: nat)
    ensures c < 4
  {
    match d
    case NoDir => 0
    case Orig => 1
    case Offset => 2
    case Side => 3
  }

  function DelaminationCode(t: DelaminationType): (c: nat)
    ensures c < 5
  {
    match t
    case NoDelam => 0
    case NoModel => 1
    case Cohesive => 2
    case Contact => 3
    case Tie => 4
  }

  function BCStatusCode(s: BCStatus): (c: nat)
    ensures c < 5
  {
    match s
    case IsContact => 0
    case IsCohesive => 1
    case IsTie => 2
    case IsNone => 3
    case IsCohesiveLayer => 4
  }

  /** The enumerator with a given code, as the Python side passes it in. */
  function BCStatusOf(c: int): (s: Option<BCStatus>)
    ensures s.Some? <==> 0 <= c < 5
  {
    if c == 0 then Some(IsContact)
    else if c == 1 then Some(IsCohesive)
    else if c == 2 then Some(IsTie)
    else if c == 3 then Some(IsNone)
    else if c == 4 then Some(IsCohesiveLayer)
    else None
  }

  function DirectionOf(c: int): (d: Option<Direction>)
    ensures d.Some? <==> 0 <= c < 4
  {
    if c == 0 then Some(NoDir)
    else if c == 1 then Some(Orig)
    else if c == 2 then Some(Offset)
    else if c == 3 then Some(Side)
    else None
  }

  /** The codes are the declaration positions: decoding a code gives the enumerator back, and back again. */
  lemma CodesRoundTrip(s: BCStatus, d: Direction, c: int)
    ensures BCStatusOf(BCStatusCode(s)) == Some(s)
    ensures BCStatusOf(c).Some? ==> BCStatusCode(BCStatusOf(c).value) == c
    ensures DirectionOf(DirectionCode(d)) == Some(d)
    ensures DirectionOf(c).Some? ==> DirectionCode(DirectionOf(c).value) == c
  {
  }

  /** The codes of distinct enumerators differ. */
  lemma CodesInjective(a: DelaminationType, b: DelaminationType, s: LayerType, t: LayerType)
    ensures DelaminationCode(a) == DelaminationCode(b) ==> a == b
    ensures LayerTypeCode(s) == LayerTypeCode(t) ==> s == t
  {
  }

  /** The contents of a face adjacency record; a name is `None` when its pointer is null. */
  datatype Adjacency = Adjacency(name1: Option<string>, point1: Point3, vector1: Point3,
                                 name2: Option<string>, point2: Point3, vector2: Point3,
                                 bcType: DelaminationType)

  /** One face adjacency record: the two layer bodies that touch and the boundary condition between them. */
  class FaceAdjacency {
    var name1: Option<string>
    var point1: Point3
    var vector1: Point3
    var name2: Option<string>
    var point2: Point3
    var vector2: Point3
    var bcType: DelaminationType

    function Value(): Adjacency
      reads this
    {
      Adjacency(name1, point1, vector1, name2, point2, vector2, bcType)
    }

    /** Both names null and the points at their default (the origin); `bcType` is left uninitialised. */
    constructor ()
      ensures name1 == None && name2 == None
      ensures point1 == Origin() && vector1 == Origin() && point2 == Origin() && vector2 == Origin()
    {
      name1, name2 := None, None;
      point1, vector1, point2, vector2 := Origin(), Origin(), Origin(), Origin();
    }

    /** The copy constructor: names copied into new buffers of equal content (null stays null), every other field copied. */
    constructor Copy(rhs: FaceAdjacency)
      ensures Value() == rhs.Value()
    {
      name1, name2 := rhs.name1, rhs.name2;
      point1, vector1 := rhs.point1, rhs.vector1;
      point2, vector2 := rhs.point2, rhs.vector2;
      bcType := rhs.bcType;
    }

    /** Copy assignment: nothing happens on self-assignment; otherwise every field equals the source's. */
    method Assign(rhs: FaceAdjacency)
      modifies this
      ensures Value() == old(rhs.Value())
      ensures rhs == this ==> unchanged(this)
    {
      if this != rhs {
        name1, name2 := rhs.name1, rhs.name2;
        point1, vector1 := rhs.point1, rhs.vector1;
        point2, vector2 := rhs.point2, rhs.vector2;
        bcType := rhs.bcType;
      }
    }
  }
}
