# de-la-mo core, modelled in Dafny

de-la-mo (DElAmination MOdeller) builds solid models of laminated composite
parts, layer by layer, so that a finite-element solver can model delaminations
between the layers. Its C++ core sits on a commercial solid-modelling kernel.
This project models the part of that core that does not call the kernel, and
proves properties of the model.

- **Geometric primitives** (`point_vector.dfy`, module `PointVector`). `TPoint3` and `TVector3`: component-wise arithmetic, the compound operators as methods of small classes, dot and cross products, normalisation, equality within the `10e-5` tolerance, the comparison operators and `parallel`.
- **The growable list** (`container_list.dfy`, module `ContainerList`). `delamo::List` is a class over an `array`, with its size and capacity fields. Growth is by 8, it shrinks on pop, and it has pushes and pops at both ends, `reserve`, `resize` and `reverse`. The library's test scenario is included.
- **The NURBS surface engine.**
  - `nurbs_knots.dfy`: knot normalisation and the binary span search (algorithm A2.1 of *The NURBS Book*).
  - `nurbs_basis.dfy`: the basis functions (A2.2), with partition of unity and non-negativity.
  - `nurbs_ders.dfy`: their derivatives (A2.3).
  - `nurbs_grid.dfy`: the flat and 2D control-point layouts.
  - `nurbs_surface.dfy`: surface points (A3.5), sampling, evaluation of the grid, and derivatives, tangents and normal (A3.6).
  - `nurbs.dfy`: the `Nurbs` class holding the surface's state, with its setters, its validation gates and `transpose`.
- **The layer data model** (`layers.dfy`, module `Layers`; `api_config.dfy`, module `ApiConfig`). `MBBody`, `LayerMold`, `LayerSurface`, `LayerBody` and `Layer` are classes whose owned lists are `seq` fields. The ApiConfig module holds the enumerations and the `FaceAdjacency` record.
- **The builder's kernel-free logic** (`model_builder.dfy`, module `Builder`):
  - the face adjacency list and its decision table for boundary conditions;
  - collecting the chain of bonded layers;
  - the layer id counter and the license key;
  - the names the `save` overloads collect.
- **Utilities** (`mb_utilities.dfy`, module `MbUtilities`): flipping a point array, `is_left`, the winding-number test, the search for a point inside a polygon, cleaning the license text, and the line structure of the CSV reader.
- **Kernel-free fragments of the kernel-backed builder** (`acis_fragments.dfy`, module `AcisFragments`):
  - translating shell edge points;
  - the cascade that classifies a face's direction;
  - the partition of surfaces for molds;
  - selecting the closest side;
  - the checks and position arithmetic of `create_layer`;
  - the closed-profile check of `adjacent_layers(file)`;
  - packing control points.
- `sequences.dfy` and `wrappers.dfy` hold `Reversed` with its lemmas, and the `Option`/`Result` types.

Modelling choices:
- **Numbers and math functions.** The numeric type `T` is `real`. Magnitude and distance use square roots, so they are passed in as functions, or their values are passed in as parameters.
- **Kernel handles.** A `BODY*` or `FACE*` is an opaque `Handle`. A kernel result the fragments depend on is a parameter: a face's distance to a point, the parallel and antiparallel tests with the angle between two normals, the height of a sheet, and the builder's `(u, v)`.
- **Errors.** `error_handler` ends the operation, and a `throw` of `std::runtime_error` does the same. Both become `Failure(OperationFailed)`, which carries the message the source throws. A method that raises such an error returns a `Result` and changes nothing on the error path.
- **Names.** A C string is `Option<string>`, where `None` is the null pointer. The source never edits a name buffer in place, so sharing a name pointer is modelled as copying the value.

Where the code and its design description disagree, the model follows the code:
- **Two control-point layouts.** The control-point setter fills the 2D grid with entry `[i][t]` taken from flat index `i + t * nu`. `read_ctrlpts` fills `[i][j]` from `j + i * nv`. Both layouts are modelled, and `NurbsGrid.LayoutsDiffer` shows that they differ.
- **Weights are not read.** Evaluation never reads the weights, so a surface evaluates as a plain tensor-product B-spline.
- **`parallel`** tests whether the dot product is near zero, which is perpendicularity.
- **`<=` and `>=` on `TVector3`** compare the left operand with itself (see Findings).
- **`evaluate`** adds the number of samples to the v-count of surface points instead of resetting it.

## Model

| member | source | states |
|---|---|---|
| PointVector.Origin | NURBS/src/PointVector.hxx:50-55 | the default point has all three coordinates zero |
| PointVector.Splat | NURBS/src/PointVector.hxx:64-69 | the one-value constructor puts the same value in x, y and z |
| PointVector.FromArray | NURBS/src/PointVector.hxx:94-99 | the array constructor takes coordinates 0, 1, 2 from the first three array entries |
| PointVector.Add | NURBS/src/PointVector.hxx:247-251 | point `+` adds coordinate by coordinate |
| PointVector.Sub | NURBS/src/PointVector.hxx:259-263 | point `-` subtracts coordinate by coordinate |
| PointVector.Mul | NURBS/src/PointVector.hxx:271-275 | point `*` multiplies coordinate by coordinate |
| PointVector.Div | NURBS/src/PointVector.hxx:283-287 | point `/` gives coordinates that, multiplied by the divisor's, give the dividend's (divisor coordinates non-zero) |
| PointVector.AddScalar | NURBS/src/PointVector.hxx:295-299 | adding a scalar adds it to every coordinate |
| PointVector.SubScalar | NURBS/src/PointVector.hxx:307-311 | subtracting a scalar subtracts it from every coordinate |
| PointVector.Scale | NURBS/src/PointVector.hxx:319-323 | multiplying by a scalar scales every coordinate |
| PointVector.DivScalar | NURBS/src/PointVector.hxx:331-335 | dividing by a non-zero scalar gives coordinates that, times the scalar, are the original ones |
| PointVector.PtNe | NURBS/src/PointVector.hxx:384-387 | point `!=` holds exactly when some coordinate differs by at least the tolerance 1e-4 (the negation of `==`, 367-376) |
| PointVector.PtEqReflexiveSymmetric | NURBS/src/PointVector.hxx:367-376 | tolerance equality is reflexive and symmetric, and a point is never `!=` itself |
| PointVector.PtEqNotTransitive | NURBS/src/PointVector.hxx:367-376 | tolerance equality is not transitive: 0 == 0.00006 == 0.00012 but 0 != 0.00012 |
| PointVector.FromEnd | NURBS/src/PointVector.hxx:548-552 | the end-point constructor starts the vector at the origin and its components are the point's coordinates |
| PointVector.ZeroVector | NURBS/src/PointVector.hxx:522-526 | the default vector starts at the origin and has zero components |
| PointVector.Cross | NURBS/src/PointVector.hxx:880-887 | `cross` gives the determinant-formula components and a vector starting at the origin |
| PointVector.DotSymmetric | NURBS/src/PointVector.hxx:894-898 | `dot` does not depend on the order of its operands |
| PointVector.CrossSelfIsZero | NURBS/src/PointVector.hxx:880-887 | the cross product of a vector with itself is zero |
| PointVector.CrossOrthogonal | NURBS/src/PointVector.hxx:880-898 | the cross product is perpendicular (dot 0) to both operands |
| PointVector.SqNorm | NURBS/src/PointVector.hxx:932-936 | the value under the square root of `magnitude` is non-negative and equals the dot product of the vector with itself |
| PointVector.SqDistance | NURBS/src/PointVector.hxx:905-909 | the value under the square root of `distance` is non-negative |
| PointVector.SqDistanceSymmetric | NURBS/src/PointVector.hxx:905-909 | the distance does not depend on the order of the vectors |
| PointVector.Normalize | NURBS/src/PointVector.hxx:915-926 | `normalize` gives the zero vector for magnitude 0 and otherwise components that, times the magnitude, are the original ones; the result starts at the origin |
| PointVector.NormalizeScalesSqNorm | NURBS/src/PointVector.hxx:915-936 | normalising divides the squared length by the squared magnitude, so with the true magnitude the result has unit length |
| PointVector.VAdd | NURBS/src/PointVector.hxx:607-611 | vector `+` keeps the left start point and takes the right end point |
| PointVector.VSub | NURBS/src/PointVector.hxx:618-622 | vector `-` keeps the left start point and takes the negated right end point |
| PointVector.VScale | NURBS/src/PointVector.hxx:639-643 | vector `* scalar` scales the end point and keeps the start |
| PointVector.VDiv | NURBS/src/PointVector.hxx:650-654 | vector `/ scalar` divides the end point and keeps the start |
| PointVector.VAddIsNotAddition | NURBS/src/PointVector.hxx:607-611 | x-axis `+` y-axis has x component 0: the operator does not add |
| PointVector.VecNe | NURBS/src/PointVector.hxx:721-737 | vector `!=` holds exactly when the magnitudes differ by at least the tolerance |
| PointVector.VecEqIgnoresDirection | NURBS/src/PointVector.hxx:721-737 | vectors of equal length compare equal whatever their direction |
| PointVector.VecLe | NURBS/src/PointVector.hxx:769-772 | `<=` as written (`!(lhs > lhs)`) is true for every pair |
| PointVector.VecGe | NURBS/src/PointVector.hxx:780-783 | `>=` as written (`!(lhs < lhs)`) is true for every pair |
| PointVector.VecLeCorrected | NURBS/src/PointVector.hxx:745-772 | corrected `<=`: holds exactly when the left magnitude is at most the right one |
| PointVector.VecGeCorrected | NURBS/src/PointVector.hxx:745-783 | corrected `>=`: holds exactly when the left magnitude is at least the right one |
| PointVector.VecLeAsWrittenDisagrees | NURBS/src/PointVector.hxx:769-783 | a longer vector is reported `<=` a shorter one (and the shorter `>=` the longer) by the operators as written, unlike the corrected ones |
| PointVector.Parallel | NURBS/src/PointVector.hxx:942-947 | `parallel` holds exactly when the dot product is within the tolerance of zero |
| PointVector.ParallelMeansPerpendicular | NURBS/src/PointVector.hxx:942-947 | the x and y axes are reported parallel and a unit vector is not parallel to itself |
| PointVector.TPoint3.constructor | NURBS/src/PointVector.hxx:50-55 | a new point object holds the origin in a fresh 3-entry array |
| PointVector.TPoint3.FromValue | NURBS/src/PointVector.hxx:64-69 | a new point object holds the value in all three coordinates |
| PointVector.TPoint3.FromXYZ | NURBS/src/PointVector.hxx:80-85 | a new point object holds the three given coordinates |
| PointVector.TPoint3.FromCoords | NURBS/src/PointVector.hxx:94-99 | a new point object holds the first three entries of the array |
| PointVector.TPoint3.Copy | NURBS/src/PointVector.hxx:105-110 | the copy holds the same coordinates in its own array |
| PointVector.TPoint3.Assign | NURBS/src/PointVector.hxx:125-135 | after `=` the object holds the right-hand side's coordinates (self-assignment changes nothing) |
| PointVector.TPoint3.AddAssign | NURBS/src/PointVector.hxx:142-148 | `+=` leaves the object equal to the old value `+` the operand |
| PointVector.TPoint3.SubAssign | NURBS/src/PointVector.hxx:155-161 | `-=` leaves the object equal to the old value `-` the operand |
| PointVector.TPoint3.MulAssign | NURBS/src/PointVector.hxx:168-174 | `*=` leaves the object equal to the component-wise product |
| PointVector.TPoint3.DivAssign | NURBS/src/PointVector.hxx:181-187 | `/=` leaves the object equal to the component-wise quotient |
| PointVector.TPoint3.AddScalarAssign | NURBS/src/PointVector.hxx:194-200 | `+= scalar` adds the scalar to every coordinate |
| PointVector.TPoint3.SubScalarAssign | NURBS/src/PointVector.hxx:207-213 | `-= scalar` subtracts the scalar from every coordinate |
| PointVector.TPoint3.MulScalarAssign | NURBS/src/PointVector.hxx:220-226 | `*= scalar` scales every coordinate |
| PointVector.TPoint3.DivScalarAssign | NURBS/src/PointVector.hxx:233-239 | `/= scalar` divides every coordinate by the non-zero scalar |
| PointVector.TPoint3.At | NURBS/src/PointVector.hxx:344-359 | `operator[]` reads coordinate 0, 1 or 2 |
| PointVector.TPoint3.SetCoord | NURBS/src/PointVector.hxx:447-495 | a setter changes its coordinate and leaves the other two alone |
| PointVector.TVector3.constructor | NURBS/src/PointVector.hxx:522-526 | a new vector object is the zero vector at the origin |
| PointVector.TVector3.FromEndPoint | NURBS/src/PointVector.hxx:548-552 | a new vector object starts at the origin and ends at the point |
| PointVector.TVector3.FromPoints | NURBS/src/PointVector.hxx:562-566 | a new vector object has the given start and end points |
| PointVector.TVector3.Assign | NURBS/src/PointVector.hxx:591-600 | after `=` the object equals the right-hand side (self-assignment changes nothing) |
| PointVector.TVector3.AddAssign | NURBS/src/PointVector.hxx:607-611 | `+=` replaces the end point by the operand's end point |
| PointVector.TVector3.SubAssign | NURBS/src/PointVector.hxx:618-622 | `-=` replaces the end point by the negated operand's end point |
| PointVector.TVector3.CrossAssign | NURBS/src/PointVector.hxx:629-632 | `*=` with a vector returns the cross product and leaves the object unchanged |
| PointVector.TVector3.MulScalarAssign | NURBS/src/PointVector.hxx:639-643 | `*= scalar` scales the end point |
| PointVector.TVector3.DivScalarAssign | NURBS/src/PointVector.hxx:650-654 | `/= scalar` divides the end point |
| PointVector.TVector3.SetStartPt | NURBS/src/PointVector.hxx:843-846 | `start_pt(p)` replaces the start and keeps the end |
| PointVector.TVector3.SetEndPt | NURBS/src/PointVector.hxx:861-864 | `end_pt(p)` replaces the end and keeps the start |
| ContainerList.GrownCapacity | NURBS/src/ContainerList.hxx:674-681 | the capacity before a push_back: unchanged when room is left, 8 when there was none, 8 more when full; always above the size |
| ContainerList.ShrunkCapacity | NURBS/src/ContainerList.hxx:688-709 | the capacity after `deallocate`: the size when it was more than twice the size, else unchanged; never below the size |
| ContainerList.List.constructor | NURBS/src/ContainerList.hxx:54-57 | a new list is empty with no capacity |
| ContainerList.List.FromSeq | NURBS/src/ContainerList.hxx:63-70 | the initializer-list (and pointer-and-count, 87-93) constructors hold exactly the given elements with capacity equal to their number |
| ContainerList.List.Filled | NURBS/src/ContainerList.hxx:77-80 | `List(s, value)` holds `s` copies of the value, capacity `s` (through `init_vars`, 650-667) |
| ContainerList.List.Copy | NURBS/src/ContainerList.hxx:111-128 | the copy holds the same elements in a fresh buffer whose capacity is the size |
| ContainerList.List.Move | NURBS/src/ContainerList.hxx:134-142 | the moved-to list takes over the buffer, size and capacity; the source is left empty with no capacity |
| ContainerList.List.Assign | NURBS/src/ContainerList.hxx:159-175 | copy assignment gives the right-hand elements in a fresh buffer of capacity equal to their number; self-assignment changes nothing |
| ContainerList.List.MoveAssign | NURBS/src/ContainerList.hxx:182-200 | move assignment takes over the right-hand buffer and empties the source; self-assignment changes nothing |
| ContainerList.List.Get | NURBS/src/ContainerList.hxx:207-220 | `operator[]` reads any allocated slot without a check; below the size it is the stored element |
| ContainerList.List.At | NURBS/src/ContainerList.hxx:479-484 | `at(i)` succeeds exactly when `i` is below the size, with the stored element; otherwise `out_of_range` |
| ContainerList.List.Size | NURBS/src/ContainerList.hxx:244-247 | `size()` is the number of stored elements |
| ContainerList.List.Capacity | NURBS/src/ContainerList.hxx:520-523 | `capacity()` is the capacity field, never below the size |
| ContainerList.List.Empty | NURBS/src/ContainerList.hxx:267-273 | `empty()` holds exactly when no element is stored |
| ContainerList.List.Clear | NURBS/src/ContainerList.hxx:252-261 | `clear()` leaves no elements and no capacity |
| ContainerList.List.Reserve | NURBS/src/ContainerList.hxx:491-514 | `reserve(k)` reports growth exactly when `k` exceeds the capacity, then sets the capacity to `k`; the elements are kept either way, and nothing changes otherwise |
| ContainerList.List.Resize | NURBS/src/ContainerList.hxx:529-536 | `resize(n)` only raises the capacity, fills the new slots at or past the size with `T()` and keeps the size and elements |
| ContainerList.List.ResetAlloc | NURBS/src/ContainerList.hxx:624-639 | `reset_alloc()` reallocates to exactly the size and keeps the elements |
| ContainerList.List.Allocate | NURBS/src/ContainerList.hxx:674-681 | `allocate()` leaves room for one more element with the grown capacity, keeping the elements |
| ContainerList.List.Deallocate | NURBS/src/ContainerList.hxx:688-709 | `deallocate()` shrinks the capacity to the size when it exceeds twice the size, keeping the elements |
| ContainerList.List.PushBack | NURBS/src/ContainerList.hxx:361-369 | `push_back(x)` appends `x` after the old elements, with the grown capacity |
| ContainerList.List.PushBackList | NURBS/src/ContainerList.hxx:375-386 | `push_back(list)` appends the list's elements in order and raises the capacity by their number |
| ContainerList.List.PushFront | NURBS/src/ContainerList.hxx:279-309 | `push_front(x)` gives `[x]` followed by the old elements, capacity equal to the size |
| ContainerList.List.PushFrontList | NURBS/src/ContainerList.hxx:315-355 | `push_front(list)` gives the list's elements followed by the old ones, capacity equal to the size |
| ContainerList.List.PopFront | NURBS/src/ContainerList.hxx:415-443 | `pop_front()` on a non-empty list returns the first element and keeps the rest in order, capacity equal to the size |
| ContainerList.List.PopBack | NURBS/src/ContainerList.hxx:449-461 | `pop_back()` on a non-empty list returns the last element, drops it, clears its slot and applies `deallocate` (688-709) |
| ContainerList.List.Reverse | NURBS/src/ContainerList.hxx:605-619 | corrected `reverse()`: the elements in reverse order, with the capacity following the new buffer |
| ContainerList.List.ReverseAsWritten | NURBS/src/ContainerList.hxx:605-619 | `reverse()` as written: a buffer of the size's length holding the reversed elements while the capacity field keeps its old value, which breaks the buffer invariant whenever the list was not full |
| ContainerList.PushBackAlloc | NURBS/src/ContainerList.hxx:361-369 | push_back's effect on size, capacity field and allocated length: the allocation follows the capacity only when `reserve` grows it (491-514) |
| ContainerList.ReverseAllocAsWritten | NURBS/src/ContainerList.hxx:605-619 | `reverse()` as written leaves the allocated length at the size and the capacity field unchanged |
| ContainerList.ReverseAllocCorrected | NURBS/src/ContainerList.hxx:605-619 | corrected `reverse()` sets capacity and allocated length to the size |
| ContainerList.ReverseThenPushBackOverflows | NURBS/src/ContainerList.hxx:361-369 | one push_back on an empty list, `reverse()`, then push_back writes index 1 of a buffer of length 1 |
| ContainerList.ReverseCorrectedKeepsPushBackInBounds | NURBS/src/ContainerList.hxx:605-619 | after the corrected `reverse()` the next push_back writes inside its buffer |
| ContainerList.DriverContents | NURBS/test/testNURBS.cpp:103-109 | the driver's sequence of list operations yields `{7,8,9,10,11,100,8,9,10,11,500,7,8,9,10,11}` |
| ContainerList.TestDriverScenario | NURBS/test/testNURBS.cpp:103-109 | run on list objects, the driver's calls pop 7 and leave `{7,8,9,10,11,100,8,9,10,11,500,7,8,9,10,11}` |
| ApiConfig.LayerTypeCode | src/APIConfig.h:68-72 | `LAMINA` and `STIFFENER` have the codes 0 and 1, below the enumerator count |
| ApiConfig.DirectionCode | src/APIConfig.h:75-81 | `NODIR`..`SIDE` have the codes 0..3, below the enumerator count |
| ApiConfig.DelaminationCode | src/APIConfig.h:84-92 | `NODELAM`..`TIE` have the codes 0..4, below the enumerator count |
| ApiConfig.BCStatusCode | src/APIConfig.h:94-101 | `is_contact`..`is_cohesive_layer` have the codes 0..4, below the enumerator count |
| ApiConfig.BCStatusOf | src/APIConfig.h:94-101 | an integer from the Python side names a boundary-condition request exactly when it lies in 0..4 |
| ApiConfig.DirectionOf | src/APIConfig.h:75-81 | an integer names a direction exactly when it lies in 0..3 |
| ApiConfig.CodesRoundTrip | src/APIConfig.h:75-101 | code and decoding are inverse both ways for `Direction` and `BCStatus` |
| ApiConfig.CodesInjective | src/APIConfig.h:68-92 | distinct `DelaminationType` and `LayerType` enumerators have distinct codes |
| ApiConfig.FaceAdjacency.constructor | src/APIConfig.h:107-111 | the default record has both names null and its points at the default point |
| ApiConfig.FaceAdjacency.Copy | src/APIConfig.h:113-150 | the copy has equal names (null stays null), points, vectors and boundary condition |
| ApiConfig.FaceAdjacency.Assign | src/APIConfig.h:168-217 | after assignment every field equals the right-hand side's; self-assignment changes nothing |
| NurbsGrid.FlattenLength | NURBS/src/NURBS.hxx:650-667 | a `nu` by `nv` grid read out row after row has `nu * nv` entries, the length of the new control-point array |
| NurbsGrid.FlattenAt | NURBS/src/NURBS.hxx:650-667 | entry `(i, j)` of a grid lands at index `i * cols + j` of its row-major array |
| NurbsGrid.Chop | NURBS/src/NURBS.hxx:1310-1329 | an array of `rows * cols` entries cut into `rows` rows of `cols`, the shape `init_ctrlpts2d` allocates |
| NurbsGrid.ChopAt | NURBS/src/NURBS.hxx:596-602 | row `i`, column `j` of the cut array is entry `i * cols + j` of the flat one |
| NurbsGrid.ChopFlatten | NURBS/src/NURBS.hxx:680-694 | cutting a grid's row-major array gives the grid back |
| NurbsGrid.FlattenChop | NURBS/src/NURBS.hxx:596-602 | reading a cut array row after row gives the flat array back |
| NurbsGrid.Transposed | NURBS/src/NURBS.hxx:650-695 | the transpose has the dimensions swapped and entry `(j, i)` equal to entry `(i, j)` of the grid |
| NurbsGrid.TransposedTwice | NURBS/src/NURBS.hxx:650-695 | transposing twice gives the grid back |
| NurbsGrid.SetterLayout | NURBS/src/NURBS.hxx:151-192 | the grid the `ctrlpts(points, nu, nv)` setter builds has `nu` rows of `nv` entries |
| NurbsGrid.SetterLayoutAt | NURBS/src/NURBS.hxx:183-190 | the setter's entry `(i, t)` is point `i + t * nu` of the flat array |
| NurbsGrid.ReadLayout | NURBS/src/NURBS.hxx:594-602 | the grid `read_ctrlpts` and `transpose_ctrlpts` build has `nu` rows of `nv` entries |
| NurbsGrid.ReadLayoutAt | NURBS/src/NURBS.hxx:596-602 | that grid's entry `(i, j)` is point `j + i * nv` of the flat array |
| NurbsGrid.SetterLayoutIsTransposedReadLayout | NURBS/src/NURBS.hxx:151-192 | the setter's grid is the transpose of the row-major grid with `nu` and `nv` swapped |
| NurbsGrid.LayoutsDiffer | NURBS/src/NURBS.hxx:183-190 | the two layouts disagree: `[0, 1, 2, 3]` with `nu == nv == 2` gives `[[0, 2], [1, 3]]` from the setter and `[[0, 1], [2, 3]]` from `read_ctrlpts` (596-602) |
| NurbsGrid.TransposeLayout | NURBS/src/NURBS.hxx:650-695 | the grid `transpose_ctrlpts` rebuilds from its column-by-column array is the transpose of the old grid |
| NurbsKnots.Ordered | NURBS/src/NURBS.hxx:1609-1634 | in a sorted knot vector an earlier knot is never larger, the ordering `find_span` relies on |
| NurbsKnots.OrderedStrict | NURBS/src/NURBS.hxx:1609-1634 | in a sorted knot vector a strictly smaller knot comes strictly earlier |
| NurbsKnots.Normalized | NURBS/src/NURBS.hxx:1410-1427 | the normalised vector has the same length and each knot, times the range, is its distance from the first knot |
| NurbsKnots.NormalizedEnds | NURBS/src/NURBS.hxx:1410-1427 | normalising maps the first knot to 0 and the last to 1 |
| NurbsKnots.NormalizedMonotone | NURBS/src/NURBS.hxx:1410-1427 | normalising a sorted vector keeps it sorted |
| NurbsKnots.NormalizedFixesUnitRange | NURBS/src/NURBS.hxx:1410-1427 | a vector already running from 0 to 1 is unchanged |
| NurbsKnots.NormalizedIdempotent | NURBS/src/NURBS.hxx:1410-1427 | normalising twice equals normalising once |
| NurbsKnots.NormalizeInto | NURBS/src/NURBS.hxx:1410-1427 | `normalize` writes the normalised knots into the output prefix and nothing past it; an empty input writes nothing |
| NurbsKnots.SpanSearch | NURBS/src/NURBS.hxx:1609-1634 | a linear search from span `s` finds a span `r` in `s..n-1` with `U[r] <= u < U[r+1]` |
| NurbsKnots.KnotSpan | NURBS/src/NURBS.hxx:1609-1634 | the knot span of `u`: `n - 1` when `u == U[n]`, else the span in `p..n-1` whose half-open interval holds `u` |
| NurbsKnots.SpanUnique | NURBS/src/NURBS.hxx:1609-1634 | in a sorted knot vector only one half-open interval holds `u` |
| NurbsKnots.FindSpan | NURBS/src/NURBS.hxx:1609-1634 | `find_span`'s binary search returns that knot span |
| NurbsBasis.Denom | NURBS/src/NURBS.hxx:1452-1457 | the divisor `right[r+1] + left[j-r]` is the knot difference `U[span+r+1] - U[span+1-j+r]` |
| NurbsBasis.DenomPositive | NURBS/src/NURBS.hxx:1457 | on a valid span every divisor of the recurrence is positive |
| NurbsBasis.DomainSmaller | NURBS/src/NURBS.hxx:1450 | what holds for degree `p` on a span holds for every lower degree, as the outer loop runs `j = 1..p` |
| NurbsBasis.LevelStep | NURBS/src/NURBS.hxx:1455-1460 | one inner step writes the basis function of entry `r` and carries the share that entry `r + 1` needs |
| NurbsBasis.LevelLast | NURBS/src/NURBS.hxx:1461 | the `saved` left after a level's last step is its last basis function |
| NurbsBasis.Basis | NURBS/src/NURBS.hxx:1439-1469 | degree `p` gives `p + 1` non-zero basis functions |
| NurbsBasis.LevelInPlace | NURBS/src/NURBS.hxx:1454-1461 | the inner loop turns the degree `j - 1` functions in `n[0..j-1]` into those of degree `j` in `n[0..j]`, leaving the rest of the array alone |
| NurbsBasis.ExtendDistances | NURBS/src/NURBS.hxx:1452-1453 | `left[j]` and `right[j]` are set to the knot distances and no other slot changes |
| NurbsBasis.BasisFunctions | NURBS/src/NURBS.hxx:1439-1469 | `basis_functions` (Algorithm A2.2 of The NURBS Book) returns the `p + 1` non-zero basis functions of the span |
| NurbsBasis.BasisDegreeOne | NURBS/src/NURBS.hxx:1439-1469 | for degree 1 the result is the two hat functions `(U[s+1]-u)/(U[s+1]-U[s])` and `(u-U[s])/(U[s+1]-U[s])` |
| NurbsBasis.BasisAtLocal | NURBS/src/NURBS.hxx:1452-1453 | each basis function reads only knots `span+1-p .. span+p` |
| NurbsBasis.BasisLocal | NURBS/src/NURBS.hxx:1439-1469 | two knot vectors that agree on that window give the same basis functions |
| NurbsBasis.LevelPartialSum | NURBS/src/NURBS.hxx:1455-1460 | within a level the partial sums telescope: written entries plus the carried `saved` equal the entries read |
| NurbsBasis.LevelSum | NURBS/src/NURBS.hxx:1450-1462 | each level keeps the sum of the previous one |
| NurbsBasis.BasisPartitionOfUnity | NURBS/src/NURBS.hxx:1439-1469 | the non-zero basis functions sum to one |
| NurbsBasis.BasisAtNonNegative | NURBS/src/NURBS.hxx:1455-1460 | for `u` in the span's closed interval every basis function is non-negative |
| NurbsBasis.BasisNonNegative | NURBS/src/NURBS.hxx:1439-1469 | all the returned basis functions are non-negative |
| NurbsDers.CoefDenomsPositive | NURBS/src/NURBS.hxx:1542-1561 | every divisor `ndu[pk+1][..]` met at step `k` is positive |
| NurbsDers.DersRowZero | NURBS/src/NURBS.hxx:1516-1519 | row 0 of the result holds the basis functions of `basis_functions` |
| NurbsDers.CoefOneZero | NURBS/src/NURBS.hxx:1540-1544 | at step 1, `a[1][0]` of a function `r > 0` is one over the knot difference of its lower term |
| NurbsDers.CoefOneOne | NURBS/src/NURBS.hxx:1559-1563 | at step 1, `a[1][1]` of a function `r < p` is minus one over the knot difference of its upper term |
| NurbsDers.RowOneStart | NURBS/src/NURBS.hxx:1540-1558 | the first part of step 1's sum is the lower term `N[i,p-1]/(U[i+p]-U[i])` |
| NurbsDers.RowOneEnd | NURBS/src/NURBS.hxx:1559-1563 | the last part of step 1's sum is minus the upper term `N[i+1,p-1]/(U[i+p+1]-U[i+1])` |
| NurbsDers.DersRowOne | NURBS/src/NURBS.hxx:1535-1582 | row 1 is the first derivative of equation (2.9) of The NURBS Book: `p` times the lower term minus the upper term |
| NurbsDers.TermsShared | NURBS/src/NURBS.hxx:1535-1582 | the upper term of function `r` is the lower term of function `r + 1` |
| NurbsDers.RowOnePartialSum | NURBS/src/NURBS.hxx:1535-1582 | partial sums of row 1 telescope to minus `p` times the upper term of the last function summed |
| NurbsDers.RowOneSumsToZero | NURBS/src/NURBS.hxx:1535-1582 | the first derivatives of the non-zero basis functions sum to zero |
| NurbsDers.NduSweep | NURBS/src/NURBS.hxx:1503-1511 | the inner loop writes the divisors of row `j` below the diagonal and the degree `j` basis functions above it, returns the last `saved` and leaves every other entry alone |
| NurbsDers.NduLevel | NURBS/src/NURBS.hxx:1498-1513 | one outer pass completes column `j` above the diagonal and row `j` below it |
| NurbsDers.NduTable | NURBS/src/NURBS.hxx:1489-1513 | the `ndu` table holds every basis function of degrees `0..p` above the diagonal and every divisor below it |
| NurbsDers.ReadsWritten | NURBS/src/NURBS.hxx:1540-1563 | the first and last tests of step `k` read only coefficients that step `k - 1` wrote |
| NurbsDers.ReadsWrittenMiddle | NURBS/src/NURBS.hxx:1554-1558 | so does the inner loop of step `k` |
| NurbsDers.CoefAtStart | NURBS/src/NURBS.hxx:1542 | `a[s2][0] = a[s1][0] / ndu[pk+1][rk]` computes the coefficient `a[k][0]`, over a positive divisor |
| NurbsDers.CoefAtMiddle | NURBS/src/NURBS.hxx:1556 | `a[s2][j] = (a[s1][j] - a[s1][j-1]) / ndu[pk+1][rk+j]` computes `a[k][j]`, over a positive divisor |
| NurbsDers.CoefAtEnd | NURBS/src/NURBS.hxx:1561 | `a[s2][k] = -a[s1][k-1] / ndu[pk+1][r]` computes `a[k][k]`, over a positive divisor |
| NurbsDers.CoefTerm | NURBS/src/NURBS.hxx:1554-1558 | one inner pass writes coefficient `j` and adds its term to the sum, changing no other entry of `a` |
| NurbsDers.CoefMiddle | NURBS/src/NURBS.hxx:1545-1558 | the inner loop writes the coefficients `j1..j2` and sums their terms |
| NurbsDers.CoefFirst | NURBS/src/NURBS.hxx:1540-1544 | when `r >= k` the first test writes `a[k][0]` and starts the sum with its term |
| NurbsDers.CoefLast | NURBS/src/NURBS.hxx:1559-1563 | when `r <= p - k` the last test writes `a[k][k]` and completes the sum |
| NurbsDers.CoefStep | NURBS/src/NURBS.hxx:1537-1569 | step `k` turns row `s1`'s coefficients into row `s2`'s and returns the sum of equation (2.10), leaving row `s1` alone |
| NurbsDers.FunctionDers | NURBS/src/NURBS.hxx:1528-1571 | for one function `r`, `ders[k][r]` before the final factors is that sum for every `k` in `1..n`, and nothing else of `ders` changes |
| NurbsDers.AllFunctionsDers | NURBS/src/NURBS.hxx:1528-1571 | the loop over the functions fills rows `1..n` for `r` in `0..p` |
| NurbsDers.LoadBasis | NURBS/src/NURBS.hxx:1516-1519 | row 0 receives the basis functions from the last column of `ndu` |
| NurbsDers.ScaleRow | NURBS/src/NURBS.hxx:1577-1580 | `ders[k][j] *= r` for `j` in `0..p`, nothing else changed |
| NurbsDers.MultiplyFactors | NURBS/src/NURBS.hxx:1574-1582 | row `k` is multiplied by `p (p-1) ... (p-k+1)`, the integer the source accumulates |
| NurbsDers.BasisFunctionsDers | NURBS/src/NURBS.hxx:1482-1597 | `basis_functions_ders` (Algorithm A2.3) leaves in `ders[k][r]`, for `k <= n` and `r <= p`, derivative `k` of basis function `r`, and nothing outside that block changes |
| NurbsSurface.SpanFits | NURBS/src/NURBS.hxx:1609-1634 | for `u` in [0, 1] on a fitting knot vector `find_span` may run, and its span leaves room for the basis functions and the grid rows they weight |
| NurbsSurface.WeightedSumConstant | NURBS/src/NURBS.hxx:869-882 | a weighted sum of one repeated point is that point scaled by the sum of the weights |
| NurbsSurface.Column | NURBS/src/NURBS.hxx:873-878 | the `count` control points `grid[uind + k][vind]` the inner loop reads |
| NurbsSurface.Temps | NURBS/src/NURBS.hxx:869-878 | one `temp` per column `vind + l` of the patch, `m` in all |
| NurbsSurface.PatchPointConstant | NURBS/src/NURBS.hxx:866-882 | a patch of one repeated point is that point scaled by both weight sums |
| NurbsSurface.SurfacePointConstant | NURBS/src/NURBS.hxx:847-891 | a surface whose control points are all one point evaluates to that point everywhere in [0, 1]², by the partition of unity in both directions |
| NurbsSurface.WeightedSumLoop | NURBS/src/NURBS.hxx:873-878 | the accumulation loop `acc += w[i] * pts[i]` from the zero point yields the weighted sum |
| NurbsSurface.PatchPointLoop | NURBS/src/NURBS.hxx:866-882 | the double loop of Algorithm A3.5 yields `sum_l wv[l] * sum_k wu[k] * P[uind+k][vind+l]` |
| NurbsSurface.SurfacePointAt | NURBS/src/NURBS.hxx:857-891 | `surfpoint` past its gates returns the surface point of the spans of `u` and `v` weighted by their basis functions |
| NurbsSurface.DersRow | NURBS/src/NURBS.hxx:937-951 | row `k` of `basis_functions_ders` has the `p + 1` derivatives of order `k` |
| NurbsSurface.DerivativeOrderZero | NURBS/src/NURBS.hxx:903-997 | `SKL[0][0]` is the surface point `surfpoint` computes |
| NurbsSurface.DersRowOneSum | NURBS/src/NURBS.hxx:1482-1597 | the first derivatives of a span's basis functions sum to zero |
| NurbsSurface.ConstantSurfaceTangentsVanish | NURBS/src/NURBS.hxx:903-997 | on a surface of one repeated control point both first partial derivatives are zero |
| NurbsSurface.ZeroRowsBeyond | NURBS/src/NURBS.hxx:919-926 | `SKL[k][l]` is zeroed for `degreeU < k <= d`, `l <= d - k`, and nothing else changes |
| NurbsSurface.ZeroColumnsBeyond | NURBS/src/NURBS.hxx:928-935 | `SKL[k][l]` is zeroed for `degreeV < l <= d`, `k <= d - l`, and nothing else changes |
| NurbsSurface.RowOf | NURBS/src/NURBS.hxx:938-951 | row `i` of a two-dimensional array, entry for entry |
| NurbsSurface.DerivativeTemps | NURBS/src/NURBS.hxx:955-965 | the `s` loop fills a fresh `temp` with the columns of the patch weighted by the derivatives in u |
| NurbsSurface.DerivativeRow | NURBS/src/NURBS.hxx:966-976 | the `l` loop sets `SKL[k][l]` to `temp` weighted by the `l`-th derivatives in v, and nothing else |
| NurbsSurface.DerivativeEntry | NURBS/src/NURBS.hxx:953-979 | an entry Algorithm A3.6 computes is the `wv[l]`-weighted sum of derivative `k`'s `temp` row |
| NurbsSurface.DerivativeRowEntries | NURBS/src/NURBS.hxx:966-976 | row `k` of `SKL`: those sums for `l <= min(d - k, degreeV)`, then zero |
| NurbsSurface.DerivativeRows | NURBS/src/NURBS.hxx:953-979 | the `k` loop over the zeroed array leaves every `SKL[k][l]` equal to the derivative of order `(k, l)` (zero where the degrees run out) |
| NurbsSurface.DerivativesAt | NURBS/src/NURBS.hxx:913-997 | `derivatives(u, v, d)` past its gates returns a fresh `(d+1)` by `(d+1)` array of the derivatives of order `(k, l)` |
| NurbsSurface.DersRows | NURBS/src/NURBS.hxx:937-951 | the `n + 1` rows of derivatives of one direction's basis functions |
| NurbsSurface.NormalOrthogonalToTangents | NURBS/src/NURBS.hxx:1086-1117 | the normal, the cross product of the u- and v-tangents, is perpendicular to both |
| NurbsSurface.SampleListUnique | NURBS/src/NURBS.hxx:771-778 | the sample list `evaluate` builds for a step is unique |
| NurbsSurface.SamplesInUnitInterval | NURBS/src/NURBS.hxx:771-778 | for a positive step the samples start at 0, end at 1, stay in [0, 1] and strictly increase |
| NurbsSurface.SampleBound | NURBS/src/NURBS.hxx:771-776 | the sampling loop runs fewer than `floor(1 / delta) + 1` times |
| NurbsSurface.Samples | NURBS/src/NURBS.hxx:765-778 | the loop adding `delta` to 0 while below 1, then appending 1, builds that sample list |
| NurbsSurface.EvaluatedGrid | NURBS/src/NURBS.hxx:788-833 | the grid of surface points at the sample pairs has one row per u sample and one column per v sample |
| NurbsSurface.EvaluatePoint | NURBS/src/NURBS.hxx:798-829 | one pass of the `iu` loop computes the surface point at `(u, v)` |
| NurbsSurface.EvaluateColumn | NURBS/src/NURBS.hxx:798-829 | the `iu` loop fills column `iv` of the 2D array with the surface points, returns them in the order appended to the 1D array, and leaves the other columns alone |
| NurbsSurface.EvaluateGrid | NURBS/src/NURBS.hxx:780-833 | `evaluate`'s double loop: the 2D array `[iu][iv]` holds the surface points, and the 1D array lists the v columns one after another |
| NurbsSurface.TransposedSurface | NURBS/src/NURBS.hxx:701-749 | `transpose` swaps degrees, knot vectors and sizes and transposes the grid, keeping it a grid of the new sizes; the knot vectors are swapped whole, the corrected copy of the Findings row on `transpose` |
| NurbsSurface.TransposedSurfaceTwice | NURBS/src/NURBS.hxx:701-749 | transposing twice gives the surface back (with the knot vectors swapped whole) |
| NurbsSurface.EvaluableTransposed | NURBS/src/NURBS.hxx:701-749 | an evaluable surface stays evaluable after transposition with the knot vectors swapped whole |
| Nurbs.PreCalculate | NURBS/src/NURBS.hxx:1642-1684 | `pre_calculate` holds exactly when both degrees are non-zero and both knot vectors, the control points and the weights are set |
| Nurbs.CheckUV | NURBS/src/NURBS.hxx:1366-1398 | `check_uv` accepts exactly `u, v` in [0, 1], and with `test_normal` also `u + delta` and `v + delta` in [0, 1] |
| Nurbs.CheckNormalStricter | NURBS/src/NURBS.hxx:1366-1398 | the check for `normal` accepts only what the plain check accepts |
| Nurbs.LowerEdgeTestInert | NURBS/src/NURBS.hxx:1366-1381 | with a non-negative step the `u + delta < 0` test never rejects |
| Nurbs.SetterRow | NURBS/src/NURBS.hxx:187-190 | one pass of the setter's inner loop builds row `i` of its layout |
| Nurbs.FillSetterLayout | NURBS/src/NURBS.hxx:183-191 | the setter's nested fill loop builds the grid with `2d[i][t] == points[i + t * nu]` |
| Nurbs.ReadRow | NURBS/src/NURBS.hxx:598-601 | one pass of the inner fill loop of `read_ctrlpts` builds row `i` of the row-major layout |
| Nurbs.FillReadLayout | NURBS/src/NURBS.hxx:594-602 | the nested fill loop of `read_ctrlpts` and `transpose_ctrlpts` builds the grid with `2d[i][j] == flat[j + i * nv]` |
| Nurbs.ColumnOf | NURBS/src/NURBS.hxx:662-666 | the inner copy loop of `transpose_ctrlpts` reads column `j` of the old grid |
| Nurbs.ColumnMajor | NURBS/src/NURBS.hxx:658-667 | the copy loop writes the old grid column by column into the new flat array |
| Nurbs.ConcatRows | NURBS/src/NURBS.hxx:523-570 | `read_ctrlpts` pushes the points of every line, in file order, into one flat list |
| Nurbs.ReadArrays | NURBS/src/NURBS.hxx:580-602 | from lines of any lengths whose points fit the `num_u * num_v` array it builds that array (the points in file order, then default points) and its row-major grid |
| Nurbs.UnitWeights | NURBS/src/NURBS.hxx:523-570 | each point read gets the default weight 1.0 |
| Nurbs.ReadPoints | NURBS/src/NURBS.hxx:580-592 | the `num_u * num_v` array holds the points read in file order, followed by default points at the origin |
| Nurbs.ReadGrid | NURBS/src/NURBS.hxx:595-602 | the grid `read_ctrlpts` builds has `num_u` rows of `num_v` points |
| Nurbs.ReadRectangular | NURBS/src/NURBS.hxx:523-602 | when every line is as long as the last, the array is the points read without padding and the grid is the lines themselves |
| Nurbs.ReadRaggedShifts | NURBS/src/NURBS.hxx:523-602 | a shorter line before a longer last one is accepted: its gap is filled by the next line's points and the array ends in a default point |
| Nurbs.SaveReadRoundTrip | NURBS/src/NURBS.hxx:620-645 | saving a non-empty grid one row per line and reading the file back with `read_ctrlpts` (510-613) gives the same grid and dimensions |
| Nurbs.TransposedState | NURBS/src/NURBS.hxx:701-749 | the state `transpose` stores, with the knot vectors swapped whole (the corrected copy of the Findings row on `transpose`), has a flat array of `nv * nu` points |
| Nurbs.TransposedStateSnapshot | NURBS/src/NURBS.hxx:650-749 | after `transpose` with the knot vectors swapped whole the grid is the transpose of the old one, `pre_calculate` still holds, and the evaluators see the transposed surface |
| Nurbs.TransposedStateConsistent | NURBS/src/NURBS.hxx:701-749 | a surface the evaluators can use stays one after `transpose` with the knot vectors swapped whole |
| Nurbs.CopyIntoFresh | NURBS/src/NURBS.hxx:721-725 | a `std::copy` of `count` knots into a fresh buffer is defined exactly when both the source and the buffer hold `count` entries, and then leaves the buffer's tail uninitialised |
| Nurbs.TransposedKnotsAsWrittenDefined | NURBS/src/NURBS.hxx:716-725 | the knot copies of `transpose` as written stay inside their buffers exactly when the two knot vectors have one length, and then they are the clean swap |
| Nurbs.TransposedKnotsOverflow | NURBS/src/NURBS.hxx:716-725 | for two valid knot vectors of lengths 8 and 6 the copies as written overflow, and the new V vector loses its clamped end |
| Nurbs.TransposedStateAsWritten | NURBS/src/NURBS.hxx:701-749 | where the copies as written stay in bounds, they store the knot vectors of the transposed state |
| Nurbs.TransposedStateTwice | NURBS/src/NURBS.hxx:650-749 | with the knot vectors swapped whole, `transpose` twice restores degrees, knots, weights, dimensions and grid; the flat array then lists the grid row by row |
| Nurbs.CopiedState | NURBS/src/NURBS.hxx:1241-1303 | `copy_vars` keeps a valid shape, copies the first `num_u * num_v` weights, allocates every array (a null one as empty), forgets the surface points and keeps the target's own `delta` |
| Nurbs.CopiedStateEvaluatesAlike | NURBS/src/NURBS.hxx:1241-1303 | a copy of a surface that passes `pre_calculate` (1642-1684) passes it too, evaluates to the same surface, and is consistent when the original is |
| Nurbs.CopyOfIncompletePassesGate | NURBS/src/NURBS.hxx:1241-1303 | a copy of a surface with only its degrees set passes `pre_calculate`, which the original fails, yet cannot be evaluated |
| Nurbs.ArrayRows | NURBS/src/NURBS.hxx:1336-1355 | the rows of a two-dimensional array of surface points, entry for entry |
| Nurbs.EvaluateSurface | NURBS/src/NURBS.hxx:764-833 | `evaluate` past its gate: the samples start at 0, end at 1 and stay in [0, 1]; the grid holds the surface point at every pair of samples, and the 1D list holds the v columns one after another |
| Nurbs.ArrayRowsOf | NURBS/src/NURBS.hxx:1336-1355 | an array whose entries match a grid has that grid as its rows |
| Nurbs.Nurbs.constructor | NURBS/src/NURBS.hxx:51-54 | a new surface is in the `init_vars` state (1154-1172): nothing set, degrees 0, `delta == 0.01` |
| Nurbs.Nurbs.Copy | NURBS/src/NURBS.hxx:60-64 | the copy constructor gives the `copy_vars` state over the `init_vars` one, so its `delta` is 0.01 whatever the original's |
| Nurbs.Nurbs.Assign | NURBS/src/NURBS.hxx:79-86 | assignment changes nothing on self-assignment; otherwise the new state is `copy_vars` of the old state and the right-hand side |
| Nurbs.Nurbs.SetDegreeU | NURBS/src/NURBS.hxx:103-115 | `degree_u(d)` succeeds exactly when `d > 0` and stores it; otherwise nothing changes |
| Nurbs.Nurbs.SetDegreeV | NURBS/src/NURBS.hxx:131-143 | `degree_v(d)` succeeds exactly when `d > 0` and stores it; otherwise nothing changes |
| Nurbs.Nurbs.SetCtrlPts | NURBS/src/NURBS.hxx:151-192 | `ctrlpts(points, nu, nv)` stores the first `nu * nv` points, the dimensions and the setter's grid; nothing else changes |
| Nurbs.Nurbs.SetKnotVectorU | NURBS/src/NURBS.hxx:243-274 | both `knotvector_u` overloads store the normalised copy and change nothing else |
| Nurbs.Nurbs.SetKnotVectorV | NURBS/src/NURBS.hxx:298-329 | both `knotvector_v` overloads store the normalised copy and change nothing else |
| Nurbs.Nurbs.SetWeightsList | NURBS/src/NURBS.hxx:353-366 | `weights(list)` stores the list, whatever its length |
| Nurbs.Nurbs.SetWeights | NURBS/src/NURBS.hxx:374-394 | `weights(ptr, n)` succeeds exactly when `n == ctrlpts_len()`; otherwise the weights are kept |
| Nurbs.Nurbs.SetDelta | NURBS/src/NURBS.hxx:486-489 | `delta(value)` stores the step and nothing else |
| Nurbs.Nurbs.ReadCtrlPts | NURBS/src/NURBS.hxx:510-613 | `read_ctrlpts` fails, changing nothing, when the file cannot be opened; otherwise, for lines of any lengths whose points fit the array, it stores the padded array, its row-major grid, the dimensions (lines, last line's length) and `num_u * num_v` weights, 1.0 for every point read |
| Nurbs.Nurbs.SaveCtrlPts | NURBS/src/NURBS.hxx:620-645 | `save_ctrlpts` fails when the file cannot be opened; otherwise it writes the grid one row per line |
| Nurbs.Nurbs.Transpose | NURBS/src/NURBS.hxx:701-749 | `transpose` fails, changing nothing, unless `pre_calculate` holds; otherwise it stores the transposed state, with the knot vectors swapped whole (the corrected member of the Findings row on `transpose`) |
| Nurbs.Nurbs.TransposeCtrlPts | NURBS/src/NURBS.hxx:650-695 | `transpose_ctrlpts` rewrites only the control points and their dimensions as `transpose` does, keeping degrees and knots |
| Nurbs.Nurbs.SurfacePoint | NURBS/src/NURBS.hxx:847-891 | `surfpoint` succeeds exactly when both gates pass, and then returns the tensor-product surface point; on failure the output is untouched |
| Nurbs.Nurbs.Derivatives | NURBS/src/NURBS.hxx:903-997 | `derivatives` succeeds exactly when both gates pass; then a fresh `(d+1)` by `(d+1)` array of the derivatives, zero where an order exceeds its degree; on failure nothing is allocated |
| Nurbs.Nurbs.TangentU | NURBS/src/NURBS.hxx:1008-1035 | `tangent_u` succeeds exactly when both gates pass and returns `SKL[1][0]` |
| Nurbs.Nurbs.TangentV | NURBS/src/NURBS.hxx:1046-1073 | `tangent_v` succeeds exactly when both gates pass and returns `SKL[0][1]` |
| Nurbs.Nurbs.Normal | NURBS/src/NURBS.hxx:1086-1117 | `normal` succeeds exactly when `pre_calculate` and the stricter `check_uv` pass, and returns the cross product of the two tangents taken as vectors from the origin |
| Nurbs.Nurbs.Evaluate | NURBS/src/NURBS.hxx:758-836 | `evaluate` fails, changing nothing, unless `pre_calculate` holds; otherwise it stores the surface points at every pair of samples (`[iu][iv]` and the 1D list column after column), sets the u count to the number of samples and adds it to the v count |
| Layers.MBBody.constructor | src/MBBody.cpp:34-39 | a new shell body has a null body and a null name |
| Layers.MBBody.SetBody | src/MBBody.cpp:59-62 | `body(b)` stores `b`, which `body()` (54-57) then returns; the name is kept |
| Layers.MBBody.SetName | src/MBBody.cpp:69-84 | `name(nullptr)` changes nothing; `name(s)` stores a copy equal to `s` |
| Layers.MBBody.Assign | src/MBBody.cpp:20-27 | assignment (through `copy_vars`, 48-52) gives the right-hand body handle and name |
| Layers.LayerMold.constructor | src/LayerMold.cpp:34-41 | a new mold has direction `NODIR`, null owner, body and name, and is not stiffener-generated |
| Layers.LayerMold.SetOwner | src/LayerMold.cpp:64-68 | `owner(l)` stores `l`, returned by `owner()` (59-62); nothing else changes |
| Layers.LayerMold.SetDirection | src/LayerMold.cpp:75-78 | `direction(d)` stores `d`, returned by `direction()` (70-73); nothing else changes |
| Layers.LayerMold.SetBody | src/LayerMold.cpp:85-88 | `body(b)` stores `b`, returned by `body()` (80-83); nothing else changes |
| Layers.LayerMold.SetName | src/LayerMold.cpp:95-110 | `name(nullptr)` changes nothing; `name(s)` stores a copy equal to `s` |
| Layers.LayerMold.SetStiffenerGen | src/LayerMold.cpp:112-115 | `stiffener_gen(b)` stores `b`, returned by `is_stiffener_gen()` (117-120) |
| Layers.LayerMold.Assign | src/LayerMold.cpp:19-27 | assignment (through `copy_vars`, 50-57) copies owner, direction, body, name and flag |
| Layers.LayerSurface.constructor | src/LayerSurface.cpp:33-47 | a new surface has id 0, angle 0, type `COHESIVE`, direction `NODIR`, is not initial, has null face, owner, pair and origin, and both stiffener flags false |
| Layers.LayerSurface.SetDelamType | src/LayerSurface.cpp:80-83 | `delam_type(t)` stores `t`, returned by `delam_type()` (75-78); nothing else changes |
| Layers.LayerSurface.SetFace | src/LayerSurface.cpp:102-105 | `face(f)` stores `f`, returned by `face()` (97-100); nothing else changes |
| Layers.LayerSurface.SetPoint | src/LayerSurface.cpp:112-115 | `point(p)` stores `p`, returned by `point()` (107-110); nothing else changes |
| Layers.LayerSurface.SetNormal | src/LayerSurface.cpp:122-125 | `normal(n)` stores `n`, returned by `normal()` (117-120); nothing else changes |
| Layers.LayerSurface.SetAngle | src/LayerSurface.cpp:127-130 | `angle(a)` stores `a`, returned by `angle()` (132-135); nothing else changes |
| Layers.LayerSurface.SetInitial | src/LayerSurface.cpp:137-140 | `initial_surface(f)` stores `f`, returned by `is_initial_surface()` (142-145) |
| Layers.LayerSurface.SetOwner | src/LayerSurface.cpp:148-151 | `owner(b)` stores `b`, returned by `owner()` (153-156); nothing else changes |
| Layers.LayerSurface.SetDirection | src/LayerSurface.cpp:158-161 | `direction(d)` stores `d`, returned by `direction()` (163-166); nothing else changes |
| Layers.LayerSurface.SetId | src/LayerSurface.cpp:168-171 | `id(n)` stores `n`, returned by `id()` (173-176); nothing else changes |
| Layers.LayerSurface.SetPair | src/LayerSurface.cpp:178-181 | `pair(s)` stores `s`, returned by `pair()` (183-186); nothing else changes |
| Layers.LayerSurface.PairClear | src/LayerSurface.cpp:188-191 | `pair_clear()` makes the pair null and changes nothing else |
| Layers.LayerSurface.SetStiffenerGen | src/LayerSurface.cpp:193-196 | `stiffener_gen(b)` stores `b`, returned by `is_stiffener_gen()` (198-201) |
| Layers.LayerSurface.SetStiffenerPaired | src/LayerSurface.cpp:203-206 | `stiffener_paired(b)` stores `b`, returned by `is_stiffener_paired()` (208-211) |
| Layers.LayerSurface.SetCreatedFrom | src/LayerSurface.cpp:213-221 | both `created_from` setters store the origin surface, returned by `created_from()` (223-226) |
| Layers.LayerSurface.Assign | src/LayerSurface.cpp:19-26 | assignment makes every field equal the right-hand side's; self-assignment changes nothing |
| Layers.LayerSurface.CopyIdentity | src/LayerSurface.cpp:58-65 | the first half of `copy_vars` copies id, face, point, normal, angle, initial flag and direction |
| Layers.LayerSurface.CopyBonding | src/LayerSurface.cpp:66-73 | the second half copies owner, delamination type, pair, both stiffener flags and origin |
| Layers.LayerBody.constructor | src/LayerBody.cpp:34-43 | a new body has no name, owner or surfaces, surface counter 0, a null body and a default embedded mold |
| Layers.LayerBody.SetName | src/LayerBody.cpp:108-123 | `name(nullptr)` changes nothing; `name(s)` stores a copy equal to `s` |
| Layers.LayerBody.SetBody | src/LayerBody.cpp:130-133 | `body(b)` stores `b`, returned by `body()` (125-128) |
| Layers.LayerBody.SetOwner | src/LayerBody.cpp:200-203 | `owner(l)` stores `l`, returned by `owner()` (205-208) |
| Layers.LayerBody.AddSurface | src/LayerBody.cpp:135-163 | `add_surface(s)` appends `s` after the old surfaces and increments the surface counter |
| Layers.LayerBody.At | src/LayerBody.cpp:175-180 | `at(i)` succeeds exactly for `0 <= i < size()`, with the surface at `i`; otherwise the out-of-range error (210-222) |
| Layers.LayerBody.Clear | src/LayerBody.cpp:187-197 | `clear()` empties the surface list and resets the counter to 0 |
| Layers.LayerBody.FaceId | src/LayerBody.cpp:224-233 | `face_id(f)` is the first index whose surface has face `f`, and -1 exactly when none has |
| Layers.LayerBody.SetMold | src/LayerBody.cpp:240-243 | `mold(m)` copies `*m` into the embedded mold |
| Layers.LayerBody.MoldRef | src/LayerBody.cpp:245-250 | `mold()` is null exactly when the embedded mold has a null body, and is that mold otherwise |
| Layers.LayerBody.Assign | src/LayerBody.cpp:20-27 | assignment (through `copy_vars`, 66-101) copies name, body, surface list, owner and counter |
| Layers.Layer.constructor | src/Layer.cpp:4-9 | a new layer (`init_vars`, 39-56) is named `"UnnamedLayer"`, has positions 0, id `INT_MAX`, type `LAMINA`, no bodies, molds, bond pairs or reference mold, and body counter 0 |
| Layers.Layer.Thickness | src/Layer.cpp:137-140 | the thickness is the non-negative distance between the two positions |
| Layers.Layer.Position | src/Layer.cpp:152-156 | `position(a, b)` stores both positions, after which the thickness is `|b - a|` |
| Layers.Layer.SetName | src/Layer.cpp:163-181 | `name(nullptr)` changes nothing; `name(s)` stores `s` and, through `update_bodynames` (235-247), prefixes `s` to each body's name once per time the body is listed |
| Layers.Layer.SetId | src/Layer.cpp:188-191 | `id(n)` stores `n`, returned by `id()` (183-186) |
| Layers.Layer.SetLayup | src/Layer.cpp:198-201 | `layup(n)` stores `n`, returned by `layup()` (193-196) |
| Layers.Layer.SetType | src/Layer.cpp:203-206 | `type(t)` stores `t`, returned by `type()` (208-211) |
| Layers.Layer.SetDirection | src/Layer.cpp:213-216 | `direction(d)` stores `d`, returned by `direction()` (218-221) |
| Layers.Layer.UpdateOwners | src/Layer.cpp:249-264 | every body becomes owned by the layer, and every listed surface by the last body listing it |
| Layers.Layer.AddBody | src/Layer.cpp:266-293 | `add_body(b)` appends `b` after the old bodies and increments the body counter |
| Layers.Layer.At | src/Layer.cpp:310-315 | `at(i)` succeeds exactly for `0 <= i < size()`, with the body at `i`; otherwise `out_of_range` |
| Layers.Layer.Clear | src/Layer.cpp:322-332 | `clear()` empties the body list and resets the counter to 0 |
| Layers.Layer.Remove | src/Layer.cpp:334-368 | `remove(i)` with `i` out of range changes nothing; otherwise the body at `i` goes, the others keep their order and the counter stays |
| Layers.Layer.AddMold | src/Layer.cpp:401-427 | `add_mold(m)` appends `m` after the old molds and changes nothing else |
| Layers.Layer.ClearMold | src/Layer.cpp:439-447 | `clear_mold()` empties the mold list only |
| Layers.Layer.IsBonded | src/Layer.cpp:449-457 | `is_bonded(d)` holds exactly when `d` is `OFFSET` or `ORIG` and that side's neighbour is set |
| Layers.Layer.BondPair | src/Layer.cpp:459-467 | `bond_pair(d)` is non-null exactly when `is_bonded(d)` |
| Layers.Layer.SetBondPair | src/Layer.cpp:469-478 | `bond_pair(d, l)` sets only side `d` for `OFFSET` and `ORIG`, after which `bond_pair(d)` is `l`; any other direction changes nothing |
| Layers.Layer.DelamProfileRef | src/Layer.cpp:480-486 | `delam_profile_ref()` is null exactly when the reference mold is unset or has direction `NODIR`, and is that mold otherwise |
| Layers.Layer.SetDelamProfileRef | src/Layer.cpp:488-491 | the setter stores the reference mold and nothing else |
| Layers.Layer.Assign | src/Layer.cpp:24-32 | assignment makes every field equal the right-hand side's; self-assignment changes nothing |
| Layers.Layer.CopyPlacement | src/Layer.cpp:84-107 | the scalar half of `copy_vars` copies name, positions, id, layup, type and direction |
| Layers.Layer.CopyLists | src/Layer.cpp:108-134 | the list half copies bodies, molds, bond pairs, counter and reference mold |
| Layers.Without | src/Layer.cpp:344-355 | the copy loop of `remove` keeps every body but the one at `idx`, in order |
| Layers.PrefixNames | src/Layer.cpp:235-247 | each listed body's name gets the prefix once per time the body occurs in the list |
| Layers.LastHolder | src/Layer.cpp:249-264 | the last body list holding a surface, or -1 when none does |
| Layers.AssignOwners | src/Layer.cpp:249-264 | the two loops of `update_owners`: each body owned by the layer, each surface by its last holder |
| Layers.OwnBody | src/Layer.cpp:251-263 | one outer pass owns body `i` and its surfaces, extending the invariant from the first `i` bodies to `i + 1` |
| Layers.OwnSurfaces | src/Layer.cpp:256-262 | the inner loop gives every surface of a body that body as owner |
| Builder.StatusBC | src/ModelBuilder.cpp:180-225 | a request yields no boundary condition exactly when it is the cohesive-layer request, and never yields the side-face marker |
| Builder.RequestFor | src/ModelBuilder.cpp:180-225 | every boundary condition except the side-face marker has exactly one request that yields it |
| Builder.MapBCFollowsRequests | src/ModelBuilder.cpp:180-225 | the full mapping table: side faces pass through; the surrounding zone is cohesive or tie as the default request says and an error otherwise; the delamination region and the ring follow their requests, and a cohesive-layer request is an error; a tie region is always an error |
| Builder.EmittedAppend | src/ModelBuilder.cpp:122-240 | the reference list of a concatenation of surfaces is the concatenation of their reference lists |
| Builder.VisitEmitted | src/ModelBuilder.cpp:127-235 | visiting one mappable surface appends exactly its reference entries |
| Builder.AdjacencyListCharacterised | src/ModelBuilder.cpp:116-251 | the generation fails with the builder's error exactly when some relevant surface has no boundary condition, and otherwise returns one entry per offset-side surface paired with a lamina surface and not lying against a stiffener, in visiting order |
| Builder.FailureIsOperationFailed | src/ModelBuilder.cpp:48-63 | the only error the generation can raise is the builder's runtime error |
| Builder.UnmappableFails | src/ModelBuilder.cpp:186-224 | one unmappable relevant surface anywhere makes the generation fail |
| Builder.MappableEmits | src/ModelBuilder.cpp:127-250 | with every relevant surface mappable, the generation returns the reference list |
| Builder.DefaultRequestsFailure | src/ModelBuilder.cpp:253-260 | with the default requests (cohesive surrounding, no-model ring), generation fails exactly when some relevant surface is a tie, or is a delamination region when the region request is the cohesive layer |
| Builder.FailurePersists | src/ModelBuilder.cpp:48-63 | once the generation has failed, further surfaces do not change the result |
| Builder.BodyCandidatesPrefix | src/ModelBuilder.cpp:125-239 | the surfaces of a body visited so far are a prefix of all its surfaces |
| Builder.CandidatesPrefix | src/ModelBuilder.cpp:122-240 | the bodies visited so far contribute a prefix of the layer's surfaces |
| Builder.VisitSurface | src/ModelBuilder.cpp:127-235 | one visit reads the surface's direction, its pair, the pair's owner and layer type, and the stiffener flags of both surfaces |
| Builder.AdjacencyListSnoc | src/ModelBuilder.cpp:122-240 | the list one surface further is the visit of that surface to the list so far |
| Builder.GenerateSurface | src/ModelBuilder.cpp:127-235 | one pass of the inner loop is the visit of that surface |
| Builder.BodyCandidatesSnoc | src/ModelBuilder.cpp:125-239 | one surface further in a body adds that surface's candidate at the end |
| Builder.BodyStep | src/ModelBuilder.cpp:125-239 | the list after one more surface of a body is the visit of that surface |
| Builder.BodyStepFails | src/ModelBuilder.cpp:186-224 | a failure at one surface of a body is the result for the whole body |
| Builder.GenerateBodyStep | src/ModelBuilder.cpp:125-239 | one pass of the inner loop gives the list through that surface, and a failure there is final for the body |
| Builder.GenerateBody | src/ModelBuilder.cpp:125-239 | the inner loop gives the list through all the surfaces of the body |
| Builder.LayerStep | src/ModelBuilder.cpp:122-240 | one body further, its surfaces follow those of the bodies before it and a failure stays final |
| Builder.GenerateLayerStep | src/ModelBuilder.cpp:122-240 | one pass of the outer loop gives the list through that body, and a failure there is final for the layer |
| Builder.GenerateAdjacencyList | src/ModelBuilder.cpp:116-251 | the method returns the adjacency list of the orig layer's surfaces in visiting order, or the error |
| Builder.AdjacentLayers | src/ModelBuilder.cpp:253-260 | cohesive surrounding and no-model ring requests; fails exactly when a relevant surface is a tie, or a delamination region under a cohesive-layer region request |
| Builder.NatToString | src/ModelBuilder.cpp:407 | the decimal text of a counter is non-empty and all digits |
| Builder.NatToStringRoundTrip | src/ModelBuilder.cpp:407 | reading the decimal text back gives the counter |
| Builder.ShellBodyNamesDistinct | src/ModelBuilder.cpp:407 | distinct counters give distinct generated shell body names |
| Builder.BodyCounts | src/ModelBuilder.cpp:346-363 | one body count per layer |
| Builder.LayerBodyNamesCount | src/ModelBuilder.cpp:317-325 | one name per body of a layer, the k-th being the k-th body's name |
| Builder.AllNamedPrefix | src/ModelBuilder.cpp:317-325 | the layers before a point are named when all are |
| Builder.BodyNamesCount | src/ModelBuilder.cpp:346-363 | there are as many body names as the body counts add up to |
| Builder.AppendLayerBodyNames | src/ModelBuilder.cpp:320-324 | the inner loop appends the body names of one layer in order |
| Builder.BodyNamesStep | src/ModelBuilder.cpp:317-325 | one layer further, its body names follow those of the layers before it |
| Builder.CollectBodyNames | src/ModelBuilder.cpp:317-325 | appends the body names of all the layers, layer by layer, in list order |
| Builder.ShellNamesAt | src/ModelBuilder.cpp:401-410 | shell body k is saved under its own name, or as ShellBody followed by k when it has none; unnamed shells get distinct names |
| Builder.CollectShellNames | src/ModelBuilder.cpp:401-410 | appends the saved name of every shell body, counting named shells too |
| Builder.SumPrefixBound | src/ModelBuilder.cpp:346-363 | the bodies before a layer and of that layer add up to no more than all bodies |
| Builder.LastWrite | src/ModelBuilder.cpp:346-363 | when any body is written, the last write is at the total count less one |
| Builder.AsWrittenWritesInBoundsExactly | src/ModelBuilder.cpp:346-363 | the name array as written is indexed in bounds exactly when the layers hold no more bodies than there are layers |
| Builder.AsWrittenOverflow | src/ModelBuilder.cpp:346-363 | one layer with two bodies writes index 1 of a one-entry array |
| Builder.ChainLink | src/ModelBuilder.cpp:70-88 | each layer of a chain is bonded in that direction to the next one, the last to none |
| Builder.ChainTail | src/ModelBuilder.cpp:70-88 | the chain after its first layer is the chain from that layer's neighbour |
| Builder.ChainDetermined | src/ModelBuilder.cpp:70-88 | the bond links determine the chain uniquely |
| Builder.NameArray | src/ModelBuilder.cpp:346-363 | a new array holding the names in order |
| Builder.ModelBuilder.constructor | src/ModelBuilder.cpp:4-14 | exceptions thrown, tolerance 1e-5, no initial layer, no key, no algorithm, ids from 0, offset distance 1 |
| Builder.WithLicense | src/ModelBuilder.cpp:16-20 | a null key raises the builder's error (`set_license_key`, 91-114) and no builder comes out; any other key gives a fresh builder in the default state with that key stored |
| Builder.ModelBuilder.SetLicenseKey | src/ModelBuilder.cpp:91-114 | a null key raises the error and keeps the stored key; any other key is stored |
| Builder.ModelBuilder.SetOffsetDistance | src/ModelBuilder.cpp:453-456 | the offset distance becomes the value |
| Builder.ModelBuilder.NextLayerId | src/ModelBuilder.cpp:463-466 | returns the current id and moves the counter past it |
| Builder.ModelBuilder.BondLayers | src/ACISModelBuilder.cpp:1658-1662 | each layer becomes the other's neighbour on the facing side; the first orig layer bonded becomes the initial layer |
| Builder.ModelBuilder.PrepareLayers | src/ModelBuilder.cpp:65-89 | the initial layer, then the chain of its orig-side neighbours, then the chain of its offset-side neighbours, after the list given |
| Builder.ModelBuilder.Save | src/ModelBuilder.cpp:280-297 | a null file name raises the error; otherwise the prepared layers are the ones saved |
| Builder.ModelBuilder.SaveWithNames | src/ModelBuilder.cpp:299-326 | as Save, then the body names of the saved layers appended in order |
| Builder.ModelBuilder.SaveNameArray | src/ModelBuilder.cpp:328-365 | a null file name raises the error; otherwise a new array of exactly the saved body names, in order |
| Builder.ModelBuilder.SaveLayers | src/ModelBuilder.cpp:367-384 | appends the body names of the given layers; no file-name check |
| Builder.ModelBuilder.SaveLayersAndShells | src/ModelBuilder.cpp:386-415 | appends the layer body names, then the saved name of every shell body |
| MbUtilities.PointArrayFlip | src/mb_utilities.cpp:64-73 | a new array holding the first `size` points in the opposite order |
| MbUtilities.IsLeftIsCrossZ | src/mb_utilities.cpp:219-222 | the left-test value is the z-component of the cross product of the line's direction and the vector to the checked point |
| MbUtilities.IsLeftOnLineAndReversed | src/mb_utilities.h:52-61 | it is zero for the two points of the line, and reversing the line negates it |
| MbUtilities.Crossing | src/mb_utilities.cpp:199-214 | an edge counts +1 exactly when it crosses upward with the point to its left, -1 exactly when it crosses downward with the point to its right, and 0 otherwise |
| MbUtilities.CrossingReversed | src/mb_utilities.cpp:199-214 | the same edge walked the other way counts the opposite |
| MbUtilities.WnBounded | src/mb_utilities.cpp:191-217 | the winding number over n edges lies between -n and n |
| MbUtilities.WnPrefix | src/mb_utilities.cpp:191-217 | the winding number over n edges reads only the first n + 1 points |
| MbUtilities.WnFirstEdge | src/mb_utilities.cpp:197-215 | the winding number is the first edge's count plus that of the edges after it |
| MbUtilities.WnReversed | src/mb_utilities.h:41-50 | walking a closed outline backwards negates its winding number |
| MbUtilities.WindingReadsInBoundsEdges | src/mb_utilities.cpp:191-217 | the count over `n` edges stays inside the array exactly when every edge it visits reads two points inside it |
| MbUtilities.WnPnPoly | src/mb_utilities.cpp:191-217 | for an edge count whose reads stay inside the array, the loop returns the winding number of the point over the first n edges |
| MbUtilities.AsWrittenWindingReadsPastEnd | src/mb_utilities.cpp:155 | the source's call, with as many edges as points (also at 171), breaks the precondition of `MbUtilities.WnPnPoly`: its last edge reads past the end; one edge fewer meets it |
| MbUtilities.Mid | src/mb_utilities.cpp:146 | the midpoint is equidistant from both points |
| MbUtilities.SmallestX | src/mb_utilities.cpp:132-143 | the scan returns the start or an array point, with an x no larger than the start's and every point's |
| MbUtilities.LargestX | src/mb_utilities.cpp:132-143 | the scan returns the start or an array point, with an x no smaller than the start's and every point's |
| MbUtilities.FindExtremes | src/mb_utilities.cpp:132-143 | the scan gives the point named minimum the largest x and the one named maximum the smallest x |
| MbUtilities.ProbeFails | src/mb_utilities.cpp:153-166 | a search loop finds nothing exactly when the outline winds around none of its ten points |
| MbUtilities.ProbeFindsFirst | src/mb_utilities.cpp:153-166 | a point the search finds is the first of its points that the outline winds around |
| MbUtilities.ProbeWinds | src/mb_utilities.cpp:155-160 | a point the search returns is one the outline winds around |
| MbUtilities.InsidePoint | src/mb_utilities.cpp:129-189 | a point found has a non-zero winding number; otherwise it is the builder's error |
| MbUtilities.ProbeToward | src/mb_utilities.cpp:153-166 | one search loop gives the first of its ten points with a non-zero winding number, or none |
| MbUtilities.FindPointInsidePolygon | src/mb_utilities.cpp:129-189 | the method computes the search: ten points toward one extreme, then ten from the origin toward the other, then the error |
| MbUtilities.RemoveAll | src/mb_utilities.cpp:94-112 | removal leaves no dropped character and never lengthens the string |
| MbUtilities.RemoveAllAppend | src/mb_utilities.cpp:94-116 | removal distributes over concatenation |
| MbUtilities.RemoveAllAbsent | src/mb_utilities.cpp:94-112 | removal changes nothing in a string without the characters |
| MbUtilities.RemoveAllKeepsAbsent | src/mb_utilities.cpp:94-112 | removal brings back no character that was absent |
| MbUtilities.EraseOne | src/mb_utilities.cpp:100-104 | erasing one dropped character leaves the same final result |
| MbUtilities.Find | src/mb_utilities.cpp:99 | the first index holding the character, or none when no index holds it |
| MbUtilities.FindFrom | src/mb_utilities.cpp:35 | the first index at or after the start holding the character, or none |
| MbUtilities.EraseAll | src/mb_utilities.cpp:99-112 | a find-and-erase loop removes every occurrence of the character and keeps the rest in order |
| MbUtilities.LicenseKeyIsCleanedText | src/mb_utilities.cpp:84-117 | cleaning line by line and concatenating is cleaning the concatenated text |
| MbUtilities.LicenseKeyIsClean | src/mb_utilities.cpp:84-117 | the key holds no whitespace, double quote or semicolon, and cleaning it again changes nothing |
| MbUtilities.CleanLicenseLines | src/mb_utilities.cpp:86-117 | the line loop gives the cleaned non-empty lines concatenated |
| MbUtilities.ReadLicenseFile | src/mb_utilities.cpp:75-127 | false exactly when there is no file; otherwise true with the cleaned key |
| MbUtilities.CsvFieldsJoined | src/mb_utilities.cpp:30-39 | three comma-free fields joined by commas are cut back out |
| MbUtilities.CsvFieldsNoComma | src/mb_utilities.cpp:30-39 | a line without a comma gives the whole line as each of the three fields |
| MbUtilities.CsvPoints | src/mb_utilities.cpp:23-49 | no more points than lines |
| MbUtilities.CsvPointsCount | src/mb_utilities.cpp:23-49 | exactly one point per non-empty line |
| MbUtilities.CsvPointsAppend | src/mb_utilities.cpp:23-49 | the points of two parts of a file are those of the first then those of the second |
| MbUtilities.ReadCsvFile | src/mb_utilities.cpp:4-62 | the builder's error when the file cannot be opened; otherwise a new array of one point per non-empty line after the first, in order |
| AcisFragments.TranslatedPoints | src/ACISModelBuilder.cpp:3247-3261 | one translated point per edge point |
| AcisFragments.TranslateBack | src/ACISModelBuilder.cpp:3251-3253 | translating by the thickness and then by its negation gives the edge points back |
| AcisFragments.TranslateByZero | src/ACISModelBuilder.cpp:3251-3253 | a zero thickness leaves the edge points where they are |
| AcisFragments.TranslateShellEdgePoints | src/ACISModelBuilder.cpp:3245-3262 | appends every edge point moved along its normal by the thickness, in input order, after the entries already in the list |
| AcisFragments.InitialDirection | src/ACISModelBuilder.cpp:2812-2837 | never unset; offset exactly when parallel or, failing antiparallel, inside the 1..89 degree window; orig exactly when antiparallel or inside only the 91..179 window; a side face otherwise |
| AcisFragments.InitialDirectionMirror | src/ACISModelBuilder.cpp:2812-2837 | reversing the reference normal puts every face on the other side and leaves side faces alone |
| AcisFragments.FindInitialDirectionSimple | src/ACISModelBuilder.cpp:2807-2838 | stores the side found with the builder's tolerance; a side face is also marked as having no delamination; nothing else changes |
| AcisFragments.FacingMembers | src/ACISModelBuilder.cpp:1150-1161 | a surface is selected for a side exactly when it is in the body and faces that side |
| AcisFragments.FacingAppend | src/ACISModelBuilder.cpp:1150-1161 | the selection of a concatenation is the concatenation of the selections |
| AcisFragments.FacingSplit | src/ACISModelBuilder.cpp:1150-1161 | the two sides together hold no more surfaces than the body, and none is on both |
| AcisFragments.PartitionSurfaces | src/ACISModelBuilder.cpp:1147-1161 | the offset and orig surfaces of one body, each in order, every other surface dropped |
| AcisFragments.GenerateMold | src/ACISModelBuilder.cpp:1142-1173 | succeeds exactly when every body has a surface on each side, with one partition per body; otherwise the builder's error |
| AcisFragments.SideDistancesAreSides | src/ACISModelBuilder.cpp:3215-3224 | every distance recorded for a body belongs to one of its side surfaces |
| AcisFragments.LayerSideDistancesAreSides | src/ACISModelBuilder.cpp:3211-3225 | every distance recorded for a layer belongs to a side surface of one of its bodies |
| AcisFragments.ClosestScanNone | src/ACISModelBuilder.cpp:3228-3236 | the minimum found is at most the largest double and at most every distance; no surface is chosen exactly when no distance is below the largest double |
| AcisFragments.ClosestScanFirst | src/ACISModelBuilder.cpp:3228-3236 | a surface chosen is the first of those at the smallest distance |
| AcisFragments.BodySideDistances | src/ACISModelBuilder.cpp:3215-3224 | the inner loop records the distance of each side surface of a body, in order |
| AcisFragments.SelectClosest | src/ACISModelBuilder.cpp:3228-3236 | the loop picks the surface the scan picks |
| AcisFragments.FindClosestSide | src/ACISModelBuilder.cpp:3206-3243 | returns the first side surface of the layer at the smallest distance, or null; a surface returned is a side surface of one of the layer's bodies |
| AcisFragments.CreateLayerFromNurbs | src/ACISModelBuilder.cpp:1282-1328 | a non-positive thickness raises the builder's error; otherwise a lamina toward the direction, placed from 0 to the thickness, with the next layer id |
| AcisFragments.CreateLayerFromNurbsOffset | src/ACISModelBuilder.cpp:1330-1333 | the same, growing toward the offset side |
| AcisFragments.MoldsTowardMembers | src/ACISModelBuilder.cpp:1379-1404 | a mold is swept exactly when it is one of the input's and lies toward the direction |
| AcisFragments.MoldsToSweep | src/ACISModelBuilder.cpp:1379-1404 | the loop selects the input's molds toward the direction, in list order |
| AcisFragments.CreateLayerFromLayer | src/ACISModelBuilder.cpp:1335-1414 | fails with the builder's error exactly when the thickness is non-positive or the input layer has no body; otherwise a lamina toward the direction, stacked on the input's side in that direction, built from its molds toward that direction, with the next layer id |
| AcisFragments.CreateLayerFromMold | src/ACISModelBuilder.cpp:1416-1465 | fails with the builder's error exactly when the thickness is non-positive or the mold has no sheet body; otherwise a lamina toward the direction from the sheet's height up by the thickness, with the next layer id |
| AcisFragments.ProfileDecision | src/ACISModelBuilder.cpp:1672-1697 | no profile or an empty one is the builder's error; an open profile falls back to bonding without delamination; a closed one is imprinted as read |
| AcisFragments.ProfileDecisionReversed | src/ACISModelBuilder.cpp:1681-1690 | whether a profile is accepted and whether it is closed do not depend on the direction it is walked |
| AcisFragments.ProfileEndsDiffer | src/ACISModelBuilder.cpp:1682 | the closed-profile check reads the first and the last point, which it may only do on a non-empty array, and says whether they differ |
| AcisFragments.AdjacentLayersFromFile | src/ACISModelBuilder.cpp:1665-1697 | the step taken is the decision for the profile the CSV file holds |
| AcisFragments.AsWrittenEmptyProfileReadsOutside | src/ACISModelBuilder.cpp:1682 | a CSV file holding only its header gives an empty profile, which breaks the precondition of `AcisFragments.ProfileEndsDiffer`, the check the source runs on it |
| AcisFragments.PackRow | src/ACISModelBuilder.cpp:848-854 | one row copied into the packed array from the start index on, the entries before it untouched |
| AcisFragments.PackCtrlPts | src/ACISModelBuilder.cpp:841-855 | a new array of all the control points row by row, the v index varying first |
| AcisFragments.FlattenIndexed | src/ACISModelBuilder.cpp:844-855 | control point (i, j) sits at index i times the v count plus j of the packed array |
| AcisFragments.ConvertNurbsToFace | src/ACISModelBuilder.cpp:829-855 | the surface is transposed exactly when its normal points downward, and the packed array holds its control points row by row |

## Left out

- **Kernel operations.** Every call into the solid-modelling kernel is left out because its behaviour is not part of this source: `is_builder_started`, `process_layer`, `convert_nurbs_to_sheet`, `save_cad_model`, the sweep and copy of mold sheets, imprinting, `update_surface_pairs`, `process_delamination`, `api_entity_point_distance` with `_check_outcome`, the evaluation of a sheet's height, and the face construction `api_mk_fa_spl_ctrlpts`. The fragments take the kernel's results as parameters.
- **Mold construction.** `generate_mold` is modelled up to its partition of surfaces and its error check. Building and sweeping the two mold bodies is kernel work.
- **`create_layer`** is modelled up to its checks, its placement, its choice of molds and its layer id. The layer bodies it then creates, the molds and `update_owners` come from kernel results.
- **Other overloads.** `adjacent_layers(layer, layer)` is the plain bonding imprint; the model keeps only the bond links it records (`Builder.ModelBuilder.BondLayers`). The overload with a list of files and `split_layer` are kernel work as well.
- **Loading.** `load_molds`, `create_shell_cutout` and `load_shell_model` are not part of this model.
- **Files, streams and console output.** Opening files is left out. A file is given as its lines, or `None` when it cannot be opened. The splitting of lines into coordinates in `read_ctrlpts`/`save_ctrlpts` is left out: the lines are given already split into points. Their array sizes and index layouts are modelled. `std::stod` is the parameter `toReal`. All logging, the debug prints and the `std::cin` pause of `error_handler` are left out.
- **Floating point.** Rounding is not modelled: `T` is `real`. Magnitude and distance, which need a square root, are parameters.
- **`surfpt`** (NURBS/src/NURBS.hxx:430-452) looks up a stored sample through `int(u / delta)`. That truncation of a floating-point quotient is left out.
- **Memory management.** Allocation and freeing are left out: leaks, double frees and reallocating without freeing. The pointer-shadowing constructor `List(T first_elem, size_type)` is left out too.
- **Name buffers.** C string buffers are modelled as values. Reallocating a name and copying it again is the same as storing the value.
- **`Layer::copy_vars`.** Its name branch writes through `this` rather than the target, and is left out. `Layers.Layer.Assign` copies every field.
- **Copy constructors and `copy`.** The copy constructors and the `copy(lhs)` helpers of the layer classes are modelled only through assignment. The copy constructor and the assignment of `NURBS` are modelled (`Nurbs.Nurbs.Copy`, `Nurbs.Nurbs.Assign`). The loop in `copy_vars` that frees `num_v` rows of a grid of `num_u` rows is memory management and is left out. `Layer::bodynames`, `print_bodylist` and the destructors are left out.
- **List aliases and access.** `add`, `append` and `remove` are aliases of `push_back`/`pop_back` and have no row of their own. The `List(T*, size)` constructor does what `ContainerList.List.FromSeq` does. `data()`, the iterators `begin`/`end`/`first`/`last` and `operator[] const` are plain reads of the buffer.
- **Getters.** The getters of every class are plain field reads. They are the fields themselves, so they are not separate members. `NURBS::check()` is `pre_calculate()` plus a message, i.e. `Nurbs.PreCalculate`.
- **`magnitude`** stays abstract: it is a function parameter in `PointVector`.
- **Builder odds and ends.** `crash_on_exception` is left out. The switch to exceptions and the destructor are not modelled either.
- Nurbs.Nurbs.Evaluate: requires `delta > 0` whenever the surface passes `pre_calculate`. With `delta <= 0` the sampling loop of the source never ends.
- Nurbs.Nurbs.SetKnotVectorU: requires a knot vector whose first and last knots differ, or an empty one. The source divides by their difference. The same holds for Nurbs.Nurbs.SetKnotVectorV and NurbsKnots.NormalizeInto.
- Nurbs.Nurbs.SurfacePoint: requires that a surface which passes `pre_calculate` is also consistent (`Nurbs.Consistent`, that is `NurbsSurface.Evaluable`). The source assumes this of its callers and never checks it. In each direction, with degree `p`, `n` control points and knot vector `U`, the conditions are these (`NurbsSurface.KnotsFit`):
  - `0 < p`, as the degree setters ensure;
  - `p < n`, so that a span lies in [p, n);
  - `|U| == n + p + 1`, the length that `find_span` (which reads `U[n]` and `U[mid + 1]`) and the basis functions index into;
  - `U` non-decreasing, so that the binary search of `find_span` is sound;
  - `U[p] == 0` and `U[n] == 1`, a clamped vector. The knot setters normalise only the first and last knots to 0 and 1, and for a `u` in [0, 1] below `U[p]` or above `U[n]` the search loop of `find_span` (NURBS/src/NURBS.hxx:1619-1632) never ends;
  - `U[n - 1] < U[n]`, so that the span `n - 1` that `find_span` returns for `u == 1` has non-zero length; the basis functions would divide by zero otherwise.
  
  The grid must also have `n_u` rows of `n_v` points. The same holds for the other evaluation methods and for AcisFragments.ConvertNurbsToFace.
- Nurbs.Nurbs.Transpose: swaps the knot vectors whole. As written, the source copies each vector with the other's length, which is undefined when their lengths differ (see Findings and `Nurbs.TransposedKnotsAsWritten`). The two agree when the lengths are equal (`Nurbs.TransposedStateAsWritten`).
- Nurbs.TransposedState: states the corrected knot swap of `Nurbs.Nurbs.Transpose`, not the source's copy, whenever `|U| != |V|`.
- Nurbs.TransposedStateSnapshot: its equality with the transposed surface rests on the corrected knot swap. As written, the source's state has no defined knot vectors when `|U| != |V|`.
- Nurbs.TransposedStateConsistent: holds for the corrected knot swap. As written, the source's transposed state loses its clamped end knots when `|U| != |V|` (`Nurbs.TransposedKnotsOverflow`).
- Nurbs.TransposedStateTwice: the involution of the corrected knot swap. The source's copy is defined only when `|U| == |V|`, and then it is the same swap.
- NurbsSurface.TransposedSurface: swaps the knot vectors whole, the corrected behaviour of `transpose`, not the source's copy when `|U| != |V|`.
- NurbsSurface.TransposedSurfaceTwice: the involution of the corrected knot swap. The source's copy is defined only when `|U| == |V|`.
- NurbsSurface.EvaluableTransposed: holds for the corrected knot swap. The source's copy breaks the clamped end knots when `|U| != |V|` (`Nurbs.TransposedKnotsOverflow`).
- AcisFragments.ConvertNurbsToFace: transposes a surface whose normal points down with the corrected knot swap of `Nurbs.Nurbs.Transpose`.
- Nurbs.Nurbs.ReadCtrlPts: requires that the points read fit the `num_u * num_v` array, that is, at most as many points as lines times the last line's length. With more points, the source copies past the end of the array. The weights after those of the points read are uninitialised in the source and left unspecified. The same holds for Nurbs.ReadArrays, Nurbs.ReadPoints and Nurbs.ReadGrid.
- Nurbs.Nurbs.Assign: requires that the right-hand side hold at least `num_u * num_v` weights, or no weights and no points. `copy_vars` reads that many weights, past the end of a shorter array. The same holds for Nurbs.Nurbs.Copy and Nurbs.CopiedState.
- NurbsKnots.FindSpan: requires a non-decreasing knot vector and a `u` inside the span range, which the source assumes of its callers.
- ContainerList.List.Get: requires an index below the capacity. `operator[]` does not check it, and reading past the buffer is not modelled.
- Layers.Layer.SetName: requires every body to have a name. The source builds a `std::string` from each body's name, which is undefined for a null name.
- Builder.ModelBuilder.PrepareLayers: requires a non-null initial layer and both bond chains as ghost witnesses. So do the `Save` methods. A cycle of bond links, on which the source loops forever, is not modelled.
- Builder.AdjacentLayers: requires that the pair of every paired offset-side surface has an owning body in a layer, and that both body names are set when that layer is a lamina. The source follows these pointers without checking them. The same holds for Builder.GenerateAdjacencyList.
- MbUtilities.FindPointInsidePolygon: counts one edge fewer than the number of points, over a closed outline (see Findings).
- MbUtilities.ReadCsvFile: the field conversion `toReal` is total, so a malformed number, on which `std::stod` throws, is not modelled.

## Findings

| source | as written | input that shows it | evidently intended | confidence | as-written member | corrected member |
|---|---|---|---|---|---|---|
| NURBS/src/ContainerList.hxx:605-619 | `reverse` reallocates the buffer with `size` entries but keeps the capacity field | `push_back` on an empty list, then `reverse`, then `push_back`: capacity 8, buffer of 1, and the write goes to index 1 | the capacity follows the new buffer | not executed | ContainerList.ReverseThenPushBackOverflows | ContainerList.ReverseCorrectedKeepsPushBackInBounds |
| NURBS/src/PointVector.hxx:769-783 | `<=` returns `!(lhs > lhs)` and `>=` returns `!(lhs < lhs)`, so both are always true | any `lhs` longer than `rhs`: `lhs <= rhs` holds | compare `lhs` with `rhs` | not executed | PointVector.VecLeAsWrittenDisagrees | PointVector.VecLeCorrected |
| src/ModelBuilder.cpp:346-363 | the name array gets one entry per layer, and then one write per layer body | one layer holding two bodies: index 1 is written into an array of one entry | one entry per layer body | not executed | Builder.AsWrittenWritesInBoundsExactly | Builder.ModelBuilder.SaveNameArray |
| src/mb_utilities.cpp:155 | `find_point_inside_polygon` passes the number of points as the edge count, so `wn_pnpoly` reads one point past the end | any outline of `n` points: edge `n - 1` reads `ptsarr[n]` | over a closed outline, count `n - 1` edges | not executed | MbUtilities.AsWrittenWindingReadsPastEnd | MbUtilities.FindPointInsidePolygon |
| src/ACISModelBuilder.cpp:1682 | the closed-profile check reads the first and last points even when the CSV file gave none | a CSV file holding only its header line: the check reads index -1 of an empty array | an empty profile raises the builder's error | not executed | AcisFragments.AsWrittenEmptyProfileReadsOutside | AcisFragments.AdjacentLayersFromFile |
| NURBS/src/NURBS.hxx:721-725 | `transpose` copies `|U|` knots out of V into the new U buffer of `|V|` entries, and `|V|` knots out of U into the new V buffer of `|U|` entries | degree 2 both ways with 5 by 3 control points (`|U| = 8`, `|V| = 6`): the first copy reads and writes two knots past the ends, and the new V vector ends in two uninitialised knots | each vector is copied whole, with its own length | not executed | Nurbs.TransposedKnotsOverflow | Nurbs.Nurbs.Transpose |
