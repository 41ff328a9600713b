# Icosphere topology of `globe.h`, in Dafny

This project models the topology engine of MikeWhy/globe. The engine builds a
globe as an icosphere:

- `make_globe` emits an icosahedron of 20 triangles, in 5 wedges of 4.
- Each `subdivide` pass splits every triangle of the last level into four.
- A deduplicating vertex table (`VertexList`) welds every vertex key to the
  first stored vertex that is tolerance-equal to it.
- A level list (`subdivs`) records, for each level, the half-open face range
  it added and the vertex count when it was closed.
- Two loaders assign elevations to the vertices. `load_from_terrain` samples
  a 43200 x 86400 grid of `int16_t`; `load_elevations` reads one `float` per
  vertex.
- `mhy::RangeT` from `mikey_tools.h` is the begin/end/size value type with its
  two `range` factories.

Modules, in dependency order:

- `Machine`: fixed-width integers and the casts the C++ code performs.
- `Glm`: vectors, plus the `Maths` record of GLM and `<cmath>` functions whose
  definitions are not modelled.
- `Tolerance`: `less_than`, `lt` and `eq`.
- `Coords`: `SphericalCoord`.
- `Options`: an optional value.
- `VertexTable`: the vertex table as functions on its list, and the
  `VertexList` class.
- `Emission`: emitting triangles through the table.
- `Slices`: `Slice`.
- `Levels`: `SubdivLevel` and the level chain.
- `Subdivision`: one pass over a range of faces.
- `Terrain`: grid sampling and the elevation files.
- `Icosahedron`: the base mesh.
- `Globe`: the mesh as a value, its invariant, passes and levels.
- `GlobeMeshes`: the `GlobeMesh` class, whose methods are proved to move the
  mesh as the `Globe` functions say.
- `MikeyTools`: `RangeT`.

How the model represents the C++ program:

- Floats are reals: the model has no rounding.
- `pi` is the float nearest pi, and epsilon is 2^-23.
- The index type and the casts are explicit. `(uint32_t)` is taken modulo
  2^32 and `size_t` modulo 2^64.
- `std::map` keyed by the tolerant order is modelled as "the first stored
  entry that is equivalent to the key", over the insertion-ordered list. The
  list stays pairwise non-equivalent (`Welded`), so the index handed out for
  a vertex is its position in the list.
- Files are byte sequences, `None` when the file cannot be mapped. An empty
  file cannot be mapped either (a zero-length `mmap` fails, memmap.h:128-131),
  so both loaders refuse it.

Every comparison, `SphericalCoord::operator<` included, goes through `lt`,
which instantiates `less_than` with 3 epsilons (globe.h:47-50, 159-167). The
default of 5 in `Tiny`/`less_than` is never used.

## Model

| member | source | states |
|---|---|---|
| Machine.ToU32 | globe.h:232-236 | the `(uint32_t)` cast of a list size is exact below 2^32, never exceeds the size, and agrees with it modulo 2^32 |
| Machine.ToU32Decrement | globe.h:236 | `(uint32_t)indices.size() - 1` in 32-bit unsigned arithmetic is the cast of the position of the last entry, also when the cast size wraps to 0 |
| Machine.ToSizeT | globe.h:104-106 | a difference converted to `size_t` is exact in `[0, 2^64)` and otherwise wraps modulo 2^64 |
| Machine.LeU16 | globe.h:481-483 | a little-endian 16-bit word is below 2^16, with the first byte as its low byte and the second as its high byte |
| Machine.LeU32 | globe.h:542-545 | a little-endian 32-bit word (the bits of a `float`) has the first 16-bit word as its low half and the second as its high half |
| Machine.AsInt16 | globe.h:481-483 | an `int16_t` has the same 16 bits as the stored pattern and is negative exactly when the top bit is set |
| Tolerance.LessThan | globe.h:38-46 | `less_than<T, N>`: `rhs` exceeds `lhs` by more than `N` epsilons (`Tiny<T, N>`); its laws are in `ScalarOrderLaws` |
| Tolerance.Lt | globe.h:47-50 | scalar `lt` is `less_than` with 3 epsilons; characterised by `ScalarOrderLaws` |
| Tolerance.LtVec | globe.h:51-65 | `lt<glm::vec3>`: x decides unless tolerance-equal, then y, then z; characterised by `VecLexicographic`, `VecOrderLaws` and `VecLtCycle` |
| Tolerance.Eq | globe.h:66-69 | scalar `eq`: neither is `lt` the other; characterised by `ScalarOrderLaws` and `EqNotTransitive` |
| Tolerance.EqVec | globe.h:66-69 | vector `eq`: neither is `lt` the other; characterised by `VecEqComponentwise` |
| Tolerance.ScalarOrderLaws | globe.h:38-69 | scalar `lt(a, b)` holds iff `b - a > 3 epsilon`; `lt` is an irreflexive, asymmetric, transitive order; `eq` is reflexive, symmetric, and holds exactly within 3 epsilon |
| Tolerance.EqNotTransitive | globe.h:66-69 | `eq` is not transitive: 0 ~ 2e and 2e ~ 4e, but 0 < 4e |
| Tolerance.VecLexicographic | globe.h:51-65 | the `vec3` `lt` is lexicographic: x decides, then y once x is tolerance-equal, then z |
| Tolerance.VecEqComponentwise | globe.h:51-69 | vector `eq` holds iff every component is tolerance-equal |
| Tolerance.VecLtCycle | globe.h:51-65 | the vector `lt` is not transitive: (4e,0,0) < (2e,10,0) < (0,20,0) < (4e,0,0) |
| Tolerance.VecOrderLaws | globe.h:51-69 | the vector `lt` is irreflexive and asymmetric; vector `eq` is reflexive and symmetric |
| Coords.FromLatLon | globe.h:140-143 | `SphericalCoord(lat, lon, r)`: the longitude kept as given, the position from `euclidean`, the elevation `r` |
| Coords.FromPos | globe.h:145-148 | `SphericalCoord(p, r)`: lat/lon from `polar`, the position `normalize(p)`, the elevation `r` |
| Coords.Less | globe.h:164-167 | `operator<` compares positions with the vector `lt`; see `EquivalentIsPositionEq` |
| Coords.Equivalent | globe.h:164-167 | the key equivalence `std::map` derives from `operator<`; see `EquivalentIsPositionEq` |
| Coords.Plus | globe.h:169-172 | `operator+` adds positions |
| Coords.Minus | globe.h:174-177 | `operator-` subtracts positions |
| Coords.Midpoint | globe.h:396-398 | the midpoint `(a + b) / 2` of two vertices, converted back through the position constructor |
| Coords.EquivalentIsPositionEq | globe.h:158-167 | two keys are equivalent to the map iff their positions are tolerance-equal; latitude/longitude and elevation play no part; equivalence is reflexive and symmetric |
| VertexTable.Find | globe.h:230-232 | the lookup yields the first entry equivalent to the key, with no equivalent entry before it, or nothing when no entry is equivalent |
| VertexTable.Insert | globe.h:230-239 | `add` either leaves the list as it was or appends the key; an append hands out the old size, and the index is within the list |
| VertexTable.InsertFinds | globe.h:230-239 | after `add`, looking the key up finds the returned position, whose entry is equivalent to the key; the list is unchanged iff an equivalent entry was already stored |
| VertexTable.InsertWelded | globe.h:230-239 | `add` keeps the stored vertices pairwise non-equivalent |
| VertexTable.FindStable | globe.h:232-238 | appending entries never changes the entry an already-stored key is found at |
| VertexTable.InsertIdempotent | globe.h:230-239 | adding the same vertex twice gives the same list and the same index as adding it once |
| VertexTable.NamesStable | globe.h:230-239 | an index handed out for a key keeps naming that key however the list grows |
| VertexTable.InsertTriangle | globe.h:242-244 | `add_triangle` appends at most three vertices, and its three indices lie within the grown list |
| VertexTable.InsertTriangleNames | globe.h:242-244 | each index of the packed triangle is the one the final table hands out for its own argument, in argument order |
| VertexTable.InsertTriangleWelded | globe.h:242-244 | `add_triangle` keeps the stored vertices pairwise non-equivalent |
| VertexTable.InsertTriangleAddsOnlyCorners | globe.h:242-244 | the only vertices `add_triangle` can append are its three arguments |
| VertexTable.VertexList.constructor | globe.h:222 | a new table is empty |
| VertexTable.VertexList.Add | globe.h:230-239 | the list and the returned index are those of `Insert`, including the 32-bit wrap of `size() - 1`; the index names the vertex; a welded list stays welded |
| VertexTable.VertexList.AddTriangle | globe.h:242-244 | the three `add`s in argument order give `InsertTriangle`, and each index names its own argument |
| Emission.Fold | globe.h:347-375 | emitting one triangle per corner triple yields exactly one face per triple |
| Emission.FoldGrows | globe.h:347-375 | emission only appends vertices, and every emitted face names a stored vertex |
| Emission.FoldWelded | globe.h:347-375 | emission through steps that keep the list welded keeps it welded |
| Emission.AddCorners | globe.h:354-358 | one `add_triangle` on a corner triple; its effect is stated by `AddCornersEmits` |
| Emission.AddCornersEmits | globe.h:354-358 | one `add_triangle` on a corner triple only appends, names vertices it holds, and keeps the list welded |
| Emission.AddTriangles | globe.h:354-373 | emitting corner triples only appends vertices, gives one face per triple, and every face names a stored vertex |
| Emission.AddTrianglesGrowth | globe.h:242-244 | each emitted triangle adds at most three vertices |
| Emission.AddTrianglesSnoc | globe.h:354-358 | one more `triangles.push_back(vertices.add_triangle(...))` extends the emission by exactly that triangle |
| Emission.AddTrianglesWelded | globe.h:354-373 | emitting triangles keeps the stored vertices pairwise distinct |
| Emission.AddTrianglesNames | globe.h:354-373 | face `k` holds the indices the finished table hands out for the `k`-th corner triple |
| Slices.Slice.Begin | globe.h:98-100 | `begin()` is at `first`, or at `last` when the slice is reversed, so it is never past `last` |
| Slices.Slice.End | globe.h:101-103 | `end()` is at `last`, clipped to the list's current end |
| Slices.Slice.Size | globe.h:104-106 | `size()` is `last - first` whenever the slice is not reversed |
| Slices.MakeSlice | globe.h:93-95 | a zero `last` means the end of the list; otherwise both offsets are kept |
| Slices.SliceOf | globe.h:118-121 | the pair overload forwards to the two-offset constructor, so in-bounds offsets iterate from `bounds.first` to `bounds.second`, or to the list's end when `bounds.second` is 0 |
| Slices.Elements | globe.h:98-103 | iteration visits exactly the elements from `begin()` up to `end()`, in order |
| Slices.MakeSliceCovers | globe.h:93-106 | a slice with in-bounds offsets covers exactly `list[first..last]` (to the end when `last` is 0), and `size()` counts them |
| Levels.SubdivLevel.Faces | globe.h:288-290 | `faces()`: the pair `(offset_begin, offset_end)` |
| Levels.SubdivLevel.VertexBounds | globe.h:291-293 | `vertices()`: the pair `(0, vertex_end)` |
| Levels.NextLevel | globe.h:329-330 | the level `mark_subdiv` appends: from the previous level's end (0 if none) to the face count, at the vertex count; see `NextLevelChains` |
| Levels.NextLevelChains | globe.h:327-331 | the level `mark_subdiv` appends starts at the previous level's end (20 base faces for the first) and ends at the face count, so the level chain is kept |
| Levels.LevelSizes | globe.h:388-411 | in a chained level list, level `k` holds `20 * 4^k` faces and ends after `20 * (4^(k+1) - 1) / 3` faces |
| Levels.ThreeLevels | globe.h:388-411 | the first three levels are faces `[0, 20)`, `[20, 100)` and `[100, 420)` |
| Subdivision.Children | globe.h:406-409 | the four children `(a,ab,ca)`, `(ab,b,bc)`, `(ca,bc,c)`, `(ab,bc,ca)` of a parent; see `SubdivisionChildren` |
| Subdivision.EdgeMidpoints | globe.h:393-398 | the midpoints of the edges a-b, b-c and c-a of a parent, from its stored corners |
| Subdivision.MidCorners | globe.h:393-398 | parent `i` contributes the midpoints of its edges a-b, b-c and c-a, in that order |
| Subdivision.Expand | globe.h:406-409 | replacing each parent by its children yields four faces per parent |
| Subdivision.ExpandAt | globe.h:406-409 | faces `4k .. 4k+3` of the expansion are the children of parent `k` |
| Subdivision.ExpandInBounds | globe.h:406-409 | children only use the parent's corners and the midpoint indices, so they stay within the vertex list |
| Subdivision.ExpandSnoc | globe.h:391-410 | one more parent appends exactly its four children |
| Subdivision.SplitRange | globe.h:390-410 | a pass only appends vertices and makes four faces per parent, all naming stored vertices |
| Subdivision.SplitRangeSnoc | globe.h:391-410 | handling one more parent adds its midpoints to the list left by the parents before it and appends its four children |
| Subdivision.SplitRangeWelded | globe.h:403-405 | a pass keeps the stored vertices pairwise distinct |
| Subdivision.SplitRangeAt | globe.h:391-410 | the four faces of parent `k` are its children around the `k`-th emitted midpoint triple |
| Subdivision.ChildrenCarryMidpoints | globe.h:406-409 | the midpoint indices of a parent can be read back off its first two children |
| Subdivision.SubdivisionChildren | globe.h:391-410 | parent `k` becomes `(a,ab,ca)`, `(ab,b,bc)`, `(ca,bc,c)`, `(ab,bc,ca)` at faces `4k .. 4k+3`, where `ab`, `bc` and `ca` are the indices the table hands out for its edge midpoints |
| Icosahedron.WedgeEast | globe.h:344-347 | the `east` longitude of wedge `i` is `(i + 1/2)` wedges of 72 degrees |
| Icosahedron.WedgeEastNext | globe.h:347 | each turn of the wedge loop moves `east` by one wedge |
| Icosahedron.WedgeCorners | globe.h:349-373 | a wedge is four triangles: a north cap from the pole, two band triangles and a south cap to the pole, sharing corners as the code lists them |
| Icosahedron.BaseCorners | globe.h:347-375 | five wedges give 20 corner triples |
| Icosahedron.BaseCornersAt | globe.h:347-375 | triple `4i + j` of the base is triple `j` of wedge `i` |
| Icosahedron.BaseMesh | globe.h:342-375 | the base mesh has 20 faces, each naming stored vertices |
| Icosahedron.BaseMeshShape | globe.h:347-375 | the base mesh is welded, has at most 60 vertices, and each face holds the indices the table hands out for its corner triple |
| Icosahedron.ThirdWedgeLeavesRow | globe.h:364-368 | the wedge loop keys the south band corner at `east2` of the third wedge at longitude 216 degrees, so the cell computed as written is column 95039 of 86400; the wrapped longitude gives column 8639 |
| Icosahedron.FourthWedgeLeavesRow | globe.h:354-368 | the fourth wedge keys its north band corner at 252 degrees and its south band corner at 288 degrees; as written they map to columns 103679 and 112319 of 86400, wrapped to 17279 and 25919 |
| Terrain.MapUv | globe.h:443-445 | `map_uv` maps latitudes in `[-pi/2, pi/2]` and longitudes in `[-pi, pi]` into `[0, 1]`, with the poles at the ends |
| Terrain.IndexOf | globe.h:446-450 | `index_of` is 0 when `v * max - 1 <= 0` and otherwise its integer part; for `v` in `[0, 1]` it is below `max` |
| Terrain.IndexOfMonotone | globe.h:446-450 | a larger coordinate never gives a smaller index |
| Terrain.TruncMonotone | globe.h:448-449 | the truncation of `index_of` (0 unless positive, then the integer part) keeps the order |
| Terrain.IndexOfEnds | globe.h:446-450 | 1 maps to the last row (43199) and column (86399), 0 to the first, 0.5 to column 43199 |
| Terrain.SourceCell | globe.h:457-459 | the row and column as computed: within the grid for a latitude in range and a longitude in `[-pi, pi]` |
| Terrain.WrapLon | globe.h:439-442 | the correction of the Findings row: a longitude brought into `(-pi, pi]`, the range `map_uv` is documented for, by whole turns; unchanged if already there |
| Terrain.Cell | globe.h:457-459 | the cell a vertex with a latitude in range is sampled from always lies within the grid |
| Terrain.CellAgreesInRange | globe.h:457-459 | for longitudes in `(-pi, pi]` the wrapped cell is the cell the code computes |
| Terrain.DecodeGrid | globe.h:481-483 | the grid after the 128-byte header: 43200 rows of 86400 little-endian `int16_t`, sample `(row, col)` at byte `128 + 2 * (row * 86400 + col)` |
| Terrain.DecodeRow | globe.h:481-482 | a grid row holds 86400 samples |
| Terrain.WithElevations | globe.h:455-461 | replacing elevations keeps every vertex's latitude/longitude and position and sets its elevation, one value per vertex in order |
| Terrain.GridElevations | globe.h:455-461 | vertex `i` takes the sample at its corrected cell (`Cell`, the wrapped longitude) |
| Terrain.FileElevations | globe.h:542-546 | vertex `i` takes the `i`-th `float` of the file |
| Globe.LastFaces | globe.h:390 | the faces of the last level, which name stored vertices when the mesh keeps its invariant |
| Globe.InvariantCloses | globe.h:388-390 | a mesh that keeps the invariant and has a level has its last level at the current counts |
| Globe.SplitOf | globe.h:390-410 | the split `subdivide` performs is the pass over the given parents |
| Globe.PassBySplitRange | globe.h:390-411 | one pass appends the split of the last level's faces and closes a level at the new counts |
| Globe.SplitOfSplits | globe.h:390-410 | the `subdivide` split only appends vertices, makes four faces per parent naming stored vertices, and keeps the table welded |
| Globe.Pass | globe.h:388-411 | a pass adds exactly one level |
| Globe.PassKeepsInvariant | globe.h:390-411 | a pass keeps the mesh invariant: welded vertices, faces naming vertices, chained levels, last level at the current counts |
| Globe.Passes | globe.h:388-413 | `n` passes add exactly `n` levels |
| Globe.PassesKeepInvariant | globe.h:388-413 | any number of passes keeps the mesh invariant |
| Globe.PassKeepsClosed | globe.h:390-411 | after a pass the last level ends at the current counts and its faces name stored vertices |
| Globe.RefinedGrows | globe.h:390-411 | appending to the lists keeps every level that refines the one before it refining |
| Globe.PassRefines | globe.h:390-411 | a pass only appends vertices, and the level it adds is exactly the split of the previous level's faces over the vertices of that time |
| Globe.PassGrows | globe.h:390-411 | a pass leaves all earlier vertices, faces and levels where they were |
| Globe.PassKeepsRefined | globe.h:390-411 | a pass keeps each refined level refined |
| Globe.PassesRefine | globe.h:388-413 | after `n` passes nothing that existed before has changed, every new level is the split of the one before it, and the mesh is closed |
| Globe.PassExtendsRefined | globe.h:388-413 | one more pass keeps what `PassesRefine` states |
| Globe.PassKeepsAllRefined | globe.h:390-411 | a pass keeps every refined level from a given one on refined, the new level included |
| Globe.PassesNext | globe.h:388 | a pass after `n` passes is pass `n + 1` |
| Globe.FaceTotal | globe.h:388-411 | a mesh with `n` levels holds `20 * (4^n - 1) / 3` faces, and its last level has four times the faces of the one before |
| Globe.BaseStateShape | globe.h:347-376 | the mesh `make_globe` leaves keeps the invariant, and its one level is faces `[0, 20)` over all its vertices |
| Globe.ElevationsKeepInvariant | globe.h:455-461 | writing elevations keeps the mesh invariant, since elevation takes no part in welding |
| GlobeMeshes.SplitStep | globe.h:391-410 | a list and face list holding the pass over some parents, after one more parent is handled, hold the pass over one more parent |
| GlobeMeshes.GlobeMesh.constructor | globe.h:298 | a new mesh is empty and keeps the invariant |
| GlobeMeshes.GlobeMesh.SubdivCount | globe.h:309-312 | `subdiv_count` is the number of levels; a mesh with `n > 0` levels holds `20 * (4^n - 1) / 3` faces, and one without levels has no faces |
| GlobeMeshes.GlobeMesh.GetFaces | globe.h:314-325 | `get_faces(sub)` covers exactly level `sub`'s face range, the last level's when `sub` is out of range, nothing before `make_globe`; level `k` has `20 * 4^k` faces |
| GlobeMeshes.GlobeMesh.MarkSubdiv | globe.h:327-331 | appends one level from the previous level's end (0 if none) to the face count, at the vertex count; earlier levels are unchanged |
| GlobeMeshes.GlobeMesh.MakeGlobe | globe.h:334-380 | `make_globe` leaves the base mesh: 20 faces closed as level 0, the invariant kept |
| GlobeMeshes.GlobeMesh.AddWedge | globe.h:349-373 | one turn of the wedge loop emits the wedge's four corner triples |
| GlobeMeshes.GlobeMesh.EmitCorners | globe.h:354-358 | one `push_back(add_triangle(...))` extends the emission by one triangle |
| GlobeMeshes.GlobeMesh.SplitFace | globe.h:393-409 | the body of the inner loop of `subdivide`: the three midpoints go through the table, then the four children are appended |
| GlobeMeshes.GlobeMesh.SplitFaces | globe.h:391-410 | the inner loop of `subdivide` over faces `[lo, hi)` leaves the vertex list and the faces of the pass over those parents |
| GlobeMeshes.GlobeMesh.SplitNext | globe.h:391-410 | handling face `lo + k` extends the pass over the first `k` parents to the first `k + 1` |
| GlobeMeshes.GlobeMesh.SubdividePass | globe.h:390-411 | one turn of the outer loop is one `Pass` and keeps the invariant |
| GlobeMeshes.GlobeMesh.Subdivide | globe.h:382-416 | `subdivide(count)` changes nothing without a level. Otherwise it leaves `max(k, count + 1)` levels, one pass per level added. Nothing that existed before changes, each new level is the split of the one before it, and the invariant holds |
| GlobeMeshes.GlobeMesh.PassUntil | globe.h:388-413 | the outer loop makes passes until there are `max(k, count + 1)` levels |
| GlobeMeshes.GlobeMesh.NextPass | globe.h:388-413 | a pass made after `n` passes is pass `n + 1` |
| GlobeMeshes.GlobeMesh.MapElevations | globe.h:451-472 | every vertex takes the sample of its corrected cell (`Cell`, the wrapped longitude) and nothing else changes; the invariant holds |
| GlobeMeshes.GlobeMesh.LoadFromTerrain | globe.h:473-493 | refuses a file that cannot be mapped or whose size minus 128 is not 43200 x 86400 x 2, changing nothing; otherwise maps the grid it holds onto the vertices through the corrected cell (`Cell`) |
| GlobeMeshes.GlobeMesh.LoadElevations | globe.h:520-548 | refuses a file that cannot be mapped (missing or empty) or whose size is not 4 bytes per vertex, changing nothing; otherwise vertex `i` takes the `i`-th float |
| MikeyTools.Range.Begin | mikey_tools.h:18-20 | `begin()` returns the first position, fixed at construction |
| MikeyTools.Range.End | mikey_tools.h:21-23 | `end()` returns the last position, fixed at construction |
| MikeyTools.Range.Size | mikey_tools.h:24-26 | `size()` is `last - first` when the range is not reversed, and wraps as `size_t` when it is |
| MikeyTools.FromBounds | mikey_tools.h:12-14 | `RangeT(a, b)` begins at `a` and ends at `b` |
| MikeyTools.FromCount | mikey_tools.h:15-17 | `RangeT(a, count)` ends `count` past `a`, so its size is `count` |
| MikeyTools.RangeCount | mikey_tools.h:28-31 | `range(first, count)` is the count constructor, with size `count` |
| MikeyTools.RangeBounds | mikey_tools.h:32-35 | `range(first, last)` is the two-bound constructor, with size `last - first` |
| MikeyTools.CountAndBoundsAgree | mikey_tools.h:28-35 | building from a count and building from the matching end give the same range |

## Left out

- Floating-point rounding: floats are reals. `euclidean`, `polar`,
  `normalize`, `atan` and the float value of a bit pattern are fields of the
  `Maths` parameter, with no assumption about them. The vector arithmetic and
  the midpoint `(a + b) / 2` are exact.
- `std::map` tree order: lookup is "first equivalent entry". The map's keys
  are not kept separately from the list. The vector `lt` is not transitive
  (`VecLtCycle`), so a real red-black tree can reach a different equivalent
  key than the first one, or miss every equivalent entry and append a
  duplicate vertex. The model states the first-equivalent table, not what the
  tree does.
- `VertexList::find`, `get_vertices`, and the `operator[]` overloads
  (globe.h:246-273) are accessors only. `operator[]` appears as reading
  `vertices.items` in `SplitFace`.
- `Slice::operator[]` and `Slice::data()` (globe.h:107-112) are not modelled;
  nothing in the core uses them.
- `wrap_range` (globe.h:70-84) is never used, and its body returns its
  argument at once.
- GlobeMeshes.GlobeMesh.MakeGlobe starts from empty lists and an empty vertex
  map. The code assigns the caller's `r_subs`, `r_faces` and `r_verts`
  (globe.h:336-338), modelled as empty, but never clears `vertex_map`
  (globe.h:218). On a mesh that was already built, every base corner is then
  found in the stale map, nothing is pushed, and the 20 faces name indices
  into an empty vertex list. The model does not capture a second call: its
  `State() == BaseState(m)` is the state after a reset of the map as well.
- GlobeMeshes.GlobeMesh.SplitFaces: in the C++ code, the range-`for` over
  `old_triangles` runs while `push_back` grows `triangles`, which can
  invalidate its iterators. The model iterates by index over the face range
  fixed when the pass starts, which is what the code means.
- GlobeMeshes.GlobeMesh.Subdivide: `(int)subdivs.size()` is taken as exact.
  A mesh with 2^31 levels would need more than 4^31 faces.
- GlobeMeshes.GlobeMesh.MapElevations requires every vertex's latitude in
  `[-pi/2, pi/2]`, the range the code documents (globe.h:439-442). Outside it
  the code reads outside the grid.
- GlobeMeshes.GlobeMesh.LoadFromTerrain requires the same latitude range,
  since it maps the grid through `MapElevations`. It requires it on its
  refusal paths too, where the code reads no grid.
- Terrain.GridElevations samples the corrected cell (`Terrain.Cell`); the
  code reads column `SourceCell(uv).1`, which is at least 86400 for the
  longitudes past pi the wedge loop stores (see "## Findings").
- GlobeMeshes.GlobeMesh.MapElevations samples the corrected cell
  (`Terrain.Cell`); the code reads column `SourceCell(uv).1`, which is at
  least 86400 for longitudes of 216, 252 and 288 degrees.
- GlobeMeshes.GlobeMesh.LoadFromTerrain maps the grid through
  `MapElevations`, so it too samples the corrected cell (`Terrain.Cell`)
  where the code reads past the end of a row.
- GlobeMeshes.GlobeMesh.LoadFromTerrain requires the file size to fit in
  `size_t`. GlobeMeshes.GlobeMesh.LoadElevations requires `4 * vertex count`
  to fit in `size_t`. Any file or list in memory meets both.
- Memory-mapped files (`memmap.h`, `win_memmap.h`): a file is
  `Option<seq<Byte>>`, with `None` when it cannot be opened or mapped.
- The diagnostics are not modelled: `print`, `operator<<`, the console output
  of `make_globe`, `subdivide` and `map_elevations`.
- `write_elevations` (file output) is not modelled.
- `elev_to_rgb` is not modelled: it is colour interpolation in floating point.
- `load_from_mesh` is a stub that returns false, so there is nothing to
  model.
- The GLFW monitor code in `mikey_tools.h` is compiled out (`#if 0`).

## Findings

| source | as written | input that shows it | evidently intended | confidence | as-written member | corrected member |
|---|---|---|---|---|---|---|
| globe.h:344-373 | the wedge loop computes corner longitudes past pi: 216 degrees (third wedge, south band `east2`), 252 and 288 degrees (fourth wedge, `east` and `east2`). The lat/lon constructor keeps them as given, and `map_elevations` passes them to `map_uv` and `index_of`, which are written for `[-pi, pi]` (globe.h:439-442, 457-460) | the third wedge's corner `{s_lat, east2}` (globe.h:367) has longitude 1.2 pi; `map_uv` gives 1.1, and `index_of(1.1, 86400)` is column 95039, past the 86400 columns of `data[lat]` | a longitude wrapped into `(-pi, pi]`, here -0.8 pi, giving column 8639 | not executed | Icosahedron.ThirdWedgeLeavesRow | Terrain.Cell |
