/**
 * `GlobeMesh`: the object that owns the vertex table, the face list and the
 * level list, and the operations that build, subdivide and sample it. Each
 * method is proved to move the mesh, read as a `MeshState`, the way the
 * functions of the `Globe` module say.
 */
module GlobeMeshes {
  import opened Machine
  import opened Options
  import opened Glm
  import opened Coords
  import opened VertexTable
  import opened Emission
  import opened Slices
  import opened Levels
  import opened Subdivision
  import opened Icosahedron
  import opened Terrain
  import opened Globe

  /** Four appends one at a time are one append of the four. */
  lemma AppendFour<T>(xs: seq<T>, a: T, b: T, c: T, d: T)
    ensures xs + [a] + [b] + [c] + [d] == xs + [a, b, c, d]
  {
  }

  /** A prefix one longer is the prefix and the next element. */
  lemma SnocPrefix<T>(xs: seq<T>, k: nat)
    requires k < |xs|
    ensures xs[..k + 1] == xs[..k] + [xs[k]]
  {
  }

  /**
   * A list and a face list that hold the pass over `done`, after the
   * handling of face `t`, hold the pass over `done + [t]`.
   */
  lemma SplitStep(m: Maths, items: seq<SphericalCoord>, faces: seq<Triangle>, done: seq<Triangle>, t: Triangle,
                  before: seq<SphericalCoord>, tris: seq<Triangle>, after: seq<SphericalCoord>, tris': seq<Triangle>)
    requires FacesInBounds(done, |items|) && InBounds(t, |items|)
    requires var r := SplitRange(m, items, done); before == r.items && tris == faces + r.faces
    requires var c := EdgeMidpoints(m, items, t);
      var added := InsertTriangle(before, c.v1, c.v2, c.v3);
      after == added.0 && tris' == tris + Children(t, added.1.a, added.1.b, added.1.c)
    ensures var r := SplitRange(m, items, done + [t]); after == r.items && tris' == faces + r.faces
  {
    assert FacesInBounds(done + [t], |items|);
    SplitRangeSnoc(m, items, done, t);
    var c := EdgeMidpoints(m, items, t);
    var added := InsertTriangle(before, c.v1, c.v2, c.v3);
    AppendAssoc(faces, SplitRange(m, items, done).faces, Children(t, added.1.a, added.1.b, added.1.c));
  }

  lemma AppendAssoc<T>(a: seq<T>, b: seq<T>, c: seq<T>)
    ensures a + b + c == a + (b + c)
  {
  }

  /** Faces appended after `faces` leave the range `parents` of `faces` where it was. */
  lemma ParentAt<T>(list: seq<T>, faces: seq<T>, rest: seq<T>, parents: seq<T>, lo: nat, j: nat)
    requires list == faces + rest
    requires lo <= j < lo + |parents| <= |faces| && parents == faces[lo..lo + |parents|]
    ensures j < |list| && list[j] == parents[j - lo]
  {
  }

  class GlobeMesh {
    const vertices: VertexList
    var triangles: seq<Triangle>
    var subdivs: seq<SubdivLevel>

    /** The mesh as a value. */
    function State(): MeshState
      reads this, vertices
    {
      MeshState(vertices.items, triangles, subdivs)
    }

    ghost predicate Valid()
      reads this, vertices
    {
      MeshInvariant(State())
    }

    /** `GlobeMesh()`: no vertices, faces or levels. */
    constructor ()
      ensures Valid() && fresh(vertices)
      ensures vertices.items == [] && triangles == [] && subdivs == []
    {
      vertices := new VertexList();
      triangles := [];
      subdivs := [];
    }

    /**
     * `subdiv_count`: the number of levels; with `n` levels the mesh holds
     * `20 * (4^n - 1) / 3` faces, and none before `make_globe`.
     */
    function SubdivCount(): (n: nat)
      reads this, vertices
      requires Valid()
      ensures n == |subdivs|
      ensures n > 0 ==> 3 * |triangles| == BaseFaceCount * (Pow4(n) - 1)
      ensures n == 0 ==> triangles == []
    {
      if subdivs != [] then FaceTotal(State()); |subdivs| else 0
    }

    /**
     * `get_faces(sub)`: the faces of level `sub`, of the last level when `sub`
     * is out of range, and nothing before `make_globe`. Level `k` holds
     * `20 * 4^k` faces.
     */
    function GetFaces(sub: SizeT := 0xFFFF_FFFF): (s: Slice)
      reads this, vertices
      requires Valid()
      ensures s.Begin() <= s.End(|triangles|)
      ensures subdivs == [] ==> Elements(triangles, s) == []
      ensures subdivs != [] ==>
        var k := if sub < |subdivs| then sub else |subdivs| - 1;
        && Elements(triangles, s) == triangles[subdivs[k].offsetBegin..subdivs[k].offsetEnd]
        && |Elements(triangles, s)| == BaseFaceCount * Pow4(k)
    {
      if subdivs == [] then MakeSlice(|triangles|, 0, 0)
      else
        var k := if sub < |subdivs| then sub else |subdivs| - 1;
        LevelSizes(subdivs, k);
        SliceOf(|triangles|, subdivs[k].Faces())
    }

    /** `mark_subdiv`: close a level at the current face and vertex counts. */
    method MarkSubdiv()
      modifies this`subdivs
      ensures subdivs == old(subdivs) + [NextLevel(old(subdivs), |triangles|, |vertices.items|)]
    {
      var first := if subdivs != [] then subdivs[|subdivs| - 1].offsetEnd else 0;
      subdivs := subdivs + [SubdivLevel(first, |triangles|, |vertices.items|)];
    }

    /**
     * `make_globe`: start from empty lists, emit the four triangles of each of
     * the five wedges through the vertex table, close level 0.
     */
    method MakeGlobe(m: Maths)
      modifies this, vertices
      ensures Valid()
      ensures State() == BaseState(m)
      ensures subdivs == [SubdivLevel(0, BaseFaceCount, |vertices.items|)]
    {
      subdivs := [];
      triangles := [];
      vertices.items := [];
      var nLat := m.atan(0.5);
      var sLat := -nLat;
      var wedge := Pi * 0.4;
      var east := wedge * 0.5;
      var i := 0;
      while i < 5
        invariant 0 <= i <= 5
        invariant east == WedgeEast(i)
        invariant Built(vertices.items, triangles) == AddTriangles([], BaseCorners(m, i))
        invariant subdivs == []
      {
        AddWedge(m, east, nLat, sLat, wedge, BaseCorners(m, i));
        WedgeEastNext(i);
        i := i + 1;
        east := east + wedge;
      }
      MarkSubdiv();
      BaseStateShape(m);
    }

    /**
     * One turn of the `make_globe` loop: the north cap, the two band triangles
     * and the south cap of the wedge whose `east` longitude is given.
     */
    method AddWedge(m: Maths, east: real, nLat: real, sLat: real, wedge: real, ghost cs: seq<Corners>)
      requires nLat == m.atan(0.5) && sLat == -nLat && wedge == Wedge
      requires Built(vertices.items, triangles) == AddTriangles([], cs)
      modifies this`triangles, vertices
      ensures Built(vertices.items, triangles) == AddTriangles([], cs + WedgeCorners(m, east))
    {
      var east2 := east + wedge * 0.5;
      var west := east - wedge;
      var mid := east2 - wedge;
      var c0 := Corners(FromLatLon(m, Pi / 2.0, (east + west) * 0.5), FromLatLon(m, nLat, east), FromLatLon(m, nLat, west));
      var c1 := Corners(FromLatLon(m, nLat, east), FromLatLon(m, sLat, mid), FromLatLon(m, nLat, west));
      var c2 := Corners(FromLatLon(m, nLat, east), FromLatLon(m, sLat, east2), FromLatLon(m, sLat, mid));
      var c3 := Corners(FromLatLon(m, sLat, mid), FromLatLon(m, sLat, east2), FromLatLon(m, -Pi / 2.0, (mid + east2) * 0.5));
      assert WedgeCorners(m, east) == [c0, c1, c2, c3];
      EmitCorners(c0, cs);
      EmitCorners(c1, cs + [c0]);
      EmitCorners(c2, cs + [c0] + [c1]);
      EmitCorners(c3, cs + [c0] + [c1] + [c2]);
      AppendFour(cs, c0, c1, c2, c3);
    }

    /** `triangles.push_back(vertices.add_triangle(v1, v2, v3))`. */
    method EmitCorners(c: Corners, ghost cs: seq<Corners>)
      requires Built(vertices.items, triangles) == AddTriangles([], cs)
      modifies this`triangles, vertices
      ensures Built(vertices.items, triangles) == AddTriangles([], cs + [c])
    {
      var t := vertices.AddTriangle(c.v1, c.v2, c.v3);
      triangles := triangles + [t];
      AddTrianglesSnoc([], cs, c);
    }

    /**
     * One parent face of a pass: its edge midpoints, computed from the corners
     * as they were stored when the pass started, go through the vertex table
     * and its four children are appended.
     */
    method SplitFace(m: Maths, t: Triangle, ghost items: seq<SphericalCoord>)
      requires InBounds(t, |items|) && items <= vertices.items
      modifies this`triangles, vertices
      ensures var c := EdgeMidpoints(m, items, t);
        var added := InsertTriangle(old(vertices.items), c.v1, c.v2, c.v3);
        && vertices.items == added.0
        && triangles == old(triangles) + Children(t, added.1.a, added.1.b, added.1.c)
    {
      assert vertices.items[t.a] == items[t.a] && vertices.items[t.b] == items[t.b] && vertices.items[t.c] == items[t.c];
      var v0, v1, v2 := vertices.items[t.a], vertices.items[t.b], vertices.items[t.c];
      var v01 := Midpoint(m, v0, v1);
      var v12 := Midpoint(m, v1, v2);
      var v20 := Midpoint(m, v2, v0);
      var i01 := vertices.Add(v01);
      var i12 := vertices.Add(v12);
      var i20 := vertices.Add(v20);
      triangles := triangles + [Triangle(t.a, i01, i20), Triangle(i01, t.b, i12), Triangle(i20, i12, t.c), Triangle(i01, i12, i20)];
    }

    /**
     * The range-`for` of a `subdivide` pass over the faces `[lo, hi)`: each,
     * in order, is split into four, with midpoints taken from the vertices
     * stored when the range started.
     */
    method SplitFaces(m: Maths, lo: nat, hi: nat)
      requires lo <= hi <= |triangles| && FacesInBounds(triangles[lo..hi], |vertices.items|)
      modifies this`triangles, vertices
      ensures var r := SplitRange(m, old(vertices.items), old(triangles)[lo..hi]);
        vertices.items == r.items && triangles == old(triangles) + r.faces
    {
      ghost var items, faces := vertices.items, triangles;
      ghost var parents := triangles[lo..hi];
      var j := lo;
      ghost var k := 0;
      while j < hi
        invariant j == lo + k <= hi
        invariant vertices.items == SplitRange(m, items, parents[..k]).items
        invariant triangles == faces + SplitRange(m, items, parents[..k]).faces
      {
        SplitNext(m, j, items, faces, parents, lo, k);
        j, k := j + 1, k + 1;
      }
      assert parents[..k] == parents;
    }

    /** The handling of face `t`, parent `k`, extends the pass over the parents before it by one face. */
    method SplitNext(m: Maths, j: nat, ghost items: seq<SphericalCoord>, ghost faces: seq<Triangle>, ghost parents: seq<Triangle>, ghost lo: nat, ghost k: nat)
      requires j == lo + k && k < |parents| && lo + |parents| <= |faces| && parents == faces[lo..lo + |parents|]
      requires FacesInBounds(parents, |items|)
      requires vertices.items == SplitRange(m, items, parents[..k]).items
      requires triangles == faces + SplitRange(m, items, parents[..k]).faces
      modifies this`triangles, vertices
      ensures vertices.items == SplitRange(m, items, parents[..k + 1]).items
      ensures triangles == faces + SplitRange(m, items, parents[..k + 1]).faces
    {
      ParentAt(triangles, faces, SplitRange(m, items, parents[..k]).faces, parents, lo, j);
      var t := triangles[j];
      SnocPrefix(parents, k);
      ghost var done := parents[..k];
      assert FacesInBounds(done, |items|) && InBounds(t, |items|);
      ghost var before := vertices.items;
      ghost var tris := triangles;
      SplitFace(m, t, items);
      SplitStep(m, items, faces, done, t, before, tris, vertices.items, triangles);
    }

    /** One pass of `subdivide`: split every face of the last level, then close a level. */
    method SubdividePass(m: Maths)
      requires Valid() && subdivs != []
      modifies this, vertices
      ensures Valid()
      ensures State() == Pass(SplitOf(m), old(State()))
    {
      ghost var s := State();
      var last := subdivs[|subdivs| - 1];
      var oldTriangles := SliceOf(|triangles|, last.Faces());
      LevelSizes(subdivs, |subdivs| - 1);
      var lo, hi := oldTriangles.Begin(), oldTriangles.End(|triangles|);
      assert triangles[lo..hi] == LastFaces(s);
      SplitFaces(m, lo, hi);
      InvariantCloses(s);
      PassBySplitRange(m, s, vertices.items, triangles);
      MarkSubdiv();
      SplitOfSplits(m);
      PassKeepsInvariant(SplitOf(m), s);
    }

    /**
     * `subdivide(count)`: nothing without a level; otherwise passes are made
     * until there are `count + 1` levels, none if there already are that many.
     * Each level a pass adds is the split of the level before it.
     */
    method Subdivide(m: Maths, count: Int32 := 1)
      requires Valid()
      modifies this, vertices
      ensures Valid()
      ensures old(subdivs) == [] ==> State() == old(State())
      ensures old(subdivs) != [] ==>
        && |subdivs| == Max(|old(subdivs)|, count + 1)
        && State() == Passes(SplitOf(m), old(State()), |subdivs| - |old(subdivs)|)
        && old(vertices.items) <= vertices.items && old(triangles) <= triangles && old(subdivs) <= subdivs
        && forall k :: |old(subdivs)| <= k < |subdivs| ==> Refined(SplitOf(m), State(), k)
    {
      if subdivs == [] {
        return;
      }
      ghost var s0 := State();
      ghost var n := PassUntil(m, count, s0);
      SplitOfSplits(m);
      InvariantCloses(s0);
      PassesKeepInvariant(SplitOf(m), s0, n);
      PassesRefine(SplitOf(m), s0, n, State());
    }

    /**
     * The outer loop of `subdivide`: one pass per turn while the level
     * count is at most `count`; `n` counts the passes made.
     */
    method PassUntil(m: Maths, count: Int32, ghost s0: MeshState) returns (ghost n: nat)
      requires MeshInvariant(s0) && s0.levels != [] && State() == s0
      modifies this, vertices
      ensures State() == Passes(SplitOf(m), s0, n)
      ensures |subdivs| == |s0.levels| + n == Max(|s0.levels|, count + 1)
    {
      InvariantCloses(s0);
      n := 0;
      var i: int := |subdivs| - 1;
      while i < count
        invariant i == |s0.levels| - 1 + n && State() == Passes(SplitOf(m), s0, n)
        invariant n == 0 || i <= count
        decreases count - i
      {
        NextPass(m, s0, n);
        i, n := i + 1, n + 1;
      }
    }

    /** A pass made after `n` passes from `s0` is pass `n + 1`. */
    method NextPass(m: Maths, ghost s0: MeshState, ghost n: nat)
      requires MeshInvariant(s0) && s0.levels != [] && State() == Passes(SplitOf(m), s0, n)
      modifies this, vertices
      ensures State() == Passes(SplitOf(m), s0, n + 1)
    {
      SplitOfSplits(m);
      PassesKeepInvariant(SplitOf(m), s0, n);
      ghost var before := State();
      SubdividePass(m);
      PassesNext(SplitOf(m), s0, n, before, State());
    }

    /**
     * `map_elevations`: every vertex takes the sample of the grid cell its
     * latitude and wrapped longitude fall in; nothing else changes.
     */
    method MapElevations(grid: seq<seq<Int16>>)
      requires Valid()
      requires IsGrid(grid) && LatsInRange(vertices.items)
      modifies vertices
      ensures Valid()
      ensures vertices.items == WithElevations(old(vertices.items), GridElevations(old(vertices.items), grid))
    {
      ghost var elevs := GridElevations(vertices.items, grid);
      ElevationsKeepInvariant(State(), elevs);
      var i := 0;
      while i < |vertices.items|
        invariant 0 <= i <= |vertices.items| == |old(vertices.items)|
        invariant forall j :: 0 <= j < i ==> vertices.items[j] == old(vertices.items[j]).(elev := elevs[j])
        invariant forall j :: i <= j < |vertices.items| ==> vertices.items[j] == old(vertices.items[j])
      {
        var v := vertices.items[i];
        var rc := Cell(v.uv);
        var elev := grid[rc.0][rc.1] as real;
        vertices.items := vertices.items[i := v.(elev := elev)];
        i := i + 1;
      }
    }

    /**
     * `load_from_terrain`: a file that cannot be mapped (an empty file cannot
     * either), or whose size after
     * the 128-byte header is not the grid's, is refused and changes nothing;
     * otherwise the grid it holds is mapped onto the vertices.
     */
    method LoadFromTerrain(file: Option<seq<Byte>>) returns (ok: bool)
      requires Valid() && LatsInRange(vertices.items)
      requires file.Some? ==> |file.value| < SizeTLimit
      modifies vertices
      ensures Valid()
      ensures ok <==> (file.Some? && |file.value| == TerrainHeader + GridBytes)
      ensures !ok ==> vertices.items == old(vertices.items)
      ensures ok ==> (file.Some? && |file.value| == TerrainHeader + GridBytes &&
        vertices.items == WithElevations(old(vertices.items), GridElevations(old(vertices.items), DecodeGrid(file.value))))
    {
      if file.None? || |file.value| == 0 {
        return false;
      }
      var bytes := file.value;
      var sgrid := 2 * TerrainCols * TerrainRows;
      var tsize := ToSizeT(|bytes| - 0x80);
      if sgrid != tsize {
        return false;
      }
      var data := DecodeGrid(bytes);
      MapElevations(data);
      return true;
    }

    /**
     * `load_elevations`: a file that cannot be mapped (an empty file cannot
     * either), or that does not hold
     * exactly one `float` per vertex, is refused and changes nothing;
     * otherwise vertex `i` takes the `i`-th float.
     */
    method LoadElevations(m: Maths, file: Option<seq<Byte>>) returns (ok: bool)
      requires Valid()
      requires 4 * |vertices.items| < SizeTLimit
      modifies vertices
      ensures Valid()
      ensures ok <==> (file.Some? && 0 < |file.value| == 4 * |old(vertices.items)|)
      ensures !ok ==> vertices.items == old(vertices.items)
      ensures ok ==> (file.Some? && 0 < |file.value| == 4 * |old(vertices.items)| &&
        vertices.items == WithElevations(old(vertices.items), FileElevations(m, file.value, |old(vertices.items)|)))
    {
      if file.None? || |file.value| == 0 {
        return false;
      }
      var bytes := file.value;
      if |bytes| != ToSizeT(|vertices.items| * 4) {
        return false;
      }
      ghost var elevs := FileElevations(m, bytes, |vertices.items|);
      ElevationsKeepInvariant(State(), elevs);
      var i := 0;
      while i < |vertices.items|
        invariant 0 <= i <= |vertices.items| == |old(vertices.items)|
        invariant forall j :: 0 <= j < i ==> vertices.items[j] == old(vertices.items[j]).(elev := elevs[j])
        invariant forall j :: i <= j < |vertices.items| ==> vertices.items[j] == old(vertices.items[j])
      {
        var v := vertices.items[i];
        vertices.items := vertices.items[i := v.(elev := m.floatOfBits(LeU32(bytes, 4 * i)))];
        i := i + 1;
      }
      return true;
    }
  }
}
