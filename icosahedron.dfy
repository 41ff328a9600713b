/**
 * The icosahedron `make_globe` starts from: five wedges of 72 degrees of
 * longitude, each emitted as four triangles (a north cap, two band
 * triangles, a south cap) through the vertex table, so the twelve corners
 * shared between wedges are stored once.
 */
module Icosahedron {
  import opened Glm
  import opened Coords
  import opened VertexTable
  import opened Emission
  import opened Levels
  import opened Terrain

  /** 72 degrees: the longitude span of one wedge. */
  const Wedge: real := Pi * 0.4

  /** The `east` longitude of wedge `i`: half a wedge, then one wedge per step. */
  function WedgeEast(i: nat): (e: real)
    ensures e == Wedge * (i as real + 0.5)
  {
    Wedge * 0.5 + i as real * Wedge
  }

  /** Each turn of the wedge loop moves `east` by one wedge. */
  lemma WedgeEastNext(i: nat)
    ensures WedgeEast(i) + Wedge == WedgeEast(i + 1)
  {
    assert (i + 1) as real * Wedge == i as real * Wedge + Wedge;
  }

  /**
   * The corner triples of the wedge whose `east` longitude is given, in
   * emission order and clockwise: the north cap, the two band triangles, the
   * south cap. The band latitudes are `atan(1/2)` north and south.
   */
  function WedgeCorners(m: Maths, east: real): (cs: seq<Corners>)
    ensures |cs| == 4
    ensures cs[0].v1.uv == Vec2(Pi / 2.0, east - Wedge * 0.5)
    ensures cs[3].v3.uv == Vec2(-Pi / 2.0, east)
    ensures cs[0].v2 == cs[1].v1 == cs[2].v1 && cs[0].v3 == cs[1].v3
    ensures cs[1].v2 == cs[2].v3 == cs[3].v1 && cs[2].v2 == cs[3].v2
  {
    var nLat := m.atan(0.5);
    var sLat := -nLat;
    var east2 := east + Wedge * 0.5;
    var west := east - Wedge;
    var mid := east2 - Wedge;
    [ Corners(FromLatLon(m, Pi / 2.0, (east + west) * 0.5), FromLatLon(m, nLat, east), FromLatLon(m, nLat, west)),
      Corners(FromLatLon(m, nLat, east), FromLatLon(m, sLat, mid), FromLatLon(m, nLat, west)),
      Corners(FromLatLon(m, nLat, east), FromLatLon(m, sLat, east2), FromLatLon(m, sLat, mid)),
      Corners(FromLatLon(m, sLat, mid), FromLatLon(m, sLat, east2), FromLatLon(m, -Pi / 2.0, (mid + east2) * 0.5)) ]
  }

  /** The corner triples of the first `n` wedges, in emission order. */
  function BaseCorners(m: Maths, n: nat): (cs: seq<Corners>)
    ensures |cs| == 4 * n
  {
    if n == 0 then [] else BaseCorners(m, n - 1) + WedgeCorners(m, WedgeEast(n - 1))
  }

  /** Triple `4i + j` of the base is triple `j` of wedge `i`. */
  lemma {:induction false} BaseCornersAt(m: Maths, n: nat, i: nat, j: nat)
    requires i < n && j < 4
    ensures BaseCorners(m, n)[4 * i + j] == WedgeCorners(m, WedgeEast(i))[j]
  {
    if i < n - 1 {
      BaseCornersAt(m, n - 1, i, j);
    }
  }

  /** The vertices and faces `make_globe` emits before it closes level 0. */
  function BaseMesh(m: Maths): (b: Built)
    ensures |b.faces| == BaseFaceCount
    ensures FacesInBounds(b.faces, |b.items|)
  {
    AddTriangles([], BaseCorners(m, 5))
  }

  /**
   * The base mesh: 20 faces over at most 60 pairwise distinct vertices, each
   * face holding the indices the table hands out for its corner triple.
   */
  lemma BaseMeshShape(m: Maths)
    ensures var b := BaseMesh(m);
      && Welded(b.items)
      && |b.items| <= 3 * BaseFaceCount
      && forall k :: 0 <= k < BaseFaceCount ==>
           var c := BaseCorners(m, 5)[k];
           Names(b.items, c.v1, b.faces[k].a) && Names(b.items, c.v2, b.faces[k].b) && Names(b.items, c.v3, b.faces[k].c)
  {
    AddTrianglesWelded([], BaseCorners(m, 5));
    AddTrianglesGrowth([], BaseCorners(m, 5));
    forall k | 0 <= k < BaseFaceCount
      ensures var b := BaseMesh(m);
        var c := BaseCorners(m, 5)[k];
        Names(b.items, c.v1, b.faces[k].a) && Names(b.items, c.v2, b.faces[k].b) && Names(b.items, c.v3, b.faces[k].c)
    {
      AddTrianglesNames([], BaseCorners(m, 5), k);
    }
  }

  /**
   * The wedge loop computes longitudes past pi: the south band corner at
   * `east2` of the third wedge is keyed at 216 degrees. The lat/lon
   * constructor keeps a longitude as given (its wrap returns early, and the
   * unreachable line would only move negative longitudes up by a turn), so
   * `map_uv` gets `1.1` for this vertex and `index_of` gives column 95039 of
   * an 86400-column row; the wrapped longitude, -144 degrees, gives column
   * 8639.
   */
  lemma ThirdWedgeLeavesRow(m: Maths)
    ensures var v := WedgeCorners(m, WedgeEast(2))[2].v2;
      && v.uv.y == Pi * 1.2
      && SourceCell(v.uv).1 == 95039 >= TerrainCols
      && (LatInRange(v.uv.x) ==> Cell(v.uv).1 == 8639)
  {
    var v := WedgeCorners(m, WedgeEast(2))[2].v2;
    assert MapUv(v.uv).y == 1.1;
    assert WrapLon(v.uv.y) == -Pi * 0.8 by {
      assert (Pi - Pi * 1.2) / (2.0 * Pi) == -0.1;
    }
    assert MapUv(Vec2(v.uv.x, WrapLon(v.uv.y))).y == 0.1;
  }

  /**
   * The fourth wedge keys its north band corner at `east`, 252 degrees, and
   * its south band corner at `east2`, 288 degrees; as written both map past
   * the last column, wrapped they land on columns 17279 and 25919.
   */
  lemma FourthWedgeLeavesRow(m: Maths)
    ensures var n, s := WedgeCorners(m, WedgeEast(3))[0].v2, WedgeCorners(m, WedgeEast(3))[2].v2;
      && n.uv.y == Pi * 1.4 && s.uv.y == Pi * 1.6
      && SourceCell(n.uv).1 == 103679 >= TerrainCols
      && SourceCell(s.uv).1 == 112319 >= TerrainCols
      && (LatInRange(n.uv.x) ==> Cell(n.uv).1 == 17279)
      && (LatInRange(s.uv.x) ==> Cell(s.uv).1 == 25919)
  {
    var n, s := WedgeCorners(m, WedgeEast(3))[0].v2, WedgeCorners(m, WedgeEast(3))[2].v2;
    assert MapUv(n.uv).y == 1.2;
    assert MapUv(s.uv).y == 1.3;
    assert WrapLon(n.uv.y) == -Pi * 0.6 by {
      assert (Pi - Pi * 1.4) / (2.0 * Pi) == -0.2;
    }
    assert WrapLon(s.uv.y) == -Pi * 0.4 by {
      assert (Pi - Pi * 1.6) / (2.0 * Pi) == -0.3;
    }
    assert MapUv(Vec2(n.uv.x, WrapLon(n.uv.y))).y == 0.2;
    assert MapUv(Vec2(s.uv.x, WrapLon(s.uv.y))).y == 0.3;
  }
}
