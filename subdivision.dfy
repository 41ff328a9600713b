/**
 * One `subdivide` pass over a range of parent faces: the midpoints of each
 * parent's edges are added to the vertex table (a-b, b-c, c-a), and each
 * parent is replaced by four children in a fixed pattern.
 *
 * The corners of every parent were stored before the pass starts and stored
 * entries never change, so the midpoints can be taken from the list as it was
 * when the pass started; the pass is then the emission of one midpoint triple
 * per parent, followed by the expansion of each parent into its children.
 */
module Subdivision {
  import opened Machine
  import opened Glm
  import opened Coords
  import opened VertexTable
  import opened Emission

  /** The four children of `t` in emission order, given the indices of its edge midpoints. */
  function Children(t: Triangle, ab: U32, bc: U32, ca: U32): seq<Triangle>
  {
    [Triangle(t.a, ab, ca), Triangle(ab, t.b, bc), Triangle(ca, bc, t.c), Triangle(ab, bc, ca)]
  }

  /** The keys of the midpoints of the edges a-b, b-c and c-a of `t`. */
  function EdgeMidpoints(m: Maths, items: seq<SphericalCoord>, t: Triangle): Corners
    requires InBounds(t, |items|)
  {
    Corners(Midpoint(m, items[t.a], items[t.b]), Midpoint(m, items[t.b], items[t.c]), Midpoint(m, items[t.c], items[t.a]))
  }

  /** The midpoint triple of every parent face, in face order. */
  function MidCorners(m: Maths, items: seq<SphericalCoord>, tris: seq<Triangle>): (cs: seq<Corners>)
    requires FacesInBounds(tris, |items|)
    ensures |cs| == |tris|
    ensures forall i :: 0 <= i < |tris| ==> cs[i] == EdgeMidpoints(m, items, tris[i])
  {
    seq(|tris|, i requires 0 <= i < |tris| => EdgeMidpoints(m, items, tris[i]))
  }

  /** Each parent replaced by its four children; `mids[i]` holds the midpoint indices of `tris[i]`. */
  function Expand(tris: seq<Triangle>, mids: seq<Triangle>): (r: seq<Triangle>)
    requires |mids| == |tris|
    ensures |r| == 4 * |tris|
    decreases |tris|
  {
    if tris == [] then []
    else
      var n := |tris| - 1;
      Expand(tris[..n], mids[..n]) + Children(tris[n], mids[n].a, mids[n].b, mids[n].c)
  }

  /** Faces `4k .. 4k+3` of the expansion are the children of parent `k`. */
  lemma {:induction false} ExpandAt(tris: seq<Triangle>, mids: seq<Triangle>, k: nat)
    requires |mids| == |tris| && k < |tris|
    ensures Expand(tris, mids)[4 * k..4 * k + 4] == Children(tris[k], mids[k].a, mids[k].b, mids[k].c)
    decreases |tris|
  {
    var n := |tris| - 1;
    var before := Expand(tris[..n], mids[..n]);
    var last := Children(tris[n], mids[n].a, mids[n].b, mids[n].c);
    assert Expand(tris, mids) == before + last;
    if k < n {
      ExpandAt(tris[..n], mids[..n], k);
      assert (before + last)[4 * k..4 * k + 4] == before[4 * k..4 * k + 4];
    } else {
      assert (before + last)[4 * k..4 * k + 4] == last;
    }
  }

  /** Children only use the parents' corners and the midpoint indices, so they stay in bounds. */
  lemma {:induction false} ExpandInBounds(tris: seq<Triangle>, mids: seq<Triangle>, n: nat)
    requires |mids| == |tris| && FacesInBounds(tris, n) && FacesInBounds(mids, n)
    ensures FacesInBounds(Expand(tris, mids), n)
    decreases |tris|
  {
    if tris != [] {
      var k := |tris| - 1;
      ExpandInBounds(tris[..k], mids[..k], n);
      assert InBounds(tris[k], n) && InBounds(mids[k], n);
    }
  }

  lemma ExpandSnoc(tris: seq<Triangle>, mids: seq<Triangle>, t: Triangle, mid: Triangle)
    requires |mids| == |tris|
    ensures Expand(tris + [t], mids + [mid]) == Expand(tris, mids) + Children(t, mid.a, mid.b, mid.c)
  {
    assert (tris + [t])[..|tris|] == tris;
    assert (mids + [mid])[..|mids|] == mids;
  }

  /** The pass over `tris`: emit the midpoint triples, then expand every parent. */
  function SplitRange(m: Maths, items: seq<SphericalCoord>, tris: seq<Triangle>): (r: Built)
    requires FacesInBounds(tris, |items|)
    ensures items <= r.items
    ensures |r.faces| == 4 * |tris|
    ensures FacesInBounds(r.faces, |r.items|)
  {
    var added := AddTriangles(items, MidCorners(m, items, tris));
    ExpandInBounds(tris, added.faces, |added.items|);
    Built(added.items, Expand(tris, added.faces))
  }

  /**
   * Handling one more parent face: its midpoints are added to the list left
   * by the faces before it and its four children are appended.
   */
  lemma SplitRangeSnoc(m: Maths, items: seq<SphericalCoord>, tris: seq<Triangle>, t: Triangle)
    requires FacesInBounds(tris + [t], |items|)
    ensures FacesInBounds(tris, |items|) && InBounds(t, |items|)
    ensures var before := SplitRange(m, items, tris);
      var c := EdgeMidpoints(m, items, t);
      var added := InsertTriangle(before.items, c.v1, c.v2, c.v3);
      SplitRange(m, items, tris + [t]) == Built(added.0, before.faces + Children(t, added.1.a, added.1.b, added.1.c))
  {
    assert forall i :: 0 <= i < |tris| ==> tris[i] == (tris + [t])[i];
    assert (tris + [t])[|tris|] == t;
    var cs := MidCorners(m, items, tris);
    var c := EdgeMidpoints(m, items, t);
    assert MidCorners(m, items, tris + [t]) == cs + [c];
    AddTrianglesSnoc(items, cs, c);
    var before := AddTriangles(items, cs);
    var added := InsertTriangle(before.items, c.v1, c.v2, c.v3);
    ExpandSnoc(tris, before.faces, t, added.1);
  }

  /** A pass keeps the stored vertices pairwise distinct. */
  lemma SplitRangeWelded(m: Maths, items: seq<SphericalCoord>, tris: seq<Triangle>)
    requires FacesInBounds(tris, |items|) && Welded(items)
    ensures Welded(SplitRange(m, items, tris).items)
  {
    AddTrianglesWelded(items, MidCorners(m, items, tris));
  }

  /** The faces of parent `k` in the pass are its children around the `k`-th emitted midpoint triple. */
  lemma SplitRangeAt(m: Maths, items: seq<SphericalCoord>, tris: seq<Triangle>, k: nat)
    requires FacesInBounds(tris, |items|) && k < |tris|
    ensures var added := AddTriangles(items, MidCorners(m, items, tris));
      var mid := added.faces[k];
      && SplitRange(m, items, tris).items == added.items
      && SplitRange(m, items, tris).faces[4 * k..4 * k + 4] == Children(tris[k], mid.a, mid.b, mid.c)
  {
    var added := AddTriangles(items, MidCorners(m, items, tris));
    ExpandAt(tris, added.faces, k);
  }

  /** Reading the midpoint indices back off the first two children. */
  lemma ChildrenCarryMidpoints(r: Built, t: Triangle, mid: Triangle, c: Corners, k: nat)
    requires 4 * k + 4 <= |r.faces|
    requires r.faces[4 * k..4 * k + 4] == Children(t, mid.a, mid.b, mid.c)
    requires Names(r.items, c.v1, mid.a) && Names(r.items, c.v2, mid.b) && Names(r.items, c.v3, mid.c)
    ensures var ab, bc, ca := r.faces[4 * k].b, r.faces[4 * k + 1].c, r.faces[4 * k].c;
      && r.faces[4 * k..4 * k + 4] == Children(t, ab, bc, ca)
      && Names(r.items, c.v1, ab) && Names(r.items, c.v2, bc) && Names(r.items, c.v3, ca)
  {
    var quad := r.faces[4 * k..4 * k + 4];
    assert quad[0] == r.faces[4 * k] && quad[1] == r.faces[4 * k + 1];
  }

  /**
   * Parent `k` becomes faces `4k .. 4k+3`: `(a,ab,ca)`, `(ab,b,bc)`,
   * `(ca,bc,c)`, `(ab,bc,ca)`, where `ab`, `bc` and `ca` are the indices the
   * vertex table hands out for the midpoints of the parent's edges.
   */
  lemma SubdivisionChildren(m: Maths, items: seq<SphericalCoord>, tris: seq<Triangle>, k: nat)
    requires FacesInBounds(tris, |items|) && k < |tris|
    ensures var r := SplitRange(m, items, tris);
      var t := tris[k];
      var ab, bc, ca := r.faces[4 * k].b, r.faces[4 * k + 1].c, r.faces[4 * k].c;
      && r.faces[4 * k..4 * k + 4] == Children(t, ab, bc, ca)
      && Names(r.items, Midpoint(m, items[t.a], items[t.b]), ab)
      && Names(r.items, Midpoint(m, items[t.b], items[t.c]), bc)
      && Names(r.items, Midpoint(m, items[t.c], items[t.a]), ca)
  {
    var cs := MidCorners(m, items, tris);
    var added := AddTriangles(items, cs);
    SplitRangeAt(m, items, tris, k);
    AddTrianglesNames(items, cs, k);
    ChildrenCarryMidpoints(SplitRange(m, items, tris), tris[k], added.faces[k], cs[k], k);
  }
}
