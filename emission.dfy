/**
 * Emitting triangles through the vertex table: each `add_triangle` adds the
 * three corners of a triangle and yields the indices they were given.
 * `make_globe` emits one triangle per corner triple of the icosahedron, and a
 * `subdivide` pass emits one midpoint triple per parent face; both are the
 * fold below.
 */
module Emission {
  import opened Machine
  import opened Coords
  import opened VertexTable

  /** A vertex list grown by some adds, and the triangles the adds produced. */
  datatype Built = Built(items: seq<SphericalCoord>, faces: seq<Triangle>)

  /** The three keys handed to one `add_triangle`, in argument order. */
  datatype Corners = Corners(v1: SphericalCoord, v2: SphericalCoord, v3: SphericalCoord)

  predicate InBounds(t: Triangle, n: nat)
  {
    t.a < n && t.b < n && t.c < n
  }

  /** Every index of every face names one of the first `n` vertices. */
  predicate FacesInBounds(tris: seq<Triangle>, n: nat)
  {
    forall i :: 0 <= i < |tris| ==> InBounds(tris[i], n)
  }

  /**
   * `step` applied to each element of `cs` in order, threading the vertex
   * list through and collecting the triangle of each step.
   */
  function Fold<C(!new)>(step: (seq<SphericalCoord>, C) -> (seq<SphericalCoord>, Triangle), items: seq<SphericalCoord>, cs: seq<C>)
    : (r: Built)
    ensures |r.faces| == |cs|
    decreases |cs|
  {
    if cs == [] then Built(items, [])
    else
      var before := Fold(step, items, cs[..|cs| - 1]);
      var added := step(before.items, cs[|cs| - 1]);
      Built(added.0, before.faces + [added.1])
  }

  /** A step only appends to the list, and its triangle names entries of the grown list. */
  ghost predicate Emits<C(!new)>(step: (seq<SphericalCoord>, C) -> (seq<SphericalCoord>, Triangle))
  {
    forall xs, c :: xs <= step(xs, c).0 && InBounds(step(xs, c).1, |step(xs, c).0|)
  }

  lemma FoldSnoc<C(!new)>(step: (seq<SphericalCoord>, C) -> (seq<SphericalCoord>, Triangle), items: seq<SphericalCoord>, cs: seq<C>, c: C)
    ensures var before := Fold(step, items, cs);
      var added := step(before.items, c);
      Fold(step, items, cs + [c]) == Built(added.0, before.faces + [added.1])
  {
    assert (cs + [c])[..|cs|] == cs;
  }

  lemma PrefixTrans<T>(a: seq<T>, b: seq<T>, c: seq<T>)
    requires a <= b && b <= c
    ensures a <= c
  {
    assert c[..|a|] == c[..|b|][..|a|];
  }

  /** The fold only appends, and every triangle it emits names a vertex it holds. */
  lemma {:induction false} FoldGrows<C(!new)>(step: (seq<SphericalCoord>, C) -> (seq<SphericalCoord>, Triangle), items: seq<SphericalCoord>, cs: seq<C>)
    requires Emits(step)
    ensures items <= Fold(step, items, cs).items
    ensures FacesInBounds(Fold(step, items, cs).faces, |Fold(step, items, cs).items|)
    decreases |cs|
  {
    if cs != [] {
      var before := Fold(step, items, cs[..|cs| - 1]);
      var added := step(before.items, cs[|cs| - 1]);
      FoldGrows(step, items, cs[..|cs| - 1]);
      PrefixTrans(items, before.items, added.0);
    }
  }

  /** Folding over a prefix of `cs` gives a prefix of the triangles and of the vertex list. */
  lemma {:induction false} FoldPrefix<C(!new)>(step: (seq<SphericalCoord>, C) -> (seq<SphericalCoord>, Triangle), items: seq<SphericalCoord>, cs: seq<C>, j: nat)
    requires Emits(step) && j <= |cs|
    ensures Fold(step, items, cs[..j]).faces == Fold(step, items, cs).faces[..j]
    ensures Fold(step, items, cs[..j]).items <= Fold(step, items, cs).items
    decreases |cs|
  {
    if j < |cs| {
      var n := |cs| - 1;
      FoldPrefix(step, items, cs[..n], j);
      assert cs[..n][..j] == cs[..j];
      var mid := Fold(step, items, cs[..n]);
      var r := Fold(step, items, cs);
      assert r.faces[..n] == mid.faces;
      assert r.faces[..j] == mid.faces[..j];
      PrefixTrans(Fold(step, items, cs[..j]).items, mid.items, r.items);
    } else {
      assert cs[..j] == cs;
    }
  }

  /** Triangle `k` is what the `k`-th step returned, and the list that step left is kept. */
  lemma FoldAt<C(!new)>(step: (seq<SphericalCoord>, C) -> (seq<SphericalCoord>, Triangle), items: seq<SphericalCoord>, cs: seq<C>, k: nat)
    requires Emits(step) && k < |cs|
    ensures var added := step(Fold(step, items, cs[..k]).items, cs[k]);
      && Fold(step, items, cs).faces[k] == added.1
      && added.0 <= Fold(step, items, cs).items
  {
    FoldPrefix(step, items, cs, k + 1);
    assert cs[..k + 1][..k] == cs[..k];
    assert Fold(step, items, cs[..k + 1]).faces[k] == Fold(step, items, cs).faces[k];
  }

  /** A fold whose every step keeps a list welded keeps it welded. */
  lemma {:induction false} FoldWelded<C(!new)>(step: (seq<SphericalCoord>, C) -> (seq<SphericalCoord>, Triangle), items: seq<SphericalCoord>, cs: seq<C>)
    requires forall xs, c :: Welded(xs) ==> Welded(step(xs, c).0)
    requires Welded(items)
    ensures Welded(Fold(step, items, cs).items)
    decreases |cs|
  {
    if cs != [] {
      FoldWelded(step, items, cs[..|cs| - 1]);
    }
  }

  /** `add_triangle` on one corner triple. */
  function AddCorners(xs: seq<SphericalCoord>, c: Corners): (seq<SphericalCoord>, Triangle)
  {
    InsertTriangle(xs, c.v1, c.v2, c.v3)
  }

  /** `add_triangle` only appends, names its corners within the list, and keeps the list welded. */
  lemma AddCornersEmits()
    ensures Emits(AddCorners)
    ensures forall xs, c :: Welded(xs) ==> Welded(AddCorners(xs, c).0)
  {
    forall xs, c | Welded(xs)
      ensures Welded(AddCorners(xs, c).0)
    {
      InsertTriangleWelded(xs, c.v1, c.v2, c.v3);
    }
  }

  /** `add_triangle` for each corner triple in turn, collecting the triangles. */
  function AddTriangles(items: seq<SphericalCoord>, cs: seq<Corners>): (r: Built)
    ensures items <= r.items && |r.faces| == |cs|
    ensures FacesInBounds(r.faces, |r.items|)
  {
    AddCornersEmits();
    FoldGrows(AddCorners, items, cs);
    Fold(AddCorners, items, cs)
  }

  /** Each `add_triangle` adds at most three vertices. */
  lemma {:induction false} AddTrianglesGrowth(items: seq<SphericalCoord>, cs: seq<Corners>)
    ensures |AddTriangles(items, cs).items| <= |items| + 3 * |cs|
    decreases |cs|
  {
    if cs != [] {
      AddTrianglesGrowth(items, cs[..|cs| - 1]);
    }
  }

  /** One more `add_triangle` extends the emission by one step. */
  lemma AddTrianglesSnoc(items: seq<SphericalCoord>, cs: seq<Corners>, c: Corners)
    ensures var before := AddTriangles(items, cs);
      var added := InsertTriangle(before.items, c.v1, c.v2, c.v3);
      AddTriangles(items, cs + [c]) == Built(added.0, before.faces + [added.1])
  {
    FoldSnoc(AddCorners, items, cs, c);
  }

  /** Emitting triangles keeps the stored vertices pairwise distinct. */
  lemma AddTrianglesWelded(items: seq<SphericalCoord>, cs: seq<Corners>)
    requires Welded(items)
    ensures Welded(AddTriangles(items, cs).items)
  {
    AddCornersEmits();
    FoldWelded(AddCorners, items, cs);
  }

  /** Triangle `k` holds the indices the finished table hands out for the `k`-th corner triple. */
  lemma AddTrianglesNames(items: seq<SphericalCoord>, cs: seq<Corners>, k: nat)
    requires k < |cs|
    ensures var r := AddTriangles(items, cs);
      && Names(r.items, cs[k].v1, r.faces[k].a)
      && Names(r.items, cs[k].v2, r.faces[k].b)
      && Names(r.items, cs[k].v3, r.faces[k].c)
  {
    AddCornersEmits();
    FoldAt(AddCorners, items, cs, k);
    var before := Fold(AddCorners, items, cs[..k]).items;
    var added := InsertTriangle(before, cs[k].v1, cs[k].v2, cs[k].v3);
    var r := AddTriangles(items, cs);
    InsertTriangleNames(before, cs[k].v1, cs[k].v2, cs[k].v3);
    NamesStable(added.0, r.items, cs[k].v1, added.1.a);
    NamesStable(added.0, r.items, cs[k].v2, added.1.b);
    NamesStable(added.0, r.items, cs[k].v3, added.1.c);
  }
}
