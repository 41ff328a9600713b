/**
 * The state of a `GlobeMesh` as a value: the vertex list, the face list and
 * the level list. The invariant it keeps between calls, the effect of one
 * `subdivide` pass on it, and what `make_globe` leaves.
 */
module Globe {
  import opened Glm
  import opened Coords
  import opened VertexTable
  import opened Emission
  import opened Levels
  import opened Subdivision
  import opened Icosahedron
  import opened Terrain

  datatype MeshState = MeshState(items: seq<SphericalCoord>, faces: seq<Triangle>, levels: seq<SubdivLevel>)

  /**
   * What holds of a mesh between calls: the vertices are pairwise distinct,
   * every face index names a vertex, the levels chain end to start, each
   * level lies within the lists, and the last level ends at the current
   * face and vertex counts (a mesh without levels is empty).
   */
  ghost predicate MeshInvariant(s: MeshState)
  {
    && Welded(s.items)
    && FacesInBounds(s.faces, |s.items|)
    && Chained(s.levels)
    && (forall k :: 0 <= k < |s.levels| ==>
          s.levels[k].offsetBegin <= s.levels[k].offsetEnd <= |s.faces| && s.levels[k].vertexEnd <= |s.items|)
    && (s.levels == [] ==> s.faces == [] && s.items == [])
    && (s.levels != [] ==>
          s.levels[|s.levels| - 1].offsetEnd == |s.faces| && s.levels[|s.levels| - 1].vertexEnd == |s.items|)
  }

  /** The mesh has a last level, and its face range lies within the face list. */
  predicate Framed(s: MeshState)
  {
    s.levels != [] && s.levels[|s.levels| - 1].offsetBegin <= s.levels[|s.levels| - 1].offsetEnd <= |s.faces|
  }

  /** The faces of the last level: the ones the next pass splits. */
  function LastFaces(s: MeshState): (r: seq<Triangle>)
    requires Framed(s)
    ensures |r| == s.levels[|s.levels| - 1].offsetEnd - s.levels[|s.levels| - 1].offsetBegin
    ensures MeshInvariant(s) ==> FacesInBounds(r, |s.items|)
  {
    var last := s.levels[|s.levels| - 1];
    s.faces[last.offsetBegin..last.offsetEnd]
  }

  /**
   * The last level ends at the current face and vertex counts and its faces
   * name stored vertices: what a pass needs of the mesh it extends.
   */
  predicate Closed(s: MeshState)
  {
    && Framed(s)
    && s.levels[|s.levels| - 1].offsetEnd == |s.faces|
    && s.levels[|s.levels| - 1].vertexEnd == |s.items|
    && FacesInBounds(LastFaces(s), |s.items|)
  }

  /** A mesh that keeps the invariant and has a level is closed. */
  lemma InvariantCloses(s: MeshState)
    requires MeshInvariant(s) && s.levels != []
    ensures Closed(s)
  {
  }

  /**
   * What a pass does to a range of parent faces, given the vertex list: the
   * grown list and the new faces. The lemmas about passes below hold for any
   * split with the properties of `Splits`; `SplitOf` is the one `subdivide`
   * performs.
   */
  type Split = (seq<SphericalCoord>, seq<Triangle>) -> Built

  /**
   * A split only appends vertices; on parents whose indices name stored
   * vertices it makes four faces per parent within the grown list and keeps
   * the list welded.
   */
  ghost predicate Splits(split: Split)
  {
    && (forall items, tris {:trigger split(items, tris)} :: items <= split(items, tris).items)
    && (forall items, tris {:trigger split(items, tris)} :: FacesInBounds(tris, |items|) ==>
          && |split(items, tris).faces| == 4 * |tris|
          && FacesInBounds(split(items, tris).faces, |split(items, tris).items|)
          && (Welded(items) ==> Welded(split(items, tris).items)))
  }

  /** The `subdivide` pass over a range of faces whose indices name stored vertices. */
  function SplitOf(m: Maths): (split: Split)
    ensures forall items, tris {:trigger split(items, tris)} :: FacesInBounds(tris, |items|) ==> split(items, tris) == SplitRange(m, items, tris)
  {
    (items, tris) => if FacesInBounds(tris, |items|) then SplitRange(m, items, tris) else Built(items, [])
  }

  /** A `subdivide` pass over a closed mesh, spelled out. */
  lemma PassBySplitRange(m: Maths, s: MeshState, items: seq<SphericalCoord>, faces: seq<Triangle>)
    requires Closed(s)
    requires var r := SplitRange(m, s.items, LastFaces(s)); items == r.items && faces == s.faces + r.faces
    ensures Pass(SplitOf(m), s) == MeshState(items, faces, s.levels + [NextLevel(s.levels, |faces|, |items|)])
  {
  }

  /** The `subdivide` pass has the properties the lemmas about passes rely on. */
  lemma SplitOfSplits(m: Maths)
    ensures Splits(SplitOf(m))
  {
    forall items, tris | FacesInBounds(tris, |items|) && Welded(items)
      ensures Welded(SplitOf(m)(items, tris).items)
    {
      SplitRangeWelded(m, items, tris);
    }
  }

  /** One pass: split the last level's faces, append the children, close a level. */
  function Pass(split: Split, s: MeshState): (r: MeshState)
    requires Framed(s)
    ensures Framed(r) && |r.levels| == |s.levels| + 1
  {
    var grown := split(s.items, LastFaces(s));
    var faces := s.faces + grown.faces;
    MeshState(grown.items, faces, s.levels + [NextLevel(s.levels, |faces|, |grown.items|)])
  }

  /** A pass keeps the mesh invariant. */
  lemma PassKeepsInvariant(split: Split, s: MeshState)
    requires Splits(split) && MeshInvariant(s) && s.levels != []
    ensures MeshInvariant(Pass(split, s))
  {
    var grown := split(s.items, LastFaces(s));
    var r := Pass(split, s);
    NextLevelChains(s.levels, |r.faces|, |r.items|);
    assert forall i :: 0 <= i < |s.faces| ==> r.faces[i] == s.faces[i];
    assert forall i :: 0 <= i < |grown.faces| ==> r.faces[|s.faces| + i] == grown.faces[i];
    assert forall k :: 0 <= k < |s.levels| ==> r.levels[k] == s.levels[k];
  }

  /** `n` passes, one after the other. */
  function Passes(split: Split, s: MeshState, n: nat): (r: MeshState)
    requires Framed(s)
    ensures Framed(r) && |r.levels| == |s.levels| + n
  {
    if n == 0 then s else Pass(split, Passes(split, s, n - 1))
  }

  /** Any number of passes keeps the mesh invariant. */
  lemma {:induction false} PassesKeepInvariant(split: Split, s: MeshState, n: nat)
    requires Splits(split) && MeshInvariant(s) && s.levels != []
    ensures MeshInvariant(Passes(split, s, n))
  {
    if n > 0 {
      PassesKeepInvariant(split, s, n - 1);
      PassKeepsInvariant(split, Passes(split, s, n - 1));
    }
  }

  /** A pass leaves a closed mesh closed. */
  lemma PassKeepsClosed(split: Split, s: MeshState)
    requires Splits(split) && Closed(s)
    ensures Closed(Pass(split, s))
  {
    var grown := split(s.items, LastFaces(s));
    var r := Pass(split, s);
    assert LastFaces(r) == grown.faces;
  }

  /**
   * Level `k` (`k >= 1`) is exactly the split of level `k - 1`: splitting the
   * faces of level `k - 1` with the vertices that existed when it was closed
   * gives the vertices of level `k` and its faces.
   */
  ghost predicate Refined(split: Split, s: MeshState, k: nat)
  {
    0 < k < |s.levels| && LevelRefines(split, s.items, s.faces, s.levels[k - 1], s.levels[k])
  }

  /** Level `cur` holds the vertices and faces `split` makes of the faces of `prev`. */
  ghost predicate LevelRefines(split: Split, items: seq<SphericalCoord>, faces: seq<Triangle>, prev: SubdivLevel, cur: SubdivLevel)
  {
    && prev.offsetBegin <= prev.offsetEnd <= |faces| && prev.vertexEnd <= |items|
    && cur.offsetBegin <= cur.offsetEnd <= |faces| && cur.vertexEnd <= |items|
    && var parents, base := faces[prev.offsetBegin..prev.offsetEnd], items[..prev.vertexEnd];
    && FacesInBounds(parents, |base|)
    && split(base, parents) == Built(items[..cur.vertexEnd], faces[cur.offsetBegin..cur.offsetEnd])
  }

  /** Growing the lists at their ends keeps what was recorded about earlier levels. */
  lemma RefinedGrows(split: Split, s: MeshState, t: MeshState, k: nat)
    requires s.items <= t.items && s.faces <= t.faces && s.levels <= t.levels
    requires Refined(split, s, k)
    ensures Refined(split, t, k)
  {
    var prev, cur := s.levels[k - 1], s.levels[k];
    assert t.levels[k - 1] == prev && t.levels[k] == cur;
    assert t.faces[prev.offsetBegin..prev.offsetEnd] == s.faces[prev.offsetBegin..prev.offsetEnd];
    assert t.faces[cur.offsetBegin..cur.offsetEnd] == s.faces[cur.offsetBegin..cur.offsetEnd];
    assert t.items[..prev.vertexEnd] == s.items[..prev.vertexEnd];
    assert t.items[..cur.vertexEnd] == s.items[..cur.vertexEnd];
  }

  /**
   * A pass appends one level that refines the last one, and leaves every
   * earlier vertex, face and level where it was.
   */
  lemma PassRefines(split: Split, s: MeshState)
    requires Splits(split) && Closed(s)
    ensures var r := Pass(split, s);
      && s.items <= r.items
      && Refined(split, r, |s.levels|)
  {
    var r := Pass(split, s);
    var last := s.levels[|s.levels| - 1];
    var grown := split(s.items, LastFaces(s));
    assert r.levels[|s.levels| - 1] == last;
    assert r.faces[last.offsetBegin..last.offsetEnd] == LastFaces(s);
    assert r.items[..last.vertexEnd] == s.items;
    assert r.items[..|r.items|] == grown.items;
    assert r.faces[|s.faces|..|r.faces|] == grown.faces;
  }

  /** A pass only appends: vertices, faces and levels. */
  lemma PassGrows(split: Split, s: MeshState, r: MeshState)
    requires Splits(split) && Framed(s) && r == Pass(split, s)
    ensures s.items <= r.items && s.faces <= r.faces && s.levels <= r.levels
  {
    assert r.items == split(s.items, LastFaces(s)).items;
  }

  /** A pass keeps every refined level refined. */
  lemma PassKeepsRefined(split: Split, s: MeshState, k: nat, r: MeshState)
    requires Splits(split) && Closed(s) && r == Pass(split, s)
    requires Refined(split, s, k)
    ensures Refined(split, r, k)
  {
    PassGrows(split, s, r);
    RefinedGrows(split, s, r, k);
  }

  /**
   * After `n` passes, `r`, every new level refines the one before it, and
   * nothing that existed before the passes has changed.
   */
  lemma {:induction false} PassesRefine(split: Split, s: MeshState, n: nat, r: MeshState)
    requires Splits(split) && Closed(s)
    requires r == Passes(split, s, n)
    ensures && s.items <= r.items && s.faces <= r.faces && s.levels <= r.levels
      && forall k :: |s.levels| <= k < |r.levels| ==> Refined(split, r, k)
    ensures Closed(r)
  {
    if n > 0 {
      var before := Passes(split, s, n - 1);
      PassesRefine(split, s, n - 1, before);
      assert r == Pass(split, before);
      PassExtendsRefined(split, s, before, r);
    }
  }

  /** One more pass keeps what `PassesRefine` states. */
  lemma PassExtendsRefined(split: Split, s: MeshState, before: MeshState, r: MeshState)
    requires Splits(split) && Closed(s) && Closed(before) && r == Pass(split, before)
    requires s.items <= before.items && s.faces <= before.faces && s.levels <= before.levels
    requires forall k :: |s.levels| <= k < |before.levels| ==> Refined(split, before, k)
    ensures s.items <= r.items && s.faces <= r.faces && s.levels <= r.levels
    ensures forall k :: |s.levels| <= k < |r.levels| ==> Refined(split, r, k)
    ensures Closed(r)
  {
    PassKeepsClosed(split, before);
    PassGrows(split, before, r);
    PrefixTrans(s.items, before.items, r.items);
    PrefixTrans(s.faces, before.faces, r.faces);
    PrefixTrans(s.levels, before.levels, r.levels);
    PassKeepsAllRefined(split, |s.levels|, before, r);
  }

  /** A pass keeps the levels from `from` on refined, the one it adds included. */
  lemma PassKeepsAllRefined(split: Split, from: nat, s: MeshState, r: MeshState)
    requires Splits(split) && Closed(s) && r == Pass(split, s) && 0 < from <= |s.levels|
    requires forall k :: from <= k < |s.levels| ==> Refined(split, s, k)
    ensures forall k :: from <= k < |r.levels| ==> Refined(split, r, k)
  {
    forall k | from <= k < |r.levels|
      ensures Refined(split, r, k)
    {
      if k < |s.levels| {
        PassKeepsRefined(split, s, k, r);
      } else {
        PassRefines(split, s);
      }
    }
  }

  /** One more pass after `n` passes. */
  lemma PassesNext(split: Split, s: MeshState, n: nat, before: MeshState, after: MeshState)
    requires Framed(s) && before == Passes(split, s, n)
    requires after == Pass(split, before)
    ensures after == Passes(split, s, n + 1)
  {
  }

  /**
   * Each pass multiplies the face count of the last level by four; a mesh
   * with `n` levels over the 20 base faces holds `20 * (4^n - 1) / 3` faces.
   */
  lemma FaceTotal(s: MeshState)
    requires MeshInvariant(s) && s.levels != []
    ensures 3 * |s.faces| == BaseFaceCount * (Pow4(|s.levels|) - 1)
    ensures |s.levels| >= 2 ==>
      var cur, prev := s.levels[|s.levels| - 1], s.levels[|s.levels| - 2];
      cur.offsetEnd - cur.offsetBegin == 4 * (prev.offsetEnd - prev.offsetBegin)
  {
    LevelSizes(s.levels, |s.levels| - 1);
    if |s.levels| >= 2 {
      assert Follows(s.levels[|s.levels| - 2], s.levels[|s.levels| - 1]);
    }
  }

  /** The mesh `make_globe` leaves: the base faces and vertices, closed as level 0. */
  function BaseState(m: Maths): MeshState
  {
    var b := BaseMesh(m);
    MeshState(b.items, b.faces, [NextLevel([], |b.faces|, |b.items|)])
  }

  /** The base mesh keeps the invariant and its one level is the faces `[0, 20)`. */
  lemma BaseStateShape(m: Maths)
    ensures var s := BaseState(m);
      && MeshInvariant(s)
      && s.levels == [SubdivLevel(0, BaseFaceCount, |s.items|)]
  {
    var s := BaseState(m);
    BaseMeshShape(m);
    NextLevelChains([], |s.faces|, |s.items|);
  }

  /** Elevation never takes part in welding: replacing it keeps the mesh invariant. */
  lemma ElevationsKeepInvariant(s: MeshState, elevs: seq<real>)
    requires MeshInvariant(s) && |elevs| == |s.items|
    ensures MeshInvariant(s.(items := WithElevations(s.items, elevs)))
  {
    var items := WithElevations(s.items, elevs);
    forall i, j | 0 <= i < j < |items|
      ensures !Equivalent(items[i], items[j])
    {
      assert !Equivalent(s.items[i], s.items[j]);
      EquivalentIsPositionEq(items[i], items[j], s.items[i], s.items[j]);
      EquivalentIsPositionEq(items[j], items[i], s.items[j], s.items[i]);
    }
  }
}
