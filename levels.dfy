/**
 * `GlobeMesh::SubdivLevel` and the level list `mark_subdiv` builds: each
 * level records the half-open range of faces it added and the vertex count
 * when it was closed.
 */
module Levels {

  /** Faces of the icosahedron `make_globe` starts from: 5 wedges of 4 triangles. */
  const BaseFaceCount: nat := 20

  /** `SubdivLevel`: the level's faces are `[offsetBegin, offsetEnd)`, its vertices `[0, vertexEnd)`. */
  datatype SubdivLevel = SubdivLevel(offsetBegin: nat, offsetEnd: nat, vertexEnd: nat)
  {
    function Faces(): (nat, nat)
    {
      (offsetBegin, offsetEnd)
    }

    function VertexBounds(): (nat, nat)
    {
      (0, vertexEnd)
    }
  }

  function Pow4(n: nat): (p: nat)
    ensures p >= 1
  {
    if n == 0 then 1 else 4 * Pow4(n - 1)
  }

  function Max(a: int, b: int): int
  {
    if a < b then b else a
  }

  /** `cur` is the level one pass after `prev`: it starts where `prev` ends and holds four times its faces. */
  predicate Follows(prev: SubdivLevel, cur: SubdivLevel)
  {
    && cur.offsetBegin == prev.offsetEnd
    && cur.offsetEnd == cur.offsetBegin + 4 * (prev.offsetEnd - prev.offsetBegin)
    && prev.vertexEnd <= cur.vertexEnd
  }

  /** Level 0 holds the 20 base faces and every later level follows the one before. */
  predicate Chained(levels: seq<SubdivLevel>)
  {
    && (|levels| > 0 ==> levels[0].offsetBegin == 0 && levels[0].offsetEnd == BaseFaceCount)
    && (forall k :: 0 <= k < |levels| - 1 ==> Follows(levels[k], levels[k + 1]))
  }

  /** What `mark_subdiv` appends: begin at the previous level's end (0 if none), end at the face count. */
  function NextLevel(levels: seq<SubdivLevel>, faceCount: nat, vertexCount: nat): SubdivLevel
  {
    SubdivLevel(if levels == [] then 0 else levels[|levels| - 1].offsetEnd, faceCount, vertexCount)
  }

  /**
   * Closing a level after a pass that added four faces per face of the last
   * level, without losing vertices, keeps the level list chained; closing the
   * first level after the 20 base faces starts the chain.
   */
  lemma NextLevelChains(levels: seq<SubdivLevel>, faceCount: nat, vertexCount: nat)
    requires Chained(levels)
    requires levels == [] ==> faceCount == BaseFaceCount
    requires levels != [] ==>
      var last := levels[|levels| - 1];
      faceCount == last.offsetEnd + 4 * (last.offsetEnd - last.offsetBegin) && last.vertexEnd <= vertexCount
    ensures Chained(levels + [NextLevel(levels, faceCount, vertexCount)])
    ensures NextLevel(levels, faceCount, vertexCount).offsetEnd == faceCount
  {
    var grown := levels + [NextLevel(levels, faceCount, vertexCount)];
    assert forall k :: 0 <= k < |levels| ==> grown[k] == levels[k];
  }

  /**
   * Level `k` holds `20 * 4^k` faces and ends after `20 * (4^(k+1) - 1) / 3`
   * faces in all: the running total of the geometric series.
   */
  lemma {:induction false} LevelSizes(levels: seq<SubdivLevel>, k: nat)
    requires Chained(levels) && k < |levels|
    ensures levels[k].offsetEnd - levels[k].offsetBegin == BaseFaceCount * Pow4(k)
    ensures 3 * levels[k].offsetEnd == BaseFaceCount * (Pow4(k + 1) - 1)
  {
    if k > 0 {
      LevelSizes(levels, k - 1);
      assert Follows(levels[k - 1], levels[k]);
    }
  }

  /** The first three levels: faces `[0, 20)`, `[20, 100)` and `[100, 420)`. */
  lemma ThreeLevels(levels: seq<SubdivLevel>)
    requires Chained(levels) && |levels| == 3
    ensures levels[0].Faces() == (0, 20)
    ensures levels[1].Faces() == (20, 100)
    ensures levels[2].Faces() == (100, 420)
  {
    assert Follows(levels[0], levels[1]);
    assert Follows(levels[1], levels[2]);
  }
}
