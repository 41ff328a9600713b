/**
 * `VertexList`: the deduplicating vertex table. Each key is welded to the
 * first entry it is tolerance-equivalent to; a key with no equivalent entry is
 * appended, so the index handed out for a vertex is its position in the
 * insertion-ordered list (cast to 32 bits).
 */
module VertexTable {
  import opened Machine
  import opened Options
  import opened Tolerance
  import opened Coords

  /** `Triangle` (`glm::u32vec3`): three vertex indices in winding order. */
  datatype Triangle = Triangle(a: U32, b: U32, c: U32)

  /** The table after an `add`: the list, and the position of the key's entry in it. */
  datatype Added = Added(items: seq<SphericalCoord>, at: nat)

  /** No two entries of the list are equivalent keys: every stored vertex is distinct. */
  ghost predicate Welded(items: seq<SphericalCoord>)
  {
    forall i, j {:trigger Equivalent(items[i], items[j])} :: 0 <= i < j < |items| ==> !Equivalent(items[i], items[j])
  }

  /** The entry the map finds for `key`: the first equivalent one, if any. */
  function Find(items: seq<SphericalCoord>, key: SphericalCoord): (r: Option<nat>)
    ensures r.Some? ==> r.value < |items| && Equivalent(items[r.value], key)
    ensures r.Some? ==> forall j {:trigger Equivalent(items[j], key)} :: 0 <= j < r.value ==> !Equivalent(items[j], key)
    ensures r.None? ==> forall j {:trigger Equivalent(items[j], key)} :: 0 <= j < |items| ==> !Equivalent(items[j], key)
    decreases |items|
  {
    if items == [] then None
    else if Equivalent(items[0], key) then Some(0)
    else match Find(items[1..], key)
      case None => None
      case Some(p) => Some(p + 1)
  }

  /** `idx` is the index the table hands out for `key`: its entry's position, cast to 32 bits. */
  ghost predicate Names(items: seq<SphericalCoord>, key: SphericalCoord, idx: U32)
  {
    Find(items, key).Some? && idx == ToU32(Find(items, key).value)
  }

  /** The effect of `add` on the list: weld to an existing entry or append. */
  function Insert(items: seq<SphericalCoord>, key: SphericalCoord): (r: Added)
    ensures r.items == items || r.items == items + [key]
    ensures r.at < |r.items|
    ensures r.items != items ==> r.at == |items|
  {
    match Find(items, key)
    case Some(p) => Added(items, p)
    case None => Added(items + [key], |items|)
  }

  /**
   * After `add`, looking the key up finds the entry whose position was
   * returned; the list grew exactly when no equivalent entry was stored.
   */
  lemma InsertFinds(items: seq<SphericalCoord>, key: SphericalCoord)
    ensures var r := Insert(items, key);
      && Find(r.items, key) == Some(r.at)
      && Equivalent(r.items[r.at], key)
      && (r.items == items <==> Find(items, key).Some?)
  {
    var r := Insert(items, key);
    if Find(items, key).None? {
      EquivalentIsPositionEq(key, key, key, key);
      assert r.items[|items|] == key;
    }
  }

  /** `add` keeps the stored vertices pairwise distinct. */
  lemma InsertWelded(items: seq<SphericalCoord>, key: SphericalCoord)
    requires Welded(items)
    ensures Welded(Insert(items, key).items)
  {
  }

  /**
   * Adding more vertices never changes the entry an existing key is welded to:
   * every index the table has handed out stays valid.
   */
  lemma FindStable(items: seq<SphericalCoord>, more: seq<SphericalCoord>, key: SphericalCoord)
    requires Find(items, key).Some?
    ensures Find(items + more, key) == Find(items, key)
  {
    var p := Find(items, key).value;
    assert forall j :: 0 <= j <= p ==> (items + more)[j] == items[j];
  }

  /** Adding a vertex a second time returns the same index and leaves the list as it was. */
  lemma InsertIdempotent(items: seq<SphericalCoord>, key: SphericalCoord)
    ensures Insert(Insert(items, key).items, key) == Insert(items, key)
  {
    InsertFinds(items, key);
  }

  /** The index a key is named by survives any growth of the list. */
  lemma NamesStable(items: seq<SphericalCoord>, grown: seq<SphericalCoord>, key: SphericalCoord, idx: U32)
    requires items <= grown
    requires Names(items, key, idx)
    ensures Names(grown, key, idx)
  {
    assert grown == items + grown[|items|..];
    FindStable(items, grown[|items|..], key);
  }

  /** The effect of `add_triangle`: three `add`s in argument order, their indices packed. */
  function InsertTriangle(items: seq<SphericalCoord>, v1: SphericalCoord, v2: SphericalCoord, v3: SphericalCoord)
    : (r: (seq<SphericalCoord>, Triangle))
    ensures items <= r.0 && |r.0| <= |items| + 3
    ensures r.1.a < |r.0| && r.1.b < |r.0| && r.1.c < |r.0|
  {
    var r1 := Insert(items, v1);
    var r2 := Insert(r1.items, v2);
    var r3 := Insert(r2.items, v3);
    (r3.items, Triangle(ToU32(r1.at), ToU32(r2.at), ToU32(r3.at)))
  }

  /** Each index of the packed triangle names its own argument in the final table. */
  lemma InsertTriangleNames(items: seq<SphericalCoord>, v1: SphericalCoord, v2: SphericalCoord, v3: SphericalCoord)
    ensures var r := InsertTriangle(items, v1, v2, v3);
      Names(r.0, v1, r.1.a) && Names(r.0, v2, r.1.b) && Names(r.0, v3, r.1.c)
  {
    var r1 := Insert(items, v1);
    var r2 := Insert(r1.items, v2);
    var r3 := Insert(r2.items, v3);
    InsertFinds(items, v1);
    InsertFinds(r1.items, v2);
    InsertFinds(r2.items, v3);
    NamesStable(r1.items, r3.items, v1, ToU32(r1.at));
    NamesStable(r2.items, r3.items, v2, ToU32(r2.at));
  }

  /** `add_triangle` keeps the table welded. */
  lemma InsertTriangleWelded(items: seq<SphericalCoord>, v1: SphericalCoord, v2: SphericalCoord, v3: SphericalCoord)
    requires Welded(items)
    ensures Welded(InsertTriangle(items, v1, v2, v3).0)
  {
    var r1 := Insert(items, v1);
    var r2 := Insert(r1.items, v2);
    InsertWelded(items, v1);
    InsertWelded(r1.items, v2);
    InsertWelded(r2.items, v3);
  }

  /** The only vertices `add_triangle` can append are its three arguments. */
  lemma InsertTriangleAddsOnlyCorners(items: seq<SphericalCoord>, v1: SphericalCoord, v2: SphericalCoord, v3: SphericalCoord)
    ensures var s := InsertTriangle(items, v1, v2, v3).0;
      forall i :: |items| <= i < |s| ==> s[i] in [v1, v2, v3]
  {
    var r1 := Insert(items, v1);
    var r2 := Insert(r1.items, v2);
    var r3 := Insert(r2.items, v3);
    assert forall i :: |items| <= i < |r1.items| ==> r1.items[i] == v1;
    assert forall i :: |items| <= i < |r2.items| ==> r2.items[i] in [v1, v2];
  }

  class VertexList {
    /** `indices`: the vertices in insertion order. */
    var items: seq<SphericalCoord>

    constructor ()
      ensures items == []
    {
      items := [];
    }

    /**
     * `add`: an equivalent stored vertex keeps its index and the list is
     * unchanged; otherwise the vertex is appended and gets the new last index.
     */
    method Add(vertex: SphericalCoord) returns (index: U32)
      modifies this
      ensures var r := Insert(old(items), vertex); items == r.items && index == ToU32(r.at)
      ensures Names(items, vertex, index)
      ensures Welded(old(items)) ==> Welded(items)
    {
      InsertFinds(items, vertex);
      if Welded(items) {
        InsertWelded(items, vertex);
      }
      var found := Find(items, vertex);
      match found {
        case Some(p) =>
          index := ToU32(p);
        case None =>
          items := items + [vertex];
          // `(uint32_t)indices.size() - 1` is evaluated in 32-bit unsigned arithmetic
          index := (ToU32(|items|) + U32Limit - 1) % U32Limit;
          ToU32Decrement(|items|);
      }
    }

    /** `add_triangle`: the three `add` results, in argument order. */
    method AddTriangle(v1: SphericalCoord, v2: SphericalCoord, v3: SphericalCoord) returns (t: Triangle)
      modifies this
      ensures (items, t) == InsertTriangle(old(items), v1, v2, v3)
      ensures Names(items, v1, t.a) && Names(items, v2, t.b) && Names(items, v3, t.c)
    {
      var a := Add(v1);
      var b := Add(v2);
      var c := Add(v3);
      t := Triangle(a, b, c);
      InsertTriangleNames(old(items), v1, v2, v3);
    }
  }
}
