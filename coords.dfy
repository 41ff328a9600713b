/**
 * `SphericalCoord`, the vertex of the globe: latitude/longitude, the unit
 * position derived from them (or the other way round), and an elevation that
 * never takes part in comparisons.
 */
module Coords {
  import opened Glm
  import opened Tolerance

  /** `std::numbers::pi_v<float>`: the float nearest pi. */
  const Pi: real := 13176795.0 / 4194304.0

  datatype SphericalCoord = SphericalCoord(uv: Vec2, pos: Vec3, elev: real)

  /**
   * `SphericalCoord(lat, lon, r)`: the position comes from `euclidean`.
   * The longitude wrap is dead code after an early return in the source, so
   * the longitude is kept as given.
   */
  function FromLatLon(m: Maths, lat: real, lon: real, r: real := 1.0): SphericalCoord
  {
    var uv := Vec2(lat, lon);
    SphericalCoord(uv, m.euclidean(uv), r)
  }

  /** `SphericalCoord(const vec3 &p, r)`: lat/lon from `polar`, position normalised. */
  function FromPos(m: Maths, p: Vec3, r: real := 1.0): SphericalCoord
  {
    SphericalCoord(m.polar(p), m.normalize(p), r)
  }

  /** `operator<`: the tolerant vector order on positions only. */
  predicate Less(a: SphericalCoord, b: SphericalCoord)
  {
    LtVec(a.pos, b.pos)
  }

  /** The equivalence `std::map` derives from `operator<`: neither key is less. */
  predicate Equivalent(a: SphericalCoord, b: SphericalCoord)
  {
    !Less(a, b) && !Less(b, a)
  }

  /** `operator+` and `operator-` act on positions and yield plain vectors. */
  function Plus(a: SphericalCoord, b: SphericalCoord): Vec3
  {
    Add(a.pos, b.pos)
  }

  function Minus(a: SphericalCoord, b: SphericalCoord): Vec3
  {
    Sub(a.pos, b.pos)
  }

  /**
   * The vertex `subdivide` welds between `a` and `b`: `(a + b) / 2`, converted
   * back through the position constructor.
   */
  function Midpoint(m: Maths, a: SphericalCoord, b: SphericalCoord): SphericalCoord
  {
    FromPos(m, Div(Plus(a, b), 2.0))
  }

  /**
   * Key equivalence is the tolerant vector equality of positions; latitude,
   * longitude and elevation play no part.
   */
  lemma EquivalentIsPositionEq(a: SphericalCoord, b: SphericalCoord, a': SphericalCoord, b': SphericalCoord)
    ensures Equivalent(a, b) <==> EqVec(a.pos, b.pos)
    ensures a.pos == a'.pos && b.pos == b'.pos ==> (Less(a, b) <==> Less(a', b'))
    ensures Equivalent(a, a)
    ensures Equivalent(a, b) <==> Equivalent(b, a)
  {
    VecOrderLaws(a.pos, b.pos);
  }
}
