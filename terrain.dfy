/**
 * Terrain sampling: the 43200 x 86400 grid of `int16_t` samples a terrain
 * file holds after its 128-byte header, the mapping from a vertex's latitude
 * and longitude to a grid cell (`map_uv`, `index_of`), and the elevations the
 * two loaders assign.
 */
module Terrain {
  import opened Machine
  import opened Glm
  import opened Coords

  /** The grid: 43200 rows of latitude by 86400 columns of longitude. */
  const TerrainRows: nat := 43200
  const TerrainCols: nat := 86400
  /** Bytes before the grid in a terrain file (octal 0200). */
  const TerrainHeader: nat := 0x80
  /** Bytes of the grid (`sizeof(lat_row) * 43200`): two per sample. */
  const GridBytes: nat := 2 * TerrainCols * TerrainRows

  /** A latitude `map_uv` can place: within `[-pi/2, pi/2]`. */
  predicate LatInRange(lat: real)
  {
    -Pi / 2.0 <= lat <= Pi / 2.0
  }

  predicate LatsInRange(items: seq<SphericalCoord>)
  {
    forall i :: 0 <= i < |items| ==> LatInRange(items[i].uv.x)
  }

  /**
   * `map_uv`: latitude and longitude scaled to `[0, 1]`, for latitudes in
   * `[-pi/2, pi/2]` and longitudes in `[-pi, pi]`; the poles land on the ends.
   */
  function MapUv(uv: Vec2): (r: Vec2)
    ensures LatInRange(uv.x) ==> 0.0 <= r.x <= 1.0
    ensures -Pi <= uv.y <= Pi ==> 0.0 <= r.y <= 1.0
    ensures uv.x == Pi / 2.0 ==> r.x == 1.0
    ensures uv.x == -Pi / 2.0 ==> r.x == 0.0
  {
    Vec2(uv.x / Pi + 0.5, uv.y / (Pi * 2.0) + 0.5)
  }

  /**
   * `index_of`: `v * max - 1`, truncated to an index when positive and 0
   * otherwise; for `v` in `[0, 1]` it never reaches `max`.
   */
  function IndexOf(v: real, max: nat): (r: nat)
    ensures v * max as real - 1.0 <= 0.0 ==> r == 0
    ensures v * max as real - 1.0 > 0.0 ==> r as real <= v * max as real - 1.0 < r as real + 1.0
    ensures 0.0 <= v <= 1.0 && max > 0 ==> r < max
  {
    var idx := v * max as real - 1.0;
    if idx > 0.0 then idx.Floor else 0
  }

  /** Scaling by a non-negative factor keeps the order. */
  lemma ScaleMonotone(v: real, w: real, c: real)
    requires v <= w && 0.0 <= c
    ensures v * c <= w * c
  {
    var d := w - v;
    assert d * c >= 0.0;
    assert w * c == v * c + d * c;
  }

  /** A larger coordinate never maps to an earlier row or column. */
  lemma IndexOfMonotone(v: real, w: real, max: nat)
    requires v <= w
    ensures IndexOf(v, max) <= IndexOf(w, max)
  {
    var mr := max as real;
    ScaleMonotone(v, w, mr);
    TruncMonotone(v * mr - 1.0, w * mr - 1.0);
  }

  /** The truncation `index_of` applies keeps the order. */
  lemma TruncMonotone(a: real, b: real)
    requires a <= b
    ensures (if a > 0.0 then a.Floor else 0) <= (if b > 0.0 then b.Floor else 0)
  {
  }

  /** The ends of the range: `1` maps to the last row or column, `0` to the first. */
  lemma IndexOfEnds()
    ensures IndexOf(1.0, TerrainRows) == TerrainRows - 1
    ensures IndexOf(1.0, TerrainCols) == TerrainCols - 1
    ensures IndexOf(0.0, TerrainRows) == 0
    ensures IndexOf(0.5, TerrainCols) == TerrainCols / 2 - 1
  {
  }

  /**
   * The row and column `map_elevations` computes for a vertex, as written:
   * the longitude goes to `map_uv` unchanged. Only longitudes in `[-pi, pi]`
   * are sure to land inside a row.
   */
  function SourceCell(uv: Vec2): (rc: (nat, nat))
    ensures LatInRange(uv.x) ==> rc.0 < TerrainRows
    ensures -Pi <= uv.y <= Pi ==> rc.1 < TerrainCols
  {
    var st := MapUv(uv);
    (IndexOf(st.x, TerrainRows), IndexOf(st.y, TerrainCols))
  }

  /**
   * A longitude brought into `(-pi, pi]` by whole turns, the range `map_uv`
   * is documented for. The source has no such step: this is the correction
   * `Cell` applies to the longitudes past pi that `make_globe` stores.
   */
  function WrapLon(lon: real): (r: real)
    ensures -Pi < r <= Pi
    ensures -Pi < lon <= Pi ==> r == lon
    ensures var turns := (r - lon) / (2.0 * Pi); turns.Floor as real == turns
  {
    var turns := (Pi - lon) / (2.0 * Pi);
    lon + 2.0 * Pi * turns.Floor as real
  }

  /** The cell a vertex is sampled from: its longitude wrapped, then mapped. */
  function Cell(uv: Vec2): (rc: (nat, nat))
    requires LatInRange(uv.x)
    ensures rc.0 < TerrainRows && rc.1 < TerrainCols
  {
    SourceCell(Vec2(uv.x, WrapLon(uv.y)))
  }

  /** Wrapping changes nothing for longitudes already in `(-pi, pi]`. */
  lemma CellAgreesInRange(uv: Vec2)
    requires LatInRange(uv.x) && -Pi < uv.y <= Pi
    ensures Cell(uv) == SourceCell(uv)
  {
  }

  /** A grid as `map_elevations` indexes it: `data[lat][lon]`. */
  predicate IsGrid(grid: seq<seq<Int16>>)
  {
    |grid| == TerrainRows && forall r :: 0 <= r < TerrainRows ==> |grid[r]| == TerrainCols
  }

  /**
   * The grid a terrain file holds: little-endian `int16_t` samples after the
   * header, row after row, so sample `(row, col)` sits at
   * `header + 2 * (row * 86400 + col)`.
   */
  function DecodeGrid(bytes: seq<Byte>): (grid: seq<seq<Int16>>)
    requires |bytes| == TerrainHeader + GridBytes
    ensures IsGrid(grid)
    ensures forall row, col :: 0 <= row < TerrainRows && 0 <= col < TerrainCols ==>
      grid[row][col] == AsInt16(LeU16(bytes, TerrainHeader + 2 * (row * TerrainCols + col)))
  {
    seq(TerrainRows, row requires 0 <= row < TerrainRows => DecodeRow(bytes, row))
  }

  /** Row `row` of the grid a terrain file holds. */
  function DecodeRow(bytes: seq<Byte>, row: nat): (r: seq<Int16>)
    requires |bytes| == TerrainHeader + GridBytes && row < TerrainRows
    ensures |r| == TerrainCols
  {
    seq<Int16>(TerrainCols, col requires 0 <= col < TerrainCols =>
      AsInt16(LeU16(bytes, TerrainHeader + 2 * (row * TerrainCols + col))))
  }

  /** The vertices with their elevations replaced, one value per vertex, in order. */
  function WithElevations(items: seq<SphericalCoord>, elevs: seq<real>): (r: seq<SphericalCoord>)
    requires |elevs| == |items|
    ensures |r| == |items|
    ensures forall i :: 0 <= i < |r| ==> r[i].uv == items[i].uv && r[i].pos == items[i].pos && r[i].elev == elevs[i]
  {
    seq(|items|, i requires 0 <= i < |items| => items[i].(elev := elevs[i]))
  }

  /** The elevations `map_elevations` assigns: the sample of each vertex's cell. */
  function GridElevations(items: seq<SphericalCoord>, grid: seq<seq<Int16>>): (elevs: seq<real>)
    requires IsGrid(grid) && LatsInRange(items)
    ensures |elevs| == |items|
    ensures forall i :: 0 <= i < |items| ==>
      var rc := Cell(items[i].uv);
      elevs[i] == grid[rc.0][rc.1] as real
  {
    seq(|items|, i requires 0 <= i < |items| => var rc := Cell(items[i].uv); grid[rc.0][rc.1] as real)
  }

  /** The elevations `load_elevations` assigns: the `i`-th `float` of the file for vertex `i`. */
  function FileElevations(m: Maths, bytes: seq<Byte>, n: nat): (elevs: seq<real>)
    requires |bytes| == 4 * n
    ensures |elevs| == n
    ensures forall i :: 0 <= i < n ==> elevs[i] == m.floatOfBits(LeU32(bytes, 4 * i))
  {
    seq(n, i requires 0 <= i < n => m.floatOfBits(LeU32(bytes, 4 * i)))
  }
}
