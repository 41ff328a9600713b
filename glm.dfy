/**
 * The slice of GLM the globe uses: two- and three-component vectors with
 * component-wise arithmetic on reals, and the floating-point collaborators
 * whose definitions are not part of this model, bundled as one record.
 */
module Glm {

  datatype Vec2 = Vec2(x: real, y: real)

  datatype Vec3 = Vec3(x: real, y: real, z: real)

  function Add(a: Vec3, b: Vec3): Vec3
  {
    Vec3(a.x + b.x, a.y + b.y, a.z + b.z)
  }

  function Sub(a: Vec3, b: Vec3): Vec3
  {
    Vec3(a.x - b.x, a.y - b.y, a.z - b.z)
  }

  function Div(v: Vec3, d: real): Vec3
    requires d != 0.0
  {
    Vec3(v.x / d, v.y / d, v.z / d)
  }

  /**
   * Functions the source takes from GLM, <cmath> and the hardware:
   * `euclidean` (lat/lon to a unit position), `polar` (position to lat/lon),
   * `normalize`, `atan`, and the `float` value of a 32-bit pattern.
   * The model makes no assumption about any of them.
   */
  datatype Maths = Maths(
    euclidean: Vec2 -> Vec3,
    polar: Vec3 -> Vec2,
    normalize: Vec3 -> Vec3,
    atan: real -> real,
    floatOfBits: nat -> real)
}
