/**
 * The tolerant comparison the vertex table is keyed by: a scalar strict
 * order that ignores differences up to a few machine epsilons, its
 * lexicographic lift to three-component vectors, and the equality both
 * induce.
 */
module Tolerance {
  import opened Glm

  /** `std::numeric_limits<float>::epsilon()`, that is 2^-23. */
  const FloatEpsilon: real := 1.0 / 8388608.0

  /** `Tiny<T, N>`: the margin below which two values are not ordered. */
  function Tiny(n: nat): real
  {
    FloatEpsilon * n as real
  }

  /** `less_than<T, N>`: `rhs` exceeds `lhs` by more than N epsilons. */
  predicate LessThan(n: nat, lhs: real, rhs: real)
  {
    Tiny(n) < rhs - lhs
  }

  /** `lt` on scalars: the 3-epsilon instance of `less_than`. */
  predicate Lt(lhs: real, rhs: real)
  {
    LessThan(3, lhs, rhs)
  }

  /** `lt<glm::vec3>`: x decides, then y, then z, each with the scalar `lt`. */
  predicate LtVec(lhs: Vec3, rhs: Vec3)
  {
    if Lt(lhs.x, rhs.x) then true
    else if Lt(rhs.x, lhs.x) then false
    else if Lt(lhs.y, rhs.y) then true
    else if Lt(rhs.y, lhs.y) then false
    else Lt(lhs.z, rhs.z)
  }

  /** `eq` on scalars: neither is less than the other. */
  predicate Eq(lhs: real, rhs: real)
  {
    !Lt(lhs, rhs) && !Lt(rhs, lhs)
  }

  /** `eq` on vectors, built from the vector `lt`. */
  predicate EqVec(lhs: Vec3, rhs: Vec3)
  {
    !LtVec(lhs, rhs) && !LtVec(rhs, lhs)
  }

  /** The scalar `lt` is a strict order with a 3-epsilon dead band; `eq` is the band. */
  lemma ScalarOrderLaws(a: real, b: real, c: real)
    ensures Lt(a, b) <==> b - a > 3.0 * FloatEpsilon
    ensures !Lt(a, a)
    ensures Lt(a, b) ==> !Lt(b, a)
    ensures Lt(a, b) && Lt(b, c) ==> Lt(a, c)
    ensures Eq(a, a)
    ensures Eq(a, b) <==> Eq(b, a)
    ensures Eq(a, b) <==> -3.0 * FloatEpsilon <= a - b <= 3.0 * FloatEpsilon
  {
  }

  /** Tolerant equality is not transitive: 0 ~ 2e and 2e ~ 4e, but 0 and 4e are ordered. */
  lemma EqNotTransitive()
    ensures Eq(0.0, 2.0 * FloatEpsilon) && Eq(2.0 * FloatEpsilon, 4.0 * FloatEpsilon)
    ensures !Eq(0.0, 4.0 * FloatEpsilon) && Lt(0.0, 4.0 * FloatEpsilon)
  {
  }

  /** The vector order is lexicographic, decided by the first component that is not tolerance-equal. */
  lemma VecLexicographic(l: Vec3, r: Vec3)
    ensures LtVec(l, r) <==>
      || Lt(l.x, r.x)
      || (Eq(l.x, r.x) && Lt(l.y, r.y))
      || (Eq(l.x, r.x) && Eq(l.y, r.y) && Lt(l.z, r.z))
  {
  }

  /** Vector equality holds exactly when every component is tolerance-equal. */
  lemma VecEqComponentwise(l: Vec3, r: Vec3)
    ensures EqVec(l, r) <==> Eq(l.x, r.x) && Eq(l.y, r.y) && Eq(l.z, r.z)
  {
  }

  /**
   * The vector `lt` is not transitive: three vectors, each less than the
   * next, with the last less than the first.
   */
  lemma VecLtCycle()
    ensures var a, b, c := Vec3(4.0 * FloatEpsilon, 0.0, 0.0), Vec3(2.0 * FloatEpsilon, 10.0, 0.0), Vec3(0.0, 20.0, 0.0);
      LtVec(a, b) && LtVec(b, c) && LtVec(c, a)
  {
  }

  /** The vector `lt` is irreflexive and asymmetric; vector `eq` is reflexive and symmetric. */
  lemma VecOrderLaws(l: Vec3, r: Vec3)
    ensures !LtVec(l, l)
    ensures LtVec(l, r) ==> !LtVec(r, l)
    ensures EqVec(l, l)
    ensures EqVec(l, r) <==> EqVec(r, l)
  {
  }
}
