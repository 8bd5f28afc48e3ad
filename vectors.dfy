/**
 The three-component vectors the weight-clearing pass works with: vertex
 positions and bone endpoints, all already in world space. Only the operations
 the pass uses are modelled (subtraction, scaling by a scalar, dot product),
 over exact reals.
 */
module Vectors {

  datatype Vec3 = Vec3(x: real, y: real, z: real)

  function Sub(a: Vec3, b: Vec3): Vec3
  {
    Vec3(a.x - b.x, a.y - b.y, a.z - b.z)
  }

  function Scale(a: Vec3, s: real): Vec3
  {
    Vec3(a.x * s, a.y * s, a.z * s)
  }

  function Dot(a: Vec3, b: Vec3): real
  {
    a.x * b.x + a.y * b.y + a.z * b.z
  }

  /** The squared length of a vector, which is never negative. */
  function LengthSquared(a: Vec3): (r: real)
    ensures r >= 0.0
  {
    Dot(a, a)
  }

  /** The dot product distributes over a difference of vectors. */
  lemma DotSub(a: Vec3, b: Vec3, c: Vec3)
    ensures Dot(a, Sub(b, c)) == Dot(a, b) - Dot(a, c)
  {
  }

  /** A scalar factor can be pulled out of the dot product. */
  lemma DotScale(a: Vec3, b: Vec3, s: real)
    ensures Dot(a, Scale(b, s)) == s * Dot(a, b)
  {
  }
}
