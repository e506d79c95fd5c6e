/**
 * Real-valued stand-ins for the engine's Vector3 and Vector4 value types:
 * only the operations the bending stencil uses (subtraction, cross product,
 * component indexing) are given.
 */
module Vectors {

  datatype Vec3 = Vec3(x: real, y: real, z: real)

  datatype Vec4 = Vec4(x: real, y: real, z: real, w: real)
  {
    /** The indexer `v[i]`: 0 is x, 1 is y, 2 is z, 3 is w. */
    function At(i: int): real
      requires 0 <= i < 4
    {
      if i == 0 then x else if i == 1 then y else if i == 2 then z else w
    }

    /** The sum of the four components. */
    function Sum(): real
    {
      x + y + z + w
    }
  }

  const Zero3: Vec3 := Vec3(0.0, 0.0, 0.0)
  const Zero4: Vec4 := Vec4(0.0, 0.0, 0.0, 0.0)

  /** Component-wise `a - b`. */
  function Sub(a: Vec3, b: Vec3): Vec3
  {
    Vec3(a.x - b.x, a.y - b.y, a.z - b.z)
  }

  /** Component-wise `a + b`. */
  function Add(a: Vec3, b: Vec3): Vec3
  {
    Vec3(a.x + b.x, a.y + b.y, a.z + b.z)
  }

  /** The right-handed cross product `a x b`. */
  function Cross(a: Vec3, b: Vec3): Vec3
  {
    Vec3(a.y * b.z - a.z * b.y, a.z * b.x - a.x * b.z, a.x * b.y - a.y * b.x)
  }

  /** A translation moves both ends of a difference by the same amount. */
  lemma SubTranslated(a: Vec3, b: Vec3, t: Vec3)
    ensures Sub(Add(a, t), Add(b, t)) == Sub(a, b)
  {
  }
}
