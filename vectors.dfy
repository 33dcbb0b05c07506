/** Three-component vectors with exact real arithmetic, standing in for three.js `Vector3`. */
module Vectors {

  datatype Vec3 = Vec3(x: real, y: real, z: real)

  function Add(a: Vec3, b: Vec3): Vec3
  {
    Vec3(a.x + b.x, a.y + b.y, a.z + b.z)
  }

  function Scale(a: Vec3, k: real): Vec3
  {
    Vec3(a.x * k, a.y * k, a.z * k)
  }

  /** `Vector3.cross`: the right-handed cross product a × b. */
  function Cross(a: Vec3, b: Vec3): Vec3
  {
    Vec3(a.y * b.z - a.z * b.y, a.z * b.x - a.x * b.z, a.x * b.y - a.y * b.x)
  }

  /** `Vector3.addScaledVector(v, k)`: the point a + k·v. */
  function AddScaled(a: Vec3, v: Vec3, k: real): Vec3
  {
    Add(a, Scale(v, k))
  }
}
