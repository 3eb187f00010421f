/** Small value types shared by the scene graph and the world. */
module Basics {

  /** A nullable reference: `None` is a null pointer. */
  datatype Option<+T> = None | Some(value: T)

  /** A three-component DirectX vector (XMVECTOR / XMFLOAT3), over exact reals. */
  datatype Vec3 = Vec3(x: real, y: real, z: real)

  /** `v *= -1`: every component changes sign. */
  function Negate(v: Vec3): Vec3
  {
    Vec3(-v.x, -v.y, -v.z)
  }
}
