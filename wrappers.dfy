/** Small shared value types: an optional value and the vectors and boxes the scene uses. */
module Wrappers {

  /** An optional value, used where the source has a Swift optional. */
  datatype Option<+T> = None | Some(value: T)
}

module Geometry {

  /** A point or a vector in 3D, with real components (the source's float3 / SCNVector3). */
  datatype Vec3 = Vec3(x: real, y: real, z: real)

  /** An integer-valued 3-vector: simplex cell coordinates and the 0/1 corner offsets. */
  datatype Int3 = Int3(x: int, y: int, z: int)

  /** An axis-aligned bounding box, as SceneKit's geometry.boundingBox gives it. */
  datatype Box = Box(min: Vec3, max: Vec3)

  function Sum(v: Int3): int { v.x + v.y + v.z }

  function Sum3(v: Vec3): real { v.x + v.y + v.z }
}
