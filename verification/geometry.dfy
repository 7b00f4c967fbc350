/** The parts of a Unity transform and rigid body that the scripts read or overwrite. */
module Geometry {

  datatype Vec3 = Vec3(x: real, y: real, z: real)

  /** `Vector3.zero` */
  const Zero := Vec3(0.0, 0.0, 0.0)

  datatype Quat = Quat(x: real, y: real, z: real, w: real)

  /** `Quaternion.identity` */
  const Identity := Quat(0.0, 0.0, 0.0, 1.0)

  /** A vehicle's transform pose together with its rigid-body velocities. */
  datatype Body = Body(position: Vec3, rotation: Quat, velocity: Vec3, angularVelocity: Vec3)
}
