/** `transform_point`: the validity guards around the rigid transform into
    the "map" frame. The transform itself is a foreign call and is a
    parameter here. */
module Transforming {
  import opened Wrappers
  import opened Geometry

  datatype Quaternion = Quaternion(x: Float64, y: Float64, z: Float64, w: Float64)

  /** A looked-up transform into the "map" frame; `stamp` in nanoseconds. */
  datatype Transform = Transform(stamp: int, translation: Vec, rotation: Quaternion)

  /** `do_transform_point`: rotate by the quaternion, then translate. `None`
      stands for an exception raised by the call, which is caught and turned
      into "no point". */
  type RigidMap = (Transform, Vec) -> Option<Vec>

  /** All seven translation and rotation components are finite. */
  function IsFiniteTransform(t: Transform): (finite: bool)
    ensures finite <==> IsValidPoint(t.translation)
                        && !exists c :: c in [t.rotation.x, t.rotation.y, t.rotation.z, t.rotation.w]
                                        && (c.NaN? || c.Infinity?)
  {
    && t.translation.x.Finite? && t.translation.y.Finite? && t.translation.z.Finite?
    && t.rotation.x.Finite? && t.rotation.y.Finite? && t.rotation.z.Finite? && t.rotation.w.Finite?
  }

  /** The point in the target frame, or `None` when there is no transform,
      when the transform holds a NaN or infinite component, or when the
      foreign call fails. */
  function TransformPoint(p: Vec, transform: Option<Transform>, apply: RigidMap): (r: Option<Vec>)
    ensures transform.None? ==> r.None?
    ensures transform.Some? && !IsFiniteTransform(transform.value) ==> r.None?
    ensures transform.Some? && IsFiniteTransform(transform.value) ==> r == apply(transform.value, p)
  {
    match transform
    case None => None
    case Some(t) =>
      if !IsValidPoint(t.translation) then None
      else if exists c :: c in [t.rotation.x, t.rotation.y, t.rotation.z, t.rotation.w]
                          && (c.NaN? || c.Infinity?) then None
      else apply(t, p)
  }
}
