/** The vector types that cross module boundaries. Floating-point values are
    modelled as reals; rounding is not modelled. */
module Geometry {
  datatype Vec2 = Vec2(x: real, y: real)
  datatype Vec3 = Vec3(x: real, y: real, z: real)
  datatype Vec4 = Vec4(x: real, y: real, z: real, w: real)

  const VEC3_ZERO := Vec3(0.0, 0.0, 0.0)

  /** The projection that drops `z`. */
  function DropZ(p: Vec3): Vec2
  {
    Vec2(p.x, p.y)
  }

  /** The points an evaluate command hands to the compute pipeline. */
  function ProjectXY(points: seq<Vec3>): (r: seq<Vec2>)
    ensures |r| == |points|
    ensures forall k :: 0 <= k < |points| ==> r[k] == Vec2(points[k].x, points[k].y)
  {
    if points == [] then [] else ProjectXY(points[..|points| - 1]) + [DropZ(points[|points| - 1])]
  }

  /** The loop that builds the query points one by one, dropping `z`. */
  method ToGpuPoints(points: seq<Vec3>) returns (gpuPoints: seq<Vec2>)
    ensures gpuPoints == ProjectXY(points)
    ensures |gpuPoints| == |points|
  {
    gpuPoints := [];
    for i := 0 to |points|
      invariant gpuPoints == ProjectXY(points[..i])
    {
      assert points[..i + 1][..i] == points[..i];
      gpuPoints := gpuPoints + [DropZ(points[i])];
    }
    assert points[..|points|] == points;
  }
}
