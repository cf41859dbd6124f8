/** Points in model space and the distance measure the conduit logic compares.
    Revit's `XYZ` holds doubles; here coordinates are exact reals. */
module Geometry {

  /** The conventional Some/None datatype, standing for a reference that may be null. */
  datatype Option<+T> = None | Some(value: T)

  /** An immutable 3D coordinate (Revit `XYZ`). */
  datatype Point = Point(x: real, y: real, z: real)

  function Abs(v: real): (r: real)
    ensures r >= 0.0 && (r == v || r == -v)
  {
    if v < 0.0 then -v else v
  }

  /** The square of `XYZ.DistanceTo`. The square root is monotone, so every
      comparison of two distances has the same outcome on their squares. */
  function SquaredDistance(p: Point, q: Point): real
  {
    (p.x - q.x) * (p.x - q.x) + (p.y - q.y) * (p.y - q.y) + (p.z - q.z) * (p.z - q.z)
  }
}
