/** Value types shared by both feature layers: engine-space vectors, map
    points in a spatial reference, and an optional value. */
module Geometry {

  datatype Option<+T> = None | Some(value: T)

  /** An engine-space position (Unity's Vector3), with y the vertical axis. */
  datatype Vec3 = Vec3(x: real, y: real, z: real)

  /** A map point (ArcGISPoint): x and y in the units of the spatial
      reference named by its well-known id, z the elevation. */
  datatype GeoPoint = GeoPoint(x: real, y: real, z: real, wkid: int)

  /** Well-known id of WGS 84 geographic coordinates (EPSG:4326). */
  const Wgs84: int := 4326

  /** The position `v` moved by `dy` along the vertical axis. */
  function Lift(v: Vec3, dy: real): (r: Vec3)
    ensures r.x == v.x && r.z == v.z && r.y - v.y == dy
  {
    v.(y := v.y + dy)
  }

  /** Every position of `ring`, in order, moved by `dy` along the vertical axis. */
  function LiftRing(ring: seq<Vec3>, dy: real): (r: seq<Vec3>)
    ensures |r| == |ring|
    ensures forall i :: 0 <= i < |r| ==> r[i] == Lift(ring[i], dy)
  {
    seq(|ring|, i requires 0 <= i < |ring| => Lift(ring[i], dy))
  }
}
