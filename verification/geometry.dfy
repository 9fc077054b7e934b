/**
 Points and the axis-aligned volume (the frustum bounds) that both effects
 live in. Python represents both as plain tuples.
 */
module Geometry {

  /** An `(x, y, z)` tuple; z is depth along the tunnel axis. */
  datatype Point3 = Point3(x: real, y: real, z: real)

  /** The `(min_x, max_x, min_y, max_y, min_z, max_z)` bounds tuple. Nothing in
      the source checks that each minimum is below its maximum. */
  datatype Bounds = Bounds(minX: real, maxX: real, minY: real, maxY: real, minZ: real, maxZ: real)
  {
    function XRange(): real { maxX - minX }
    function YRange(): real { maxY - minY }
    function ZRange(): real { maxZ - minZ }
  }
}
