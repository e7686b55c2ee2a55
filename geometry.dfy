/**
 * The point and circle types the linearizer works with.
 *
 * A position is a coordinate tuple of dimension two or more: x, y, then any auxiliary
 * coordinates (elevation, measure). The circle is the result of the external circle fit.
 */
module Geometry {

  type Position = s: seq<real> | |s| >= 2 witness [0.0, 0.0]

  /** Center (x, y) and radius, as fitted through three positions. */
  datatype Circle = Circle(x: real, y: real, radius: real)
}
