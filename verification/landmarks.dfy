/** Landmark points as delivered by the external detector, in frame-normalised coordinates.
    Image coordinates grow to the right (x) and downwards (y). */
module Landmarks {

  datatype Point = Point(x: real, y: real)
}
