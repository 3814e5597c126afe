/**
 * The vocabulary shared by the components: boxes as returned by face
 * detection, face embeddings, stored identities and box centres.
 */
module Faces {

  /** A face embedding; the model never looks inside one. */
  type Encoding = seq<real>

  /** A face location in scaled-frame pixels, in detection order (top, right, bottom, left). */
  datatype Box = Box(top: int, right: int, bottom: int, left: int)

  /** One detected face of a sampled frame: its location and its embedding. */
  datatype Detection = Detection(box: Box, encoding: Encoding)

  /** A stored identity: a display name and the embedding it was enrolled with. */
  datatype Identity = Identity(name: string, encoding: Encoding)

  /** A point of the scaled frame; centres of boxes may be half-integers. */
  datatype Point = Point(x: real, y: real)

  /** The key of the largest-box selection: (bottom - top) * (right - left). */
  function Area(b: Box): (r: int)
    ensures b.top <= b.bottom && b.left <= b.right ==> r >= 0
  {
    (b.bottom - b.top) * (b.right - b.left)
  }

  /** Centre of a box, computed with true division as Python 3 does. */
  function Center(b: Box): (r: Point)
    ensures b.left <= b.right ==> b.left as real <= r.x <= b.right as real
    ensures b.top <= b.bottom ==> b.top as real <= r.y <= b.bottom as real
  {
    Point((b.left + b.right) as real / 2.0, (b.top + b.bottom) as real / 2.0)
  }

  /** Squared Euclidean distance; comparing it with a squared threshold avoids the square root. */
  function DistSq(p: Point, q: Point): real {
    (p.x - q.x) * (p.x - q.x) + (p.y - q.y) * (p.y - q.y)
  }

  /** The locations of a list of detections, in order. */
  function Boxes(dets: seq<Detection>): (r: seq<Box>)
    ensures |r| == |dets|
    ensures forall i :: 0 <= i < |dets| ==> r[i] == dets[i].box
  {
    seq(|dets|, i requires 0 <= i < |dets| => dets[i].box)
  }

}
