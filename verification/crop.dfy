/**
 * The rectangle `save_new_face` cuts out of the full-resolution frame
 * (main.py, lines 110-120): the detection box scaled back up, widened by a
 * margin on every side, and clamped to the frame.
 */
module Crop {

  import opened Faces
  import Config

  /** Row range [top, bottom) and column range [left, right) of a numpy slice. */
  datatype Rect = Rect(top: int, left: int, bottom: int, right: int)

  /** Pixel (y, x) is inside the slice `frame[top:bottom, left:right]`, for non-negative bounds as detection boxes have. */
  predicate Covers(r: Rect, y: int, x: int) {
    r.top <= y < r.bottom && r.left <= x < r.right
  }

  /** Pixel (y, x) is within the margin-widened, full-resolution box. */
  predicate InWidenedBox(b: Box, y: int, x: int) {
    && b.top * Config.Scale - Config.CropMargin <= y < b.bottom * Config.Scale + Config.CropMargin
    && b.left * Config.Scale - Config.CropMargin <= x < b.right * Config.Scale + Config.CropMargin
  }

  /** The crop of a frame of height `h` and width `w` around box `b`. */
  function CropRect(b: Box, h: nat, w: nat): (r: Rect)
    ensures 0 <= r.top && 0 <= r.left && r.bottom <= h && r.right <= w
    ensures forall y, x :: Covers(r, y, x) <==> 0 <= y < h && 0 <= x < w && InWidenedBox(b, y, x)
  {
    var top := if b.top * Config.Scale - Config.CropMargin < 0 then 0 else b.top * Config.Scale - Config.CropMargin;
    var left := if b.left * Config.Scale - Config.CropMargin < 0 then 0 else b.left * Config.Scale - Config.CropMargin;
    var bottom := if h < b.bottom * Config.Scale + Config.CropMargin then h else b.bottom * Config.Scale + Config.CropMargin;
    var right := if w < b.right * Config.Scale + Config.CropMargin then w else b.right * Config.Scale + Config.CropMargin;
    Rect(top, left, bottom, right)
  }

  /** When the scaled box lies inside the frame, the crop keeps every pixel of it. */
  lemma {:induction false} CropContainsScaledBox(b: Box, h: nat, w: nat, y: int, x: int)
    requires 0 <= b.top * Config.Scale && b.bottom * Config.Scale <= h
    requires 0 <= b.left * Config.Scale && b.right * Config.Scale <= w
    requires b.top * Config.Scale <= y < b.bottom * Config.Scale
    requires b.left * Config.Scale <= x < b.right * Config.Scale
    ensures Covers(CropRect(b, h, w), y, x)
  {
  }

}
