/**
 * Box arithmetic of the detector (calculate_bbox): a box given by its centre
 * and size, in frame pixels, becomes a rectangle anchored at its top-left
 * corner. Rust's `i32 / 2` truncates toward zero, whereas Dafny's `/` is
 * Euclidean, so the halving is written out.
 */
module Geometry {
  /** OpenCV's Rect: top-left corner and size, in pixels. */
  datatype Rect = Rect(x: int, y: int, width: int, height: int)

  /** `a / 2` on Rust integers: the remainder takes the sign of `a`. */
  function HalfTowardZero(a: int): (q: int)
    ensures a >= 0 ==> 0 <= q && 0 <= a - 2 * q <= 1
    ensures a < 0 ==> q <= 0 && -1 <= a - 2 * q <= 0
  {
    if a >= 0 then a / 2 else -((-a) / 2)
  }

  /** The `as i32` cast of a float: truncation toward zero (without saturation). */
  function TruncateReal(v: real): (n: int)
    ensures v >= 0.0 ==> 0 <= n && n as real <= v < n as real + 1.0
    ensures v < 0.0 ==> n <= 0 && n as real - 1.0 < v <= n as real
  {
    if v >= 0.0 then v.Floor else -((-v).Floor)
  }

  /**
   * The span that starts at `lo` and has length `len` is centred on `c` the way
   * truncating halving centres it: `c - lo` is `len / 2` rounded toward zero,
   * so for an odd length the extra pixel lies after the centre.
   */
  predicate SpanCentredOn(lo: int, len: int, c: int) {
    var before, after := c - lo, lo + len - c;
    if len >= 0 then 0 <= before <= after <= before + 1
    else after <= before <= 0 && before <= after + 1
  }

  /** calculate_bbox on the already scaled and truncated centre and size. */
  function CalculateBbox(cx: int, cy: int, w: int, h: int): (r: Rect)
    ensures r.width == w && r.height == h
    ensures SpanCentredOn(r.x, w, cx) && SpanCentredOn(r.y, h, cy)
  {
    Rect(cx - HalfTowardZero(w), cy - HalfTowardZero(h), w, h)
  }

  /** A span centred on `c` is determined by its length. */
  lemma SpanCentredOnUnique(lo1: int, lo2: int, len: int, c: int)
    requires SpanCentredOn(lo1, len, c) && SpanCentredOn(lo2, len, c)
    ensures lo1 == lo2
  {
  }

  /** A row fraction of the input resolution scaled to frame pixels, then cast to an integer. */
  function ScaleToPixels(frac: real, dim: int): int {
    TruncateReal(frac * dim as real)
  }

  /**
   * The whole of calculate_bbox: row[0..4] are centre and size as fractions of
   * the frame, scaled to its pixels and truncated before the corner is placed.
   */
  function DecodeBox(row: seq<real>, frameW: int, frameH: int): (r: Rect)
    requires |row| >= 4
    ensures r.width == ScaleToPixels(row[2], frameW) && r.height == ScaleToPixels(row[3], frameH)
    ensures SpanCentredOn(r.x, r.width, ScaleToPixels(row[0], frameW))
    ensures SpanCentredOn(r.y, r.height, ScaleToPixels(row[1], frameH))
  {
    CalculateBbox(ScaleToPixels(row[0], frameW), ScaleToPixels(row[1], frameH),
                  ScaleToPixels(row[2], frameW), ScaleToPixels(row[3], frameH))
  }

  /** A box of a fifth of a 416-pixel frame, centred in it: centre 208, size 83, corner 167. */
  lemma DecodeCentredFifth()
    ensures DecodeBox([0.5, 0.5, 0.2, 0.2], 416, 416) == Rect(167, 167, 83, 83)
  {
  }
}
