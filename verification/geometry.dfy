/** Value types shared by the layout: natural image sizes, placement
    rectangles, and the two integer operations the layout is built from
    (scaling one side to a fixed length and centring on the canvas), both
    with the truncating division of the C++ `int` conversions. */
module Geometry {

  /** The natural (unscaled) pixel dimensions of an image, as the texture
      query reports them. */
  datatype Size = Size(width: nat, height: nat)

  /** An axis-aligned placement rectangle in canvas pixels (an `SDL_Rect`). */
  datatype Rect = Rect(x: int, y: int, w: int, h: int)
  {
    /** First column to the right of the rectangle. */
    function Right(): int { x + w }

    /** First row below the rectangle. */
    function Bottom(): int { y + h }
  }

  /** Division rounding toward zero, as C++ `/` on `int` and the `(int)` cast
      of a quotient do; Dafny's own `/` rounds toward negative infinity. */
  function TruncDiv(a: int, b: int): (q: int)
    requires b > 0
    ensures a >= 0 ==> 0 <= a - q * b < b
    ensures a < 0 ==> -b < a - q * b <= 0
    ensures a >= 0 ==> q >= 0
  {
    if a >= 0 then a / b else -((-a) / b)
  }

  /** The x at which an item of width `itemWidth` is drawn so that it is
      centred on a canvas of width `canvasWidth`: `(canvasWidth - itemWidth)/2`
      in C++ integer arithmetic. */
  function CenterX(canvasWidth: int, itemWidth: int): (x: int)
    ensures CentredIn(Rect(x, 0, itemWidth, 0), canvasWidth)
  {
    TruncDiv(canvasWidth - itemWidth, 2)
  }

  /** The margins left and right of `r` differ by at most one pixel. When `r`
      fits, any odd pixel goes to the right margin; when it is wider than the
      canvas (both margins negative), truncation toward zero puts it on the
      left. This pins `r.x` to a single value for each width. */
  predicate CentredIn(r: Rect, canvasWidth: int)
  {
    var left := r.x;
    var right := canvasWidth - r.Right();
    if r.w <= canvasWidth then 0 <= right - left <= 1
    else -1 <= right - left <= 0
  }

  /** Scales `s` to height `target`, keeping its aspect ratio: the width is
      `(int)((float)s.width * target / s.height)`, taken here in exact
      arithmetic. */
  function ScaleToHeight(s: Size, target: nat): (r: Size)
    requires s.height > 0
    ensures r.height == target
    ensures r.width * s.height <= s.width * target < (r.width + 1) * s.height
  {
    Size(TruncDiv(s.width * target, s.height), target)
  }

  /** Scales `s` to width `target`, keeping its aspect ratio: the height is
      `(int)((float)s.height * target / s.width)`. */
  function ScaleToWidth(s: Size, target: nat): (r: Size)
    requires s.width > 0
    ensures r.width == target
    ensures r.height * s.width <= s.height * target < (r.height + 1) * s.width
  {
    Size(target, TruncDiv(s.height * target, s.width))
  }

  /** Any x other than the one `CenterX` picks is not centred: the centring
      predicate has exactly one solution per width. */
  lemma CentredUnique(r: Rect, canvasWidth: int)
    requires CentredIn(r, canvasWidth)
    ensures r.x == CenterX(canvasWidth, r.w)
  {
    var c := CenterX(canvasWidth, r.w);
    assert CentredIn(Rect(c, 0, r.w, 0), canvasWidth);
  }
}
