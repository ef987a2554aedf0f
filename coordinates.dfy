/** The maps between graph coordinates and canvas pixels
    (`xToPixel`, `yToPixel`, `pixelToX`, `pixelToY`) and the view shift of
    `handlePan`. A division by zero (an empty range or a zero size) gives a
    non-finite number, as it does in JavaScript. */
module Coordinates {
  import opened Numeric

  /** The view bounds and the drawing size in pixels. */
  datatype View = View(xMin: real, xMax: real, yMin: real, yMax: real, width: real, height: real)

  /** `displayWidth || canvas.width`: a zero display size falls back to the
      canvas size. */
  function OrFallback(display: real, canvas: real): (r: real)
    ensures r == display || r == canvas
    ensures r == 0.0 ==> display == 0.0 && canvas == 0.0
  {
    if display != 0.0 then display else canvas
  }

  /** `((x - xMin) / (xMax - xMin)) * width`. */
  function XToPixel(v: View, x: real): Num {
    Mul(Div(Finite(x - v.xMin), Finite(v.xMax - v.xMin)), Finite(v.width))
  }

  /** `height - ((y - yMin) / (yMax - yMin)) * height`: pixel rows grow
      downwards. */
  function YToPixel(v: View, y: real): Num {
    Sub(Finite(v.height), Mul(Div(Finite(y - v.yMin), Finite(v.yMax - v.yMin)), Finite(v.height)))
  }

  /** `xMin + (px / width) * (xMax - xMin)`. */
  function PixelToX(v: View, px: real): Num {
    Add(Finite(v.xMin), Mul(Div(Finite(px), Finite(v.width)), Finite(v.xMax - v.xMin)))
  }

  /** `yMin + ((height - py) / height) * (yMax - yMin)`. */
  function PixelToY(v: View, py: real): Num {
    Add(Finite(v.yMin), Mul(Div(Finite(v.height - py), Finite(v.height)), Finite(v.yMax - v.yMin)))
  }

  /** On finite operands with a nonzero divisor, `(a / b) * c` is the
      real-number value. */
  lemma ScaledQuotient(a: real, b: real, c: real)
    requires b != 0.0
    ensures Mul(Div(Finite(a), Finite(b)), Finite(c)) == Finite(a / b * c)
  {
    assert Div(Finite(a), Finite(b)) == Finite(a / b);
    assert Mul(Finite(a / b), Finite(c)) == Finite(a / b * c);
  }

  /** `xToPixel` on a nonempty x range is the real-number formula. */
  lemma XToPixelValue(v: View, x: real)
    requires v.xMax != v.xMin
    ensures XToPixel(v, x) == Finite((x - v.xMin) / (v.xMax - v.xMin) * v.width)
  {
    ScaledQuotient(x - v.xMin, v.xMax - v.xMin, v.width);
  }

  /** `yToPixel` on a nonempty y range is the real-number formula. */
  lemma YToPixelValue(v: View, y: real)
    requires v.yMax != v.yMin
    ensures YToPixel(v, y) == Finite(v.height - (y - v.yMin) / (v.yMax - v.yMin) * v.height)
  {
    var p := (y - v.yMin) / (v.yMax - v.yMin) * v.height;
    ScaledQuotient(y - v.yMin, v.yMax - v.yMin, v.height);
    FiniteArithmetic(Finite(v.height), Finite(p));
  }

  /** `pixelToX` at a nonzero width is the real-number formula. */
  lemma PixelToXValue(v: View, px: real)
    requires v.width != 0.0
    ensures PixelToX(v, px) == Finite(v.xMin + px / v.width * (v.xMax - v.xMin))
  {
    var d := px / v.width * (v.xMax - v.xMin);
    ScaledQuotient(px, v.width, v.xMax - v.xMin);
    FiniteArithmetic(Finite(v.xMin), Finite(d));
  }

  /** `pixelToY` at a nonzero height is the real-number formula. */
  lemma PixelToYValue(v: View, py: real)
    requires v.height != 0.0
    ensures PixelToY(v, py) == Finite(v.yMin + (v.height - py) / v.height * (v.yMax - v.yMin))
  {
    var d := (v.height - py) / v.height * (v.yMax - v.yMin);
    ScaledQuotient(v.height - py, v.height, v.yMax - v.yMin);
    FiniteArithmetic(Finite(v.yMin), Finite(d));
  }

  /** Dividing and then multiplying by the same nonzero number. */
  lemma DivMulCancel(a: real, b: real)
    requires b != 0.0
    ensures a / b * b == a
  {
  }

  /** Multiplying and then dividing by the same nonzero number. */
  lemma MulDivCancel(a: real, b: real)
    requires b != 0.0
    ensures a * b / b == a
  {
  }

  /** A quotient of a sum `t == a + b` splits. */
  lemma DivSplit(a: real, b: real, t: real, c: real)
    requires c != 0.0 && t == a + b
    ensures t / c == a / c + b / c
  {
  }

  /** A product of a sum `t == a + b` splits. */
  lemma MulSplit(a: real, b: real, t: real, r: real)
    requires t == a + b
    ensures t * r == a * r + b * r
  {
  }

  /** Negation moves out of a product and a quotient. */
  lemma NegOut(a: real, r: real, c: real)
    requires c != 0.0
    ensures (-a) * r == -(a * r) && (-a) / c == -(a / c)
  {
  }

  lemma XToPixelAndBack(v: View, x: real)
    requires v.xMax != v.xMin && v.width != 0.0
    ensures XToPixel(v, x).Finite? && PixelToX(v, XToPixel(v, x).r) == Finite(x)
  {
    var R, W := v.xMax - v.xMin, v.width;
    var f := (x - v.xMin) / R;
    var p := f * W;
    XToPixelValue(v, x);
    PixelToXValue(v, p);
    MulDivCancel(f, W);
    DivMulCancel(x - v.xMin, R);
  }

  lemma PixelToXAndBack(v: View, px: real)
    requires v.xMax != v.xMin && v.width != 0.0
    ensures PixelToX(v, px).Finite? && XToPixel(v, PixelToX(v, px).r) == Finite(px)
  {
    var R, W := v.xMax - v.xMin, v.width;
    var g := px / W;
    var x := v.xMin + g * R;
    PixelToXValue(v, px);
    XToPixelValue(v, x);
    assert x - v.xMin == g * R;
    MulDivCancel(g, R);
    DivMulCancel(px, W);
  }

  /** Graph to pixel and back is the identity on x, in both directions,
      when the x range and the width are nonzero. */
  lemma XRoundTrip(v: View, x: real, px: real)
    requires v.xMax != v.xMin && v.width != 0.0
    ensures XToPixel(v, x).Finite? && PixelToX(v, XToPixel(v, x).r) == Finite(x)
    ensures PixelToX(v, px).Finite? && XToPixel(v, PixelToX(v, px).r) == Finite(px)
  {
    XToPixelAndBack(v, x);
    PixelToXAndBack(v, px);
  }

  lemma YToPixelAndBack(v: View, y: real)
    requires v.yMax != v.yMin && v.height != 0.0
    ensures YToPixel(v, y).Finite? && PixelToY(v, YToPixel(v, y).r) == Finite(y)
  {
    var R, H := v.yMax - v.yMin, v.height;
    var f := (y - v.yMin) / R;
    var p := H - f * H;
    YToPixelValue(v, y);
    PixelToYValue(v, p);
    assert H - p == f * H;
    MulDivCancel(f, H);
    DivMulCancel(y - v.yMin, R);
  }

  lemma PixelToYAndBack(v: View, py: real)
    requires v.yMax != v.yMin && v.height != 0.0
    ensures PixelToY(v, py).Finite? && YToPixel(v, PixelToY(v, py).r) == Finite(py)
  {
    var R, H := v.yMax - v.yMin, v.height;
    var g := (H - py) / H;
    var y := v.yMin + g * R;
    PixelToYValue(v, py);
    YToPixelValue(v, y);
    assert y - v.yMin == g * R;
    MulDivCancel(g, R);
    DivMulCancel(H - py, H);
  }

  /** The same for y. */
  lemma YRoundTrip(v: View, y: real, py: real)
    requires v.yMax != v.yMin && v.height != 0.0
    ensures YToPixel(v, y).Finite? && PixelToY(v, YToPixel(v, y).r) == Finite(y)
    ensures PixelToY(v, py).Finite? && YToPixel(v, PixelToY(v, py).r) == Finite(py)
  {
    YToPixelAndBack(v, y);
    PixelToYAndBack(v, py);
  }

  /** The view's corners go to the canvas's corners: `xMin` to the left
      edge, `xMax` to the right, `yMax` to the top row, `yMin` to the
      bottom. */
  lemma Corners(v: View)
    requires v.xMax != v.xMin && v.yMax != v.yMin
    ensures XToPixel(v, v.xMin) == Finite(0.0) && XToPixel(v, v.xMax) == Finite(v.width)
    ensures YToPixel(v, v.yMax) == Finite(0.0) && YToPixel(v, v.yMin) == Finite(v.height)
  {
    XToPixelValue(v, v.xMin);
    XToPixelValue(v, v.xMax);
    YToPixelValue(v, v.yMax);
    YToPixelValue(v, v.yMin);
    DivMulCancel(v.xMax - v.xMin, v.xMax - v.xMin);
    DivMulCancel(v.yMax - v.yMin, v.yMax - v.yMin);
  }

  /** An empty range or a zero size gives no finite pixel or coordinate. */
  lemma Degenerate(v: View, x: real, px: real)
    ensures v.xMax == v.xMin ==> !XToPixel(v, x).Finite?
    ensures v.xMax == v.xMin && x == v.xMin ==> XToPixel(v, x) == NaN
    ensures v.width == 0.0 ==> !PixelToX(v, px).Finite?
  {
  }

  /** Larger x lies further right; larger y lies higher up, at a smaller
      pixel row. */
  lemma Monotone(v: View, a: real, b: real)
    requires v.xMin < v.xMax && v.yMin < v.yMax && v.width > 0.0 && v.height > 0.0 && a < b
    ensures XToPixel(v, a).r < XToPixel(v, b).r
    ensures YToPixel(v, a).r > YToPixel(v, b).r
  {
    XToPixelValue(v, a);
    XToPixelValue(v, b);
    YToPixelValue(v, a);
    YToPixelValue(v, b);
    var R := v.xMax - v.xMin;
    assert (a - v.xMin) / R < (b - v.xMin) / R;
    var S := v.yMax - v.yMin;
    assert (a - v.yMin) / S < (b - v.yMin) / S;
  }

  /** `handlePan`'s new bounds after the pointer moved by `dx, dy` pixels:
      both x bounds move by `-(dx / width) * xRange`, both y bounds by
      `(dy / height) * yRange`. */
  function Pan(v: View, dx: real, dy: real): (r: View)
    requires v.width != 0.0 && v.height != 0.0
    ensures r.width == v.width && r.height == v.height
  {
    var xShift := -(dx / v.width) * (v.xMax - v.xMin);
    var yShift := (dy / v.height) * (v.yMax - v.yMin);
    v.(xMin := v.xMin + xShift, xMax := v.xMax + xShift, yMin := v.yMin + yShift, yMax := v.yMax + yShift)
  }

  /** Panning keeps both ranges. */
  lemma PanKeepsRanges(v: View, dx: real, dy: real)
    requires v.width != 0.0 && v.height != 0.0
    ensures Pan(v, dx, dy).xMax - Pan(v, dx, dy).xMin == v.xMax - v.xMin
    ensures Pan(v, dx, dy).yMax - Pan(v, dx, dy).yMin == v.yMax - v.yMin
  {
  }

  /** The real arithmetic of a horizontal pan: with both x bounds shifted
      by `-(dx / W) * R`, the moved pixel's share of the range, added to
      the new `xMin`, is the old coordinate. */
  lemma PanXArith(u0: real, u1: real, v0: real, v1: real, W: real, px: real, dx: real)
    requires W != 0.0
    requires u0 == v0 + -(dx / W) * (v1 - v0) && u1 == v1 + -(dx / W) * (v1 - v0)
    ensures u0 + (px + dx) / W * (u1 - u0) == v0 + px / W * (v1 - v0)
  {
    var R, a, b := v1 - v0, px / W, dx / W;
    assert u1 - u0 == R;
    DivSplit(px, dx, px + dx, W);
    MulSplit(a, b, a + b, R);
    NegOut(b, R, W);
  }

  /** The real arithmetic of a vertical pan, with both y bounds shifted by
      `(dy / H) * S`. */
  lemma PanYArith(u0: real, u1: real, v0: real, v1: real, H: real, py: real, dy: real)
    requires H != 0.0
    requires u0 == v0 + dy / H * (v1 - v0) && u1 == v1 + dy / H * (v1 - v0)
    ensures u0 + (H - (py + dy)) / H * (u1 - u0) == v0 + (H - py) / H * (v1 - v0)
  {
    var S, a, b := v1 - v0, (H - py) / H, dy / H;
    assert u1 - u0 == S;
    DivSplit(H - py, -dy, H - (py + dy), H);
    NegOut(dy, S, H);
    MulSplit(a, -b, a + -b, S);
    NegOut(b, S, H);
  }

  lemma PanGrabbedX(v: View, dx: real, dy: real, px: real)
    requires v.width != 0.0 && v.height != 0.0
    ensures PixelToX(Pan(v, dx, dy), px + dx) == PixelToX(v, px)
  {
    var u := Pan(v, dx, dy);
    PixelToXValue(u, px + dx);
    PixelToXValue(v, px);
    PanXArith(u.xMin, u.xMax, v.xMin, v.xMax, v.width, px, dx);
  }

  lemma PanGrabbedY(v: View, dx: real, dy: real, py: real)
    requires v.width != 0.0 && v.height != 0.0
    ensures PixelToY(Pan(v, dx, dy), py + dy) == PixelToY(v, py)
  {
    var u := Pan(v, dx, dy);
    PixelToYValue(u, py + dy);
    PixelToYValue(v, py);
    PanYArith(u.yMin, u.yMax, v.yMin, v.yMax, v.height, py, dy);
  }

  /** The view follows the pointer: the graph point that was under pixel
      `(px, py)` is under `(px + dx, py + dy)` after the pan. */
  lemma PanKeepsGrabbedPoint(v: View, dx: real, dy: real, px: real, py: real)
    requires v.width != 0.0 && v.height != 0.0
    ensures PixelToX(Pan(v, dx, dy), px + dx) == PixelToX(v, px)
    ensures PixelToY(Pan(v, dx, dy), py + dy) == PixelToY(v, py)
  {
    PanGrabbedX(v, dx, dy, px);
    PanGrabbedY(v, dx, dy, py);
  }
}
