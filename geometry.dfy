/** Box geometry of the overlay drawn by components/WebcamFeed.tsx: the mirror
    flip used over the live video and the letterbox transform used over an
    uploaded image. Coordinates are exact reals. */
module Geometry {

  /** A detector bounding box: top-left corner and size, in pixels. */
  datatype Box = Box(x: real, y: real, width: real, height: real)

  /** The fixed height of the display region for an uploaded image. */
  const MAX_HEIGHT: real := 480.0

  /** The box lies within the horizontal band [0, w]. */
  predicate InsideWidth(b: Box, w: real) {
    0.0 <= b.x && b.width >= 0.0 && b.x + b.width <= w
  }

  /** The box lies within the rectangle [left, left + w] x [top, top + h]. */
  predicate InsideRect(b: Box, left: real, top: real, w: real, h: real) {
    left <= b.x && b.width >= 0.0 && b.x + b.width <= left + w &&
    top <= b.y && b.height >= 0.0 && b.y + b.height <= top + h
  }

  // ---------------------------------------------------------------------
  // Mirror flip over the selfie-view video

  /** The box as drawn over video mirrored inside a canvas of width `canvasWidth`. */
  function Flip(canvasWidth: real, b: Box): (r: Box)
    ensures r.y == b.y && r.width == b.width && r.height == b.height
    ensures r.x + r.width == canvasWidth - b.x
  {
    b.(x := canvasWidth - b.x - b.width)
  }

  /** Flipping twice gives back the original box. */
  lemma FlipInvolutive(canvasWidth: real, b: Box)
    ensures Flip(canvasWidth, Flip(canvasWidth, b)) == b
  {
  }

  /** A box inside [0, W] stays inside [0, W] when flipped. */
  lemma FlipInside(canvasWidth: real, b: Box)
    ensures InsideWidth(b, canvasWidth) <==> InsideWidth(Flip(canvasWidth, b), canvasWidth)
  {
  }

  // ---------------------------------------------------------------------
  // Letterbox fit of an uploaded image

  /** How an image of natural size is drawn: displayed size, centring
      offsets and the scale from natural to displayed pixels. */
  datatype Placement = Placement(
    drawWidth: real, drawHeight: real,
    offsetX: real, offsetY: real,
    scaleX: real, scaleY: real)

  /** The displayed size: fill the width, and fall back to filling the height
      when the full-width image would be taller than `maxH`. */
  function Fit(naturalW: real, naturalH: real, maxW: real, maxH: real): (r: (real, real))
    requires naturalW > 0.0 && naturalH > 0.0 && maxW >= 0.0 && maxH >= 0.0
    ensures 0.0 <= r.0 <= maxW && 0.0 <= r.1 <= maxH
    ensures r.0 * naturalH == r.1 * naturalW
    ensures r.0 == maxW || r.1 == maxH
    ensures maxW > 0.0 && maxH > 0.0 ==> r.0 > 0.0 && r.1 > 0.0
    ensures maxW * naturalH <= maxH * naturalW ==> r.0 == maxW
    ensures maxW * naturalH > maxH * naturalW ==> r.1 == maxH && r.0 < maxW
    ensures maxW * naturalH < maxH * naturalW ==> r.0 == maxW && r.1 < maxH
  {
    var ar := naturalW / naturalH;
    var dh := maxW / ar;
    assert dh * naturalW == maxW * naturalH;
    if dh > maxH then
      var dw := maxH * ar;
      assert dw * naturalH == maxH * naturalW;
      assert maxH * naturalW < maxW * naturalH by {
        assert dh * naturalW > maxH * naturalW;
      }
      assert dw < maxW by {
        assert dw * naturalH < maxW * naturalH;
      }
      (dw, maxH)
    else
      assert maxW * naturalH <= maxH * naturalW by {
        assert dh * naturalW <= maxH * naturalW;
      }
      assert maxW * naturalH < maxH * naturalW ==> dh < maxH by {
        if maxW * naturalH < maxH * naturalW {
          assert dh * naturalW < maxH * naturalW;
        }
      }
      (maxW, dh)
  }

  /** The letterbox placement of a `naturalW` x `naturalH` image in a display
      region `maxW` wide and MAX_HEIGHT high. */
  function Letterbox(naturalW: real, naturalH: real, maxW: real): (p: Placement)
    requires naturalW > 0.0 && naturalH > 0.0 && maxW >= 0.0
    ensures 0.0 <= p.drawWidth <= maxW && 0.0 <= p.drawHeight <= MAX_HEIGHT
    ensures p.drawWidth == maxW || p.drawHeight == MAX_HEIGHT
    ensures p.drawWidth * naturalH == p.drawHeight * naturalW
    ensures maxW > 0.0 ==> p.drawWidth > 0.0 && p.drawHeight > 0.0
    ensures p.offsetX >= 0.0 && 2.0 * p.offsetX + p.drawWidth == maxW
    ensures p.offsetY >= 0.0 && 2.0 * p.offsetY + p.drawHeight == MAX_HEIGHT
    ensures p.scaleX == p.scaleY >= 0.0
    ensures p.scaleX * naturalW == p.drawWidth && p.scaleY * naturalH == p.drawHeight
  {
    var (dw, dh) := Fit(naturalW, naturalH, maxW, MAX_HEIGHT);
    var sx := dw / naturalW;
    var sy := dh / naturalH;
    assert sx == sy by {
      assert dw * naturalH == dh * naturalW;
    }
    Placement(dw, dh, (maxW - dw) / 2.0, (MAX_HEIGHT - dh) / 2.0, sx, sy)
  }

  /** A detector box in natural image pixels, mapped onto the canvas. */
  function ScaleBox(p: Placement, b: Box): Box {
    Box(p.offsetX + b.x * p.scaleX, p.offsetY + b.y * p.scaleY,
        b.width * p.scaleX, b.height * p.scaleY)
  }

  /** The inverse of ScaleBox: a canvas box back in natural image pixels. */
  function UnscaleBox(p: Placement, b: Box): Box
    requires p.scaleX > 0.0 && p.scaleY > 0.0
  {
    Box((b.x - p.offsetX) / p.scaleX, (b.y - p.offsetY) / p.scaleY,
        b.width / p.scaleX, b.height / p.scaleY)
  }

  /** Mapping a box onto the canvas loses nothing when the scale is positive. */
  lemma UnscaleScaleBox(p: Placement, b: Box)
    requires p.scaleX > 0.0 && p.scaleY > 0.0
    ensures UnscaleBox(p, ScaleBox(p, b)) == b
  {
  }

  /** Scaling by a non-negative factor keeps an interval inside a scaled one. */
  lemma ScaleIntervalInside(x: real, w: real, n: real, s: real)
    requires 0.0 <= x && 0.0 <= w && x + w <= n && s >= 0.0
    ensures 0.0 <= x * s && 0.0 <= w * s && x * s + w * s <= n * s
  {
    assert x * s + w * s == (x + w) * s;
    assert (x + w) * s <= n * s by {
      assert (n - (x + w)) * s >= 0.0;
    }
  }

  /** A box inside the natural image maps inside the drawn image rectangle. */
  lemma ScaleBoxInside(naturalW: real, naturalH: real, maxW: real, b: Box)
    requires naturalW > 0.0 && naturalH > 0.0 && maxW >= 0.0
    requires InsideRect(b, 0.0, 0.0, naturalW, naturalH)
    ensures var p := Letterbox(naturalW, naturalH, maxW);
            InsideRect(ScaleBox(p, b), p.offsetX, p.offsetY, p.drawWidth, p.drawHeight)
  {
    var p := Letterbox(naturalW, naturalH, maxW);
    ScaleIntervalInside(b.x, b.width, naturalW, p.scaleX);
    ScaleIntervalInside(b.y, b.height, naturalH, p.scaleY);
  }
}
