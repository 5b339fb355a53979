/**
 * Frames as the filters see them: a height x width grid of blue-green-red
 * pixels with one 8-bit value per channel, stored row by row (the view that
 * `image.reshape(-1, 3)` gives of an OpenCV image).
 */
module Frames {

  /** One channel value of a `uint8` image. */
  type Byte = x: int | 0 <= x < 256

  /** A pixel in OpenCV's channel order: blue, green, red. */
  datatype Pixel = Pixel(b: Byte, g: Byte, r: Byte)

  datatype Frame = Frame(height: nat, width: nat, pixels: seq<Pixel>)

  /** Channel `c` of a pixel, for the three valid channel indices. */
  function Channel(p: Pixel, c: nat): Byte
    requires c < 3
  {
    if c == 0 then p.b else if c == 1 then p.g else p.r
  }

  /** A single grey value repeated on the three channels (`cv.COLOR_GRAY2BGR`). */
  function GreyPixel(v: Byte): Pixel
  {
    Pixel(v, v, v)
  }

  predicate IsGrey(p: Pixel)
  {
    p.b == p.g == p.r
  }

  /** Two frames with the same dimensions and pixel count. */
  predicate SameShape(a: Frame, b: Frame)
  {
    a.height == b.height && a.width == b.width && |a.pixels| == |b.pixels|
  }

  /** Applies a per-pixel operation to every pixel, keeping the dimensions. */
  function MapPixels(f: Frame, op: Pixel -> Pixel): (r: Frame)
    ensures SameShape(f, r)
    ensures forall i :: 0 <= i < |f.pixels| ==> r.pixels[i] == op(f.pixels[i])
  {
    f.(pixels := seq(|f.pixels|, i requires 0 <= i < |f.pixels| => op(f.pixels[i])))
  }
}
