/**
 * The filters of filters.py that are plain integer arithmetic on the bytes of
 * a frame, and the kernel-size coercion of `gaussian_blur`.
 */
module PixelFilters {
  import opened Wrappers
  import opened Frames
  import opened Bits

  /**
   * The channel mean of one pixel truncated to an integer: numpy's
   * `mean(-1).astype(np.uint8)` on three bytes, whose mean is never negative.
   */
  function Mean(p: Pixel): (m: Byte)
    ensures 3 * m <= p.b + p.g + p.r < 3 * m + 3
  {
    (p.b + p.g + p.r) / 3
  }

  function MinChannel(p: Pixel): Byte
  {
    if p.b <= p.g && p.b <= p.r then p.b else if p.g <= p.r then p.g else p.r
  }

  function MaxChannel(p: Pixel): Byte
  {
    if p.b >= p.g && p.b >= p.r then p.b else if p.g >= p.r then p.g else p.r
  }

  /** The truncated mean lies between the smallest and the largest channel. */
  lemma MeanBetweenMinAndMax(p: Pixel)
    ensures MinChannel(p) <= Mean(p) <= MaxChannel(p)
  {
  }

  /** `simple_greyscale`: each pixel becomes three copies of its truncated channel mean. */
  function SimpleGreyscale(image: Frame): (r: Frame)
    ensures SameShape(image, r)
    ensures forall i :: 0 <= i < |image.pixels| ==> r.pixels[i] == GreyPixel(Mean(image.pixels[i]))
    ensures forall i :: 0 <= i < |image.pixels| ==>
      IsGrey(r.pixels[i]) && MinChannel(image.pixels[i]) <= r.pixels[i].b <= MaxChannel(image.pixels[i])
  {
    MapPixels(image, p => GreyPixel(Mean(p)))
  }

  /**
   * `greyscale_from_channel`: numpy's column index `[:, channel]` accepts
   * 0..2 and, counting from the end, -3..-1; any other index raises.
   */
  function GreyscaleFromChannel(image: Frame, channel: int): (r: Result<Frame, int>)
    ensures r.Ok? <==> -3 <= channel < 3
    ensures r.Ok? ==> SameShape(image, r.value)
    ensures 0 <= channel < 3 ==> forall i :: 0 <= i < |image.pixels| ==>
      r.value.pixels[i] == GreyPixel(Channel(image.pixels[i], channel))
    ensures -3 <= channel < 0 ==> forall i :: 0 <= i < |image.pixels| ==>
      r.value.pixels[i] == GreyPixel(Channel(image.pixels[i], channel + 3))
  {
    if 0 <= channel < 3 then Ok(MapPixels(image, p => GreyPixel(Channel(p, channel))))
    else if -3 <= channel < 0 then Ok(MapPixels(image, p => GreyPixel(Channel(p, channel + 3))))
    else Err(channel)
  }

  /** One channel OR-ed with one colour component, cast back with `astype(np.uint8)`. */
  function OrChannel(v: Byte, c: nat): (r: Byte)
    ensures r <= Or(v, c)
    ensures Or(v, c) < 256 ==> r == Or(v, c)
  {
    Or(v, c) % 256
  }

  /** A colour component within the byte range gives a result at least the channel and at least the component. */
  lemma OrChannelBounds(v: Byte, c: nat)
    requires c < 256
    ensures OrChannel(v, c) == Or(v, c)
    ensures v <= OrChannel(v, c) && c <= OrChannel(v, c)
  {
    OrOfBytes(v, c);
    OrAtLeastOperands(v, c);
    var o := Or(v, c);
    assert 0 <= o < 256;
    assert o % 256 == o;
  }

  /** `filter_or`: every pixel OR-ed with the colour `(cb, cg, cr)`, channel by channel. */
  function FilterOr(image: Frame, cb: nat, cg: nat, cr: nat): (r: Frame)
    ensures SameShape(image, r)
    ensures forall i :: 0 <= i < |image.pixels| ==>
      r.pixels[i] == Pixel(OrChannel(image.pixels[i].b, cb), OrChannel(image.pixels[i].g, cg), OrChannel(image.pixels[i].r, cr))
  {
    MapPixels(image, (p: Pixel) => Pixel(OrChannel(p.b, cb), OrChannel(p.g, cg), OrChannel(p.r, cr)))
  }

  /** Every output channel is at least the input channel and at least the colour component. */
  lemma FilterOrAtLeastInputAndColour(image: Frame, cb: Byte, cg: Byte, cr: Byte, i: nat)
    requires i < |image.pixels|
    ensures var p, q := image.pixels[i], FilterOr(image, cb, cg, cr).pixels[i];
      p.b <= q.b && p.g <= q.g && p.r <= q.r && cb <= q.b && cg <= q.g && cr <= q.r
  {
    var p := image.pixels[i];
    OrChannelBounds(p.b, cb);
    OrChannelBounds(p.g, cg);
    OrChannelBounds(p.r, cr);
  }

  /** OR-ing the same byte colour a second time changes nothing. */
  lemma FilterOrIdempotent(image: Frame, cb: Byte, cg: Byte, cr: Byte)
    ensures FilterOr(FilterOr(image, cb, cg, cr), cb, cg, cr) == FilterOr(image, cb, cg, cr)
  {
    var once := FilterOr(image, cb, cg, cr);
    var twice := FilterOr(once, cb, cg, cr);
    forall i | 0 <= i < |image.pixels|
      ensures twice.pixels[i] == once.pixels[i]
    {
      var p := image.pixels[i];
      OrChannelBounds(p.b, cb);
      OrChannelBounds(p.g, cg);
      OrChannelBounds(p.r, cr);
      OrChannelBounds(once.pixels[i].b, cb);
      OrChannelBounds(once.pixels[i].g, cg);
      OrChannelBounds(once.pixels[i].r, cr);
      OrIdempotent(p.b, cb);
      OrIdempotent(p.g, cg);
      OrIdempotent(p.r, cr);
    }
  }

  /** A zero colour component leaves a channel unchanged. */
  lemma OrChannelZero(v: Byte)
    ensures OrChannel(v, 0) == v
  {
    OrZero(v);
  }

  /** The colour black is the identity of `filter_or`. */
  lemma FilterOrBlackIsIdentity(image: Frame)
    ensures FilterOr(image, 0, 0, 0) == image
  {
    var r := FilterOr(image, 0, 0, 0);
    forall i | 0 <= i < |image.pixels|
      ensures r.pixels[i] == image.pixels[i]
    {
      var p := image.pixels[i];
      OrChannelZero(p.b);
      OrChannelZero(p.g);
      OrChannelZero(p.r);
    }
    assert r.pixels == image.pixels;
  }

  /** One channel XOR-ed with 255, as `image ^ 255` does on a `uint8` image. */
  function NegateChannel(v: Byte): (n: Byte)
    ensures n == 255 - v
  {
    Pow2Of8();
    XorAllOnes(v, 8);
    Xor(v, 255)
  }

  /** `negate`: every channel XOR-ed with 255. */
  function Negate(image: Frame): (r: Frame)
    ensures SameShape(image, r)
    ensures forall i :: 0 <= i < |image.pixels| ==>
      var p, q := image.pixels[i], r.pixels[i]; q.b == 255 - p.b && q.g == 255 - p.g && q.r == 255 - p.r
  {
    MapPixels(image, (p: Pixel) => Pixel(NegateChannel(p.b), NegateChannel(p.g), NegateChannel(p.r)))
  }

  /** Negating twice gives back the frame. */
  lemma NegateInvolutive(image: Frame)
    ensures Negate(Negate(image)) == image
  {
    var twice := Negate(Negate(image));
    assert twice.pixels == image.pixels;
  }

  /**
   * `binarize`: the simple greyscale of the frame compared with the threshold,
   * 255 where strictly greater and 0 elsewhere. numpy compares a byte with a
   * Python int or float threshold by value, so the threshold is taken as a real.
   */
  function Binarize(image: Frame, threshold: real): (r: Frame)
    ensures SameShape(image, r)
  {
    MapPixels(SimpleGreyscale(image), (p: Pixel) => GreyPixel(if p.b as real > threshold then 255 else 0))
  }

  /**
   * The output of `binarize` is black or white, and a pixel is white exactly
   * when its truncated channel mean is strictly above the threshold.
   */
  lemma BinarizeIsThreshold(image: Frame, threshold: real, i: nat)
    requires i < |image.pixels|
    ensures var q := Binarize(image, threshold).pixels[i];
      IsGrey(q) && (q.b == 0 || q.b == 255) &&
      (q.b == 255 <==> Mean(image.pixels[i]) as real > threshold)
  {
    assert SimpleGreyscale(image).pixels[i] == GreyPixel(Mean(image.pixels[i]));
  }

  /** With threshold 127 a pixel of mean 127 turns black and a pixel of mean 128 turns white. */
  lemma BinarizeBoundaryAt127()
    ensures Binarize(Frame(1, 2, [GreyPixel(127), GreyPixel(128)]), 127.0).pixels
            == [GreyPixel(0), GreyPixel(255)]
  {
    var image := Frame(1, 2, [GreyPixel(127), GreyPixel(128)]);
    BinarizeIsThreshold(image, 127.0, 0);
    BinarizeIsThreshold(image, 127.0, 1);
  }

  /** The size coercion of `gaussian_blur`: `size - (size % 2 == 0)` on each component. */
  function CoerceOdd(size: int): (s: int)
    ensures s % 2 == 1
    ensures size % 2 == 1 ==> s == size
    ensures size % 2 == 0 ==> s == size - 1
  {
    size - (if size % 2 == 0 then 1 else 0)
  }

  /** Inside the registered slider range 1..200 the coerced size stays within 1..199. */
  lemma CoerceOddInSliderRange(size: int)
    requires 1 <= size <= 200
    ensures 1 <= CoerceOdd(size) <= 199 && CoerceOdd(size) <= size
  {
  }

  /** Coercion is idempotent, and an even request behaves exactly like the odd size below it. */
  lemma CoerceOddIdempotent(size: int)
    ensures CoerceOdd(CoerceOdd(size)) == CoerceOdd(size)
    ensures size % 2 == 0 ==> CoerceOdd(size) == CoerceOdd(size - 1)
  {
  }
}
