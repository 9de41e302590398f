/** `compress_image`: the downscale rule and the choice between the original
    upload and its re-encoded variants. Pillow's decoder and encoder are
    parameters (a `Codec`); only how many bytes each variant takes and which
    one is returned are modelled. */
module Images {
  import opened Common

  /** What the Pillow decoder reports about an upload. */
  datatype Decoded = Decoded(format: Option<string>, mode: string, width: nat, height: nat)

  /** How the pixels are prepared before a JPEG save. */
  datatype Conversion =
    | AsIs              // saved in the mode it has
    | FlattenOnWhite    // pasted on white using its alpha channel (RGBA, and P via RGBA)
    | PasteWithoutMask  // pasted on white with no mask, so transparency is lost (LA)
    | ConvertToRGB      // `image.convert('RGB')`

  /** One `image.save(...)` call: target format, JPEG quality (none for the
      re-save in the original format), pixel preparation and target size. */
  datatype Encoding = Encoding(format: string, quality: Option<int>, conversion: Conversion,
                               width: nat, height: nat)

  /** Pillow, seen from `compress_image`: `decode` is `Image.open`, `encode`
      is resize plus save; `None` stands for an exception. */
  datatype Codec = Codec(decode: Bytes -> Option<Decoded>, encode: (Bytes, Encoding) -> Option<Bytes>)

  const Jpeg: string := "JPEG"

  /** `int(x)` of a non-negative fraction `num / den`: truncation. */
  function TruncDiv(num: nat, den: nat): (q: nat)
    requires den > 0
    ensures q * den <= num < (q + 1) * den
  {
    var q := num / den;
    DivBounds(num, den, q);
    q
  }

  lemma DivBounds(num: nat, den: nat, q: int)
    requires den > 0 && q == num / den
    ensures q * den <= num < (q + 1) * den
  {
    var r := num % den;
    assert num == q * den + r && 0 <= r < den;
    assert (q + 1) * den == q * den + den;
  }

  /** The target size: when the longer side exceeds `maxSize` it becomes
      `maxSize` and the other side is scaled by the same ratio and truncated;
      a square image counts as taller than wide. */
  function ScaledSize(width: nat, height: nat, maxSize: nat): (r: (nat, nat))
    ensures Max(width, height) <= maxSize ==> r == (width, height)
    ensures Max(width, height) > maxSize && width > height ==>
      r.0 == maxSize && r.1 * width <= height * maxSize < (r.1 + 1) * width
    ensures Max(width, height) > maxSize && width <= height ==>
      r.1 == maxSize && r.0 * height <= width * maxSize < (r.0 + 1) * height
  {
    if Max(width, height) > maxSize then
      if width > height then (maxSize, TruncDiv(height * maxSize, width))
      else (TruncDiv(width * maxSize, height), maxSize)
    else (width, height)
  }

  /** Scaling keeps the image within `maxSize` on both sides and does not let
      the shorter side overtake the longer one. */
  lemma ScaledSizeFits(width: nat, height: nat, maxSize: nat)
    ensures var r := ScaledSize(width, height, maxSize);
      && r.0 <= Max(width, maxSize) && r.1 <= Max(height, maxSize)
      && Max(r.0, r.1) == Min(Max(width, height), maxSize)
      && (width <= height ==> r.0 <= r.1)
      && (width >= height ==> r.1 <= r.0)
  {
    var r := ScaledSize(width, height, maxSize);
    if Max(width, height) > maxSize {
      if width > height {
        ShorterStaysShorter(height, width, maxSize, r.1);
      } else {
        ShorterStaysShorter(width, height, maxSize, r.0);
      }
    }
  }

  lemma ShorterStaysShorter(short: nat, long: nat, maxSize: nat, scaled: nat)
    requires short <= long && long > 0
    requires scaled * long <= short * maxSize
    ensures scaled <= maxSize
  {
    MulLe(short, long, maxSize);
    if scaled > maxSize {
      MulLt(maxSize, scaled, long);
    }
  }

  lemma MulLe(a: nat, b: nat, c: nat)
    requires a <= b
    ensures a * c <= b * c
  {
  }

  lemma MulLt(a: nat, b: nat, c: nat)
    requires a < b && c > 0
    ensures a * c < b * c
  {
  }

  /** How a non-JPEG image is prepared for its JPEG variant. */
  function JpegConversion(mode: string): Conversion {
    if mode == "RGBA" || mode == "P" then FlattenOnWhite
    else if mode == "LA" then PasteWithoutMask
    else if mode != "RGB" then ConvertToRGB
    else AsIs
  }

  /** The two saves `compress_image` tries, in the order it tries them: the
      original format with `optimize`, then either a JPEG at `quality` (for a
      non-JPEG source) or a JPEG at `max(50, quality - 20)` (for a JPEG). */
  function Variants(d: Decoded, quality: int, maxSize: nat): (plan: seq<Encoding>)
    ensures |plan| == 2 && plan[1].format == Jpeg
    ensures plan[0].format == d.format.GetOr(Jpeg) && plan[0].quality == None
    ensures plan[0].conversion == AsIs
    ensures d.format.GetOr(Jpeg) == Jpeg ==>
      plan[1].quality == Some(Max(50, quality - 20)) && plan[1].conversion == AsIs
    ensures d.format.GetOr(Jpeg) != Jpeg ==> plan[1].quality == Some(quality)
    ensures forall i :: 0 <= i < 2 ==>
      (plan[i].width, plan[i].height) == ScaledSize(d.width, d.height, maxSize)
  {
    var original := d.format.GetOr(Jpeg);
    var size := ScaledSize(d.width, d.height, maxSize);
    var first := Encoding(original, None, AsIs, size.0, size.1);
    var second :=
      if original != Jpeg then Encoding(Jpeg, Some(quality), JpegConversion(d.mode), size.0, size.1)
      else Encoding(Jpeg, Some(Max(50, quality - 20)), AsIs, size.0, size.1);
    [first, second]
  }

  /** `sorted(variants, key=len)[0]`: the shortest variant, the earliest one
      among equally short ones (Python's sort is stable). */
  function Smallest(variants: seq<Bytes>): (best: Bytes)
    requires |variants| > 0
  {
    if |variants| == 1 then variants[0]
    else
      var before := Smallest(variants[..|variants| - 1]);
      var last := variants[|variants| - 1];
      if |last| < |before| then last else before
  }

  /** The shortest variant is one of them, no variant is shorter, and every
      variant before it is strictly longer. */
  lemma {:induction false} SmallestIsFirstMinimum(variants: seq<Bytes>)
    requires |variants| > 0
    ensures exists i :: (0 <= i < |variants| && variants[i] == Smallest(variants)
      && forall j :: 0 <= j < i ==> |variants[j]| > |variants[i]|)
    ensures forall j :: 0 <= j < |variants| ==> |Smallest(variants)| <= |variants[j]|
  {
    if |variants| > 1 {
      var prefix := variants[..|variants| - 1];
      SmallestIsFirstMinimum(prefix);
      var i :| 0 <= i < |prefix| && prefix[i] == Smallest(prefix)
        && (forall j :: 0 <= j < i ==> |prefix[j]| > |prefix[i]|);
      var last := variants[|variants| - 1];
      if |last| < |Smallest(prefix)| {
        assert variants[|variants| - 1] == Smallest(variants);
        assert forall j :: 0 <= j < |variants| - 1 ==> |variants[j]| > |last| by {
          forall j | 0 <= j < |variants| - 1 ensures |variants[j]| > |last| {
            assert variants[j] == prefix[j];
          }
        }
      } else {
        assert variants[i] == Smallest(variants);
        assert forall j :: 0 <= j < i ==> |variants[j]| > |variants[i]| by {
          forall j | 0 <= j < i ensures |variants[j]| > |variants[i]| {
            assert variants[j] == prefix[j];
          }
        }
      }
    } else {
      assert variants[0] == Smallest(variants);
    }
  }

  /** The encoded variants, or `None` if any save raised. */
  function EncodeAll(codec: Codec, image: Bytes, plan: seq<Encoding>): Option<seq<Bytes>> {
    if plan == [] then Some([])
    else
      match EncodeAll(codec, image, plan[..|plan| - 1])
      case None => None
      case Some(done) =>
        match codec.encode(image, plan[|plan| - 1])
        case None => None
        case Some(out) => Some(done + [out])
  }

  /** What `compress_image(image, quality, max_size)` returns. The original
      comes back when decoding or a save raises, when it is empty (the
      logged ratio divides by its length), or when the best variant is not
      at least 5% smaller: `best >= 0.95 * original`, here `20 * best >= 19 * original`. */
  function Compressed(codec: Codec, image: Bytes, quality: int, maxSize: nat): Bytes {
    match codec.decode(image)
    case None => image
    case Some(d) =>
      match EncodeAll(codec, image, Variants(d, quality, maxSize))
      case None => image
      case Some(outs) =>
        if |outs| == 0 || |image| == 0 then image
        else
          var best := Smallest(outs);
          if 20 * |best| >= 19 * |image| then image else best
  }

  /** `compress_image`: encode each planned variant into a list, then take the
      first shortest one and compare it with the original. */
  method CompressImage(codec: Codec, image: Bytes, quality: int, maxSize: nat) returns (out: Bytes)
    ensures out == Compressed(codec, image, quality, maxSize)
  {
    var decoded := codec.decode(image);
    if decoded.None? {
      return image;
    }
    var plan := Variants(decoded.value, quality, maxSize);
    var variants: seq<Bytes> := [];
    var i := 0;
    while i < |plan|
      invariant 0 <= i <= |plan|
      invariant EncodeAll(codec, image, plan[..i]) == Some(variants)
    {
      var saved := codec.encode(image, plan[i]);
      assert plan[..i + 1][..i] == plan[..i];
      if saved.None? {
        FailedSaveFails(codec, image, plan, i + 1);
        return image;
      }
      variants := variants + [saved.value];
      i := i + 1;
    }
    assert plan[..i] == plan;
    if |image| == 0 {
      return image;
    }
    var best := variants[0];
    var k := 1;
    while k < |variants|
      invariant 1 <= k <= |variants|
      invariant best == Smallest(variants[..k])
    {
      assert variants[..k + 1][..k] == variants[..k];
      if |variants[k]| < |best| {
        best := variants[k];
      }
      k := k + 1;
    }
    assert variants[..k] == variants;
    if 20 * |best| >= 19 * |image| {
      return image;
    }
    return best;
  }

  /** Once one save in the plan has raised, encoding a longer prefix raises too. */
  lemma {:induction false} FailedSaveFails(codec: Codec, image: Bytes, plan: seq<Encoding>, n: nat)
    requires 0 < n <= |plan|
    requires codec.encode(image, plan[n - 1]) == None
    ensures EncodeAll(codec, image, plan[..n]) == None
  {
    assert plan[..n][..n - 1] == plan[..n - 1];
  }

  /** Every variant that came out of the encoder belongs to the plan's saves. */
  lemma {:induction false} EncodeAllOutputs(codec: Codec, image: Bytes, plan: seq<Encoding>, outs: seq<Bytes>)
    requires EncodeAll(codec, image, plan) == Some(outs)
    ensures |outs| == |plan|
    ensures forall i :: 0 <= i < |plan| ==> codec.encode(image, plan[i]) == Some(outs[i])
  {
    if plan != [] {
      var prefix := plan[..|plan| - 1];
      var done := EncodeAll(codec, image, prefix).value;
      EncodeAllOutputs(codec, image, prefix, done);
      assert outs == done + [codec.encode(image, plan[|plan| - 1]).value];
    }
  }

  /** The normaliser never makes an upload larger: the result is the original
      itself, or a variant that is more than 5% smaller. */
  lemma CompressedNeverGrows(codec: Codec, image: Bytes, quality: int, maxSize: nat)
    ensures var r := Compressed(codec, image, quality, maxSize);
      && |r| <= |image|
      && (r == image || 20 * |r| < 19 * |image|)
  {
  }

  /** When a variant is returned it is what the encoder produced for one of
      the planned saves, and no planned save produced anything shorter. */
  lemma CompressedIsSmallestVariant(codec: Codec, image: Bytes, quality: int, maxSize: nat)
    requires Compressed(codec, image, quality, maxSize) != image
    ensures codec.decode(image).Some?
    ensures var plan := Variants(codec.decode(image).value, quality, maxSize);
      var r := Compressed(codec, image, quality, maxSize);
      && (exists i :: 0 <= i < |plan| && codec.encode(image, plan[i]) == Some(r))
      && (forall i, out :: 0 <= i < |plan| && codec.encode(image, plan[i]) == Some(out) ==> |r| <= |out|)
  {
    var d := codec.decode(image).value;
    var plan := Variants(d, quality, maxSize);
    var outs := EncodeAll(codec, image, plan).value;
    EncodeAllOutputs(codec, image, plan, outs);
    SmallestIsFirstMinimum(outs);
  }

  /** An upload the decoder rejects is passed through untouched. */
  lemma UndecodableKept(codec: Codec, image: Bytes, quality: int, maxSize: nat)
    requires codec.decode(image).None?
    ensures Compressed(codec, image, quality, maxSize) == image
  {
  }
}
