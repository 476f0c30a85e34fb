/** The image format guess in render_image (src/components/mod.rs): the first
    matching magic-byte prefix decides, and JPEG is the fallback. Decoding and
    rendering the image are not part of this model. */
module ImageFormat {
  import opened Wrappers

  datatype Format = Png | Jpeg | Webp | Gif | Bmp

  /** The first four bytes of the PNG signature (section 5.2 of the PNG specification). */
  const PngMagic: seq<byte> := [0x89, 0x50, 0x4E, 0x47]
  const JpegMagic: seq<byte> := [0xFF, 0xD8, 0xFF]
  /** "RIFF" and "WEBP" in ASCII. */
  const RiffMagic: seq<byte> := [0x52, 0x49, 0x46, 0x46]
  const WebpMagic: seq<byte> := [0x57, 0x45, 0x42, 0x50]
  /** "GIF" in ASCII. */
  const GifMagic: seq<byte> := [0x47, 0x49, 0x46]
  const BmpMagic: seq<byte> := [0x42, 0x4D]

  predicate IsWebp(bytes: seq<byte>) {
    RiffMagic <= bytes && |bytes| > 12 && bytes[8..12] == WebpMagic
  }

  function DetectFormat(bytes: seq<byte>): (f: Format)
    ensures f == Png <==> PngMagic <= bytes
    ensures f == Webp <==> !(PngMagic <= bytes) && !(JpegMagic <= bytes) && IsWebp(bytes)
    ensures f == Gif <==> !(PngMagic <= bytes) && !(JpegMagic <= bytes) && !IsWebp(bytes) && GifMagic <= bytes
    ensures f == Bmp <==> !(PngMagic <= bytes) && !(JpegMagic <= bytes) && !IsWebp(bytes) && !(GifMagic <= bytes) && BmpMagic <= bytes
    ensures f == Jpeg <==>
      !(PngMagic <= bytes) && (JpegMagic <= bytes || (!IsWebp(bytes) && !(GifMagic <= bytes) && !(BmpMagic <= bytes)))
  {
    if PngMagic <= bytes then Png
    else if JpegMagic <= bytes then Jpeg
    else if IsWebp(bytes) then Webp
    else if GifMagic <= bytes then Gif
    else if BmpMagic <= bytes then Bmp
    else Jpeg
  }

  /** The signatures are mutually exclusive, so the order of the tests only
      matters for the fallback: a buffer with one of the magic prefixes gets
      that format whatever follows it. */
  lemma SignaturesDecide(rest: seq<byte>, size: seq<byte>)
    ensures DetectFormat(PngMagic + rest) == Png
    ensures DetectFormat(JpegMagic + rest) == Jpeg
    ensures DetectFormat(GifMagic + rest) == Gif
    ensures DetectFormat(BmpMagic + rest) == Bmp
    ensures |size| == 4 && |rest| > 0 ==> DetectFormat(RiffMagic + size + WebpMagic + rest) == Webp
  {
    assert (PngMagic + rest)[..4] == PngMagic;
    assert (JpegMagic + rest)[..3] == JpegMagic && (JpegMagic + rest)[0] == 0xFF;
    assert (GifMagic + rest)[0] == 0x47;
    assert (BmpMagic + rest)[0] == 0x42;
    if |size| == 4 && |rest| > 0 {
      var w := RiffMagic + size + WebpMagic + rest;
      assert w[..4] == RiffMagic && w[8..12] == WebpMagic && w[0] == 0x52;
    }
  }

  function Count(b: bool): nat { if b then 1 else 0 }

  /** No buffer starts with two of the signatures: they all differ in their
      first byte. So the chain's order decides nothing but the fallback. */
  lemma SignaturesExclusive(bytes: seq<byte>)
    ensures Count(PngMagic <= bytes) + Count(JpegMagic <= bytes) + Count(RiffMagic <= bytes) +
            Count(GifMagic <= bytes) + Count(BmpMagic <= bytes) <= 1
  {
    if |bytes| > 0 {
      assert PngMagic <= bytes ==> bytes[0] == 0x89;
      assert JpegMagic <= bytes ==> bytes[0] == 0xFF;
      assert RiffMagic <= bytes ==> bytes[0] == 0x52;
      assert GifMagic <= bytes ==> bytes[0] == 0x47;
      assert BmpMagic <= bytes ==> bytes[0] == 0x42;
    }
  }

  /** A RIFF container is WebP only when it is longer than its 12-byte header:
      one of exactly 12 bytes falls through to the fallback. */
  lemma RiffNeedsMoreThanHeader()
    ensures DetectFormat(RiffMagic + [0, 0, 0, 0] + WebpMagic) == Jpeg
  {
    var w := RiffMagic + [0, 0, 0, 0] + WebpMagic;
    assert |w| == 12 && w[0] == 0x52;
  }

  /** Anything unrecognised, the empty buffer included, is treated as JPEG. */
  lemma FallbackIsJpeg()
    ensures DetectFormat([]) == Jpeg
    ensures DetectFormat([0x00, 0x01, 0x02, 0x03]) == Jpeg
  {
    var b: seq<byte> := [0x00, 0x01, 0x02, 0x03];
    assert b[0] == 0;
  }
}
