/** The two pixel-format loops: the red/blue swap that turns Skia's 32-bit
    pixels into the byte order Tk's photo image expects
    (`skia_to_photoimage`, skia_tk_example.cpp), and the unpacking of
    32-bit pixels into the 3-byte RGB rows of a `wxImage`
    (`SkiaPanel::OnPaint`, SkiaWxExample.cpp). A pixel is a `uint32_t`;
    byte k is bits 8k to 8k + 7. */
module PixelChannels {
  import opened Common

  /** Byte k (0 the least significant) of a pixel, as the value of an
      8-bit channel. */
  function Lane(px: bv32, k: nat): (c: bv32)
    requires k < 4
    ensures c <= 0xFF
  {
    if k == 0 then px & 0xFF
    else if k == 1 then (px >> 8) & 0xFF
    else if k == 2 then (px >> 16) & 0xFF
    else (px >> 24) & 0xFF
  }

  // ---------------------------------------------------------------------
  // skia_tk_example.cpp: swap R and B in place
  // ---------------------------------------------------------------------

  /** The loop body: B is read from bits 16-23 and R from bits 0-7, and they
      are written back crosswise; bytes 1 and 3 (the mask 0xFF00FF00) stay. */
  function SwapRedBlue(px: bv32): (q: bv32)
    ensures q & 0xFF00FF00 == px & 0xFF00FF00
  {
    var b := (px >> 16) & 0xFF;
    var r := px & 0xFF;
    (px & 0xFF00FF00) | (r << 16) | b
  }

  /** Bytes 0 and 2 trade places. */
  lemma SwapRedBlueLanes(px: bv32)
    ensures Lane(SwapRedBlue(px), 0) == Lane(px, 2) && Lane(SwapRedBlue(px), 2) == Lane(px, 0)
    ensures Lane(SwapRedBlue(px), 1) == Lane(px, 1) && Lane(SwapRedBlue(px), 3) == Lane(px, 3)
  {
  }

  /** Swapping twice gives the pixel back. */
  lemma SwapRedBlueInvolution(px: bv32)
    ensures SwapRedBlue(SwapRedBlue(px)) == px
  {
  }

  /** A pixel is fixed by the swap exactly when its red and blue bytes
      agree. */
  lemma SwapFixedPoints(px: bv32)
    ensures SwapRedBlue(px) == px <==> Lane(px, 0) == Lane(px, 2)
  {
  }

  /** The swap of every pixel of a buffer. */
  function SwapAll(s: seq<bv32>): (r: seq<bv32>)
    ensures |r| == |s| && forall i :: 0 <= i < |s| ==> r[i] == SwapRedBlue(s[i])
  {
    seq(|s|, i requires 0 <= i < |s| => SwapRedBlue(s[i]))
  }

  /** Converting a buffer twice restores it. */
  lemma SwapAllInvolution(s: seq<bv32>)
    ensures SwapAll(SwapAll(s)) == s
  {
    forall i | 0 <= i < |s|
      ensures SwapAll(SwapAll(s))[i] == s[i]
    {
      SwapRedBlueInvolution(s[i]);
    }
  }

  /** The range-for over the buffer: every pixel is rewritten once, from
      its own old value only. */
  method SwapPixels(pixels: array<bv32>)
    modifies pixels
    ensures pixels[..] == SwapAll(old(pixels[..]))
  {
    for i := 0 to pixels.Length
      invariant forall j :: 0 <= j < i ==> pixels[j] == SwapRedBlue(old(pixels[j]))
      invariant forall j :: i <= j < pixels.Length ==> pixels[j] == old(pixels[j])
    {
      pixels[i] := SwapRedBlue(pixels[i]);
    }
  }

  /** `skia_to_photoimage` up to the hand-off to Tk: a buffer of w * h
      pixels is filled by `readPixels` (`None` when it fails, and then the
      function returns without converting) and then swapped in place. */
  method SkiaToPhotoimage(readPixels: Option<nat -> bv32>, w: nat, h: nat) returns (converted: Option<seq<bv32>>)
    ensures readPixels.None? ==> converted.None?
    ensures readPixels.Some? ==>
              converted.Some? && |converted.value| == w * h &&
              forall i :: 0 <= i < w * h ==> converted.value[i] == SwapRedBlue(readPixels.value(i))
  {
    var pixels := new bv32[w * h];
    if readPixels.None? {
      return None;
    }
    var read := readPixels.value;
    forall i | 0 <= i < w * h {
      pixels[i] := read(i);
    }
    SwapPixels(pixels);
    return Some(pixels[..]);
  }

  // ---------------------------------------------------------------------
  // SkiaWxExample.cpp: 32-bit pixels to 3-byte RGB
  // ---------------------------------------------------------------------

  /** The three bytes written for one pixel: R (bits 16-23), G (bits 8-15),
      B (bits 0-7); the alpha byte is dropped. */
  function Rgb(px: bv32): (rgb: seq<bv8>)
    ensures |rgb| == 3
  {
    [((px >> 16) & 0xFF) as bv8, ((px >> 8) & 0xFF) as bv8, (px & 0xFF) as bv8]
  }

  /** The bytes written are lanes 2, 1 and 0 of the pixel. */
  lemma RgbLanes(px: bv32)
    ensures Rgb(px)[0] as bv32 == Lane(px, 2) && Rgb(px)[1] as bv32 == Lane(px, 1) && Rgb(px)[2] as bv32 == Lane(px, 0)
  {
  }

  /** The alpha byte has no effect on the output. */
  lemma RgbIgnoresAlpha(px: bv32, alpha: bv8)
    ensures Rgb((px & 0x00FF_FFFF) | ((alpha as bv32) << 24)) == Rgb(px)
  {
  }

  /** The three bytes determine the pixel up to its alpha byte. */
  lemma RgbDeterminesColour(px: bv32, qx: bv32)
    ensures Rgb(px) == Rgb(qx) <==> px & 0x00FF_FFFF == qx & 0x00FF_FFFF
  {
    if Rgb(px) == Rgb(qx) {
      UnpackedColourRoundTrip(px);
      UnpackedColourRoundTrip(qx);
    }
    if px & 0x00FF_FFFF == qx & 0x00FF_FFFF {
      var solid: bv8 := 0;
      RgbIgnoresAlpha(px, solid);
      RgbIgnoresAlpha(qx, solid);
      assert (px & 0x00FF_FFFF) | ((solid as bv32) << 24) == (qx & 0x00FF_FFFF) | ((solid as bv32) << 24);
    }
  }

  /** Bytes `3 * p .. 3 * p + 3` of dst hold the RGB triple of `px`. */
  ghost predicate TripleAt(dst: array<bv8>, p: nat, px: bv32)
    requires 3 * p + 3 <= dst.Length
    reads dst
  {
    dst[3 * p] == Rgb(px)[0] && dst[3 * p + 1] == Rgb(px)[1] && dst[3 * p + 2] == Rgb(px)[2]
  }

  /** The `x` loop for one row, whose first pixel is `start`: pixels
      `start .. start + width` of src land as RGB triples from byte
      `3 * start` on; nothing else of dst changes. */
  method UnpackRow(src: array<bv32>, dst: array<bv8>, width: nat, start: nat)
    requires start + width <= src.Length && 3 * (start + width) <= dst.Length
    modifies dst
    ensures forall p :: start <= p < start + width ==> TripleAt(dst, p, src[p])
    ensures forall i :: 0 <= i < 3 * start || 3 * (start + width) <= i < dst.Length ==> dst[i] == old(dst[i])
  {
    var d := 3 * start;
    for x := 0 to width
      invariant d == 3 * (start + x)
      invariant forall p :: start <= p < start + x ==> TripleAt(dst, p, src[p])
      invariant forall i :: 0 <= i < 3 * start || d <= i < dst.Length ==> dst[i] == old(dst[i])
    {
      var pixel := src[start + x];
      dst[d] := ((pixel >> 16) & 0xFF) as bv8;
      dst[d + 1] := ((pixel >> 8) & 0xFF) as bv8;
      dst[d + 2] := (pixel & 0xFF) as bv8;
      d := d + 3;
    }
  }

  /** The nested loops of `OnPaint`: pixel (x, y) is read from
      `src[y * width + x]` and written, as R, G, B, at byte
      `3 * (y * width + x)`; dst advances 3 bytes per pixel, so exactly the
      first `3 * width * height` bytes are written. */
  method UnpackToRgb(src: array<bv32>, width: nat, height: nat, dst: array<bv8>)
    requires width * height <= src.Length && 3 * (width * height) <= dst.Length
    modifies dst
    ensures forall p :: 0 <= p < width * height ==> TripleAt(dst, p, src[p])
    ensures forall i :: 3 * (width * height) <= i < dst.Length ==> dst[i] == old(dst[i])
  {
    var start := 0;
    for y := 0 to height
      invariant start == y * width
      invariant start <= width * height
      invariant forall p :: 0 <= p < start ==> TripleAt(dst, p, src[p])
      invariant forall i :: 3 * start <= i < dst.Length ==> dst[i] == old(dst[i])
    {
      assert (y + 1) * width == start + width <= width * height by {
        MulMonotone(y + 1, height, width);
      }
      UnpackRow(src, dst, width, start);
      start := start + width;
    }
  }

  /** The unpacked image read back as pixels, with alpha set solid: the
      colour of every source pixel survives the conversion. */
  lemma UnpackedColourRoundTrip(px: bv32)
    ensures var rgb := Rgb(px);
            ((rgb[0] as bv32) << 16) | ((rgb[1] as bv32) << 8) | (rgb[2] as bv32) == px & 0x00FF_FFFF
  {
  }
}
