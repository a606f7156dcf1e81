/** `downsample_1bpp_128x128_avx2` of downsample_1bpp_128x128_avx2.c: a
    bit-packed one-bit-per-pixel image is reduced by 128 in each direction;
    an output pixel is set when at least half of the 16384 input pixels of
    its block are set. Rows of both images are packed most significant bit
    first. */
module Downsample1bpp {
  import opened Common

  // ---------------------------------------------------------------------
  // Bit counts
  // ---------------------------------------------------------------------

  /** Bit k (0 the least significant) of a byte. */
  predicate Bit(b: bv8, k: nat)
    requires k < 8
  {
    (b >> k) & 1 == 1
  }

  /** The set bits among the k lowest bits of b. */
  function PopCountBits(b: bv8, k: nat): (n: nat)
    requires k <= 8
    ensures n <= k
  {
    if k == 0 then 0 else PopCountBits(b, k - 1) + (if Bit(b, k - 1) then 1 else 0)
  }

  /** `__builtin_popcount` of one byte. */
  function PopCount8(b: bv8): nat {
    PopCountBits(b, 8)
  }

  /** The set bits of a byte string. */
  function PopCount(s: seq<bv8>): nat {
    if |s| == 0 then 0 else PopCount(s[..|s| - 1]) + PopCount8(s[|s| - 1])
  }

  lemma {:induction false} PopCountBound(s: seq<bv8>)
    ensures PopCount(s) <= 8 * |s|
  {
    if |s| > 0 {
      PopCountBound(s[..|s| - 1]);
    }
  }

  /** Counting splits over concatenation. */
  lemma {:induction false} PopCountAppend(a: seq<bv8>, b: seq<bv8>)
    ensures PopCount(a + b) == PopCount(a) + PopCount(b)
    decreases |b|
  {
    if |b| == 0 {
      assert a + b == a;
    } else {
      assert (a + b)[..|a + b| - 1] == a + b[..|b| - 1];
      assert (a + b)[|a + b| - 1] == b[|b| - 1];
      PopCountAppend(a, b[..|b| - 1]);
    }
  }

  /** A byte with all bits set counts 8, a zero byte 0. */
  lemma PopCount8Extremes()
    ensures PopCount8(0xFF) == 8 && PopCount8(0) == 0
  {
  }

  /** `popcount128`: the set bits of the 16 bytes at `offset`, counted as
      two 8-byte halves (`lo` and `hi`) as the intrinsics do; at most 128. */
  method Popcount128(data: array<bv8>, offset: nat) returns (count: int)
    requires offset + 16 <= data.Length
    ensures count == PopCount(data[offset..offset + 16])
    ensures 0 <= count <= 128
  {
    var lo := PopCount(data[offset..offset + 8]);
    var hi := PopCount(data[offset + 8..offset + 16]);
    assert data[offset..offset + 8] + data[offset + 8..offset + 16] == data[offset..offset + 16];
    PopCountAppend(data[offset..offset + 8], data[offset + 8..offset + 16]);
    PopCountBound(data[offset..offset + 16]);
    count := lo + hi;
  }

  // ---------------------------------------------------------------------
  // Image layout
  // ---------------------------------------------------------------------

  const BlockSize: nat := 128
  /** Half of the 128 * 128 pixels of a block. */
  const Threshold: nat := 8192

  /** The sizes the routine derives from the input width and height. */
  datatype Layout = Layout(outW: nat, outH: nat, inRowBytes: nat, outRowBytes: nat, inH: nat)

  /** `out_w`, `out_h`, `in_row_bytes` and `out_row_bytes`: output rows are
      padded to whole bytes. */
  function LayoutOf(inW: nat, inH: nat): Layout {
    Layout(inW / BlockSize, inH / BlockSize, inW / 8, (inW / BlockSize + 7) / 8, inH)
  }

  /** What the divisions guarantee: a block row of 16 bytes per output
      column fits in an input row, the block rows fit in the input height,
      and the padded output row holds every output column. */
  predicate Fits(l: Layout) {
    l.outW * 16 <= l.inRowBytes && l.outH * BlockSize <= l.inH && l.outW <= 8 * l.outRowBytes
  }

  lemma LayoutFits(inW: nat, inH: nat)
    ensures Fits(LayoutOf(inW, inH))
  {
  }

  /** The bytes of the input image. */
  function InputSize(l: Layout): nat { l.inRowBytes * l.inH }
  /** The bytes zeroed and written: whole padded rows, one per block row. */
  function OutputSize(l: Layout): nat { l.outRowBytes * l.outH }

  /** The input bytes the block (ox, oy) reads in its row dy. */
  function RowStart(l: Layout, ox: nat, oy: nat, dy: nat): nat {
    (oy * BlockSize + dy) * l.inRowBytes + ox * 16
  }

  /** A block of the output grid, in an input of at least the image's size. */
  predicate BlockInImage(l: Layout, inLen: nat, ox: nat, oy: nat) {
    Fits(l) && ox < l.outW && oy < l.outH && inLen >= InputSize(l)
  }

  /** Every row a block reads lies inside the input, whether or not the
      width and height are multiples of 128. */
  lemma RowInBounds(l: Layout, inLen: nat, ox: nat, oy: nat, dy: nat)
    requires BlockInImage(l, inLen, ox, oy) && dy < BlockSize
    ensures RowStart(l, ox, oy, dy) + 16 <= inLen
  {
    var irb := l.inRowBytes;
    var r := oy * BlockSize + dy;
    assert r + 1 <= l.inH;
    assert ox * 16 + 16 <= irb;
    assert (r + 1) * irb <= l.inH * irb by {
      MulMonotone(r + 1, l.inH, irb);
    }
    assert RowStart(l, ox, oy, dy) + 16 <= r * irb + irb;
  }

  /** The set input pixels in the first n rows of block (ox, oy). */
  function RowsSum(input: seq<bv8>, l: Layout, ox: nat, oy: nat, n: nat): int
    requires BlockInImage(l, |input|, ox, oy) && n <= BlockSize
  {
    if n == 0 then 0
    else
      var start := RowStart(l, ox, oy, n - 1);
      RowInBounds(l, |input|, ox, oy, n - 1);
      RowsSum(input, l, ox, oy, n - 1) + PopCount(input[start..start + 16])
  }

  /** The set input pixels of block (ox, oy). */
  function BlockSum(input: seq<bv8>, l: Layout, ox: nat, oy: nat): int
    requires BlockInImage(l, |input|, ox, oy)
  {
    RowsSum(input, l, ox, oy, BlockSize)
  }

  lemma {:induction false} RowsSumBound(input: seq<bv8>, l: Layout, ox: nat, oy: nat, n: nat)
    requires BlockInImage(l, |input|, ox, oy) && n <= BlockSize
    ensures 0 <= RowsSum(input, l, ox, oy, n) <= 128 * n
  {
    if n > 0 {
      RowsSumBound(input, l, ox, oy, n - 1);
      var start := RowStart(l, ox, oy, n - 1);
      RowInBounds(l, |input|, ox, oy, n - 1);
      PopCountBound(input[start..start + 16]);
    }
  }

  /** The output bit of block (ox, oy): at least half of the block set. */
  predicate Majority(input: seq<bv8>, l: Layout, ox: nat, oy: nat)
    requires BlockInImage(l, |input|, ox, oy)
  {
    BlockSum(input, l, ox, oy) >= Threshold
  }

  /** A block counts at most its 16384 pixels, and its output bit is set
      exactly when its set pixels are at least as many as its clear ones. */
  lemma MajorityMeansNoFewerOnes(input: seq<bv8>, l: Layout, ox: nat, oy: nat)
    requires BlockInImage(l, |input|, ox, oy)
    ensures 0 <= BlockSum(input, l, ox, oy) <= BlockSize * BlockSize
    ensures Majority(input, l, ox, oy) <==> BlockSum(input, l, ox, oy) >= BlockSize * BlockSize - BlockSum(input, l, ox, oy)
  {
    RowsSumBound(input, l, ox, oy, BlockSize);
  }

  /** The byte holding the output pixel (ox, oy). */
  function OutIndex(l: Layout, ox: nat, oy: nat): nat {
    oy * l.outRowBytes + ox / 8
  }

  /** A position of the padded output grid: a pixel or a padding bit. */
  predicate InGrid(l: Layout, ox: nat, oy: nat) {
    oy < l.outH && ox < 8 * l.outRowBytes
  }

  lemma OutIndexInRegion(l: Layout, ox: nat, oy: nat)
    requires InGrid(l, ox, oy)
    ensures OutIndex(l, ox, oy) < OutputSize(l)
  {
    var orb := l.outRowBytes;
    assert ox / 8 < orb;
    assert (oy + 1) * orb <= l.outH * orb by {
      MulMonotone(oy + 1, l.outH, orb);
    }
  }

  /** The bit of the output that holds grid position (ox, oy): bit
      `7 - ox % 8` of its byte, most significant first. */
  predicate OutBit(out: seq<bv8>, l: Layout, ox: nat, oy: nat)
    requires InGrid(l, ox, oy) && |out| >= OutputSize(l)
  {
    OutIndexInRegion(l, ox, oy);
    Bit(out[OutIndex(l, ox, oy)], 7 - ox % 8)
  }

  /** Every bit of the output region is the bit of exactly the grid
      position its byte and bit number name. */
  lemma ByteBitIsGridPosition(l: Layout, b: nat, k: nat)
    requires b < OutputSize(l) && k < 8
    ensures var ox, oy := (b % l.outRowBytes) * 8 + k, b / l.outRowBytes;
            InGrid(l, ox, oy) && OutIndex(l, ox, oy) == b && 7 - ox % 8 == 7 - k
  {
    var orb := l.outRowBytes;
    assert orb > 0;
    var c, oy := b % orb, b / orb;
    assert oy * orb + c == b;
    assert oy < l.outH by {
      if oy >= l.outH {
        MulMonotone(l.outH, oy, orb);
      }
    }
    assert (c * 8 + k) / 8 == c && (c * 8 + k) % 8 == k;
  }

  /** Row-major numbering with rows of w cells is one-to-one. */
  lemma RowMajorUnique(w: nat, r: nat, c: nat, r': nat, c': nat)
    requires c < w && c' < w && r * w + c == r' * w + c'
    ensures r == r' && c == c'
  {
    if r < r' {
      MulMonotone(r + 1, r', w);
      assert false;
    } else if r' < r {
      MulMonotone(r' + 1, r, w);
      assert false;
    }
  }

  /** Two grid positions with the same byte share the row and the byte
      column. */
  lemma OutIndexUnique(l: Layout, ox: nat, oy: nat, ox': nat, oy': nat)
    requires InGrid(l, ox, oy) && InGrid(l, ox', oy')
    requires OutIndex(l, ox, oy) == OutIndex(l, ox', oy')
    ensures oy == oy' && ox / 8 == ox' / 8
  {
    RowMajorUnique(l.outRowBytes, oy, ox / 8, oy', ox' / 8);
  }

  /** Setting bit 7 - j of a byte changes that bit only. */
  lemma OrBit(v: bv8, j: nat, k: nat)
    requires j < 8 && k < 8
    ensures Bit(v | (1 << (7 - j)), 7 - k) <==> Bit(v, 7 - k) || j == k
  {
    var m: bv8 := 1 << (7 - j);
    assert m == (1 << (7 - j) as bv8);
    assert (v | m) >> (7 - k) == (v >> (7 - k) as bv8) | (m >> (7 - k) as bv8);
  }

  /** Within one byte, OR-ing in the bit of column cx sets that column's
      bit only. */
  lemma SameByteEffect(v: bv8, cx: nat, ox: nat)
    requires ox / 8 == cx / 8
    ensures Bit(v | (1 << (7 - cx % 8)), 7 - ox % 8) <==> Bit(v, 7 - ox % 8) || ox == cx
  {
    OrBit(v, cx % 8, ox % 8);
  }

  // ---------------------------------------------------------------------
  // The loops
  // ---------------------------------------------------------------------

  /** Grid position (ox, oy) comes before (cx, cy) in row-major order. */
  predicate Before(ox: nat, oy: nat, cx: nat, cy: nat) {
    oy < cy || (oy == cy && ox < cx)
  }

  /** The output once every block before (cx, cy) is done: a pixel's bit is
      set exactly when its block is done and has the majority; padding bits
      are clear. */
  predicate Written(out: seq<bv8>, input: seq<bv8>, l: Layout, cx: nat, cy: nat)
    requires Fits(l) && |out| >= OutputSize(l) && |input| >= InputSize(l)
  {
    (forall ox: nat, oy: nat | oy < l.outH && ox < l.outW ::
       (OutBit(out, l, ox, oy) <==> Before(ox, oy, cx, cy) && Majority(input, l, ox, oy))) &&
    (forall ox: nat, oy: nat | oy < l.outH && l.outW <= ox < 8 * l.outRowBytes ::
       !OutBit(out, l, ox, oy))
  }

  /** The zeroed region holds nothing yet. */
  lemma ZeroedIsWritten(out: seq<bv8>, input: seq<bv8>, l: Layout)
    requires Fits(l) && |out| >= OutputSize(l) && |input| >= InputSize(l)
    requires forall i :: 0 <= i < OutputSize(l) ==> out[i] == 0
    ensures Written(out, input, l, 0, 0)
  {
    forall ox: nat, oy: nat | InGrid(l, ox, oy)
      ensures !OutBit(out, l, ox, oy)
    {
      OutIndexInRegion(l, ox, oy);
    }
  }

  /** OR-ing in the bit of (cx, cy) sets that position and leaves every
      other position of the grid as it was. */
  lemma SetBitEffect(out: seq<bv8>, l: Layout, cx: nat, cy: nat, ox: nat, oy: nat)
    requires InGrid(l, cx, cy) && InGrid(l, ox, oy) && |out| >= OutputSize(l)
    ensures OutIndex(l, cx, cy) < OutputSize(l)
    ensures var b := OutIndex(l, cx, cy);
            OutBit(out[b := out[b] | (1 << (7 - cx % 8))], l, ox, oy) <==> OutBit(out, l, ox, oy) || (ox == cx && oy == cy)
  {
    OutIndexInRegion(l, cx, cy);
    OutIndexInRegion(l, ox, oy);
    var b := OutIndex(l, cx, cy);
    var out' := out[b := out[b] | (1 << (7 - cx % 8))];
    var ob := OutIndex(l, ox, oy);
    if ob == b {
      OutIndexUnique(l, ox, oy, cx, cy);
      SameByteEffect(out[b], cx, ox);
    } else {
      assert out'[ob] == out[ob];
    }
  }

  /** The one write for block (cx, cy): its bit is OR-ed in when it has the
      majority, and nothing else of the region changes meaning. */
  lemma StepWritten(out: seq<bv8>, input: seq<bv8>, l: Layout, cx: nat, cy: nat)
    requires Fits(l) && |out| >= OutputSize(l) && |input| >= InputSize(l)
    requires cx < l.outW && cy < l.outH
    requires Written(out, input, l, cx, cy)
    ensures OutIndex(l, cx, cy) < OutputSize(l)
    ensures var b := OutIndex(l, cx, cy);
            var out' := if Majority(input, l, cx, cy) then out[b := out[b] | (1 << (7 - cx % 8))] else out;
            Written(out', input, l, cx + 1, cy)
  {
    OutIndexInRegion(l, cx, cy);
    if Majority(input, l, cx, cy) {
      StepWrittenSet(out, input, l, cx, cy);
    } else {
      StepWrittenClear(out, input, l, cx, cy);
    }
  }

  /** A block with the majority: its bit is OR-ed in. */
  lemma StepWrittenSet(out: seq<bv8>, input: seq<bv8>, l: Layout, cx: nat, cy: nat)
    requires Fits(l) && |out| >= OutputSize(l) && |input| >= InputSize(l)
    requires cx < l.outW && cy < l.outH
    requires Written(out, input, l, cx, cy) && Majority(input, l, cx, cy)
    ensures OutIndex(l, cx, cy) < OutputSize(l)
    ensures var b := OutIndex(l, cx, cy);
            Written(out[b := out[b] | (1 << (7 - cx % 8))], input, l, cx + 1, cy)
  {
    OutIndexInRegion(l, cx, cy);
    var b := OutIndex(l, cx, cy);
    var out' := out[b := out[b] | (1 << (7 - cx % 8))];
    SetKeepsPixels(out, out', input, l, cx, cy);
    SetKeepsPadding(out, out', input, l, cx, cy);
  }

  lemma SetKeepsPixels(out: seq<bv8>, out': seq<bv8>, input: seq<bv8>, l: Layout, cx: nat, cy: nat)
    requires Fits(l) && |out| >= OutputSize(l) && |input| >= InputSize(l)
    requires cx < l.outW && cy < l.outH && OutIndex(l, cx, cy) < |out|
    requires out' == out[OutIndex(l, cx, cy) := out[OutIndex(l, cx, cy)] | (1 << (7 - cx % 8))]
    requires Written(out, input, l, cx, cy) && Majority(input, l, cx, cy)
    ensures forall ox: nat, oy: nat | oy < l.outH && ox < l.outW ::
              (OutBit(out', l, ox, oy) <==> Before(ox, oy, cx + 1, cy) && Majority(input, l, ox, oy))
  {
    forall ox: nat, oy: nat | oy < l.outH && ox < l.outW
      ensures OutBit(out', l, ox, oy) <==> Before(ox, oy, cx + 1, cy) && Majority(input, l, ox, oy)
    {
      SetBitEffect(out, l, cx, cy, ox, oy);
    }
  }

  lemma SetKeepsPadding(out: seq<bv8>, out': seq<bv8>, input: seq<bv8>, l: Layout, cx: nat, cy: nat)
    requires Fits(l) && |out| >= OutputSize(l) && |input| >= InputSize(l)
    requires cx < l.outW && cy < l.outH && OutIndex(l, cx, cy) < |out|
    requires out' == out[OutIndex(l, cx, cy) := out[OutIndex(l, cx, cy)] | (1 << (7 - cx % 8))]
    requires Written(out, input, l, cx, cy)
    ensures forall ox: nat, oy: nat | oy < l.outH && l.outW <= ox < 8 * l.outRowBytes :: !OutBit(out', l, ox, oy)
  {
    forall ox: nat, oy: nat | oy < l.outH && l.outW <= ox < 8 * l.outRowBytes
      ensures !OutBit(out', l, ox, oy)
    {
      SetBitEffect(out, l, cx, cy, ox, oy);
    }
  }

  /** A block without the majority: the output is left as it is. */
  lemma StepWrittenClear(out: seq<bv8>, input: seq<bv8>, l: Layout, cx: nat, cy: nat)
    requires Fits(l) && |out| >= OutputSize(l) && |input| >= InputSize(l)
    requires cx < l.outW && cy < l.outH
    requires Written(out, input, l, cx, cy) && !Majority(input, l, cx, cy)
    ensures Written(out, input, l, cx + 1, cy)
  {
    forall ox: nat, oy: nat | oy < l.outH && ox < l.outW
      ensures OutBit(out, l, ox, oy) <==> Before(ox, oy, cx + 1, cy) && Majority(input, l, ox, oy)
    {
    }
  }

  /** A finished block row is the start of the next one. */
  lemma NextRowWritten(out: seq<bv8>, input: seq<bv8>, l: Layout, cy: nat)
    requires Fits(l) && |out| >= OutputSize(l) && |input| >= InputSize(l)
    requires Written(out, input, l, l.outW, cy)
    ensures Written(out, input, l, 0, cy + 1)
  {
  }

  /** The inner `dy` loop: the block's sum, row by row through `popcount128`. */
  method SumBlock(inData: array<bv8>, l: Layout, ox: nat, oy: nat) returns (sum: int)
    requires BlockInImage(l, inData.Length, ox, oy)
    ensures sum == BlockSum(inData[..], l, ox, oy)
  {
    var inRowBytes := l.inRowBytes;
    sum := 0;
    for dy := 0 to BlockSize
      invariant sum == RowsSum(inData[..], l, ox, oy, dy)
    {
      RowInBounds(l, inData.Length, ox, oy, dy);
      var rowStart := (oy * BlockSize + dy) * inRowBytes + (ox * 16);
      var count := Popcount128(inData, rowStart);
      sum := sum + count;
    }
  }

  /** The body of the `out_x` loop for block (ox, oy). */
  method DownsampleBlock(inData: array<bv8>, l: Layout, outData: array<bv8>, ox: nat, oy: nat)
    requires inData != outData
    requires Fits(l) && inData.Length >= InputSize(l) && outData.Length >= OutputSize(l)
    requires ox < l.outW && oy < l.outH
    requires Written(outData[..], inData[..], l, ox, oy)
    modifies outData
    ensures Written(outData[..], inData[..], l, ox + 1, oy)
    ensures forall i :: OutputSize(l) <= i < outData.Length ==> outData[i] == old(outData[i])
  {
    StepWritten(outData[..], inData[..], l, ox, oy);
    var sum := SumBlock(inData, l, ox, oy);
    var outBit: bv8 := if sum >= Threshold then 1 else 0;
    var bitIndex := ox % 8;
    var byteIndex := (oy * l.outRowBytes) + (ox / 8);
    if outBit != 0 {
      outData[byteIndex] := outData[byteIndex] | (1 << (7 - bitIndex));
    }
  }

  /** The `out_x` loop for block row oy. */
  method DownsampleRow(inData: array<bv8>, l: Layout, outData: array<bv8>, oy: nat)
    requires inData != outData
    requires Fits(l) && inData.Length >= InputSize(l) && outData.Length >= OutputSize(l)
    requires oy < l.outH
    requires Written(outData[..], inData[..], l, 0, oy)
    modifies outData
    ensures Written(outData[..], inData[..], l, 0, oy + 1)
    ensures forall i :: OutputSize(l) <= i < outData.Length ==> outData[i] == old(outData[i])
  {
    for ox := 0 to l.outW
      invariant Written(outData[..], inData[..], l, ox, oy)
      invariant forall i :: OutputSize(l) <= i < outData.Length ==> outData[i] == old(outData[i])
    {
      DownsampleBlock(inData, l, outData, ox, oy);
    }
    NextRowWritten(outData[..], inData[..], l, oy);
  }

  /** `downsample_1bpp_128x128_avx2`: afterwards the bit of every output
      pixel is its block's majority, the padding bits at the end of each
      output row are clear, and no byte past the output region changes. */
  method Downsample(inData: array<bv8>, inW: int, inH: int, outData: array<bv8>)
    requires inW >= 0 && inH >= 0
    requires inData.Length >= (inW / 8) * inH
    requires outData.Length >= OutputSize(LayoutOf(inW, inH))
    requires inData != outData
    modifies outData
    ensures var l := LayoutOf(inW, inH);
            forall ox: nat, oy: nat | oy < l.outH && ox < l.outW ::
              OutBit(outData[..], l, ox, oy) <==> Majority(inData[..], l, ox, oy)
    ensures var l := LayoutOf(inW, inH);
            forall ox: nat, oy: nat | oy < l.outH && l.outW <= ox < 8 * l.outRowBytes ::
              !OutBit(outData[..], l, ox, oy)
    ensures forall i :: OutputSize(LayoutOf(inW, inH)) <= i < outData.Length ==> outData[i] == old(outData[i])
  {
    var blockSize := BlockSize;
    var outW := inW / blockSize;
    var outH := inH / blockSize;
    var inRowBytes := inW / 8;
    var outRowBytes := (outW + 7) / 8;
    var l := Layout(outW, outH, inRowBytes, outRowBytes, inH);
    assert l == LayoutOf(inW, inH);
    LayoutFits(inW, inH);
    // memset(out_data, 0, out_row_bytes * out_h)
    forall i | 0 <= i < outRowBytes * outH {
      outData[i] := 0;
    }
    ZeroedIsWritten(outData[..], inData[..], l);
    for oy := 0 to outH
      invariant Written(outData[..], inData[..], l, 0, oy)
      invariant forall i :: OutputSize(l) <= i < outData.Length ==> outData[i] == old(outData[i])
    {
      DownsampleRow(inData, l, outData, oy);
    }
  }

  // ---------------------------------------------------------------------
  // The documented output size
  // ---------------------------------------------------------------------

  /** The output size the header comment gives: (in_w/128)*(in_h/128)/8
      bytes, without row padding. */
  function DocumentedSize(inW: nat, inH: nat): nat {
    ((inW / BlockSize) * (inH / BlockSize)) / 8
  }

  /** For one 128 x 128 block the comment promises 0 bytes while the code
      zeroes and writes 1. */
  lemma DocumentedSizeTooSmall()
    ensures DocumentedSize(128, 128) == 0 && OutputSize(LayoutOf(128, 128)) == 1
  {
  }

  /** The size the code uses is never smaller than the documented one, and
      holds every byte the loops write. */
  lemma OutputSizeCoversWrites(inW: nat, inH: nat, ox: nat, oy: nat)
    requires ox < inW / BlockSize && oy < inH / BlockSize
    ensures DocumentedSize(inW, inH) <= OutputSize(LayoutOf(inW, inH))
    ensures OutIndex(LayoutOf(inW, inH), ox, oy) < OutputSize(LayoutOf(inW, inH))
  {
    var l := LayoutOf(inW, inH);
    LayoutFits(inW, inH);
    OutIndexInRegion(l, ox, oy);
    assert l.outW * l.outH <= 8 * l.outRowBytes * l.outH by {
      MulMonotone(l.outW, 8 * l.outRowBytes, l.outH);
    }
  }
}
