/** The 2018 text-on-path routine of src_utils_SkTextOnPath_noIter.cpp: every
    glyph outline is mapped through a glyph matrix (text-size scale, the
    glyph's x position, an optional caller matrix) and then bent along a
    measured path; lines become quads through their midpoint, conics keep
    their weight, every glyph is visited and the run starts at an alignment
    offset. */
module TextOnPathNoIter {
  import opened Common
  import opened Geometry
  import opened Paths
  import opened TextOnPath

  // ---------------------------------------------------------------------
  // Affine matrices (`SkMatrix` without perspective)
  // ---------------------------------------------------------------------

  datatype Affine = Affine(scaleX: real, skewX: real, transX: real, skewY: real, scaleY: real, transY: real)

  function MapXY(m: Affine, p: Point): Point {
    Point(m.scaleX * p.x + m.skewX * p.y + m.transX, m.skewY * p.x + m.scaleY * p.y + m.transY)
  }

  /** `SkMatrix::MakeTrans`. */
  function Translate(dx: real, dy: real): Affine {
    Affine(1.0, 0.0, dx, 0.0, 1.0, dy)
  }

  lemma TranslateMaps(dx: real, dy: real, p: Point)
    ensures MapXY(Translate(dx, dy), p) == Point(p.x + dx, p.y + dy)
  {
    assert 0.0 * p.y == 0.0 && 0.0 * p.x == 0.0;
  }

  /** `SkMatrix::setScale`. */
  function ScaleBy(sx: real, sy: real): Affine {
    Affine(sx, 0.0, 0.0, 0.0, sy, 0.0)
  }

  lemma ScaleByMaps(sx: real, sy: real, p: Point)
    ensures MapXY(ScaleBy(sx, sy), p) == Point(sx * p.x, sy * p.y)
  {
    assert 0.0 * p.y == 0.0 && 0.0 * p.x == 0.0;
  }

  /** The matrix product a * b: map by b, then by a. */
  function Concat(a: Affine, b: Affine): Affine {
    Affine(a.scaleX * b.scaleX + a.skewX * b.skewY,
           a.scaleX * b.skewX + a.skewX * b.scaleY,
           a.scaleX * b.transX + a.skewX * b.transY + a.transX,
           a.skewY * b.scaleX + a.scaleY * b.skewY,
           a.skewY * b.skewX + a.scaleY * b.scaleY,
           a.skewY * b.transX + a.scaleY * b.transY + a.transY)
  }

  /** The product maps as the two matrices one after the other. */
  lemma ConcatMaps(a: Affine, b: Affine, p: Point)
    ensures MapXY(Concat(a, b), p) == MapXY(a, MapXY(b, p))
  {
    var q := MapXY(b, p);
    var c := Concat(a, b);
    var lhs, rhs := MapXY(c, p), MapXY(a, q);
    assert lhs.x == rhs.x by {
      RowMaps(a.scaleX, a.skewX, a.transX, b.scaleX, b.skewX, b.transX, b.skewY, b.scaleY, b.transY, p.x, p.y);
    }
    assert lhs.y == rhs.y by {
      RowMaps(a.skewY, a.scaleY, a.transY, b.scaleX, b.skewX, b.transX, b.skewY, b.scaleY, b.transY, p.x, p.y);
    }
  }

  /** One row of the product, the arithmetic behind ConcatMaps. */
  lemma RowMaps(u: real, v: real, t: real, sx: real, kx: real, tx: real, ky: real, sy: real, ty: real, x: real, y: real)
    ensures (u * sx + v * ky) * x + (u * kx + v * sy) * y + (u * tx + v * ty + t)
         == u * (sx * x + kx * y + tx) + v * (ky * x + sy * y + ty) + t
  {
    assert (u * sx + v * ky) * x == u * (sx * x) + v * (ky * x);
    assert (u * kx + v * sy) * y == u * (kx * y) + v * (sy * y);
  }

  /** `postTranslate`: the translation is applied after m. */
  function PostTranslate(m: Affine, dx: real, dy: real): Affine {
    Concat(Translate(dx, dy), m)
  }

  /** `postConcat`: `other` is applied after m. */
  function PostConcat(m: Affine, other: Affine): Affine {
    Concat(other, m)
  }

  // ---------------------------------------------------------------------
  // Morphing points and outlines
  // ---------------------------------------------------------------------

  /** `SkPathMeasure` over the follow path: its length and a sampler that
      may fail (`getPosTan` returning false, leaving its outputs alone). */
  datatype PathMeasure = PathMeasure(length: real, getPosTan: real -> Option<PosTan>)

  /** One point of `morphpoints`: the point mapped through the matrix gives
      the arc distance (its x) and the offset (its y); the position there plus
      the tangent turned a quarter and scaled by the offset. When sampling
      fails the position stays the mapped point and the tangent is zero. */
  function MorphPoint(meas: PathMeasure, matrix: Affine, p: Point): Point {
    var mapped := MapXY(matrix, p);
    var sx, sy := mapped.x, mapped.y;
    var sample := meas.getPosTan(sx);
    var pos := if sample.Some? then sample.value.pos else mapped;
    var tangent := if sample.Some? then sample.value.tan else Point(0.0, 0.0);
    Offset(pos, tangent, sy)
  }

  /** The point `sy` along the tangent turned a quarter turn from `pos`. */
  function Offset(pos: Point, tangent: Point, sy: real): Point {
    Point(pos.x - tangent.y * sy, pos.y + tangent.x * sy)
  }

  /** A sampled point lies on the normal through the sample, offset by the
      mapped y: the same placement as the later variants, without vOffset. */
  lemma MorphPointOnNormal(meas: PathMeasure, matrix: Affine, p: Point)
    requires meas.getPosTan(MapXY(matrix, p).x).Some?
    ensures var s := meas.getPosTan(MapXY(matrix, p).x).value;
            MorphPoint(meas, matrix, p) == Add(s.pos, Scale(Normal(s.tan), MapXY(matrix, p).y))
  {
  }

  /** A failed sample adds no perpendicular offset: the point is only mapped. */
  lemma MorphPointUnsampled(meas: PathMeasure, matrix: Affine, p: Point)
    requires meas.getPosTan(MapXY(matrix, p).x).None?
    ensures MorphPoint(meas, matrix, p) == MapXY(matrix, p)
  {
    var q := MapXY(matrix, p);
    assert 0.0 * q.y == 0.0;
  }

  /** `SkScalarAve`. */
  function Ave(a: real, b: real): real { (a + b) * 0.5 }

  function Midpoint(a: Point, b: Point): Point { Point(Ave(a.x, b.x), Ave(a.y, b.y)) }

  /** The calls `morphpath` makes for one record: a line becomes a quad whose
      control point is the morphed midpoint of the line; a conic keeps its
      weight. */
  function MorphRecord(meas: PathMeasure, matrix: Affine, s: Seg): (r: seq<Cmd>)
    ensures |r| == 1
  {
    match s
    case Move(p0) => [MoveTo(MorphPoint(meas, matrix, p0))]
    case Line(p0, p1) => [QuadTo(MorphPoint(meas, matrix, Midpoint(p0, p1)), MorphPoint(meas, matrix, p1))]
    case Quad(_, p1, p2) => [QuadTo(MorphPoint(meas, matrix, p1), MorphPoint(meas, matrix, p2))]
    case Conic(_, p1, p2, w) => [ConicTo(MorphPoint(meas, matrix, p1), MorphPoint(meas, matrix, p2), w)]
    case Cubic(_, p1, p2, p3) =>
      [CubicTo(MorphPoint(meas, matrix, p1), MorphPoint(meas, matrix, p2), MorphPoint(meas, matrix, p3))]
    case Close => [CloseCmd]
  }

  /** The morphed outline: every record's calls, in order. */
  function MorphOutline(meas: PathMeasure, matrix: Affine, src: seq<Seg>): (r: seq<Cmd>)
    ensures |r| == |src|
  {
    if |src| == 0 then []
    else MorphOutline(meas, matrix, src[..|src| - 1]) + MorphRecord(meas, matrix, src[|src| - 1])
  }

  /** The verb a record becomes: a line turns into a quad, all else keeps
      its kind. */
  function MorphedKind(k: VerbKind): VerbKind {
    if k == KLine then KQuad else k
  }

  /** One call per record, of the record's kind but with lines as quads;
      a conic keeps its weight. */
  lemma {:induction false} MorphOutlineShape(meas: PathMeasure, matrix: Affine, src: seq<Seg>)
    ensures var out := MorphOutline(meas, matrix, src);
            |out| == |src| &&
            forall k :: 0 <= k < |src| ==>
              CmdKind(out[k]) == MorphedKind(SegKind(src[k])) &&
              (src[k].Conic? ==> out[k].w == src[k].w)
  {
    if |src| > 0 {
      MorphOutlineShape(meas, matrix, src[..|src| - 1]);
    }
  }

  /** The sampler of the x-axis: position (d, 0), tangent (1, 0), at every
      distance. `MorphPoint` never reads the measure's length, so the length
      given here plays no part. */
  function XAxis(): PathMeasure {
    PathMeasure(0.0, d => Some(PosTan(Point(d, 0.0), Point(1.0, 0.0))))
  }

  /** On the x-axis every morphed point is just the mapped point. */
  lemma XAxisMapsOnly(matrix: Affine, p: Point)
    ensures MorphPoint(XAxis(), matrix, p) == MapXY(matrix, p)
  {
    var q := MapXY(matrix, p);
    assert 0.0 * q.y == 0.0 && 1.0 * q.y == q.y;
  }

  /** The quad that replaces a line, for any measure and matrix: its
      control point is the morph of the line's midpoint (the `srcP[0]`
      overwrite), its end point the morph of the line's end. The start point
      is the previous record's end and is not read. */
  lemma LineBecomesQuad(meas: PathMeasure, matrix: Affine, p0: Point, p1: Point)
    ensures MorphRecord(meas, matrix, Line(p0, p1))
         == [QuadTo(MorphPoint(meas, matrix, Point((p0.x + p1.x) * 0.5, (p0.y + p1.y) * 0.5)), MorphPoint(meas, matrix, p1))]
  {
  }

  /** Degree elevation of a line: on the x-axis the quad that replaces a line
      has its control point at the midpoint of its (mapped) end points, so it
      traces the same segment. */
  lemma LineBecomesMidpointQuad(matrix: Affine, p0: Point, p1: Point)
    ensures MorphRecord(XAxis(), matrix, Line(p0, p1))
         == [QuadTo(Midpoint(MapXY(matrix, p0), MapXY(matrix, p1)), MapXY(matrix, p1))]
  {
    XAxisMapsOnly(matrix, Midpoint(p0, p1));
    XAxisMapsOnly(matrix, p1);
    MapMidpoint(matrix, p0, p1);
  }

  /** An affine map keeps midpoints. */
  lemma MapMidpoint(m: Affine, p0: Point, p1: Point)
    ensures MapXY(m, Midpoint(p0, p1)) == Midpoint(MapXY(m, p0), MapXY(m, p1))
  {
    var lhs, rhs := MapXY(m, Midpoint(p0, p1)), Midpoint(MapXY(m, p0), MapXY(m, p1));
    assert lhs.x == rhs.x by { AveRow(m.scaleX, m.skewX, m.transX, p0.x, p0.y, p1.x, p1.y); }
    assert lhs.y == rhs.y by { AveRow(m.skewY, m.scaleY, m.transY, p0.x, p0.y, p1.x, p1.y); }
  }

  /** One row of MapMidpoint. */
  lemma AveRow(u: real, v: real, t: real, x0: real, y0: real, x1: real, y1: real)
    ensures u * Ave(x0, x1) + v * Ave(y0, y1) + t == Ave(u * x0 + v * y0 + t, u * x1 + v * y1 + t)
  {
    assert u * Ave(x0, x1) == (u * x0 + u * x1) * 0.5;
    assert v * Ave(y0, y1) == (v * y0 + v * y1) * 0.5;
  }

  /** `morphpoints`: dst[i] is the morph of src[srcOff + i] for i < count;
      nothing else in dst changes. */
  method MorphPoints(dst: array<Point>, src: array<Point>, srcOff: nat, count: nat, meas: PathMeasure, matrix: Affine)
    requires srcOff + count <= src.Length && count <= dst.Length && dst != src
    modifies dst
    ensures forall i :: 0 <= i < count ==> dst[i] == MorphPoint(meas, matrix, src[srcOff + i])
    ensures forall i :: count <= i < dst.Length ==> dst[i] == old(dst[i])
  {
    for i := 0 to count
      invariant forall j :: 0 <= j < i ==> dst[j] == MorphPoint(meas, matrix, src[srcOff + j])
      invariant forall j :: i <= j < dst.Length ==> dst[j] == old(dst[j])
    {
      var mapped := MapXY(matrix, src[srcOff + i]);
      var sx, sy := mapped.x, mapped.y;
      var pos, tangent := mapped, Point(0.0, 0.0);
      var sample := meas.getPosTan(sx);
      if sample.Some? {
        pos, tangent := sample.value.pos, sample.value.tan;
      }
      var morphed := Offset(pos, tangent, sy);
      assert morphed == MorphPoint(meas, matrix, src[srcOff + i]);
      dst[i] := morphed;
    }
  }

  /** `iter.next(srcP)`: the record's points land in srcP from index 0; the
      rest of srcP is left as it was. */
  method NextInto(srcP: array<Point>, s: Seg)
    requires srcP.Length == 4
    modifies srcP
    ensures forall k :: 0 <= k < |SegPoints(s)| ==> srcP[k] == SegPoints(s)[k]
    ensures forall k :: |SegPoints(s)| <= k < 4 ==> srcP[k] == old(srcP[k])
  {
    var ps := SegPoints(s);
    for k := 0 to |ps|
      invariant forall j :: 0 <= j < k ==> srcP[j] == ps[j]
      invariant forall j :: k <= j < 4 ==> srcP[j] == old(srcP[j])
    {
      srcP[k] := ps[k];
    }
  }

  /** The body of `morphpath`'s `switch` for one record, working through the
      four-point source buffer and the three-point destination buffer. */
  method MorphRecordInto(dst: Path, srcP: array<Point>, dstP: array<Point>, s: Seg, meas: PathMeasure, matrix: Affine)
    requires srcP.Length == 4 && dstP.Length == 3 && srcP != dstP
    modifies dst, srcP, dstP
    ensures dst.cmds == old(dst.cmds) + MorphRecord(meas, matrix, s)
  {
    NextInto(srcP, s);
    match s {
      case Move(_) =>
        MorphPoints(dstP, srcP, 0, 1, meas, matrix);
        dst.MoveTo(dstP[0]);
      case Line(_, _) =>
        srcP[0] := Point(Ave(srcP[0].x, srcP[1].x), Ave(srcP[0].y, srcP[1].y));
        MorphPoints(dstP, srcP, 0, 2, meas, matrix);
        dst.QuadTo(dstP[0], dstP[1]);
      case Quad(_, _, _) =>
        MorphPoints(dstP, srcP, 1, 2, meas, matrix);
        dst.QuadTo(dstP[0], dstP[1]);
      case Conic(_, _, _, w) =>
        MorphPoints(dstP, srcP, 1, 2, meas, matrix);
        dst.ConicTo(dstP[0], dstP[1], w);
      case Cubic(_, _, _, _) =>
        MorphPoints(dstP, srcP, 1, 3, meas, matrix);
        dst.CubicTo(dstP[0], dstP[1], dstP[2]);
      case Close =>
        dst.Close();
    }
  }

  /** `morphpath`: appends the morph of every record of `src` to `dst`. */
  method MorphPath(dst: Path, src: seq<Seg>, meas: PathMeasure, matrix: Affine)
    modifies dst
    ensures dst.cmds == old(dst.cmds) + MorphOutline(meas, matrix, src)
  {
    var srcP := new Point[4];
    var dstP := new Point[3];
    ghost var before := dst.cmds;
    var k := 0;
    while k < |src|
      invariant 0 <= k <= |src|
      invariant dst.cmds == before + MorphOutline(meas, matrix, src[..k])
    {
      assert src[..k + 1][..k] == src[..k];
      MorphRecordInto(dst, srcP, dstP, src[k], meas, matrix);
      k := k + 1;
    }
    assert src[..|src|] == src;
  }

  // ---------------------------------------------------------------------
  // The text run
  // ---------------------------------------------------------------------

  /** `SkTypeface`: outlines in font units (`getPath`, empty when it fails)
      and the units per em, positive here. */
  type UnitsPerEm = u: int | u > 0 witness 1

  datatype Typeface = Typeface(getPath: GlyphId -> seq<Seg>, unitsPerEm: UnitsPerEm)

  datatype Align = LeftAlign | CenterAlign | RightAlign

  /** The parts of the 2018 `SkPaint` the routine reads: the text encoder
      (bytes to glyph ids), the advance width of a glyph id, text size and alignment, the
      typeface (none when the paint has none), the paint's own outline
      service `getTextPath`, and the paint handed on to `drawPath`. */
  datatype TextPaint = TextPaint(
    textToGlyphs: seq<bv8> -> seq<GlyphId>,
    width: GlyphId -> real,
    textSize: real,
    align: Align,
    typeface: Option<Typeface>,
    textPath: GlyphId -> seq<Seg>,
    drawPaint: Paint)

  /** What the visitor receives: the morphed glyph paths in the order it is
      called, or the null dereference of a missing typeface. */
  datatype VisitOutcome = Visited(paths: seq<seq<Cmd>>) | NullTypefaceDereference

  /** `textToGlyphsAndAdvances`: the glyphs of the text and one advance per
      glyph, its width. `getTextWidths` reads the glyph buffer in the paint's
      text encoding; this is one width per glyph when that encoding is glyph
      IDs, which the model takes it to be. */
  method TextToGlyphsAndAdvances(text: seq<bv8>, paint: TextPaint) returns (glyphs: seq<GlyphId>, advances: seq<real>)
    ensures glyphs == paint.textToGlyphs(text)
    ensures advances == Advances(paint.width, glyphs)
  {
    glyphs := paint.textToGlyphs(text);
    advances := seq(|glyphs|, i requires 0 <= i < |glyphs| => paint.width(glyphs[i]));
  }

  /** The `totalAdvance` loop: the sum of all advances. */
  method TotalAdvance(advances: seq<real>) returns (total: real)
    ensures total == Sum(advances)
  {
    total := 0.0;
    for k := 0 to |advances|
      invariant total == Sum(advances[..k])
    {
      assert advances[..k + 1][..k] == advances[..k];
      total := total + advances[k];
    }
    assert advances[..|advances|] == advances;
  }

  /** The start offset for the alignment: left starts at 0, right ends the
      run at the path's end, centre leaves equal room before and after. */
  function AlignOffset(align: Align, pathLen: real, total: real): (h: real)
    ensures align == LeftAlign ==> h == 0.0
    ensures align == RightAlign ==> h + total == pathLen
    ensures align == CenterAlign ==> h == pathLen - (h + total)
  {
    match align
    case CenterAlign => (pathLen - total) / 2.0
    case RightAlign => pathLen - total
    case LeftAlign => 0.0
  }

  /** Font units to text size: `textSize / unitsPerEm`. */
  function GlyphScale(paint: TextPaint, tf: Typeface): real {
    paint.textSize / (tf.unitsPerEm as real)
  }

  /** The glyph matrix: scale, then move to the glyph's position, then the
      caller's matrix if one is given. */
  function GlyphMatrix(scale: real, xpos: real, matrix: Option<Affine>): Affine {
    var placed := PostTranslate(ScaleBy(scale, scale), xpos, 0.0);
    if matrix.Some? then PostConcat(placed, matrix.value) else placed
  }

  /** A font-unit point is scaled, shifted right by the glyph's position,
      and then mapped by the caller's matrix. */
  lemma GlyphMatrixMaps(scale: real, xpos: real, matrix: Option<Affine>, p: Point)
    ensures var placed := Point(scale * p.x + xpos, scale * p.y);
            MapXY(GlyphMatrix(scale, xpos, matrix), p) == if matrix.Some? then MapXY(matrix.value, placed) else placed
  {
    var placed := PostTranslate(ScaleBy(scale, scale), xpos, 0.0);
    assert placed == Affine(scale, 0.0, xpos, 0.0, scale, 0.0) by {
      assert 1.0 * scale + 0.0 * 0.0 == scale && 1.0 * 0.0 + 0.0 * scale == 0.0;
      assert 1.0 * 0.0 + 0.0 * 0.0 + xpos == xpos && 0.0 * 0.0 + 1.0 * 0.0 + 0.0 == 0.0;
      assert 0.0 * scale + 1.0 * 0.0 == 0.0 && 0.0 * 0.0 + 1.0 * scale == scale;
    }
    var q := MapXY(placed, p);
    assert q.x == scale * p.x + xpos && q.y == scale * p.y by {
      assert 0.0 * p.y == 0.0 && 0.0 * p.x == 0.0;
    }
    if matrix.Some? {
      ConcatMaps(matrix.value, placed, p);
    }
  }

  /** The path handed to the visitor for glyph i. */
  function GlyphVisit(tf: Typeface, scale: real, glyphs: seq<GlyphId>, advances: seq<real>, hOffset: real,
                      meas: PathMeasure, matrix: Option<Affine>, i: nat): seq<Cmd>
    requires i < |glyphs| && |advances| == |glyphs|
  {
    MorphOutline(meas, GlyphMatrix(scale, Cursor(advances, hOffset, i), matrix), tf.getPath(glyphs[i]))
  }

  /** The visits for the first n glyphs. */
  function Visits(tf: Typeface, scale: real, glyphs: seq<GlyphId>, advances: seq<real>, hOffset: real,
                  meas: PathMeasure, matrix: Option<Affine>, n: nat): seq<seq<Cmd>>
    requires n <= |glyphs| && |advances| == |glyphs|
  {
    if n == 0 then []
    else Visits(tf, scale, glyphs, advances, hOffset, meas, matrix, n - 1)
         + [GlyphVisit(tf, scale, glyphs, advances, hOffset, meas, matrix, n - 1)]
  }

  /** What the routine hands the visitor for `text`: nothing for empty
      text; the null dereference when there is a glyph but no typeface;
      otherwise one visit per glyph starting at the alignment offset. */
  function VisitRun(text: seq<bv8>, paint: TextPaint, meas: PathMeasure, matrix: Option<Affine>): VisitOutcome {
    if |text| == 0 then Visited([])
    else
      var glyphs := paint.textToGlyphs(text);
      var advances := Advances(paint.width, glyphs);
      var hOffset := AlignOffset(paint.align, meas.length, Sum(advances));
      if |glyphs| == 0 then Visited([])
      else if paint.typeface.None? then NullTypefaceDereference
      else
        var tf := paint.typeface.value;
        Visited(Visits(tf, GlyphScale(paint, tf), glyphs, advances, hOffset, meas, matrix, |glyphs|))
  }

  /** Every glyph is visited exactly once, in text order, at its prefix-sum
      cursor; unlike the later variants the run does not stop at the end of
      the path. */
  lemma {:induction false} VisitsEveryGlyph(tf: Typeface, scale: real, glyphs: seq<GlyphId>, advances: seq<real>,
                                            hOffset: real, meas: PathMeasure, matrix: Option<Affine>, n: nat)
    requires n <= |glyphs| && |advances| == |glyphs|
    ensures var v := Visits(tf, scale, glyphs, advances, hOffset, meas, matrix, n);
            |v| == n &&
            forall i :: 0 <= i < n ==> v[i] == GlyphVisit(tf, scale, glyphs, advances, hOffset, meas, matrix, i)
  {
    if n > 0 {
      VisitsEveryGlyph(tf, scale, glyphs, advances, hOffset, meas, matrix, n - 1);
    }
  }

  /** A glyph point is sampled at its glyph's cursor plus its scaled x,
      with no clamp to the path length, and lands on the normal scaled by its
      scaled y. */
  lemma GlyphPointOnNormal(meas: PathMeasure, scale: real, xpos: real, p: Point)
    requires meas.getPosTan(scale * p.x + xpos).Some?
    ensures var s := meas.getPosTan(scale * p.x + xpos).value;
            MorphPoint(meas, GlyphMatrix(scale, xpos, None), p) == Add(s.pos, Scale(Normal(s.tan), scale * p.y))
  {
    GlyphMatrixMaps(scale, xpos, None, p);
    MorphPointOnNormal(meas, GlyphMatrix(scale, xpos, None), p);
  }

  /** The `HV` entry point's matrix `MakeTrans(h, v)`: h moves every point
      further along the path and v further along the normal. */
  lemma HVShiftsAlongAndAcross(meas: PathMeasure, scale: real, xpos: real, h: real, v: real, p: Point)
    requires meas.getPosTan(scale * p.x + xpos + h).Some?
    ensures var s := meas.getPosTan(scale * p.x + xpos + h).value;
            MorphPoint(meas, GlyphMatrix(scale, xpos, Some(Translate(h, v))), p)
              == Add(s.pos, Scale(Normal(s.tan), scale * p.y + v))
  {
    var m := GlyphMatrix(scale, xpos, Some(Translate(h, v)));
    GlyphMatrixMaps(scale, xpos, Some(Translate(h, v)), p);
    assert MapXY(m, p) == Point(scale * p.x + xpos + h, scale * p.y + v);
    MorphPointOnNormal(meas, m, p);
  }

  /** One pass of the glyph loop before the visitor call: the outline (from
      the typeface, or from the paint when there is none), the glyph
      matrix, whose scale dereferences the typeface, and the morph. `None`
      is that dereference failing. */
  method MorphGlyph(paint: TextPaint, meas: PathMeasure, matrix: Option<Affine>, glyph: GlyphId, xpos: real)
    returns (morphed: Option<seq<Cmd>>)
    ensures paint.typeface.None? ==> morphed.None?
    ensures paint.typeface.Some? ==>
              var tf := paint.typeface.value;
              morphed == Some(MorphOutline(meas, GlyphMatrix(GlyphScale(paint, tf), xpos, matrix), tf.getPath(glyph)))
  {
    var glyphPath: seq<Seg>;
    if paint.typeface.Some? {
      glyphPath := paint.typeface.value.getPath(glyph);
    } else {
      glyphPath := paint.textPath(glyph);
    }
    if paint.typeface.None? {
      return None;
    }
    var scale := paint.textSize / (paint.typeface.value.unitsPerEm as real);
    var glyphMatrix := ScaleBy(scale, scale);
    glyphMatrix := PostTranslate(glyphMatrix, xpos, 0.0);
    if matrix.Some? {
      glyphMatrix := PostConcat(glyphMatrix, matrix.value);
    }
    var morphedPath := new Path();
    MorphPath(morphedPath, glyphPath, meas, glyphMatrix);
    assert morphedPath.cmds == MorphOutline(meas, glyphMatrix, glyphPath);
    return Some(morphedPath.cmds);
  }

  /** `SkVisitTextOnPath_noIter`: the visitor receives exactly what VisitRun
      says, in order. */
  method VisitTextOnPath(text: seq<bv8>, paint: TextPaint, meas: PathMeasure, matrix: Option<Affine>)
    returns (outcome: VisitOutcome)
    ensures outcome == VisitRun(text, paint, meas, matrix)
  {
    if |text| == 0 {
      return Visited([]);
    }
    var glyphs, advances := TextToGlyphsAndAdvances(text, paint);
    assert advances == Advances(paint.width, glyphs);
    var totalAdvance := TotalAdvance(advances);
    var pathLen := meas.length;
    var hOffset := 0.0;
    match paint.align {
      case CenterAlign => hOffset := (pathLen - totalAdvance) / 2.0;
      case RightAlign => hOffset := pathLen - totalAdvance;
      case LeftAlign =>
    }
    assert hOffset == AlignOffset(paint.align, meas.length, Sum(advances));
    var xpos := hOffset;
    var visited: seq<seq<Cmd>> := [];
    for i := 0 to |glyphs|
      invariant xpos == Cursor(advances, hOffset, i)
      invariant paint.typeface.None? ==> i == 0 && visited == []
      invariant paint.typeface.Some? ==>
                  var tf := paint.typeface.value;
                  visited == Visits(tf, GlyphScale(paint, tf), glyphs, advances, hOffset, meas, matrix, i)
    {
      var morphed := MorphGlyph(paint, meas, matrix, glyphs[i], xpos);
      if morphed.None? {
        return NullTypefaceDereference;
      }
      visited := visited + [morphed.value];
      CursorStep(advances, hOffset, i);
      xpos := xpos + advances[i];
    }
    return Visited(visited);
  }

  /** The canvas calls for a sequence of visited paths. */
  function DrawCalls(paths: seq<seq<Cmd>>, paint: Paint): (log: seq<DrawCall>)
    ensures |log| == |paths| && forall i :: 0 <= i < |paths| ==> log[i] == DrawCall(paths[i], paint)
  {
    seq(|paths|, i requires 0 <= i < |paths| => DrawCall(paths[i], paint))
  }

  /** `SkDrawTextOnPath_noIter`: the visitor draws each path with the paint.
      The canvas gets one call per visited path; on the null dereference it
      gets none and `crashed` is set. */
  method DrawTextOnPath(canvas: Canvas, text: seq<bv8>, paint: TextPaint, meas: PathMeasure, matrix: Option<Affine>)
    returns (crashed: bool)
    modifies canvas
    ensures crashed <==> VisitRun(text, paint, meas, matrix).NullTypefaceDereference?
    ensures canvas.log == old(canvas.log) +
              (if crashed then [] else DrawCalls(VisitRun(text, paint, meas, matrix).paths, paint.drawPaint))
  {
    var outcome := VisitTextOnPath(text, paint, meas, matrix);
    if outcome.NullTypefaceDereference? {
      return true;
    }
    var paths := outcome.paths;
    for i := 0 to |paths|
      invariant canvas.log == old(canvas.log) + DrawCalls(paths[..i], paint.drawPaint)
    {
      assert DrawCalls(paths[..i + 1], paint.drawPaint) == DrawCalls(paths[..i], paint.drawPaint) + [DrawCall(paths[i], paint.drawPaint)];
      canvas.DrawPath(paths[i], paint.drawPaint);
    }
    assert paths[..|paths|] == paths;
    return false;
  }

  /** `SkDrawTextOnPathHV_noIter`: the draw with the translation (h, v) as
      the caller's matrix. */
  method DrawTextOnPathHV(canvas: Canvas, text: seq<bv8>, paint: TextPaint, meas: PathMeasure, h: real, v: real)
    returns (crashed: bool)
    modifies canvas
    ensures var run := VisitRun(text, paint, meas, Some(Translate(h, v)));
            (crashed <==> run.NullTypefaceDereference?) &&
            canvas.log == old(canvas.log) + (if crashed then [] else DrawCalls(run.paths, paint.drawPaint))
  {
    var matrix := Translate(h, v);
    crashed := DrawTextOnPath(canvas, text, paint, meas, Some(matrix));
  }
}
