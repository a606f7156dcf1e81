/** The text-on-path morphing algorithm shared by the 2024 and 2025 variants:
    what one glyph outline becomes (the per-verb morph) and what a whole run
    draws (the run driver), stated as functions, with the properties the
    variants promise proved about them. Each variant's imperative code is
    proved equal to these functions in its own module. */
module TextOnPath {
  import opened Common
  import opened Geometry
  import opened Paths

  // ---------------------------------------------------------------------
  // Morphing one point and one outline
  // ---------------------------------------------------------------------

  /** The arc distance handed to `getPosTan` for a point at glyph-local x:
      `min(base + x, pathLength)`. Only the upper end is clamped. */
  function ArcDistance(base: real, x: real, len: real): (d: real)
    ensures d <= len
    ensures base + x <= len ==> d == base + x
    ensures base + x > len ==> d == len
  {
    Min(base + x, len)
  }

  /** `onPath + normal * y + (0, vOffset)` for one sample of the contour. */
  function Place(s: PosTan, y: real, vOffset: real): Point {
    Add(Add(s.pos, Scale(Normal(s.tan), y)), Point(0.0, vOffset))
  }

  /** A glyph-local point placed on the curve: the contour sampled at the
      point's own arc distance, then moved along the normal by the point's y
      and down by the run's vOffset. */
  function MapPoint(posTan: real -> PosTan, base: real, len: real, vOffset: real, p: Point): Point {
    Place(posTan(ArcDistance(base, p.x, len)), p.y, vOffset)
  }

  /** The displacement of a mapped point from its (vOffset-shifted) sample is
      perpendicular to the tangent there and lies p.y tangent-lengths to its
      left; the sample is taken at the point's own x. */
  lemma MapPointOnNormal(posTan: real -> PosTan, base: real, len: real, vOffset: real, p: Point)
    ensures var s := posTan(ArcDistance(base, p.x, len));
            var disp := Sub(MapPoint(posTan, base, len, vOffset, p), Add(s.pos, Point(0.0, vOffset)));
            Dot(disp, s.tan) == 0.0 && Cross(s.tan, disp) == p.y * Norm2(s.tan)
  {
    PlaceOnNormal(posTan(ArcDistance(base, p.x, len)), p.y, vOffset);
  }

  lemma PlaceOnNormal(s: PosTan, y: real, vOffset: real)
    ensures var disp := Sub(Place(s, y, vOffset), Add(s.pos, Point(0.0, vOffset)));
            Dot(disp, s.tan) == 0.0 && Cross(s.tan, disp) == y * Norm2(s.tan)
  {
    var disp := Sub(Place(s, y, vOffset), Add(s.pos, Point(0.0, vOffset)));
    assert disp == Point(-s.tan.y * y, s.tan.x * y);
  }

  /** The calls one iterator record produces on the output path. A conic
      falls into the switch's `default` and produces nothing. */
  function MorphSeg(posTan: real -> PosTan, base: real, len: real, vOffset: real, s: Seg): (r: seq<Cmd>)
    ensures |r| == (if s.Conic? then 0 else 1)
  {
    var m := (p: Point) => MapPoint(posTan, base, len, vOffset, p);
    match s
    case Move(p0) => [MoveTo(m(p0))]
    case Line(_, p1) => [LineTo(m(p1))]
    case Quad(_, p1, p2) => [QuadTo(m(p1), m(p2))]
    case Conic(_, _, _, _) => []
    case Cubic(_, p1, p2, p3) => [CubicTo(m(p1), m(p2), m(p3))]
    case Close => [CloseCmd]
  }

  /** The morphed outline: every record's calls, in order. */
  function MorphedOutline(posTan: real -> PosTan, base: real, len: real, vOffset: real, src: seq<Seg>): (r: seq<Cmd>)
    ensures |r| <= |src|
  {
    if |src| == 0 then []
    else MorphedOutline(posTan, base, len, vOffset, src[..|src| - 1])
         + MorphSeg(posTan, base, len, vOffset, src[|src| - 1])
  }

  /** One more record of the outline adds exactly that record's calls. */
  lemma MorphedStep(posTan: real -> PosTan, base: real, len: real, vOffset: real, src: seq<Seg>, j: nat)
    requires j < |src|
    ensures MorphedOutline(posTan, base, len, vOffset, src[..j + 1])
         == MorphedOutline(posTan, base, len, vOffset, src[..j]) + MorphSeg(posTan, base, len, vOffset, src[j])
  {
    assert src[..j + 1][..j] == src[..j];
  }

  /** The morph of a concatenation is the concatenation of the morphs. */
  lemma {:induction false} MorphedAppend(posTan: real -> PosTan, base: real, len: real, vOffset: real, a: seq<Seg>, b: seq<Seg>)
    ensures MorphedOutline(posTan, base, len, vOffset, a + b)
         == MorphedOutline(posTan, base, len, vOffset, a) + MorphedOutline(posTan, base, len, vOffset, b)
    decreases |b|
  {
    if |b| == 0 {
      assert a + b == a;
    } else {
      var b' := b[..|b| - 1];
      assert (a + b)[..|a + b| - 1] == a + b';
      assert (a + b)[|a + b| - 1] == b[|b| - 1];
      MorphedAppend(posTan, base, len, vOffset, a, b');
    }
  }

  /** The morph read from the front: the first record's calls, then the rest. */
  lemma MorphedFront(posTan: real -> PosTan, base: real, len: real, vOffset: real, src: seq<Seg>)
    requires |src| > 0
    ensures MorphedOutline(posTan, base, len, vOffset, src)
         == MorphSeg(posTan, base, len, vOffset, src[0]) + MorphedOutline(posTan, base, len, vOffset, src[1..])
  {
    assert src == [src[0]] + src[1..];
    MorphedAppend(posTan, base, len, vOffset, [src[0]], src[1..]);
    assert [src[0]][..0] == [];
  }

  function NonConics(src: seq<Seg>): (r: seq<Seg>)
    ensures forall k :: 0 <= k < |r| ==> !r[k].Conic?
  {
    if |src| == 0 then []
    else NonConics(src[..|src| - 1]) + (if src[|src| - 1].Conic? then [] else [src[|src| - 1]])
  }

  /** Verb-shape preservation: the output's verb kinds are the input's, with
      conics (which the switch ignores) dropped. */
  lemma {:induction false} MorphedKinds(posTan: real -> PosTan, base: real, len: real, vOffset: real, src: seq<Seg>)
    ensures CmdKinds(MorphedOutline(posTan, base, len, vOffset, src)) == SegKinds(NonConics(src))
  {
    if |src| > 0 {
      var init, last := src[..|src| - 1], src[|src| - 1];
      MorphedKinds(posTan, base, len, vOffset, init);
      var a := MorphedOutline(posTan, base, len, vOffset, init);
      var b := MorphSeg(posTan, base, len, vOffset, last);
      CmdKindsAppend(a, b);
      SegKindsAppend(NonConics(init), if last.Conic? then [] else [last]);
      MorphSegKinds(posTan, base, len, vOffset, last);
    }
  }

  lemma MorphSegKinds(posTan: real -> PosTan, base: real, len: real, vOffset: real, s: Seg)
    ensures CmdKinds(MorphSeg(posTan, base, len, vOffset, s)) == SegKinds(if s.Conic? then [] else [s])
  {
    var out := MorphSeg(posTan, base, len, vOffset, s);
    assert |out| == (if s.Conic? then 0 else 1);
    assert !s.Conic? ==> CmdKind(out[0]) == SegKind(s);
  }

  lemma {:induction false} CmdKindsAppend(a: seq<Cmd>, b: seq<Cmd>)
    ensures CmdKinds(a + b) == CmdKinds(a) + CmdKinds(b)
  {
    assert forall k :: 0 <= k < |a + b| ==> CmdKinds(a + b)[k] == (CmdKinds(a) + CmdKinds(b))[k];
  }

  lemma {:induction false} SegKindsAppend(a: seq<Seg>, b: seq<Seg>)
    ensures SegKinds(a + b) == SegKinds(a) + SegKinds(b)
  {
    assert forall k :: 0 <= k < |a + b| ==> SegKinds(a + b)[k] == (SegKinds(a) + SegKinds(b))[k];
  }

  /** On an outline without conics the morph is one output call per input
      record, of the same kind, each made from that record alone. */
  lemma {:induction false} MorphOneForOne(posTan: real -> PosTan, base: real, len: real, vOffset: real, src: seq<Seg>)
    requires forall k :: 0 <= k < |src| ==> !src[k].Conic?
    ensures var out := MorphedOutline(posTan, base, len, vOffset, src);
            |out| == |src| &&
            forall k :: 0 <= k < |src| ==>
              CmdKind(out[k]) == SegKind(src[k]) && [out[k]] == MorphSeg(posTan, base, len, vOffset, src[k])
  {
    if |src| > 0 {
      MorphOneForOne(posTan, base, len, vOffset, src[..|src| - 1]);
    }
  }

  /** The morph only ever looks at the sampler at distances up to the path
      length: two samplers that agree there give the same outline. */
  lemma {:induction false} MorphSamplesUpToLength(f: real -> PosTan, g: real -> PosTan, base: real, len: real, vOffset: real, src: seq<Seg>)
    requires forall d :: d <= len ==> f(d) == g(d)
    ensures MorphedOutline(f, base, len, vOffset, src) == MorphedOutline(g, base, len, vOffset, src)
  {
    if |src| > 0 {
      MorphSamplesUpToLength(f, g, base, len, vOffset, src[..|src| - 1]);
      var s := src[|src| - 1];
      forall p: Point ensures MapPoint(f, base, len, vOffset, p) == MapPoint(g, base, len, vOffset, p) {
        assert f(ArcDistance(base, p.x, len)) == g(ArcDistance(base, p.x, len));
      }
    }
  }

  /** A zero tangent (a degenerate contour) adds no normal displacement: the
      point lands on the sampled position, shifted by vOffset only. */
  lemma ZeroTangentNoOffset(posTan: real -> PosTan, base: real, len: real, vOffset: real, p: Point)
    requires var t := posTan(ArcDistance(base, p.x, len)).tan; t.x == 0.0 && t.y == 0.0
    ensures MapPoint(posTan, base, len, vOffset, p)
         == Add(posTan(ArcDistance(base, p.x, len)).pos, Point(0.0, vOffset))
  {
    PlaceZeroTangent(posTan(ArcDistance(base, p.x, len)), p.y, vOffset);
  }

  lemma PlaceZeroTangent(s: PosTan, y: real, vOffset: real)
    requires s.tan.x == 0.0 && s.tan.y == 0.0
    ensures Place(s, y, vOffset) == Add(s.pos, Point(0.0, vOffset))
  {
    var n := Normal(s.tan);
    assert n.x == 0.0 && n.y == 0.0;
    assert n.x * y == 0.0 && n.y * y == 0.0;
  }

  // Straight-line regression: morphing onto a horizontal straight line is
  // ordinary horizontal layout.

  /** The sampler of the horizontal line starting at `o`. */
  function StraightLine(o: Point): real -> PosTan {
    d => PosTan(Point(o.x + d, o.y), Point(1.0, 0.0))
  }

  function TranslateCmd(s: Seg, dx: real, dy: real): seq<Cmd> {
    match s
    case Move(p0) => [MoveTo(Point(p0.x + dx, p0.y + dy))]
    case Line(_, p1) => [LineTo(Point(p1.x + dx, p1.y + dy))]
    case Quad(_, p1, p2) => [QuadTo(Point(p1.x + dx, p1.y + dy), Point(p2.x + dx, p2.y + dy))]
    case Conic(_, _, _, _) => []
    case Cubic(_, p1, p2, p3) =>
      [CubicTo(Point(p1.x + dx, p1.y + dy), Point(p2.x + dx, p2.y + dy), Point(p3.x + dx, p3.y + dy))]
    case Close => [CloseCmd]
  }

  function Translated(src: seq<Seg>, dx: real, dy: real): seq<Cmd> {
    if |src| == 0 then []
    else Translated(src[..|src| - 1], dx, dy) + TranslateCmd(src[|src| - 1], dx, dy)
  }

  lemma MapPointStraight(o: Point, base: real, len: real, vOffset: real, p: Point)
    requires base + p.x <= len
    ensures MapPoint(StraightLine(o), base, len, vOffset, p) == Point(p.x + (o.x + base), p.y + (o.y + vOffset))
  {
    assert ArcDistance(base, p.x, len) == base + p.x;
    assert StraightLine(o)(base + p.x) == PosTan(Point(o.x + (base + p.x), o.y), Point(1.0, 0.0));
    assert Scale(Normal(Point(1.0, 0.0)), p.y) == Point(0.0, p.y);
  }

  /** No mapped point of the record reaches past the path length. */
  predicate WithinLength(base: real, len: real, s: Seg) {
    forall j :: 0 <= j < |MappedPoints(s)| ==> base + MappedPoints(s)[j].x <= len
  }

  lemma MorphSegStraight(o: Point, base: real, len: real, vOffset: real, s: Seg)
    requires WithinLength(base, len, s)
    ensures MorphSeg(StraightLine(o), base, len, vOffset, s) == TranslateCmd(s, o.x + base, o.y + vOffset)
  {
    var ps := MappedPoints(s);
    match s
    case Move(p0) =>
      MapPointStraight(o, base, len, vOffset, ps[0]);
    case Line(_, p1) =>
      MapPointStraight(o, base, len, vOffset, ps[0]);
    case Quad(_, p1, p2) =>
      MapPointStraight(o, base, len, vOffset, ps[0]);
      MapPointStraight(o, base, len, vOffset, ps[1]);
    case Conic(_, _, _, _) =>
    case Cubic(_, p1, p2, p3) =>
      MapPointStraight(o, base, len, vOffset, ps[0]);
      MapPointStraight(o, base, len, vOffset, ps[1]);
      MapPointStraight(o, base, len, vOffset, ps[2]);
    case Close =>
  }

  /** If no point of the outline reaches past the end of the line, the morph
      is the outline moved by (o.x + base, o.y + vOffset). */
  lemma {:induction false} MorphOnStraightLine(o: Point, base: real, len: real, vOffset: real, src: seq<Seg>)
    requires forall k :: 0 <= k < |src| ==> WithinLength(base, len, src[k])
    ensures MorphedOutline(StraightLine(o), base, len, vOffset, src) == Translated(src, o.x + base, o.y + vOffset)
  {
    if |src| > 0 {
      var init := src[..|src| - 1];
      assert forall k :: 0 <= k < |init| ==> init[k] == src[k];
      MorphOnStraightLine(o, base, len, vOffset, init);
      MorphSegStraight(o, base, len, vOffset, src[|src| - 1]);
    }
  }

  // ---------------------------------------------------------------------
  // The run driver
  // ---------------------------------------------------------------------

  /** SkGlyphID is a 16-bit id. */
  type GlyphId = g: int | 0 <= g < 0x1_0000

  /** The font service: text to glyph ids (`countText` and `textToGlyphs`),
      advance widths (`getWidths`) and outlines (`getPath`, which may fail). */
  datatype Font = Font(
    textToGlyphs: string -> seq<GlyphId>,
    width: GlyphId -> real,
    getPath: GlyphId -> Option<seq<Seg>>)

  function Sum(s: seq<real>): real {
    if |s| == 0 then 0.0 else Sum(s[..|s| - 1]) + s[|s| - 1]
  }

  /** The cursor before glyph i: hOffset plus the advances of all glyphs
      before it, drawn or not. */
  function Cursor(advances: seq<real>, hOffset: real, i: nat): real
    requires i <= |advances|
  {
    hOffset + Sum(advances[..i])
  }

  /** Every glyph moves the cursor by exactly its own advance. */
  lemma CursorStep(advances: seq<real>, hOffset: real, i: nat)
    requires i < |advances|
    ensures Cursor(advances, hOffset, i + 1) == Cursor(advances, hOffset, i) + advances[i]
  {
    assert advances[..i + 1][..i] == advances[..i];
  }

  /** With non-negative advances the cursor never moves back. */
  lemma {:induction false} CursorMonotone(advances: seq<real>, hOffset: real, i: nat, j: nat)
    requires i <= j <= |advances|
    requires forall k :: 0 <= k < |advances| ==> advances[k] >= 0.0
    ensures Cursor(advances, hOffset, i) <= Cursor(advances, hOffset, j)
  {
    if i < j {
      CursorMonotone(advances, hOffset, i, j - 1);
      CursorStep(advances, hOffset, j - 1);
    }
  }

  /** The index of the glyph at which the run breaks: the first whose
      cursor lies past the path length, or the number of glyphs. */
  function StopIndex(advances: seq<real>, hOffset: real, len: real, from: nat): (k: nat)
    requires from <= |advances|
    ensures from <= k <= |advances|
    ensures forall j :: from <= j < k ==> Cursor(advances, hOffset, j) <= len
    ensures k < |advances| ==> Cursor(advances, hOffset, k) > len
    decreases |advances| - from
  {
    if from == |advances| || Cursor(advances, hOffset, from) > len then from
    else StopIndex(advances, hOffset, len, from + 1)
  }

  /** A glyph at or before the stop index is before it exactly when it
      exists and its cursor is still on the path. */
  lemma StopIndexFirstBreak(advances: seq<real>, hOffset: real, len: real, i: nat)
    requires i <= StopIndex(advances, hOffset, len, 0)
    ensures i < StopIndex(advances, hOffset, len, 0) <==> (i < |advances| && Cursor(advances, hOffset, i) <= len)
  {
  }

  /** The draw calls of the glyphs before index k that have outlines, each
      morphed at its own cursor. */
  function Placed(glyphs: seq<GlyphId>, advances: seq<real>, font: Font, c: Contour,
                  hOffset: real, vOffset: real, paint: Paint, k: nat): (r: seq<DrawCall>)
    requires |glyphs| == |advances| && k <= |glyphs|
  {
    if k == 0 then []
    else
      Placed(glyphs, advances, font, c, hOffset, vOffset, paint, k - 1) +
      match font.getPath(glyphs[k - 1])
      case None => []
      case Some(outline) =>
        [DrawCall(MorphedOutline(c.posTan, Cursor(advances, hOffset, k - 1), c.length, vOffset, outline), paint)]
  }

  /** Skip-but-advance: a glyph without an outline adds nothing to the log. */
  lemma PlacedSkip(glyphs: seq<GlyphId>, advances: seq<real>, font: Font, c: Contour,
                   hOffset: real, vOffset: real, paint: Paint, i: nat)
    requires |glyphs| == |advances| && i < |glyphs| && font.getPath(glyphs[i]).None?
    ensures Placed(glyphs, advances, font, c, hOffset, vOffset, paint, i + 1)
         == Placed(glyphs, advances, font, c, hOffset, vOffset, paint, i)
  {
  }

  /** A glyph with an outline adds one draw call: the outline morphed at the
      glyph's own cursor, with the run's paint. */
  lemma PlacedDraw(glyphs: seq<GlyphId>, advances: seq<real>, font: Font, c: Contour,
                   hOffset: real, vOffset: real, paint: Paint, i: nat)
    requires |glyphs| == |advances| && i < |glyphs| && font.getPath(glyphs[i]).Some?
    ensures Placed(glyphs, advances, font, c, hOffset, vOffset, paint, i + 1)
         == Placed(glyphs, advances, font, c, hOffset, vOffset, paint, i) +
            [DrawCall(MorphedOutline(c.posTan, Cursor(advances, hOffset, i), c.length, vOffset,
                                     font.getPath(glyphs[i]).value), paint)]
  {
  }

  /** Everything one run draws: nothing without a first contour, otherwise
      the outlined glyphs before the break. */
  function RunLog(glyphs: seq<GlyphId>, advances: seq<real>, font: Font, contour: Option<Contour>,
                  hOffset: real, vOffset: real, paint: Paint): (r: seq<DrawCall>)
    requires |glyphs| == |advances|
  {
    match contour
    case None => []
    case Some(c) =>
      Placed(glyphs, advances, font, c, hOffset, vOffset, paint, StopIndex(advances, hOffset, c.length, 0))
  }

  /** The advances of a glyph run, one per glyph, from a width service:
      `SkFont::getWidths` in the later variants, `SkPaint::getTextWidths` in
      the 2018 utility. */
  function Advances(width: GlyphId -> real, glyphs: seq<GlyphId>): (a: seq<real>)
    ensures |a| == |glyphs| && forall i :: 0 <= i < |glyphs| ==> a[i] == width(glyphs[i])
  {
    seq(|glyphs|, i requires 0 <= i < |glyphs| => width(glyphs[i]))
  }

  /** How many of the glyphs before index k have an outline. */
  function Outlined(glyphs: seq<GlyphId>, font: Font, k: nat): nat
    requires k <= |glyphs|
  {
    if k == 0 then 0
    else Outlined(glyphs, font, k - 1) + (if font.getPath(glyphs[k - 1]).Some? then 1 else 0)
  }

  /** The log before glyph k has one entry per outlined glyph before k; the
      glyph at index j < k, if it has an outline, is entry number
      Outlined(j), morphed at Cursor(j) and drawn with the run's paint.
      Glyphs without an outline contribute nothing. */
  lemma {:induction false} PlacedEntries(glyphs: seq<GlyphId>, advances: seq<real>, font: Font, c: Contour,
                                         hOffset: real, vOffset: real, paint: Paint, k: nat)
    requires |glyphs| == |advances| && k <= |glyphs|
    ensures var log := Placed(glyphs, advances, font, c, hOffset, vOffset, paint, k);
            |log| == Outlined(glyphs, font, k) &&
            forall j :: 0 <= j < k && font.getPath(glyphs[j]).Some? ==>
              Outlined(glyphs, font, j) < |log| &&
              log[Outlined(glyphs, font, j)] ==
                DrawCall(MorphedOutline(c.posTan, Cursor(advances, hOffset, j), c.length, vOffset,
                                        font.getPath(glyphs[j]).value), paint)
  {
    PlacedLength(glyphs, advances, font, c, hOffset, vOffset, paint, k);
    forall j | 0 <= j < k && font.getPath(glyphs[j]).Some?
      ensures var log := Placed(glyphs, advances, font, c, hOffset, vOffset, paint, k);
              Outlined(glyphs, font, j) < |log| &&
              log[Outlined(glyphs, font, j)] ==
                DrawCall(MorphedOutline(c.posTan, Cursor(advances, hOffset, j), c.length, vOffset,
                                        font.getPath(glyphs[j]).value), paint)
    {
      PlacedEntry(glyphs, advances, font, c, hOffset, vOffset, paint, j, k);
    }
  }

  lemma {:induction false} PlacedLength(glyphs: seq<GlyphId>, advances: seq<real>, font: Font, c: Contour,
                                        hOffset: real, vOffset: real, paint: Paint, k: nat)
    requires |glyphs| == |advances| && k <= |glyphs|
    ensures |Placed(glyphs, advances, font, c, hOffset, vOffset, paint, k)| == Outlined(glyphs, font, k)
  {
    if k > 0 {
      PlacedLength(glyphs, advances, font, c, hOffset, vOffset, paint, k - 1);
    }
  }

  /** The entry of one outlined glyph j in the log before glyph k > j. */
  lemma {:induction false} PlacedEntry(glyphs: seq<GlyphId>, advances: seq<real>, font: Font, c: Contour,
                                       hOffset: real, vOffset: real, paint: Paint, j: nat, k: nat)
    requires |glyphs| == |advances| && j < k <= |glyphs| && font.getPath(glyphs[j]).Some?
    ensures var log := Placed(glyphs, advances, font, c, hOffset, vOffset, paint, k);
            Outlined(glyphs, font, j) < |log| &&
            log[Outlined(glyphs, font, j)] ==
              DrawCall(MorphedOutline(c.posTan, Cursor(advances, hOffset, j), c.length, vOffset,
                                      font.getPath(glyphs[j]).value), paint)
  {
    PlacedLength(glyphs, advances, font, c, hOffset, vOffset, paint, k - 1);
    var prev := Placed(glyphs, advances, font, c, hOffset, vOffset, paint, k - 1);
    if j < k - 1 {
      PlacedEntry(glyphs, advances, font, c, hOffset, vOffset, paint, j, k - 1);
      var log := Placed(glyphs, advances, font, c, hOffset, vOffset, paint, k);
      assert log[Outlined(glyphs, font, j)] == prev[Outlined(glyphs, font, j)];
    }
  }

  /** The run as a whole: the log holds exactly the outlined glyphs before
      the stop index (in order, at prefix-sum cursors), every glyph before
      the stop index lies on the path, and the stop index is either the end
      of the run or a glyph whose cursor is past the end. Nothing is drawn
      at or after the stop index: the log length counts only glyphs before it. */
  lemma RunLogMeaning(glyphs: seq<GlyphId>, advances: seq<real>, font: Font, c: Contour,
                      hOffset: real, vOffset: real, paint: Paint)
    requires |glyphs| == |advances|
    ensures var stop := StopIndex(advances, hOffset, c.length, 0);
            var log := RunLog(glyphs, advances, font, Some(c), hOffset, vOffset, paint);
            |log| == Outlined(glyphs, font, stop) &&
            (forall j :: 0 <= j < stop ==> Cursor(advances, hOffset, j) <= c.length) &&
            (stop < |glyphs| ==> Cursor(advances, hOffset, stop) > c.length) &&
            forall j :: 0 <= j < stop && font.getPath(glyphs[j]).Some? ==>
              Outlined(glyphs, font, j) < |log| &&
              log[Outlined(glyphs, font, j)].path ==
                MorphedOutline(c.posTan, Cursor(advances, hOffset, j), c.length, vOffset, font.getPath(glyphs[j]).value)
  {
    PlacedEntries(glyphs, advances, font, c, hOffset, vOffset, paint, StopIndex(advances, hOffset, c.length, 0));
  }

  /** Without a first contour nothing is drawn. */
  lemma NoContourNoDraw(glyphs: seq<GlyphId>, advances: seq<real>, font: Font, hOffset: real, vOffset: real, paint: Paint)
    requires |glyphs| == |advances|
    ensures RunLog(glyphs, advances, font, None, hOffset, vOffset, paint) == []
  {
  }

  /** The three-glyph run whose middle glyph has no outline: exactly two
      outlines are drawn, the third at hOffset + advance0 + advance1. */
  lemma SkipButAdvanceExample(g0: GlyphId, g1: GlyphId, g2: GlyphId, font: Font, c: Contour,
                              hOffset: real, vOffset: real, paint: Paint)
    requires font.getPath(g0).Some? && font.getPath(g1).None? && font.getPath(g2).Some?
    requires var a := Advances(font.width, [g0, g1, g2]);
             hOffset + a[0] + a[1] <= c.length && hOffset <= c.length && hOffset + a[0] <= c.length
    ensures var a := Advances(font.width, [g0, g1, g2]);
            var log := RunLog([g0, g1, g2], a, font, Some(c), hOffset, vOffset, paint);
            |log| == 2 &&
            log[1].path == MorphedOutline(c.posTan, hOffset + a[0] + a[1], c.length, vOffset, font.getPath(g2).value)
  {
    var glyphs := [g0, g1, g2];
    var a := Advances(font.width, glyphs);
    CursorStep(a, hOffset, 0);
    CursorStep(a, hOffset, 1);
    assert Cursor(a, hOffset, 0) == hOffset;
    var stop := StopIndex(a, hOffset, c.length, 0);
    assert stop == 3 by {
      assert StopIndex(a, hOffset, c.length, 3) == 3;
    }
    RunLogMeaning(glyphs, a, font, c, hOffset, vOffset, paint);
  }
}
