/** `morphPathOnCurve` and `drawTextOnPathMorphing` as written in
    draw_text_on_path_morphing_skia2024.cpp: the 2024 demo's morph and driver,
    with one more local in the morph, `lastPt` (the last glyph-local end
    point), that is written and never read. The body of the morph loop's
    `switch` is a method of its own here. */
module Skia2024 {
  import opened Common
  import opened Geometry
  import opened Paths
  import opened TextOnPath

  /** One iterator record: each mapped point sampled at
      `min(baseDistance + x, pathLength)`; the call of the record's own kind is
      appended to `dst`; a conic falls into `default`. What is appended does
      not depend on the incoming `lastPt`, which is only overwritten. */
  method MorphVerb(dst: Path, measure: Contour, baseDistance: real, pathLength: real, vOffset: real, s: Seg,
                   lastPt: Point)
    returns (lastPt': Point)
    modifies dst
    ensures dst.cmds == old(dst.cmds) + MorphSeg(measure.posTan, baseDistance, pathLength, vOffset, s)
    ensures lastPt' == EndPoint(s, lastPt)
  {
    lastPt' := lastPt;
    match s {
      case Move(p0) =>
        var arcDist := Min(baseDistance + p0.x, pathLength);
        var onPath, tangent := measure.posTan(arcDist).pos, measure.posTan(arcDist).tan;
        var normal := Normal(tangent);
        var morphed := Add(Add(onPath, Scale(normal, p0.y)), Point(0.0, vOffset));
        assert morphed == MapPoint(measure.posTan, baseDistance, pathLength, vOffset, p0);
        dst.MoveTo(morphed);
        lastPt' := p0;
      case Line(_, p1) =>
        var arcDist := Min(baseDistance + p1.x, pathLength);
        var onPath, tangent := measure.posTan(arcDist).pos, measure.posTan(arcDist).tan;
        var normal := Normal(tangent);
        var morphed := Add(Add(onPath, Scale(normal, p1.y)), Point(0.0, vOffset));
        assert morphed == MapPoint(measure.posTan, baseDistance, pathLength, vOffset, p1);
        dst.LineTo(morphed);
        lastPt' := p1;
      case Quad(_, p1, p2) =>
        var arcDist1 := Min(baseDistance + p1.x, pathLength);
        var arcDist2 := Min(baseDistance + p2.x, pathLength);
        var onPath1, tangent1 := measure.posTan(arcDist1).pos, measure.posTan(arcDist1).tan;
        var onPath2, tangent2 := measure.posTan(arcDist2).pos, measure.posTan(arcDist2).tan;
        var normal1, normal2 := Normal(tangent1), Normal(tangent2);
        var morphed1 := Add(Add(onPath1, Scale(normal1, p1.y)), Point(0.0, vOffset));
        assert morphed1 == MapPoint(measure.posTan, baseDistance, pathLength, vOffset, p1);
        var morphed2 := Add(Add(onPath2, Scale(normal2, p2.y)), Point(0.0, vOffset));
        assert morphed2 == MapPoint(measure.posTan, baseDistance, pathLength, vOffset, p2);
        dst.QuadTo(morphed1, morphed2);
        lastPt' := p2;
      case Cubic(_, p1, p2, p3) =>
        var arcDist1 := Min(baseDistance + p1.x, pathLength);
        var arcDist2 := Min(baseDistance + p2.x, pathLength);
        var arcDist3 := Min(baseDistance + p3.x, pathLength);
        var onPath1, tangent1 := measure.posTan(arcDist1).pos, measure.posTan(arcDist1).tan;
        var onPath2, tangent2 := measure.posTan(arcDist2).pos, measure.posTan(arcDist2).tan;
        var onPath3, tangent3 := measure.posTan(arcDist3).pos, measure.posTan(arcDist3).tan;
        var normal1, normal2, normal3 := Normal(tangent1), Normal(tangent2), Normal(tangent3);
        var morphed1 := Add(Add(onPath1, Scale(normal1, p1.y)), Point(0.0, vOffset));
        assert morphed1 == MapPoint(measure.posTan, baseDistance, pathLength, vOffset, p1);
        var morphed2 := Add(Add(onPath2, Scale(normal2, p2.y)), Point(0.0, vOffset));
        assert morphed2 == MapPoint(measure.posTan, baseDistance, pathLength, vOffset, p2);
        var morphed3 := Add(Add(onPath3, Scale(normal3, p3.y)), Point(0.0, vOffset));
        assert morphed3 == MapPoint(measure.posTan, baseDistance, pathLength, vOffset, p3);
        dst.CubicTo(morphed1, morphed2, morphed3);
        lastPt' := p3;
      case Close =>
        dst.Close();
      case Conic(_, _, _, _) =>
    }
  }

  /** `morphPathOnCurve`: appends the reference morph of `src` to `dst`, and
      changes nothing else. */
  method MorphPathOnCurve(src: seq<Seg>, dst: Path, measure: Contour, baseDistance: real, pathLength: real, vOffset: real)
    modifies dst
    ensures dst.cmds == old(dst.cmds) + MorphedOutline(measure.posTan, baseDistance, pathLength, vOffset, src)
  {
    var lastPt := Point(0.0, 0.0);
    var k := 0;
    ghost var before := dst.cmds;
    while k < |src|
      invariant 0 <= k <= |src|
      invariant dst.cmds == before + MorphedOutline(measure.posTan, baseDistance, pathLength, vOffset, src[..k])
    {
      MorphedStep(measure.posTan, baseDistance, pathLength, vOffset, src, k);
      lastPt := MorphVerb(dst, measure, baseDistance, pathLength, vOffset, src[k], lastPt);
      k := k + 1;
    }
    assert src[..|src|] == src;
  }

  /** `drawTextOnPathMorphing`: the canvas receives exactly the reference run
      log; an empty glyph run and a missing contour both draw nothing. */
  method DrawTextOnPathMorphing(canvas: Canvas, text: string, font: Font, contour: Option<Contour>,
                                hOffset: real, vOffset: real, paint: Paint)
    modifies canvas
    ensures var glyphs := font.textToGlyphs(text);
            canvas.log == old(canvas.log) + RunLog(glyphs, Advances(font.width, glyphs), font, contour, hOffset, vOffset, paint)
  {
    var glyphs := font.textToGlyphs(text);
    var glyphCount := |glyphs|;
    if glyphCount <= 0 {
      return;
    }
    var advances := Advances(font.width, glyphs);
    if contour.None? {
      return;
    }
    var c := contour.value;
    var pathLength := c.length;
    ghost var stop := StopIndex(advances, hOffset, pathLength, 0);

    var distance := hOffset;
    var i := 0;
    while i < glyphCount
      invariant 0 <= i <= stop
      invariant distance == Cursor(advances, hOffset, i)
      invariant canvas.log == old(canvas.log) + Placed(glyphs, advances, font, c, hOffset, vOffset, paint, i)
    {
      StopIndexFirstBreak(advances, hOffset, pathLength, i);
      if distance > pathLength {
        break;
      }
      CursorStep(advances, hOffset, i);
      var glyphPath := font.getPath(glyphs[i]);
      if glyphPath.None? {
        PlacedSkip(glyphs, advances, font, c, hOffset, vOffset, paint, i);
        distance := distance + advances[i];
        i := i + 1;
        continue;
      }
      PlacedDraw(glyphs, advances, font, c, hOffset, vOffset, paint, i);
      var morphedPath := new Path();
      MorphPathOnCurve(glyphPath.value, morphedPath, c, distance, pathLength, vOffset);
      assert morphedPath.cmds == MorphedOutline(c.posTan, distance, pathLength, vOffset, glyphPath.value);
      canvas.DrawPath(morphedPath.cmds, paint);
      distance := distance + advances[i];
      i := i + 1;
    }
  }
}
