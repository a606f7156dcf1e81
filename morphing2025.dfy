/** `DrawTextOnPath_Morphing2025` as written in DrawTextOnPath_Morphing2025.cpp:
    the driver and nested builder loop of main.cpp, with two more locals,
    `lastMoveTo` (the last morphed move point) and `lastPt` (the last
    glyph-local end point), that are written and never read. The nested loop
    and the body of its `switch` are methods of their own here. */
module Morphing2025 {
  import opened Common
  import opened Geometry
  import opened Paths
  import opened TextOnPath

  /** The body of the verb loop's `switch` for one iterator record: every
      mapped point is sampled at `distance + x`, clamped above by `if`, and
      the builder call of the record's own kind is made. A conic falls into
      `default` and adds nothing. The builder's new contents do not depend on
      the incoming `lastMoveTo` and `lastPt`: those are only overwritten. */
  method MorphVerb(builder: Path, posTan: real -> PosTan, distance: real, pathLength: real, vOffset: real, s: Seg,
                   lastMoveTo: Point, lastPt: Point)
    returns (lastMoveTo': Point, lastPt': Point)
    modifies builder
    ensures builder.cmds == old(builder.cmds) + MorphSeg(posTan, distance, pathLength, vOffset, s)
    ensures lastMoveTo' == if s.Move? then MapPoint(posTan, distance, pathLength, vOffset, s.p0) else lastMoveTo
    ensures lastPt' == EndPoint(s, lastPt)
  {
    lastMoveTo', lastPt' := lastMoveTo, lastPt;
    match s {
      case Move(p) =>
        var arcDist := distance + p.x;
        if arcDist > pathLength { arcDist := pathLength; }
        var onPath, tangent := posTan(arcDist).pos, posTan(arcDist).tan;
        var normal := Normal(tangent);
        var morphedPt := Add(Add(onPath, Scale(normal, p.y)), Point(0.0, vOffset));
        assert morphedPt == MapPoint(posTan, distance, pathLength, vOffset, p);
        builder.MoveTo(morphedPt);
        lastMoveTo' := morphedPt;
        lastPt' := p;
      case Line(_, p) =>
        var arcDist := distance + p.x;
        if arcDist > pathLength { arcDist := pathLength; }
        var onPath, tangent := posTan(arcDist).pos, posTan(arcDist).tan;
        var normal := Normal(tangent);
        var morphedPt := Add(Add(onPath, Scale(normal, p.y)), Point(0.0, vOffset));
        assert morphedPt == MapPoint(posTan, distance, pathLength, vOffset, p);
        builder.LineTo(morphedPt);
        lastPt' := p;
      case Quad(_, cp, ep) =>
        var arcDist1 := distance + cp.x;
        var arcDist2 := distance + ep.x;
        if arcDist1 > pathLength { arcDist1 := pathLength; }
        if arcDist2 > pathLength { arcDist2 := pathLength; }
        var onPath1, tangent1 := posTan(arcDist1).pos, posTan(arcDist1).tan;
        var onPath2, tangent2 := posTan(arcDist2).pos, posTan(arcDist2).tan;
        var normal1, normal2 := Normal(tangent1), Normal(tangent2);
        var morphedCp := Add(Add(onPath1, Scale(normal1, cp.y)), Point(0.0, vOffset));
        assert morphedCp == MapPoint(posTan, distance, pathLength, vOffset, cp);
        var morphedEp := Add(Add(onPath2, Scale(normal2, ep.y)), Point(0.0, vOffset));
        assert morphedEp == MapPoint(posTan, distance, pathLength, vOffset, ep);
        builder.QuadTo(morphedCp, morphedEp);
        lastPt' := ep;
      case Cubic(_, cp1, cp2, ep) =>
        var arcDist1 := distance + cp1.x;
        var arcDist2 := distance + cp2.x;
        var arcDist3 := distance + ep.x;
        if arcDist1 > pathLength { arcDist1 := pathLength; }
        if arcDist2 > pathLength { arcDist2 := pathLength; }
        if arcDist3 > pathLength { arcDist3 := pathLength; }
        var onPath1, tangent1 := posTan(arcDist1).pos, posTan(arcDist1).tan;
        var onPath2, tangent2 := posTan(arcDist2).pos, posTan(arcDist2).tan;
        var onPath3, tangent3 := posTan(arcDist3).pos, posTan(arcDist3).tan;
        var normal1, normal2, normal3 := Normal(tangent1), Normal(tangent2), Normal(tangent3);
        var morphedCp1 := Add(Add(onPath1, Scale(normal1, cp1.y)), Point(0.0, vOffset));
        assert morphedCp1 == MapPoint(posTan, distance, pathLength, vOffset, cp1);
        var morphedCp2 := Add(Add(onPath2, Scale(normal2, cp2.y)), Point(0.0, vOffset));
        assert morphedCp2 == MapPoint(posTan, distance, pathLength, vOffset, cp2);
        var morphedEp := Add(Add(onPath3, Scale(normal3, ep.y)), Point(0.0, vOffset));
        assert morphedEp == MapPoint(posTan, distance, pathLength, vOffset, ep);
        builder.CubicTo(morphedCp1, morphedCp2, morphedEp);
        lastPt' := ep;
      case Close =>
        builder.Close();
      case Conic(_, _, _, _) =>
    }
  }

  /** The verb loop for one glyph: a fresh builder receives the morph of
      every iterator record in order and is then detached. The detached path
      is the reference morph of the whole outline. */
  method MorphGlyph(posTan: real -> PosTan, distance: real, pathLength: real, vOffset: real, src: seq<Seg>)
    returns (morphedPath: seq<Cmd>)
    ensures morphedPath == MorphedOutline(posTan, distance, pathLength, vOffset, src)
  {
    var builder := new Path();
    var lastMoveTo := Point(0.0, 0.0);
    var lastPt := Point(0.0, 0.0);
    var j := 0;
    while j < |src|
      invariant 0 <= j <= |src|
      invariant builder.cmds == MorphedOutline(posTan, distance, pathLength, vOffset, src[..j])
    {
      MorphedStep(posTan, distance, pathLength, vOffset, src, j);
      lastMoveTo, lastPt := MorphVerb(builder, posTan, distance, pathLength, vOffset, src[j], lastMoveTo, lastPt);
      j := j + 1;
    }
    assert src[..|src|] == src;
    morphedPath := builder.Detach();
  }

  /** Draws the run `text` along the first contour (`None` when the guide
      path has none). The canvas receives exactly the reference run log:
      nothing without a contour; otherwise one morphed outline per outlined
      glyph before the first glyph whose cursor passes the path length, each
      at its prefix-sum cursor, and nothing else. */
  method DrawTextOnPathMorphing2025(canvas: Canvas, text: string, font: Font, contour: Option<Contour>,
                                    hOffset: real, vOffset: real, paint: Paint)
    modifies canvas
    ensures var glyphs := font.textToGlyphs(text);
            canvas.log == old(canvas.log) + RunLog(glyphs, Advances(font.width, glyphs), font, contour, hOffset, vOffset, paint)
  {
    var glyphs := font.textToGlyphs(text);
    var glyphCount := |glyphs|;
    var advances := Advances(font.width, glyphs);
    if contour.None? {
      return;
    }
    var c := contour.value;
    var pathLength := c.length;
    ghost var stop := StopIndex(advances, hOffset, pathLength, 0);

    var distance := hOffset;
    var i := 0;
    while i < glyphCount
      invariant 0 <= i <= stop
      invariant distance == Cursor(advances, hOffset, i)
      invariant canvas.log == old(canvas.log) + Placed(glyphs, advances, font, c, hOffset, vOffset, paint, i)
    {
      StopIndexFirstBreak(advances, hOffset, pathLength, i);
      if distance > pathLength {
        break;
      }
      CursorStep(advances, hOffset, i);
      var glyphPath := font.getPath(glyphs[i]);
      if glyphPath.None? {
        PlacedSkip(glyphs, advances, font, c, hOffset, vOffset, paint, i);
        distance := distance + advances[i];
        i := i + 1;
        continue;
      }
      PlacedDraw(glyphs, advances, font, c, hOffset, vOffset, paint, i);
      var morphedPath := MorphGlyph(c.posTan, distance, pathLength, vOffset, glyphPath.value);
      canvas.DrawPath(morphedPath, paint);
      distance := distance + advances[i];
      i := i + 1;
    }
  }
}
