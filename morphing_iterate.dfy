/** `DrawTextOnPath_Morphing` as written in DrawTextOnPath_Morphing.cpp: the
    run driver, with each glyph outline decomposed by `SkPath::iterate` and a
    visitor lambda that morphs one record at a time. The lambda captures the
    output path and `lastPt` by reference; here that captured state is passed
    to the visitor and returned by it. */
module MorphingIterate {
  import opened Common
  import opened Geometry
  import opened Paths
  import opened TextOnPath

  /** What the visitor lambda captures and updates. */
  datatype VisitState = VisitState(path: seq<Cmd>, lastPt: Point)

  /** `iterate` over the records of an outline: each record is handed to the
      visitor in order, and the walk stops after the first visit that returns
      false. The result pairs the final state with the number of records
      visited. */
  function Fold<S>(visit: (S, Seg) -> (S, bool), st: S, src: seq<Seg>): (r: (S, nat))
    ensures r.1 <= |src|
  {
    if |src| == 0 then (st, 0)
    else
      var next := visit(st, src[0]);
      if next.1 then
        var rest := Fold(visit, next.0, src[1..]);
        (rest.0, rest.1 + 1)
      else (next.0, 1)
  }

  /** The walk itself, as a loop over the records. */
  method Iterate<S>(src: seq<Seg>, visit: (S, Seg) -> (S, bool), init: S) returns (st: S, visited: nat)
    ensures (st, visited) == Fold(visit, init, src)
  {
    st, visited := init, 0;
    var going := true;
    while going && visited < |src|
      invariant visited <= |src|
      invariant going ==> Fold(visit, init, src) ==
                          (Fold(visit, st, src[visited..]).0, visited + Fold(visit, st, src[visited..]).1)
      invariant !going ==> Fold(visit, init, src) == (st, visited)
    {
      var next := visit(st, src[visited]);
      assert src[visited..][1..] == src[visited + 1..];
      st, visited, going := next.0, visited + 1, next.1;
    }
  }

  /** The lambda's body for one record: the `switch` on the verb, with each
      mapped point sampled at `distance + x` clamped above by `if`; it always
      returns true. It appends exactly the reference morph of the record and
      records the record's glyph-local end point as `lastPt`. */
  function VisitVerb(posTan: real -> PosTan, distance: real, pathLength: real, vOffset: real,
                     st: VisitState, s: Seg): (r: (VisitState, bool))
    ensures r.1
    ensures r.0.path == st.path + MorphSeg(posTan, distance, pathLength, vOffset, s)
    ensures r.0.lastPt == EndPoint(s, st.lastPt)
  {
    match s
    case Move(p) =>
      var arcDist := if distance + p.x > pathLength then pathLength else distance + p.x;
      var sample := posTan(arcDist);
      var morphedPt := Add(Add(sample.pos, Scale(Normal(sample.tan), p.y)), Point(0.0, vOffset));
      (VisitState(st.path + [MoveTo(morphedPt)], p), true)
    case Line(_, p) =>
      var arcDist := if distance + p.x > pathLength then pathLength else distance + p.x;
      var sample := posTan(arcDist);
      var morphedPt := Add(Add(sample.pos, Scale(Normal(sample.tan), p.y)), Point(0.0, vOffset));
      (VisitState(st.path + [LineTo(morphedPt)], p), true)
    case Quad(_, cp, ep) =>
      var arcDist1 := if distance + cp.x > pathLength then pathLength else distance + cp.x;
      var arcDist2 := if distance + ep.x > pathLength then pathLength else distance + ep.x;
      var sample1, sample2 := posTan(arcDist1), posTan(arcDist2);
      var morphedCp := Add(Add(sample1.pos, Scale(Normal(sample1.tan), cp.y)), Point(0.0, vOffset));
      var morphedEp := Add(Add(sample2.pos, Scale(Normal(sample2.tan), ep.y)), Point(0.0, vOffset));
      (VisitState(st.path + [QuadTo(morphedCp, morphedEp)], ep), true)
    case Cubic(_, cp1, cp2, ep) =>
      var arcDist1 := if distance + cp1.x > pathLength then pathLength else distance + cp1.x;
      var arcDist2 := if distance + cp2.x > pathLength then pathLength else distance + cp2.x;
      var arcDist3 := if distance + ep.x > pathLength then pathLength else distance + ep.x;
      var sample1, sample2, sample3 := posTan(arcDist1), posTan(arcDist2), posTan(arcDist3);
      var morphedCp1 := Add(Add(sample1.pos, Scale(Normal(sample1.tan), cp1.y)), Point(0.0, vOffset));
      var morphedCp2 := Add(Add(sample2.pos, Scale(Normal(sample2.tan), cp2.y)), Point(0.0, vOffset));
      var morphedEp := Add(Add(sample3.pos, Scale(Normal(sample3.tan), ep.y)), Point(0.0, vOffset));
      (VisitState(st.path + [CubicTo(morphedCp1, morphedCp2, morphedEp)], ep), true)
    case Close => (VisitState(st.path + [CloseCmd], st.lastPt), true)
    case Conic(_, _, _, _) => (st, true)
  }

  /** The lambda handed to `iterate` for the glyph drawn at `distance`. */
  function Visitor(posTan: real -> PosTan, distance: real, pathLength: real, vOffset: real): (VisitState, Seg) -> (VisitState, bool) {
    (st: VisitState, s: Seg) => VisitVerb(posTan, distance, pathLength, vOffset, st, s)
  }

  /** Iterating an outline with the morphing visitor visits every record and
      leaves the outline's reference morph appended to the captured path. */
  lemma {:induction false} FoldMorphs(posTan: real -> PosTan, distance: real, pathLength: real, vOffset: real,
                                      st: VisitState, src: seq<Seg>)
    ensures var r := Fold(Visitor(posTan, distance, pathLength, vOffset), st, src);
            r.1 == |src| && r.0.path == st.path + MorphedOutline(posTan, distance, pathLength, vOffset, src)
    decreases |src|
  {
    if |src| > 0 {
      var next := VisitVerb(posTan, distance, pathLength, vOffset, st, src[0]);
      FoldMorphs(posTan, distance, pathLength, vOffset, next.0, src[1..]);
      MorphedFront(posTan, distance, pathLength, vOffset, src);
    } else {
      assert st.path + [] == st.path;
    }
  }

  /** Draws the run `text` along the first contour (`None` when the guide
      path has none). The canvas receives exactly the reference run log. */
  method DrawTextOnPathMorphing(canvas: Canvas, text: string, font: Font, contour: Option<Contour>,
                                hOffset: real, vOffset: real, paint: Paint)
    modifies canvas
    ensures var glyphs := font.textToGlyphs(text);
            canvas.log == old(canvas.log) + RunLog(glyphs, Advances(font.width, glyphs), font, contour, hOffset, vOffset, paint)
  {
    var glyphs := font.textToGlyphs(text);
    var glyphCount := |glyphs|;
    var advances := Advances(font.width, glyphs);
    if contour.None? {
      return;
    }
    var c := contour.value;
    var pathLength := c.length;
    ghost var stop := StopIndex(advances, hOffset, pathLength, 0);

    var distance := hOffset;
    var i := 0;
    while i < glyphCount
      invariant 0 <= i <= stop
      invariant distance == Cursor(advances, hOffset, i)
      invariant canvas.log == old(canvas.log) + Placed(glyphs, advances, font, c, hOffset, vOffset, paint, i)
    {
      StopIndexFirstBreak(advances, hOffset, pathLength, i);
      if distance > pathLength {
        break;
      }
      CursorStep(advances, hOffset, i);
      var glyphPath := font.getPath(glyphs[i]);
      if glyphPath.None? {
        PlacedSkip(glyphs, advances, font, c, hOffset, vOffset, paint, i);
        distance := distance + advances[i];
        i := i + 1;
        continue;
      }
      PlacedDraw(glyphs, advances, font, c, hOffset, vOffset, paint, i);
      var visitor := Visitor(c.posTan, distance, pathLength, vOffset);
      var captured := VisitState([], Point(0.0, 0.0));
      FoldMorphs(c.posTan, distance, pathLength, vOffset, captured, glyphPath.value);
      ghost var morphed := MorphedOutline(c.posTan, distance, pathLength, vOffset, glyphPath.value);
      assert Fold(visitor, captured, glyphPath.value).0.path == morphed;
      var visited;
      captured, visited := Iterate(glyphPath.value, visitor, captured);
      assert captured.path == morphed;
      canvas.DrawPath(captured.path, paint);
      distance := distance + advances[i];
      i := i + 1;
    }
  }
}
