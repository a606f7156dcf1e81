# Text on a path, and three pixel loops, in Dafny

This project models the sequential core of a collection of Skia sample
programs. There are two groups.

**Text-on-path glyph morphing.** A run of text is drawn along the first
contour of a guide path. Each glyph's outline is bent onto the curve.

- The run driver converts the text to glyph IDs and advance widths. It
  walks a `distance` cursor from `hOffset` and stops at the first glyph
  whose cursor is past the path length.
- A glyph without an outline is skipped, but its advance is still added.
- Every other glyph is morphed one iterator record at a time and drawn
  once.
- The morph maps every point `(x, y)` to `onPath(d) + normal(d) * y +
  (0, vOffset)`. Here `d = min(distance + x, pathLength)` and the normal
  is the tangent turned a quarter turn to the left.
- Each record comes out as the builder call of its own kind.

Five source files carry near-identical copies of this driver and morph.
They differ in how the morph is organised:

- main.cpp and DrawTextOnPath_Morphing2025.cpp use a nested loop over a
  path builder.
- skia2024_draw_text_on_path_morphing_demo.cpp and
  draw_text_on_path_morphing_skia2024.cpp use a `morphPathOnCurve`
  function.
- DrawTextOnPath_Morphing.cpp uses a visitor lambda given to
  `SkPath::iterate`.

The 2018 utility src_utils_SkTextOnPath_noIter.cpp differs more:

- It maps points through a matrix before sampling.
- It turns lines into quads through their midpoint.
- It keeps conics.
- It offsets the run for centre and right alignment.
- It visits every glyph, with no early stop.

**Pixel loops.**

- downsample_1bpp_128x128_avx2.c: a 1-bit-per-pixel majority-vote
  downsampler over 128x128 blocks, with output bits packed MSB first.
- skia_tk_example.cpp: the in-place red/blue swap of 32-bit pixels before
  they are handed to Tk.
- SkiaWxExample.cpp: the unpacking of 32-bit pixels into the 3-byte RGB
  buffer of a `wxImage`.

## Layout

| file | module | contents |
|---|---|---|
| common.dfy | `Common` | the optional value and a monotonicity fact of multiplication, shared by several modules |
| geometry.dfy | `Geometry` | points, `getNormal`, the measured contour |
| paths.dfy | `Paths` | iterator records (`Seg`), builder calls (`Cmd`), `Path` and `Canvas` classes |
| textonpath.dfy | `TextOnPath` | the reference morph and run log shared by the five newer variants, and their properties |
| morphing2025_main.dfy | `MainMorphing2025` | main.cpp |
| morphing2025.dfy | `Morphing2025` | DrawTextOnPath_Morphing2025.cpp |
| morphing_iterate.dfy | `MorphingIterate` | DrawTextOnPath_Morphing.cpp |
| skia2024_demo.dfy | `Skia2024Demo` | skia2024_draw_text_on_path_morphing_demo.cpp |
| skia2024.dfy | `Skia2024` | draw_text_on_path_morphing_skia2024.cpp |
| noiter2018.dfy | `TextOnPathNoIter` | src_utils_SkTextOnPath_noIter.cpp |
| downsample.dfy | `Downsample1bpp` | downsample_1bpp_128x128_avx2.c |
| channels.dfy | `PixelChannels` | skia_tk_example.cpp and SkiaWxExample.cpp loops |

### How the model is built

- Each variant's loops are `method`s with loop invariants. Each method is
  proved equal to a specification function: `MorphedOutline` and
  `RunLog` in `TextOnPath`, `MorphOutline` and `VisitRun` in
  `TextOnPathNoIter`.
- The properties the code promises are lemmas about those functions.
- Skia calls become parameters:
  - The arc-length sampler is a function value in `Contour`.
  - The 2018 sampler may fail, and is a function value in `PathMeasure`.
  - The font services are function values in `Font`, `Typeface` and
    `TextPaint`.
- An `SkPath` or `SkPathBuilder` being appended to is the `Path` class.
  Its state is the sequence of builder calls made on it.
- A canvas is the `Canvas` class. Its state is the log of `drawPath`
  calls.
- The downsampler and the pixel loops work on `array<bv8>` and
  `array<bv32>`.

## Model

| member | source | states |
|---|---|---|
| Geometry.Normal | main.cpp:25-27 | `getNormal`: the tangent turned a quarter turn, `(-t.y, t.x)`; what that means is the content of the three lemmas below |
| Geometry.NormalIsLeftPerpendicular | main.cpp:25-27 | the normal is perpendicular to the tangent, has the same length, and lies a quarter turn counter-clockwise of it |
| Geometry.NormalUnique | skia2024_draw_text_on_path_morphing_demo.cpp:27-29 | for a non-zero tangent, the normal is the only vector that is perpendicular, of the same length and to the left |
| Geometry.NormalTwiceReverses | draw_text_on_path_morphing_skia2024.cpp:13-15 | turning the tangent twice gives its reverse, so the rotation is by 90 degrees |
| Geometry.Min | skia2024_draw_text_on_path_morphing_demo.cpp:43 | the result is at most both arguments and equals one of them, as `std::min` does |
| Paths.SegKinds | main.cpp:63-64 | one verb kind per iterator record, in order |
| Paths.CmdKinds | main.cpp:73-131 | one verb kind per builder call, in order |
| Paths.SegPoints | src_utils_SkTextOnPath_noIter.cpp:39-42 | an iterator record fills at most the 4 slots of `srcP` |
| Paths.Path.constructor | main.cpp:60 | a fresh builder holds no calls |
| Paths.Path.MoveTo | main.cpp:73 | `moveTo` appends exactly one move call |
| Paths.Path.LineTo | main.cpp:84 | `lineTo` appends exactly one line call |
| Paths.Path.QuadTo | main.cpp:103 | `quadTo` appends exactly one quad call |
| Paths.Path.ConicTo | src_utils_SkTextOnPath_noIter.cpp:60 | `conicTo` appends exactly one conic call, with its weight |
| Paths.Path.CubicTo | main.cpp:127 | `cubicTo` appends exactly one cubic call |
| Paths.Path.Close | main.cpp:131 | `close` appends exactly one close call |
| Paths.Path.Detach | main.cpp:138 | `detach` returns every call made so far and leaves the builder empty |
| Paths.Canvas.constructor | main.cpp:29-30 | a fresh canvas has drawn nothing |
| Paths.Canvas.DrawPath | main.cpp:139 | `drawPath` appends exactly one draw of that path with that paint |
| TextOnPath.ArcDistance | main.cpp:67-68 | the sampled distance never exceeds the path length; it is `distance + x` when that fits and the path length otherwise, with no lower clamp |
| TextOnPath.MapPoint | main.cpp:67-72 | the placement of one glyph point: the sample at the clamped arc distance, plus the normal scaled by the point's y, plus `(0, vOffset)`; `MapPointOnNormal` says what that means |
| TextOnPath.MorphSeg | main.cpp:64-135 | one iterator record yields exactly one builder call, or none for a conic |
| TextOnPath.MorphedOutline | main.cpp:63-136 | the morph of an outline has at most one call per record |
| TextOnPath.MapPointOnNormal | main.cpp:69-72 | a mapped point is displaced from its shifted sample perpendicular to the tangent, `y` tangent-lengths to the left, with the sample taken at the point's own x |
| TextOnPath.MorphedStep | main.cpp:63 | one more iterator record appends exactly that record's calls to the morph |
| TextOnPath.MorphedAppend | main.cpp:63-136 | the morph of two record sequences joined is the two morphs joined |
| TextOnPath.MorphedFront | DrawTextOnPath_Morphing.cpp:53-126 | the morph read from the front: the first record's calls, then the morph of the rest |
| TextOnPath.NonConics | main.cpp:133-134 | the records that produce calls are exactly the non-conic ones |
| TextOnPath.MorphedKinds | main.cpp:63-136 | the verb kinds of the morph are the verb kinds of the outline with conics dropped |
| TextOnPath.MorphSegKinds | main.cpp:64-135 | one record produces a call of its own kind, or none for a conic |
| TextOnPath.MorphOneForOne | main.cpp:63-136 | for an outline without conics, the output has one call per record, of the same kind, each the morph of that record |
| TextOnPath.MorphSamplesUpToLength | main.cpp:67-70 | two samplers that agree on every distance up to the path length give the same outline, so the morph never samples past the path length |
| TextOnPath.ZeroTangentNoOffset | main.cpp:69-72 | a zero tangent adds no normal displacement: the point lands on the sample, shifted by vOffset only |
| TextOnPath.MapPointStraight | main.cpp:72 | on a straight horizontal contour, a point within reach is translated by (origin.x + distance, origin.y + vOffset) |
| TextOnPath.MorphSegStraight | main.cpp:64-135 | on a straight contour, one record within reach morphs to the same call translated |
| TextOnPath.MorphOnStraightLine | main.cpp:63-136 | on a straight contour, an outline within reach is translated rigidly |
| TextOnPath.Cursor | main.cpp:49-56 | the cursor before glyph i: hOffset plus the advances of every glyph before it, drawn or skipped; `CursorStep` and `CursorMonotone` state its behaviour |
| TextOnPath.CursorStep | main.cpp:56 | moving to the next glyph adds exactly that glyph's advance to the cursor |
| TextOnPath.CursorMonotone | main.cpp:49-56 | with non-negative advances, the cursor never moves backwards |
| TextOnPath.StopIndex | main.cpp:50-52 | the stop index is the first glyph whose cursor is past the path length, or the end of the run |
| TextOnPath.StopIndexFirstBreak | main.cpp:51-52 | the loop is still short of the stop index exactly when glyphs remain and the cursor is within the path length |
| TextOnPath.Placed | main.cpp:49-142 | the log of the loop after k glyphs: the draws of the outlined glyphs among them; `PlacedLength` and `PlacedEntry` state its length and entries |
| TextOnPath.PlacedSkip | main.cpp:55-58 | a glyph without an outline adds nothing to the log |
| TextOnPath.PlacedDraw | main.cpp:60-139 | an outlined glyph adds one draw of its morph at its cursor, with the run's paint |
| TextOnPath.Advances | main.cpp:41-42 | one advance per glyph, each the width service's value for that glyph, as `getWidths` returns them |
| TextOnPath.PlacedEntries | main.cpp:49-142 | the log before glyph k has one entry per outlined glyph before k; outlined glyph j is entry `Outlined(j)`, morphed at its prefix-sum cursor |
| TextOnPath.PlacedLength | main.cpp:138-139 | at most one draw per glyph: the log length counts the outlined glyphs |
| TextOnPath.PlacedEntry | main.cpp:60-141 | the entry of one outlined glyph in the log is its morph at its own cursor |
| TextOnPath.RunLog | main.cpp:29-143 | the log of the whole run: nothing without a contour, otherwise the loop's log up to the stop index; `RunLogMeaning` states what it holds |
| TextOnPath.RunLogMeaning | main.cpp:49-142 | the whole run: every glyph before the stop index is within the path; the glyph at the stop index, if any, is past it; the log holds exactly the outlined glyphs before it, in order, at their cursors |
| TextOnPath.NoContourNoDraw | main.cpp:44-46 | a guide path without a first contour draws nothing |
| TextOnPath.SkipButAdvanceExample | main.cpp:55-58 | in a run of three glyphs whose middle one has no outline, two paths are drawn, and the third glyph sits after both advances |
| MainMorphing2025.MorphVerb | main.cpp:64-135 | the `switch` for one record appends exactly that record's reference morph to the builder |
| MainMorphing2025.MorphGlyph | main.cpp:60-138 | the builder loop over every record, then detached, yields the reference morph of the whole outline |
| MainMorphing2025.DrawTextOnPathMorphing2025 | main.cpp:29-143 | the canvas receives exactly the reference run log and nothing else |
| Morphing2025.MorphVerb | DrawTextOnPath_Morphing2025.cpp:55-131 | the `switch` appends the reference morph of the record; `lastMoveTo` and `lastPt` get their new values, and the builder's output does not depend on them |
| Morphing2025.MorphGlyph | DrawTextOnPath_Morphing2025.cpp:49-134 | the builder loop yields the reference morph of the outline |
| Morphing2025.DrawTextOnPathMorphing2025 | DrawTextOnPath_Morphing2025.cpp:14-139 | the canvas receives exactly the reference run log |
| MorphingIterate.Fold | DrawTextOnPath_Morphing.cpp:53 | `iterate` visits at most every record |
| MorphingIterate.Iterate | DrawTextOnPath_Morphing.cpp:53-126 | the loop over the records computes the fold of the visitor, stopping after the first visit that returns false |
| MorphingIterate.VisitVerb | DrawTextOnPath_Morphing.cpp:54-125 | the lambda always returns true, appends the reference morph of the record to the captured path, and records the record's end point as `lastPt` |
| MorphingIterate.FoldMorphs | DrawTextOnPath_Morphing.cpp:53-126 | iterating with the morphing visitor visits every record and leaves the outline's reference morph in the captured path |
| MorphingIterate.DrawTextOnPathMorphing | DrawTextOnPath_Morphing.cpp:16-132 | the canvas receives exactly the reference run log |
| Skia2024Demo.MorphVerb | skia2024_draw_text_on_path_morphing_demo.cpp:41-95 | the `switch` appends exactly the reference morph of the record to `dst`, with samples taken at `std::min(baseDistance + x, pathLength)` |
| Skia2024Demo.MorphPathOnCurve | skia2024_draw_text_on_path_morphing_demo.cpp:31-97 | `morphPathOnCurve` appends the reference morph of `src` to `dst` and changes nothing else of it |
| Skia2024Demo.DrawTextOnPathMorphing | skia2024_draw_text_on_path_morphing_demo.cpp:99-134 | the canvas receives exactly the reference run log; an empty glyph run and a missing contour draw nothing |
| Skia2024.MorphVerb | draw_text_on_path_morphing_skia2024.cpp:29-87 | the `switch` appends the reference morph of the record; `lastPt` is the record's end point, and the output does not depend on it |
| Skia2024.MorphPathOnCurve | draw_text_on_path_morphing_skia2024.cpp:18-89 | `morphPathOnCurve` appends the reference morph of `src` to `dst` |
| Skia2024.DrawTextOnPathMorphing | draw_text_on_path_morphing_skia2024.cpp:92-137 | the canvas receives exactly the reference run log; an empty glyph run and a missing contour draw nothing |
| TextOnPathNoIter.TranslateMaps | src_utils_SkTextOnPath_noIter.cpp:147 | `MakeTrans(h, v)` moves every point by (h, v) |
| TextOnPathNoIter.ScaleByMaps | src_utils_SkTextOnPath_noIter.cpp:124-125 | `setScale(sx, sy)` scales x by sx and y by sy |
| TextOnPathNoIter.ConcatMaps | src_utils_SkTextOnPath_noIter.cpp:126-127 | the concatenated matrix maps as the second matrix applied after the first, as `postTranslate` and `postConcat` need |
| TextOnPathNoIter.MorphPoint | src_utils_SkTextOnPath_noIter.cpp:19-34 | one point of `morphpoints`: the matrix-mapped point gives the arc distance and the offset; `MorphPointOnNormal` and `MorphPointUnsampled` state the two cases |
| TextOnPathNoIter.MorphPointOnNormal | src_utils_SkTextOnPath_noIter.cpp:25-32 | when the sample exists, a point maps to `pos + normal(tangent) * y`, with x and y taken from the matrix-mapped point |
| TextOnPathNoIter.MorphPointUnsampled | src_utils_SkTextOnPath_noIter.cpp:29-32 | when the sample fails, the tangent is zero and the point is the matrix-mapped point, with no perpendicular offset |
| TextOnPathNoIter.MorphRecord | src_utils_SkTextOnPath_noIter.cpp:43-71 | every record, conics included, yields exactly one builder call |
| TextOnPathNoIter.MorphOutline | src_utils_SkTextOnPath_noIter.cpp:36-73 | the morph of an outline has exactly one call per record |
| TextOnPathNoIter.MorphOutlineShape | src_utils_SkTextOnPath_noIter.cpp:42-72 | one call per record; move, quad, conic, cubic and close keep their kind, a line becomes a quad, and a conic keeps its weight |
| TextOnPathNoIter.XAxisMapsOnly | src_utils_SkTextOnPath_noIter.cpp:25-32 | along the x axis with unit tangent, the morph is the matrix map alone |
| TextOnPathNoIter.LineBecomesQuad | src_utils_SkTextOnPath_noIter.cpp:48-53 | for every measure and matrix, a line becomes a quad whose control point is the morph of the line's midpoint and whose end is the morph of the line's end |
| TextOnPathNoIter.LineBecomesMidpointQuad | src_utils_SkTextOnPath_noIter.cpp:48-53 | on the x-axis sampler, the quad replacing a line has its control point at the midpoint of the mapped ends, so it traces the same segment |
| TextOnPathNoIter.MapMidpoint | src_utils_SkTextOnPath_noIter.cpp:49-51 | an affine map sends the midpoint of two points to the midpoint of their images |
| TextOnPathNoIter.MorphPoints | src_utils_SkTextOnPath_noIter.cpp:19-34 | `morphpoints` writes the morph of each of the `count` source points to `dst` and leaves the rest of `dst` as it was |
| TextOnPathNoIter.NextInto | src_utils_SkTextOnPath_noIter.cpp:42 | `iter.next(srcP)` fills the record's points into `srcP` and leaves the other slots alone |
| TextOnPathNoIter.MorphRecordInto | src_utils_SkTextOnPath_noIter.cpp:43-71 | the `switch` for one record appends exactly the record's calls to `dst` |
| TextOnPathNoIter.MorphPath | src_utils_SkTextOnPath_noIter.cpp:36-73 | `morphpath` appends the morph of every record, in order, to `dst` |
| TextOnPathNoIter.TextToGlyphsAndAdvances | src_utils_SkTextOnPath_noIter.cpp:76-84 | the glyphs are the paint's conversion of the text; for a paint whose text encoding is glyph IDs, `getTextWidths` gives one advance per glyph, its width |
| TextOnPathNoIter.TotalAdvance | src_utils_SkTextOnPath_noIter.cpp:101-102 | the loop total is the sum of the advances |
| TextOnPathNoIter.AlignOffset | src_utils_SkTextOnPath_noIter.cpp:104-109 | left alignment starts at 0; right alignment makes the run end at the path length; centre alignment leaves equal space before and after the run |
| TextOnPathNoIter.GlyphMatrix | src_utils_SkTextOnPath_noIter.cpp:122-127 | the glyph matrix built by `setScale`, `postTranslate` and an optional `postConcat`; `GlyphMatrixMaps` states how it maps a point |
| TextOnPathNoIter.GlyphMatrixMaps | src_utils_SkTextOnPath_noIter.cpp:123-127 | the glyph matrix scales by the text size over units per em, moves right by `xpos`, then applies the caller's matrix if there is one |
| TextOnPathNoIter.VisitRun | src_utils_SkTextOnPath_noIter.cpp:86-136 | what the visitor receives for a text: nothing for empty text or no glyphs, the null dereference without a typeface, otherwise one morphed glyph per glyph from the alignment offset; `VisitsEveryGlyph` states the visits |
| TextOnPathNoIter.VisitsEveryGlyph | src_utils_SkTextOnPath_noIter.cpp:113-135 | every glyph is visited exactly once, in order, with no early stop, at the prefix-sum `xpos` |
| TextOnPathNoIter.GlyphPointOnNormal | src_utils_SkTextOnPath_noIter.cpp:123-131 | without a caller matrix, a glyph point is sampled at `scale * x + xpos` and pushed `scale * y` along the normal |
| TextOnPathNoIter.HVShiftsAlongAndAcross | src_utils_SkTextOnPath_noIter.cpp:145-149 | the HV translate moves the sample h along the path and the offset v across it |
| TextOnPathNoIter.MorphGlyph | src_utils_SkTextOnPath_noIter.cpp:115-131 | a glyph is the morph of its typeface outline under the glyph matrix; without a typeface the unit scale dereferences null |
| TextOnPathNoIter.VisitTextOnPath | src_utils_SkTextOnPath_noIter.cpp:86-136 | the visitor receives exactly the run's morphed glyphs; empty text calls it never; a missing typeface is the null dereference |
| TextOnPathNoIter.DrawCalls | src_utils_SkTextOnPath_noIter.cpp:140-142 | one draw per visited path, in order, with the paint |
| TextOnPathNoIter.DrawTextOnPath | src_utils_SkTextOnPath_noIter.cpp:138-143 | the canvas receives one draw per visited glyph; the crash flag is set exactly on the null-typeface path |
| TextOnPathNoIter.DrawTextOnPathHV | src_utils_SkTextOnPath_noIter.cpp:145-149 | the HV form is the matrix form with `MakeTrans(h, v)` |
| Downsample1bpp.PopCountBits | downsample_1bpp_128x128_avx2.c:13 | the count of the low k bits of a byte is at most k |
| Downsample1bpp.PopCountBound | downsample_1bpp_128x128_avx2.c:7-14 | a run of bytes has at most 8 set bits per byte |
| Downsample1bpp.PopCountAppend | downsample_1bpp_128x128_avx2.c:11-13 | the bit count of two byte runs joined is the sum of their counts, so the two 64-bit halves add up |
| Downsample1bpp.PopCount8Extremes | downsample_1bpp_128x128_avx2.c:13 | a full byte has 8 set bits and a zero byte has none |
| Downsample1bpp.Popcount128 | downsample_1bpp_128x128_avx2.c:7-14 | `popcount128` is the number of set bits in the 16 bytes at the offset, a value in 0..128 |
| Downsample1bpp.LayoutFits | downsample_1bpp_128x128_avx2.c:23-27 | the layout's derived sizes fit: the block columns lie inside an input row, the block rows inside the image, and the columns inside the padded output row |
| Downsample1bpp.RowInBounds | downsample_1bpp_128x128_avx2.c:35 | every 16-byte read of a block row lies inside the input |
| Downsample1bpp.RowsSumBound | downsample_1bpp_128x128_avx2.c:34-38 | the sum over n block rows is between 0 and 128 * n |
| Downsample1bpp.Majority | downsample_1bpp_128x128_avx2.c:39-40 | the output bit of a block: its set-pixel count reaches 8192; `MajorityMeansNoFewerOnes` states what that means |
| Downsample1bpp.MajorityMeansNoFewerOnes | downsample_1bpp_128x128_avx2.c:39-40 | the threshold 8192 means the block has at least as many set pixels as clear ones |
| Downsample1bpp.OutIndex | downsample_1bpp_128x128_avx2.c:42 | the byte of grid position (ox, oy): row oy of the padded output, byte ox / 8 within it; `OutIndexInRegion` and `OutIndexUnique` state its range and sharing |
| Downsample1bpp.OutBit | downsample_1bpp_128x128_avx2.c:41-44 | the bit of grid position (ox, oy): bit `7 - ox % 8` of its byte, most significant first; `ByteBitIsGridPosition` states that every bit of the region is one position's |
| Downsample1bpp.OutIndexInRegion | downsample_1bpp_128x128_avx2.c:42 | every output byte index lies in the zeroed region |
| Downsample1bpp.ByteBitIsGridPosition | downsample_1bpp_128x128_avx2.c:41-44 | every bit of the zeroed region belongs to exactly one grid position, MSB first |
| Downsample1bpp.OutIndexUnique | downsample_1bpp_128x128_avx2.c:42 | two positions share a byte only when they are in the same row and the same group of 8 columns |
| Downsample1bpp.OrBit | downsample_1bpp_128x128_avx2.c:44 | OR-ing `1 << (7 - j)` into a byte sets bit 7 - j and no other |
| Downsample1bpp.SameByteEffect | downsample_1bpp_128x128_avx2.c:41-44 | within one byte, OR-ing in a column's bit sets that column only |
| Downsample1bpp.Written | downsample_1bpp_128x128_avx2.c:28-46 | the loop invariant: each pixel bit is set exactly when its block is done and has the majority, and every padding bit is clear; `Downsample` ends with it over the whole grid |
| Downsample1bpp.ZeroedIsWritten | downsample_1bpp_128x128_avx2.c:28 | after the `memset`, no position is set, which is correct before any block |
| Downsample1bpp.SetBitEffect | downsample_1bpp_128x128_avx2.c:41-44 | setting the bit of one block sets that position and leaves every other position of the grid as it was |
| Downsample1bpp.StepWritten | downsample_1bpp_128x128_avx2.c:39-45 | one block step keeps the invariant: the positions done so far are set exactly where the majority holds, and padding stays clear |
| Downsample1bpp.StepWrittenSet | downsample_1bpp_128x128_avx2.c:43-44 | the step where the bit is OR-ed in keeps the invariant |
| Downsample1bpp.SetKeepsPixels | downsample_1bpp_128x128_avx2.c:43-44 | after OR-ing in a majority bit, the pixel bits are still set exactly at the majority blocks done so far |
| Downsample1bpp.SetKeepsPadding | downsample_1bpp_128x128_avx2.c:43-45 | OR-ing in a pixel bit leaves every padding bit clear |
| Downsample1bpp.StepWrittenClear | downsample_1bpp_128x128_avx2.c:45 | a block without the majority writes nothing and keeps the invariant |
| Downsample1bpp.NextRowWritten | downsample_1bpp_128x128_avx2.c:30-31 | a finished block row carries the invariant to the next row |
| Downsample1bpp.SumBlock | downsample_1bpp_128x128_avx2.c:32-38 | the `dy` loop sums the popcounts of the block's 128 rows |
| Downsample1bpp.DownsampleBlock | downsample_1bpp_128x128_avx2.c:32-45 | one block keeps the invariant and writes nothing past the zeroed region |
| Downsample1bpp.DownsampleRow | downsample_1bpp_128x128_avx2.c:31-46 | one block row keeps the invariant over the whole row |
| Downsample1bpp.Downsample | downsample_1bpp_128x128_avx2.c:22-48 | every output bit is set exactly when its block has the majority; padding bits are clear; no byte past `out_row_bytes * out_h` is written |
| Downsample1bpp.DocumentedSizeTooSmall | downsample_1bpp_128x128_avx2.c:20 | for a 128x128 input, the header's size formula gives 0 bytes, while the code zeroes and writes 1 |
| Downsample1bpp.OutputSizeCoversWrites | downsample_1bpp_128x128_avx2.c:28-44 | the size the code zeroes covers the header's formula and every byte index the loops write |
| PixelChannels.Lane | skia_tk_example.cpp:173-174 | byte k of a pixel as an 8-bit channel value, at most 0xFF |
| PixelChannels.SwapRedBlue | skia_tk_example.cpp:175 | bytes 1 and 3 of the pixel (mask 0xFF00FF00) are unchanged |
| PixelChannels.SwapRedBlueLanes | skia_tk_example.cpp:173-175 | the new byte 0 is the old byte 2, the new byte 2 is the old byte 0, and bytes 1 and 3 are kept |
| PixelChannels.SwapRedBlueInvolution | skia_tk_example.cpp:173-175 | swapping twice restores the pixel |
| PixelChannels.SwapFixedPoints | skia_tk_example.cpp:173-175 | a pixel is unchanged by the swap exactly when its red and blue bytes agree |
| PixelChannels.SwapAll | skia_tk_example.cpp:172-176 | every pixel of the buffer is swapped from its own value only |
| PixelChannels.SwapAllInvolution | skia_tk_example.cpp:172-176 | converting a buffer twice restores it |
| PixelChannels.SwapPixels | skia_tk_example.cpp:172-176 | the in-place loop leaves the buffer equal to the swap of each of its old pixels |
| PixelChannels.SkiaToPhotoimage | skia_tk_example.cpp:166-176 | a failed `readPixels` returns before any conversion; otherwise the `w * h` read pixels come out swapped, each in place |
| PixelChannels.Rgb | SkiaWxExample.cpp:77-79 | three bytes per pixel |
| PixelChannels.RgbLanes | SkiaWxExample.cpp:77-79 | the bytes written are R (bits 16-23), G (bits 8-15) and B (bits 0-7), each in 0..255 |
| PixelChannels.RgbIgnoresAlpha | SkiaWxExample.cpp:76-79 | the alpha byte has no effect on the written bytes |
| PixelChannels.RgbDeterminesColour | SkiaWxExample.cpp:76-79 | two pixels give the same three bytes exactly when they agree outside the alpha byte |
| PixelChannels.UnpackedColourRoundTrip | SkiaWxExample.cpp:77-79 | the three bytes reassemble to the pixel with its alpha byte cleared |
| PixelChannels.UnpackRow | SkiaWxExample.cpp:73-81 | the `x` loop writes each pixel of the row as a triple at 3 times its index; no other byte changes |
| PixelChannels.UnpackToRgb | SkiaWxExample.cpp:68-82 | pixel `y * width + x` is written at byte `3 * (y * width + x)` as R, G, B; only the first `3 * width * height` bytes are written |

## Left out

- Skia's arc-length measurement (`getPosTan`, `length`, building an `SkPathMeasure` from `follow`) is foreign code. It is a function-value parameter. For the five newer variants it always yields a sample. In the 2018 utility it may fail.
- The font services (`countText`, `textToGlyphs`, `getWidths`, `getTextWidths`, `getPath`, the typeface `getPath` and `getUnitsPerEm`) are foreign. They are function values. In the 2018 utility the `getTextPath` fallback runs for a glyph when there is no typeface, but its outline is never used: lines 124-125 then dereference the null typeface, which the model records as the `NullTypefaceDereference` outcome.
- `SkPath::Iter` and `iterate` decoding are taken as a given record sequence. This includes a closing line the iterator may insert.
- Skia's normalisation of builder calls is left out, such as injecting a `moveTo` before a call that lacks one.
- Coordinates are `real`. IEEE rounding in `SkScalar` arithmetic is not modelled.
- `SkMatrix` is modelled as an affine map only; perspective is left out.
- All `main()` functions are left out. So are guide-path construction with `sin` and `cos`, font-manager setup and PNG output.
- Windowing and toolkit hand-off are left out: `Tk_PhotoPutBlock`, `wxImage` and `wxBitmap` creation, `DrawBitmap`, and the surface behind `readPixels`. In `PixelChannels.SkiaToPhotoimage`, `readPixels` is a parameter that gives the pixel at each index, or `None` when the read fails.
- The AVX intrinsics are left out. `popcount128` is modelled by its meaning, the number of set bits in 16 bytes, as two 8-byte halves.
- C `int` overflow of sizes and indices is not modelled (`w * h`, `out_row_bytes * out_h`, `(out_y * 128 + dy) * in_row_bytes`). Integers are unbounded.
- Downsample1bpp.Downsample: assumes the input and output buffers are separate arrays. The C signature does not forbid passing the same buffer, although the `const` input implies they are distinct; an overlapping call, where the `memset` and the OR writes would change the pixels being counted, is not modelled.
- `Downsample1bpp.Downsample` takes `in_w` and `in_h` as non-negative. The input buffer must hold `(in_w / 8) * in_h` bytes, which is what the reads need. The source additionally asks for multiples of 128, which the model does not need.
- The 2018 `units per em` is taken as positive. A zero would divide by zero in the source.
- TextOnPathNoIter.TextToGlyphsAndAdvances: takes the paint's text encoding to be glyph IDs, so that `getTextWidths` at line 83 returns one width per glyph (`Advances(paint.width, glyphs)`). With any other encoding, such as the default UTF-8, line 83 decodes the `2 * count` glyph-ID bytes as text in that encoding. It then measures other characters, and can produce more than `count` widths for the `count`-sized `advances` buffer. The model does not capture those widths or that overflow, and the 2018 run's positions are stated only for a glyph-ID-encoded paint.
- A missing typeface in the 2018 utility makes lines 124-125 dereference a null pointer. It is modelled as the `NullTypefaceDereference` outcome, with nothing drawn.
- The 2018 visitor lambda is modelled as collecting the morphed paths and then drawing them in order. This gives the same canvas log.
- The lambda in DrawTextOnPath_Morphing.cpp captures `morphedPath` and `lastPt` by reference. Here that state is passed to the visitor and returned by it.
- The `switch` bodies and the nested loops are methods of their own. The loops are unchanged.

Where the description of the system and the code differ, the model follows the code:

- The newer variants clamp the arc distance above only. A negative `distance + x` is passed to the sampler as it is.
- No default normal replaces a zero tangent. `TextOnPath.ZeroTangentNoOffset` states what happens then.
- The 2024 and 2025 variants drop conic records in `default`, so `TextOnPath.MorphOneForOne` holds for outlines without conics.

## Findings

| source | as written | input that shows it | evidently intended | confidence | as-written member | corrected member |
|---|---|---|---|---|---|---|
| downsample_1bpp_128x128_avx2.c:20 | the header says the output buffer is `(in_w/128)*(in_h/128)/8` bytes, but the code zeroes and writes `((in_w/128 + 7)/8) * (in_h/128)` bytes | `in_w = in_h = 128`: the header gives 0 bytes, and the code writes 1 byte | the buffer holds whole padded output rows, `out_row_bytes * out_h` bytes | not executed | Downsample1bpp.DocumentedSizeTooSmall | Downsample1bpp.OutputSizeCoversWrites |
