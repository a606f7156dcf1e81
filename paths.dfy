/** Path data as the morphing code sees it: the records `SkPath::Iter::next`
    yields for a glyph outline, the calls the code makes on an output path,
    the mutable output path itself and the canvas that receives `drawPath`. */
module Paths {
  import opened Geometry

  /** One record of `SkPath::Iter::next(pts)`: the verb and the points it
      writes into `pts`. For every verb but Move and Close, `p0` is the
      segment's start point (the previous end point). `Conic` carries the
      iterator's `conicWeight()`. */
  datatype Seg =
    | Move(p0: Point)
    | Line(p0: Point, p1: Point)
    | Quad(p0: Point, p1: Point, p2: Point)
    | Conic(p0: Point, p1: Point, p2: Point, w: real)
    | Cubic(p0: Point, p1: Point, p2: Point, p3: Point)
    | Close

  /** One call on an output path: `moveTo`, `lineTo`, `quadTo`, `conicTo`,
      `cubicTo`, `close`. */
  datatype Cmd =
    | MoveTo(p: Point)
    | LineTo(p: Point)
    | QuadTo(c: Point, e: Point)
    | ConicTo(c: Point, e: Point, w: real)
    | CubicTo(c1: Point, c2: Point, e: Point)
    | CloseCmd

  datatype VerbKind = KMove | KLine | KQuad | KConic | KCubic | KClose

  function SegKind(s: Seg): VerbKind {
    match s
    case Move(_) => KMove
    case Line(_, _) => KLine
    case Quad(_, _, _) => KQuad
    case Conic(_, _, _, _) => KConic
    case Cubic(_, _, _, _) => KCubic
    case Close => KClose
  }

  function CmdKind(c: Cmd): VerbKind {
    match c
    case MoveTo(_) => KMove
    case LineTo(_) => KLine
    case QuadTo(_, _) => KQuad
    case ConicTo(_, _, _) => KConic
    case CubicTo(_, _, _) => KCubic
    case CloseCmd => KClose
  }

  function SegKinds(s: seq<Seg>): (r: seq<VerbKind>)
    ensures |r| == |s|
    ensures forall k :: 0 <= k < |s| ==> r[k] == SegKind(s[k])
  {
    if |s| == 0 then [] else SegKinds(s[..|s| - 1]) + [SegKind(s[|s| - 1])]
  }

  function CmdKinds(s: seq<Cmd>): (r: seq<VerbKind>)
    ensures |r| == |s|
    ensures forall k :: 0 <= k < |s| ==> r[k] == CmdKind(s[k])
  {
    if |s| == 0 then [] else CmdKinds(s[..|s| - 1]) + [CmdKind(s[|s| - 1])]
  }

  /** The points of a record that the morphing code maps (the start point of
      a segment is not among them: it is the previous record's end point). */
  function MappedPoints(s: Seg): seq<Point> {
    match s
    case Move(p0) => [p0]
    case Line(_, p1) => [p1]
    case Quad(_, p1, p2) => [p1, p2]
    case Conic(_, p1, p2, _) => [p1, p2]
    case Cubic(_, p1, p2, p3) => [p1, p2, p3]
    case Close => []
  }

  /** The points `SkPath::Iter::next` writes into its `pts` argument for a
      record, from pts[0] on. */
  function SegPoints(s: Seg): (ps: seq<Point>)
    ensures |ps| <= 4
  {
    match s
    case Move(p0) => [p0]
    case Line(p0, p1) => [p0, p1]
    case Quad(p0, p1, p2) => [p0, p1, p2]
    case Conic(p0, p1, p2, _) => [p0, p1, p2]
    case Cubic(p0, p1, p2, p3) => [p0, p1, p2, p3]
    case Close => []
  }

  /** The glyph-local end point of a record, which the variants that track
      `lastPt` store, or `prev` for a record that has none the code stores
      (close, and a conic, which the switch ignores). */
  function EndPoint(s: Seg, prev: Point): Point {
    match s
    case Move(p0) => p0
    case Line(_, p1) => p1
    case Quad(_, _, p2) => p2
    case Conic(_, _, _, _) => prev
    case Cubic(_, _, _, p3) => p3
    case Close => prev
  }

  /** A drawn path with the paint it was drawn with. */
  datatype Paint = Paint(handle: nat)
  datatype DrawCall = DrawCall(path: seq<Cmd>, paint: Paint)

  /** An `SkPath` or `SkPathBuilder` being appended to. Its contents are
      the sequence of calls made on it; Skia's own normalisation of that
      sequence is not part of this model. */
  class Path {
    var cmds: seq<Cmd>

    constructor ()
      ensures cmds == []
    {
      cmds := [];
    }

    method MoveTo(p: Point)
      modifies this
      ensures cmds == old(cmds) + [Cmd.MoveTo(p)]
    {
      cmds := cmds + [Cmd.MoveTo(p)];
    }

    method LineTo(p: Point)
      modifies this
      ensures cmds == old(cmds) + [Cmd.LineTo(p)]
    {
      cmds := cmds + [Cmd.LineTo(p)];
    }

    method QuadTo(c: Point, e: Point)
      modifies this
      ensures cmds == old(cmds) + [Cmd.QuadTo(c, e)]
    {
      cmds := cmds + [Cmd.QuadTo(c, e)];
    }

    method ConicTo(c: Point, e: Point, w: real)
      modifies this
      ensures cmds == old(cmds) + [Cmd.ConicTo(c, e, w)]
    {
      cmds := cmds + [Cmd.ConicTo(c, e, w)];
    }

    method CubicTo(c1: Point, c2: Point, e: Point)
      modifies this
      ensures cmds == old(cmds) + [Cmd.CubicTo(c1, c2, e)]
    {
      cmds := cmds + [Cmd.CubicTo(c1, c2, e)];
    }

    method Close()
      modifies this
      ensures cmds == old(cmds) + [CloseCmd]
    {
      cmds := cmds + [CloseCmd];
    }

    /** `SkPathBuilder::detach`: hands over the contents and starts afresh. */
    method Detach() returns (r: seq<Cmd>)
      modifies this
      ensures r == old(cmds) && cmds == []
    {
      r := cmds;
      cmds := [];
    }
  }

  /** The raster canvas, reduced to the log of its `drawPath` calls. */
  class Canvas {
    var log: seq<DrawCall>

    constructor ()
      ensures log == []
    {
      log := [];
    }

    method DrawPath(path: seq<Cmd>, paint: Paint)
      modifies this
      ensures log == old(log) + [DrawCall(path, paint)]
    {
      log := log + [DrawCall(path, paint)];
    }
  }
}
