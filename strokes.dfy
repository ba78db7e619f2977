/** The stroke record of the drawing surface: the inner class CustomPath of
    DrawingView, a recorded path together with the colour and the brush
    thickness it is drawn with. Coordinates and thickness are abstract
    integers; a colour is a packed ARGB value held in a signed 32-bit Int. */
module Strokes {

  /** A touch coordinate in view-local space. */
  datatype Point = Point(x: int, y: int)

  /** A path with its style: the points recorded since the last reset, in order. */
  datatype CustomPath = CustomPath(color: int, brushThickness: int, points: seq<Point>)

  /** Color.BLACK, the packed value 0xFF000000 read as a signed Int. */
  const Black: int := -16777216

  /** A path "is empty" when no point has been recorded on it. */
  predicate IsEmpty(p: CustomPath)
  {
    |p.points| == 0
  }

  /** The constructor CustomPath(color, brushThickness): a path with the given
      style and no points. */
  function NewPath(color: int, brushThickness: int): (p: CustomPath)
    ensures IsEmpty(p)
    ensures p.color == color && p.brushThickness == brushThickness
  {
    CustomPath(color, brushThickness, [])
  }

  /** Path.reset(): forget every recorded point, keep the style. */
  function Reset(p: CustomPath): (r: CustomPath)
    ensures IsEmpty(r)
    ensures r.color == p.color && r.brushThickness == p.brushThickness
  {
    p.(points := [])
  }

  /** Path.moveTo / Path.lineTo: record one more point at the end of the path.
      moveTo is only ever applied to a path that has just been reset, so the
      contour break it would start is not represented. */
  function Extend(p: CustomPath, pt: Point): (r: CustomPath)
    ensures !IsEmpty(r)
    ensures |r.points| == |p.points| + 1
    ensures r.points[..|p.points|] == p.points && r.points[|p.points|] == pt
    ensures r.color == p.color && r.brushThickness == p.brushThickness
  {
    p.(points := p.points + [pt])
  }
}
