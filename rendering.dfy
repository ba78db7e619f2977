/** What onDraw draws, as the ordered list of canvas.drawPath calls it makes.
    Each call carries the path's points and the colour and stroke width the
    paint was set to just before it; pixels are not modelled. */
module Rendering {
  import opened Strokes
  import opened DrawingState

  datatype DrawCall = DrawPath(points: seq<Point>, color: int, strokeWidth: int)

  /** One drawPath call for a path, painted in the path's own style. */
  function Draw(p: CustomPath): DrawCall
  {
    DrawPath(p.points, p.color, p.brushThickness)
  }

  /** The calls of the loop over the committed strokes, in list order. */
  function DrawAll(paths: seq<CustomPath>): seq<DrawCall>
  {
    if paths == [] then [] else DrawAll(paths[..|paths| - 1]) + [Draw(paths[|paths| - 1])]
  }

  /** onDraw's calls: one per committed stroke, in list order and in that
      stroke's own colour and thickness, then one for the active stroke
      exactly when it has points. */
  function Render(s: ViewState): (r: seq<DrawCall>)
    ensures |r| == |s.paths| + (if IsEmpty(s.drawPath) then 0 else 1)
    ensures forall i :: 0 <= i < |s.paths| ==>
      r[i].points == s.paths[i].points &&
      r[i].color == s.paths[i].color &&
      r[i].strokeWidth == s.paths[i].brushThickness
    ensures !IsEmpty(s.drawPath) ==>
      r[|s.paths|] == DrawPath(s.drawPath.points, s.drawPath.color, s.drawPath.brushThickness)
  {
    DrawAllAt(s.paths);
    DrawAll(s.paths) + (if IsEmpty(s.drawPath) then [] else [Draw(s.drawPath)])
  }

  lemma {:induction false} DrawAllAt(paths: seq<CustomPath>)
    ensures |DrawAll(paths)| == |paths|
    ensures forall i :: 0 <= i < |paths| ==> DrawAll(paths)[i] == Draw(paths[i])
  {
    if paths != [] {
      DrawAllAt(paths[..|paths| - 1]);
    }
  }

  /** Changing the brush colour or size does not change what is drawn. */
  lemma BrushKeepsRender(s: ViewState, newColor: int, thickness: int)
    ensures Render(SetBrushColor(s, newColor)) == Render(s)
    ensures Render(SetBrushSize(s, thickness)) == Render(s)
  {
  }

  /** Undo takes exactly the last committed stroke's call off the screen;
      every other call, the active stroke's included, stays in order. */
  lemma {:induction false} UndoHidesLast(s: ViewState)
    requires |s.paths| > 0
    ensures Render(Undo(s)) == Render(s)[..|s.paths| - 1] + Render(s)[|s.paths|..]
  {
    var n := |s.paths|;
    DrawAllAt(s.paths);
    DrawAllAt(Undo(s).paths);
    assert DrawAll(Undo(s).paths) == DrawAll(s.paths)[..n - 1];
    assert Render(s)[..n - 1] == DrawAll(s.paths)[..n - 1];
    assert Render(s)[n..] == (if IsEmpty(s.drawPath) then [] else [Draw(s.drawPath)]);
  }

  /** Drawing a stroke and undoing it leaves nothing of it on screen: the
      render of a committed-but-undone stroke equals the render before it was
      drawn, given the active stroke had no points then, whatever its style. */
  lemma DrawThenUndo(s: ViewState, start: Point, moves: seq<Point>)
    requires IsEmpty(s.drawPath)
    ensures var r := Replay(s, [Some(MotionEvent(ACTION_DOWN, start.x, start.y))]
                              + MoveEvents(moves)
                              + [Some(MotionEvent(ACTION_UP, start.x, start.y))]);
      Render(Undo(r)) == Render(s)
  {
    StrokeSession(s, start, moves);
    var r := Replay(s, [Some(MotionEvent(ACTION_DOWN, start.x, start.y))]
                       + MoveEvents(moves)
                       + [Some(MotionEvent(ACTION_UP, start.x, start.y))]);
    assert Undo(r).paths == s.paths;
  }

  /** From a freshly constructed view: press at (10,10), move to (20,10) and
      (20,20), release. One black stroke of thickness 0 holding those three
      points is committed, the active stroke is fresh and empty, the redo
      buffer is empty; after an undo nothing is drawn at all. */
  lemma ThreePointScenario()
    ensures var r := Replay(Initial(), [Some(MotionEvent(ACTION_DOWN, 10, 10))]
                                       + MoveEvents([Point(20, 10), Point(20, 20)])
                                       + [Some(MotionEvent(ACTION_UP, 20, 20))]);
      r.paths == [CustomPath(Black, 0, [Point(10, 10), Point(20, 10), Point(20, 20)])] &&
      r.undoPaths == [] && r.drawPath == NewPath(Black, 0) &&
      Render(r) == [DrawPath([Point(10, 10), Point(20, 10), Point(20, 20)], Black, 0)] &&
      Undo(r).paths == [] && Undo(r).undoPaths == r.paths && Render(Undo(r)) == []
  {
    var asGiven := [Some(MotionEvent(ACTION_DOWN, 10, 10))]
                   + MoveEvents([Point(20, 10), Point(20, 20)])
                   + [Some(MotionEvent(ACTION_UP, 20, 20))];
    StrokeSession(Initial(), Point(10, 10), [Point(20, 10), Point(20, 20)]);
    ReleasePointIgnored(Initial(), [Some(MotionEvent(ACTION_DOWN, 10, 10))]
                                   + MoveEvents([Point(20, 10), Point(20, 20)]), 10, 10, 20, 20);
    assert [Point(10, 10)] + [Point(20, 10), Point(20, 20)] == [Point(10, 10), Point(20, 10), Point(20, 20)];
    DrawAllAt(Replay(Initial(), asGiven).paths);
  }

  /** The coordinates of an UP event are not recorded. */
  lemma ReleasePointIgnored(s: ViewState, before: seq<Option<MotionEvent>>, x1: int, y1: int, x2: int, y2: int)
    ensures Replay(s, before + [Some(MotionEvent(ACTION_UP, x1, y1))])
         == Replay(s, before + [Some(MotionEvent(ACTION_UP, x2, y2))])
  {
    ReplayAppend(s, before, [Some(MotionEvent(ACTION_UP, x1, y1))]);
    ReplayAppend(s, before, [Some(MotionEvent(ACTION_UP, x2, y2))]);
  }
}
