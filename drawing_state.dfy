/** The state of a DrawingView as a value, and each of its operations as a
    function from the old state to the new one. The class in module
    DrawingViews is proved to follow these functions; the lemmas here state
    what the operations promise. */
module DrawingState {
  import opened Strokes

  datatype Option<T> = None | Some(value: T)

  /** mDrawPath (the active stroke), mPaths (committed strokes, drawn in
      order), mUndoPaths (the redo buffer, most recently undone last), and the
      brush configuration `color` and mBrushSize. */
  datatype ViewState = ViewState(
    drawPath: CustomPath,
    paths: seq<CustomPath>,
    undoPaths: seq<CustomPath>,
    color: int,
    brushSize: int)

  /** MotionEvent action codes. */
  const ACTION_DOWN: int := 0
  const ACTION_UP: int := 1
  const ACTION_MOVE: int := 2

  /** The parts of a MotionEvent the view reads: its action and coordinates. */
  datatype MotionEvent = MotionEvent(action: int, x: int, y: int)

  /** The state right after construction: black brush of size 0, an empty
      active path in that style, no committed and no undone strokes. */
  function Initial(): (s: ViewState)
    ensures s.paths == [] && s.undoPaths == [] && IsEmpty(s.drawPath)
    ensures s.color == Black && s.brushSize == 0
    ensures s.drawPath.color == s.color && s.drawPath.brushThickness == s.brushSize
    ensures Undo(s) == s && Redo(s) == s
  {
    ViewState(NewPath(Black, 0), [], [], Black, 0)
  }

  function Reversed(s: seq<CustomPath>): (r: seq<CustomPath>)
    ensures |r| == |s|
  {
    if s == [] then [] else Reversed(s[1..]) + [s[0]]
  }

  lemma {:induction false} ReversedSnoc(u: seq<CustomPath>, x: CustomPath)
    ensures Reversed(u + [x]) == [x] + Reversed(u)
  {
    if u != [] {
      assert (u + [x])[1..] == u[1..] + [x];
      ReversedSnoc(u[1..], x);
    }
  }

  lemma {:induction false} ReversedMultiset(u: seq<CustomPath>)
    ensures multiset(Reversed(u)) == multiset(u)
  {
    if u != [] {
      ReversedMultiset(u[1..]);
      assert u == [u[0]] + u[1..];
    }
  }

  /** Every stroke ever committed and not discarded, in the order it was
      drawn: the committed list followed by the redo buffer read from its
      most recently undone end. Undo and redo only move the boundary. */
  function Timeline(s: ViewState): seq<CustomPath>
  {
    s.paths + Reversed(s.undoPaths)
  }

  /** onClickUndo. */
  function Undo(s: ViewState): (r: ViewState)
    ensures Timeline(r) == Timeline(s)
    ensures r.drawPath == s.drawPath && r.color == s.color && r.brushSize == s.brushSize
    ensures |s.paths| == 0 ==> r == s
    ensures |s.paths| > 0 ==>
      r.paths <= s.paths && |r.paths| == |s.paths| - 1 &&
      |r.undoPaths| == |s.undoPaths| + 1 &&
      r.undoPaths[|s.undoPaths|] == s.paths[|s.paths| - 1] &&
      r.undoPaths == s.undoPaths + [s.paths[|s.paths| - 1]]
  {
    if |s.paths| == 0 then s
    else
      var last := s.paths[|s.paths| - 1];
      ReversedSnoc(s.undoPaths, last);
      assert s.paths == s.paths[..|s.paths| - 1] + [last];
      s.(paths := s.paths[..|s.paths| - 1], undoPaths := s.undoPaths + [last])
  }

  /** onClickRedo. */
  function Redo(s: ViewState): (r: ViewState)
    ensures Timeline(r) == Timeline(s)
    ensures r.drawPath == s.drawPath && r.color == s.color && r.brushSize == s.brushSize
    ensures |s.undoPaths| == 0 ==> r == s
    ensures |s.undoPaths| > 0 ==>
      r.undoPaths <= s.undoPaths && |r.undoPaths| == |s.undoPaths| - 1 &&
      |r.paths| == |s.paths| + 1 &&
      r.paths[|s.paths|] == s.undoPaths[|s.undoPaths| - 1] &&
      r.paths == s.paths + [s.undoPaths[|s.undoPaths| - 1]]
  {
    if |s.undoPaths| == 0 then s
    else
      var last := s.undoPaths[|s.undoPaths| - 1];
      ReversedSnoc(s.undoPaths[..|s.undoPaths| - 1], last);
      assert s.undoPaths == s.undoPaths[..|s.undoPaths| - 1] + [last];
      s.(paths := s.paths + [last], undoPaths := s.undoPaths[..|s.undoPaths| - 1])
  }

  /** The events onTouchEvent handles: a non-null event whose action is
      DOWN, MOVE or UP. */
  predicate Handles(event: Option<MotionEvent>)
  {
    event.Some? && event.value.action in {ACTION_DOWN, ACTION_MOVE, ACTION_UP}
  }

  /** onTouchEvent: the new state and the value returned. */
  function Touch(s: ViewState, event: Option<MotionEvent>): (r: (ViewState, bool))
    ensures r.1 <==> Handles(event)
    ensures !r.1 ==> r.0 == s
    ensures s.paths <= r.0.paths && |r.0.paths| <= |s.paths| + 1
    ensures r.0.color == s.color && r.0.brushSize == s.brushSize
  {
    match event
    case None => (s, false)
    case Some(e) =>
      var pt := Point(e.x, e.y);
      if e.action == ACTION_DOWN then
        var styled := s.drawPath.(color := s.color, brushThickness := s.brushSize);
        (s.(drawPath := Extend(Reset(styled), pt)), true)
      else if e.action == ACTION_MOVE then
        (s.(drawPath := Extend(s.drawPath, pt)), true)
      else if e.action == ACTION_UP then
        (s.(paths := s.paths + [s.drawPath], undoPaths := [], drawPath := NewPath(s.color, s.brushSize)), true)
      else
        (s, false)
  }

  /** setColor / setCustomColor with the colour already resolved. */
  function SetBrushColor(s: ViewState, newColor: int): (r: ViewState)
    ensures r.color == newColor && r.brushSize == s.brushSize
    ensures r.drawPath == s.drawPath && r.paths == s.paths && r.undoPaths == s.undoPaths
  {
    s.(color := newColor)
  }

  /** setSizeForBrush with the size already converted to pixels. */
  function SetBrushSize(s: ViewState, thickness: int): (r: ViewState)
    ensures r.brushSize == thickness && r.color == s.color
    ensures r.drawPath == s.drawPath && r.paths == s.paths && r.undoPaths == s.undoPaths
  {
    s.(brushSize := thickness)
  }

  // ---------------------------------------------------------------------
  // Undo and redo

  /** Undo followed by redo restores both lists exactly. */
  lemma UndoThenRedo(s: ViewState)
    requires |s.paths| > 0
    ensures Redo(Undo(s)) == s
  {
  }

  /** Redo followed by undo restores both lists exactly. */
  lemma RedoThenUndo(s: ViewState)
    requires |s.undoPaths| > 0
    ensures Undo(Redo(s)) == s
  {
  }

  /** Undo and redo move a stroke from one list to the other: the multiset of
      strokes held in the two lists together is unchanged. */
  lemma {:induction false} UndoRedoKeepStrokes(s: ViewState)
    ensures multiset(Undo(s).paths + Undo(s).undoPaths) == multiset(s.paths + s.undoPaths)
    ensures multiset(Redo(s).paths + Redo(s).undoPaths) == multiset(s.paths + s.undoPaths)
  {
    TimelineMultiset(s);
    TimelineMultiset(Undo(s));
    TimelineMultiset(Redo(s));
  }

  lemma TimelineMultiset(s: ViewState)
    ensures multiset(Timeline(s)) == multiset(s.paths + s.undoPaths)
  {
    ReversedMultiset(s.undoPaths);
  }

  datatype HistoryOp = UndoOp | RedoOp

  /** A run of undo and redo clicks. */
  function ApplyHistory(s: ViewState, ops: seq<HistoryOp>): ViewState
    decreases |ops|
  {
    if ops == [] then s
    else
      var t := if ops[0] == UndoOp then Undo(s) else Redo(s);
      ApplyHistory(t, ops[1..])
  }

  /** Any run of undo and redo clicks leaves the active stroke, the brush and
      the timeline as they were, so no stroke is lost, copied or reordered. */
  lemma {:induction false} HistoryKeepsTimeline(s: ViewState, ops: seq<HistoryOp>)
    ensures Timeline(ApplyHistory(s, ops)) == Timeline(s)
    ensures multiset(ApplyHistory(s, ops).paths + ApplyHistory(s, ops).undoPaths)
         == multiset(s.paths + s.undoPaths)
    ensures ApplyHistory(s, ops).drawPath == s.drawPath
    ensures ApplyHistory(s, ops).color == s.color && ApplyHistory(s, ops).brushSize == s.brushSize
    decreases |ops|
  {
    if ops != [] {
      var t := if ops[0] == UndoOp then Undo(s) else Redo(s);
      HistoryKeepsTimeline(t, ops[1..]);
    }
    TimelineMultiset(s);
    TimelineMultiset(ApplyHistory(s, ops));
  }

  function UndoTimes(s: ViewState, n: nat): ViewState
  {
    if n == 0 then s else Undo(UndoTimes(s, n - 1))
  }

  function RedoTimes(s: ViewState, n: nat): ViewState
    decreases n
  {
    if n == 0 then s else RedoTimes(Redo(s), n - 1)
  }

  lemma {:induction false} UndoTimesShrinks(s: ViewState, n: nat)
    requires n <= |s.paths|
    ensures |UndoTimes(s, n).paths| == |s.paths| - n
  {
    if n > 0 {
      UndoTimesShrinks(s, n - 1);
    }
  }

  /** Undoing n committed strokes and then redoing n restores both lists. */
  lemma {:induction false} UndoRedoTimesRestore(s: ViewState, n: nat)
    requires n <= |s.paths|
    ensures RedoTimes(UndoTimes(s, n), n) == s
  {
    if n > 0 {
      var t := UndoTimes(s, n - 1);
      UndoTimesShrinks(s, n - 1);
      UndoThenRedo(t);
      UndoRedoTimesRestore(s, n - 1);
    }
  }

  // ---------------------------------------------------------------------
  // Touch handling

  /** DOWN: the active stroke takes the current brush, loses its previous
      points and records exactly the touch point; the lists are unchanged. */
  lemma TouchDown(s: ViewState, x: int, y: int)
    ensures var r := Touch(s, Some(MotionEvent(ACTION_DOWN, x, y)));
      r.1 &&
      r.0.drawPath.points == [Point(x, y)] &&
      r.0.drawPath.color == s.color && r.0.drawPath.brushThickness == s.brushSize &&
      r.0.paths == s.paths && r.0.undoPaths == s.undoPaths
  {
  }

  /** MOVE: the point is appended verbatim to the active stroke. */
  lemma TouchMove(s: ViewState, x: int, y: int)
    ensures var r := Touch(s, Some(MotionEvent(ACTION_MOVE, x, y)));
      r.1 &&
      r.0.drawPath.points == s.drawPath.points + [Point(x, y)] &&
      r.0.drawPath.color == s.drawPath.color &&
      r.0.drawPath.brushThickness == s.drawPath.brushThickness &&
      r.0.paths == s.paths && r.0.undoPaths == s.undoPaths
  {
  }

  /** UP: the active stroke is committed at the end, the redo buffer is
      emptied (so a following redo changes nothing), and a fresh empty
      stroke in the current brush becomes active. */
  lemma TouchUp(s: ViewState, x: int, y: int)
    ensures var r := Touch(s, Some(MotionEvent(ACTION_UP, x, y)));
      r.1 &&
      r.0.paths == s.paths + [s.drawPath] &&
      r.0.undoPaths == [] && Redo(r.0) == r.0 &&
      IsEmpty(r.0.drawPath) &&
      r.0.drawPath.color == s.color && r.0.drawPath.brushThickness == s.brushSize
  {
  }

  function MoveEvents(pts: seq<Point>): (es: seq<Option<MotionEvent>>)
    ensures |es| == |pts|
  {
    if pts == [] then []
    else [Some(MotionEvent(ACTION_MOVE, pts[0].x, pts[0].y))] + MoveEvents(pts[1..])
  }

  /** A run of touch events delivered in order. */
  function Replay(s: ViewState, events: seq<Option<MotionEvent>>): ViewState
    decreases |events|
  {
    if events == [] then s else Replay(Touch(s, events[0]).0, events[1..])
  }

  lemma {:induction false} ReplayAppend(s: ViewState, a: seq<Option<MotionEvent>>, b: seq<Option<MotionEvent>>)
    ensures Replay(s, a + b) == Replay(Replay(s, a), b)
    decreases |a|
  {
    if a != [] {
      assert (a + b)[0] == a[0];
      assert (a + b)[1..] == a[1..] + b;
      ReplayAppend(Touch(s, a[0]).0, a[1..], b);
    } else {
      assert a + b == b;
    }
  }

  /** A run of MOVE events appends exactly the reported points, in order. */
  lemma {:induction false} ReplayMoves(s: ViewState, pts: seq<Point>)
    ensures Replay(s, MoveEvents(pts)) == s.(drawPath := s.drawPath.(points := s.drawPath.points + pts))
    decreases |pts|
  {
    if pts != [] {
      var t := Touch(s, Some(MotionEvent(ACTION_MOVE, pts[0].x, pts[0].y))).0;
      ReplayMoves(t, pts[1..]);
      assert s.drawPath.points + [pts[0]] + pts[1..] == s.drawPath.points + pts;
    }
  }

  /** A press, any number of moves and a release commit exactly one stroke:
      the reported points in order, in the brush current at the press. */
  lemma StrokeSession(s: ViewState, start: Point, moves: seq<Point>)
    ensures var r := Replay(s, [Some(MotionEvent(ACTION_DOWN, start.x, start.y))]
                              + MoveEvents(moves)
                              + [Some(MotionEvent(ACTION_UP, start.x, start.y))]);
      r.paths == s.paths + [CustomPath(s.color, s.brushSize, [start] + moves)] &&
      r.undoPaths == [] &&
      r.drawPath == NewPath(s.color, s.brushSize) &&
      r.color == s.color && r.brushSize == s.brushSize
  {
    var down := [Some(MotionEvent(ACTION_DOWN, start.x, start.y))];
    var up := [Some(MotionEvent(ACTION_UP, start.x, start.y))];
    ReplayAppend(s, down + MoveEvents(moves), up);
    ReplayAppend(s, down, MoveEvents(moves));
    var afterDown := Replay(s, down);
    assert afterDown == Touch(s, down[0]).0;
    ReplayMoves(afterDown, moves);
  }

  /** Touch handling never alters a committed stroke, so a later change of the
      brush cannot reach one either; DOWN and MOVE leave both lists alone. */
  lemma TouchKeepsCommitted(s: ViewState, event: Option<MotionEvent>)
    ensures var r := Touch(s, event).0;
      (forall i :: 0 <= i < |s.paths| ==> r.paths[i] == s.paths[i]) &&
      (event.Some? && event.value.action != ACTION_UP ==> r.paths == s.paths && r.undoPaths == s.undoPaths)
  {
  }
}
