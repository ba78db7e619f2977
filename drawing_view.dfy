/** The DrawingView itself: an object whose fields the touch handler, the
    undo/redo buttons and the brush setters update in place. Each method is
    proved to move the object from State() to the state the matching function
    of module DrawingState gives, and says directly what changed. */
module DrawingViews {
  import opened Strokes
  import opened DrawingState
  import opened Rendering

  class DrawingView {
    var drawPath: CustomPath
    var paths: seq<CustomPath>
    var undoPaths: seq<CustomPath>
    var brushSize: int
    var color: int

    ghost function State(): ViewState
      reads this
    {
      ViewState(drawPath, paths, undoPaths, color, brushSize)
    }

    /** The field initialisers and setupDrawing. */
    constructor ()
      ensures State() == Initial()
      ensures paths == [] && undoPaths == [] && color == Black && brushSize == 0
      ensures IsEmpty(drawPath) && drawPath.color == Black && drawPath.brushThickness == 0
    {
      brushSize := 0;
      color := Black;
      paths := [];
      undoPaths := [];
      new;
      drawPath := NewPath(color, brushSize);
    }

    method OnClickUndo()
      modifies this
      ensures State() == Undo(old(State()))
      ensures old(|paths|) == 0 ==> unchanged(this)
      ensures old(|paths|) > 0 ==>
        paths == old(paths[..|paths| - 1]) &&
        undoPaths == old(undoPaths) + [old(paths[|paths| - 1])]
      ensures drawPath == old(drawPath) && color == old(color) && brushSize == old(brushSize)
    {
      if |paths| > 0 {
        var removed := paths[|paths| - 1];
        paths := paths[..|paths| - 1];
        undoPaths := undoPaths + [removed];
      }
    }

    method OnClickRedo()
      modifies this
      ensures State() == Redo(old(State()))
      ensures old(|undoPaths|) == 0 ==> unchanged(this)
      ensures old(|undoPaths|) > 0 ==>
        undoPaths == old(undoPaths[..|undoPaths| - 1]) &&
        paths == old(paths) + [old(undoPaths[|undoPaths| - 1])]
      ensures drawPath == old(drawPath) && color == old(color) && brushSize == old(brushSize)
    {
      if |undoPaths| > 0 {
        var removed := undoPaths[|undoPaths| - 1];
        undoPaths := undoPaths[..|undoPaths| - 1];
        paths := paths + [removed];
      }
    }

    /** onTouchEvent; a null event is None. */
    method OnTouchEvent(event: Option<MotionEvent>) returns (handled: bool)
      modifies this
      ensures (State(), handled) == Touch(old(State()), event)
      ensures handled <==> Handles(event)
      ensures !handled ==> unchanged(this)
      ensures old(paths) <= paths && color == old(color) && brushSize == old(brushSize)
    {
      if event.None? {
        return false;
      }
      var e := event.value;
      if e.action == ACTION_DOWN {
        drawPath := drawPath.(color := color);
        drawPath := drawPath.(brushThickness := brushSize);
        drawPath := Reset(drawPath);
        drawPath := Extend(drawPath, Point(e.x, e.y));
      } else if e.action == ACTION_MOVE {
        drawPath := Extend(drawPath, Point(e.x, e.y));
      } else if e.action == ACTION_UP {
        paths := paths + [drawPath];
        undoPaths := [];
        drawPath := NewPath(color, brushSize);
      } else {
        return false;
      }
      handled := true;
    }

    /** setSizeForBrush; applyDimension is the display-density conversion of
        a size in density-independent units to pixels. */
    method SetSizeForBrush(newSize: int, applyDimension: int -> int)
      modifies this
      ensures State() == SetBrushSize(old(State()), applyDimension(newSize))
      ensures brushSize == applyDimension(newSize)
      ensures paths == old(paths) && undoPaths == old(undoPaths) && drawPath == old(drawPath)
      ensures color == old(color)
    {
      brushSize := applyDimension(newSize);
    }

    /** setColor; parseColor is Color.parseColor, None where it throws. When
        it throws the colour is left as it was and false is returned. */
    method SetColor(newColor: string, parseColor: string -> Option<int>) returns (parsed: bool)
      modifies this
      ensures parsed <==> parseColor(newColor).Some?
      ensures parsed ==> State() == SetBrushColor(old(State()), parseColor(newColor).value)
      ensures !parsed ==> unchanged(this)
      ensures paths == old(paths) && undoPaths == old(undoPaths) && drawPath == old(drawPath)
      ensures brushSize == old(brushSize)
    {
      var c := parseColor(newColor);
      if c.None? {
        return false;
      }
      color := c.value;
      parsed := true;
    }

    /** setCustomColor: store an already packed colour. */
    method SetCustomColor(newColor: int)
      modifies this
      ensures State() == SetBrushColor(old(State()), newColor)
      ensures color == newColor
      ensures paths == old(paths) && undoPaths == old(undoPaths) && drawPath == old(drawPath)
      ensures brushSize == old(brushSize)
    {
      color := newColor;
    }

    /** onDraw: the drawPath calls it makes, in order. Each committed stroke
        is drawn in its own colour and thickness, then the active stroke if
        it has points. */
    method OnDraw() returns (drawn: seq<DrawCall>)
      ensures drawn == Render(State())
      ensures |drawn| == |paths| + (if IsEmpty(drawPath) then 0 else 1)
      ensures forall i :: 0 <= i < |paths| ==>
        drawn[i] == DrawPath(paths[i].points, paths[i].color, paths[i].brushThickness)
    {
      drawn := [];
      for i := 0 to |paths|
        invariant drawn == DrawAll(paths[..i])
      {
        var path := paths[i];
        assert paths[..i + 1][..i] == paths[..i];
        drawn := drawn + [DrawPath(path.points, path.color, path.brushThickness)];
      }
      assert paths[..|paths|] == paths;
      if !IsEmpty(drawPath) {
        drawn := drawn + [DrawPath(drawPath.points, drawPath.color, drawPath.brushThickness)];
      }
    }
  }
}
