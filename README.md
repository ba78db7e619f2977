# DrawingView stroke and undo/redo model

This project models the stroke-capture and undo/redo engine of the kids'
drawing app's `DrawingView`. Its state has four parts:

- the active path (`mDrawPath`), a `CustomPath` carrying a colour, a brush
  thickness and the points recorded since its last reset;
- the committed paths (`mPaths`), drawn in list order;
- the undone paths (`mUndoPaths`), with the most recently undone last;
- the brush configuration (`color`, `mBrushSize`).

The model has four modules:

- `Strokes` (`strokes.dfy`) holds the `CustomPath` record and the path
  operations the view uses: construct, `reset`, and `moveTo`/`lineTo`.
- `DrawingState` (`drawing_state.dfy`) holds the whole view state as a value
  (`ViewState`). Undo, redo, touch handling and the brush setters are
  functions on it, with the lemmas about them.
- `Rendering` (`rendering.dfy`) describes what `onDraw` draws. This is the
  ordered list of `drawPath` calls, each with the colour and stroke width the
  paint holds at that moment.
- `DrawingViews` (`drawing_view.dfy`) holds the class `DrawingView`. Its
  fields are updated in place by methods shaped like the source's.

Each method is proved to take `State()` to the value the matching
`DrawingState` function gives, and states its new fields directly. `OnDraw`
is a loop over the committed paths and is proved equal to `Render`.

Two invariants carry most of the weight:

- The timeline `paths + Reversed(undoPaths)` is left unchanged by every undo
  and every redo. So the strokes are only moved between the lists, never
  copied, lost or reordered.
- A committed path is never altered by later input or by a brush change.

Representation choices:

- Coordinates and thicknesses are integers.
- A colour is a packed ARGB `Int`. `Color.BLACK` is `-16777216`.
- A null `MotionEvent` is `None`.
- Action codes are Android's: `ACTION_DOWN` 0, `ACTION_UP` 1, `ACTION_MOVE` 2.
- The display-density conversion of `setSizeForBrush` is a parameter
  (`applyDimension: int -> int`).
- `Color.parseColor` is a parameter `string -> Option<int>`. `None` stands for
  its `IllegalArgumentException`. In that case the colour stays as it was and
  `SetColor` returns false.

Choices fixed by the code:

- `onClickUndo` and `onClickRedo` return `Unit`, so the model's undo and redo
  return nothing (DrawingView.kt:30, :40).
- `mBrushSize` starts at `0f` (DrawingView.kt:18-19); the assignment of 20 at
  :56 is commented out.
- `onDraw` draws the active path whenever it has a point, a one-point path
  included (DrawingView.kt:80).
- `mDrawPath` is never null after `setupDrawing` (DrawingView.kt:50), so the
  model always has an active path.

## Model

| member | source | states |
|---|---|---|
| Strokes.NewPath | app/src/main/java/com/example/kidsdrawingapp/DrawingView.kt:157-158 | a new CustomPath has the given colour and thickness and no points |
| Strokes.Reset | app/src/main/java/com/example/kidsdrawingapp/DrawingView.kt:98 | reset discards every point and keeps the path's colour and thickness |
| Strokes.Extend | app/src/main/java/com/example/kidsdrawingapp/DrawingView.kt:100-106 | moveTo/lineTo keep the earlier points in order, put the new point last, make the path non-empty and keep its style |
| DrawingState.Undo | app/src/main/java/com/example/kidsdrawingapp/DrawingView.kt:30-37 | no change when nothing is committed; otherwise the committed list loses its last path, which becomes the last undone path; the timeline, the active path and the brush are unchanged |
| DrawingState.Redo | app/src/main/java/com/example/kidsdrawingapp/DrawingView.kt:40-45 | no change when the redo buffer is empty; otherwise its last path is appended to the committed list; the timeline, the active path and the brush are unchanged |
| DrawingState.Touch | app/src/main/java/com/example/kidsdrawingapp/DrawingView.kt:88-124 | returns true exactly for a non-null DOWN, MOVE or UP event; any other event leaves the state unchanged; committed paths are only ever appended to; the brush is never changed |
| DrawingState.Initial | app/src/main/java/com/example/kidsdrawingapp/DrawingView.kt:18-58 | a new view holds no committed and no undone paths, a black brush of size 0 and an empty active path in that brush, so undo and redo change nothing |
| DrawingState.SetBrushColor | app/src/main/java/com/example/kidsdrawingapp/DrawingView.kt:145-154 | the brush colour becomes the new colour; the brush size, the active path and both lists are unchanged |
| DrawingState.SetBrushSize | app/src/main/java/com/example/kidsdrawingapp/DrawingView.kt:126-132 | the brush size becomes the converted size; the colour, the active path and both lists are unchanged |
| DrawingState.UndoThenRedo | app/src/main/java/com/example/kidsdrawingapp/DrawingView.kt:30-45 | with a non-empty committed list, undo then redo restores both lists exactly |
| DrawingState.RedoThenUndo | app/src/main/java/com/example/kidsdrawingapp/DrawingView.kt:30-45 | with a non-empty redo buffer, redo then undo restores both lists exactly |
| DrawingState.UndoRedoKeepStrokes | app/src/main/java/com/example/kidsdrawingapp/DrawingView.kt:34-42 | undo and redo keep the multiset of paths held in committed plus redo: ownership moves, nothing is copied |
| DrawingState.HistoryKeepsTimeline | app/src/main/java/com/example/kidsdrawingapp/DrawingView.kt:30-45 | any run of undo/redo clicks keeps the timeline, the multiset of strokes, the active path and the brush |
| DrawingState.UndoRedoTimesRestore | app/src/main/java/com/example/kidsdrawingapp/DrawingView.kt:30-45 | n undos followed by n redos, with n at most the committed count, restore the state exactly |
| DrawingState.TouchDown | app/src/main/java/com/example/kidsdrawingapp/DrawingView.kt:94-101 | DOWN gives the active path the current colour and brush size, drops its earlier points and records exactly the touch point; both lists are unchanged; returns true |
| DrawingState.TouchMove | app/src/main/java/com/example/kidsdrawingapp/DrawingView.kt:104-108 | MOVE appends the touch point verbatim to the active path and changes nothing else; returns true |
| DrawingState.TouchUp | app/src/main/java/com/example/kidsdrawingapp/DrawingView.kt:110-116 | UP appends the active path to the committed list, empties the redo buffer so that a following redo is a no-op, and installs a fresh point-less path in the current brush; returns true |
| DrawingState.StrokeSession | app/src/main/java/com/example/kidsdrawingapp/DrawingView.kt:94-116 | press, any number of moves and release commit exactly one path: the reported points in order, in the brush current at the press; the redo buffer is empty afterwards |
| DrawingState.TouchKeepsCommitted | app/src/main/java/com/example/kidsdrawingapp/DrawingView.kt:88-124 | no touch event alters an already committed path; events other than UP leave both lists unchanged |
| Rendering.Render | app/src/main/java/com/example/kidsdrawingapp/DrawingView.kt:68-85 | one draw call per committed path in list order, each in that path's own colour and thickness, then one for the active path exactly when it has points |
| Rendering.BrushKeepsRender | app/src/main/java/com/example/kidsdrawingapp/DrawingView.kt:145-154 | changing the brush colour or size does not change what is drawn |
| Rendering.UndoHidesLast | app/src/main/java/com/example/kidsdrawingapp/DrawingView.kt:30-37 | after an undo the screen shows the same draw calls as before minus the last committed path's, the active path's call included and in order |
| Rendering.DrawThenUndo | app/src/main/java/com/example/kidsdrawingapp/DrawingView.kt:30-116 | from any view whose active path has no points, whatever the brush, drawing a whole stroke and undoing it gives the same render as before the stroke |
| Rendering.ThreePointScenario | app/src/main/java/com/example/kidsdrawingapp/DrawingView.kt:18-124 | from a new view, press (10,10), move (20,10), (20,20), release: one black, 0-thick three-point path is committed and drawn; after undo nothing is drawn |
| Rendering.ReleasePointIgnored | app/src/main/java/com/example/kidsdrawingapp/DrawingView.kt:110-116 | the coordinates of an UP event are not recorded |
| DrawingViews.DrawingView.constructor | app/src/main/java/com/example/kidsdrawingapp/DrawingView.kt:18-58 | a new view has a black brush of size 0, an empty active path in that style, and no committed or undone paths |
| DrawingViews.DrawingView.OnClickUndo | app/src/main/java/com/example/kidsdrawingapp/DrawingView.kt:30-37 | the fields change as Undo says: a no-op on an empty committed list, else the last committed path moves to the end of the redo buffer |
| DrawingViews.DrawingView.OnClickRedo | app/src/main/java/com/example/kidsdrawingapp/DrawingView.kt:40-45 | the fields change as Redo says: a no-op on an empty redo buffer, else its last path moves to the end of the committed list |
| DrawingViews.DrawingView.OnTouchEvent | app/src/main/java/com/example/kidsdrawingapp/DrawingView.kt:88-124 | the fields and the returned value follow Touch; an unhandled event changes nothing |
| DrawingViews.DrawingView.SetSizeForBrush | app/src/main/java/com/example/kidsdrawingapp/DrawingView.kt:126-132 | stores the converted size as the brush size and changes nothing else |
| DrawingViews.DrawingView.SetColor | app/src/main/java/com/example/kidsdrawingapp/DrawingView.kt:145-148 | stores the parsed colour; when parsing fails nothing changes; no path is touched |
| DrawingViews.DrawingView.SetCustomColor | app/src/main/java/com/example/kidsdrawingapp/DrawingView.kt:151-154 | stores the given colour and changes nothing else |
| DrawingViews.DrawingView.OnDraw | app/src/main/java/com/example/kidsdrawingapp/DrawingView.kt:68-85 | the loop makes exactly the calls of Render: each committed path in order with its own style, then the active path if it has points |

## Left out

- MainActivity.kt is not part of this model. It covers permissions, the gallery picker, dialogs, the colour picker, palette highlighting, bitmap capture and saving.
- `onSizeChanged` and the bitmap backdrop that `onDraw` draws first are left out. Raster allocation and pixels are not modelled.
- The `Paint` set-up (style, join, cap, dither) is left out. So are the writes to `mDrawPaint` in the setters: `onDraw` overwrites the paint's colour and width before every path it draws.
- `invalidate()` is left out. It is a redraw signal with no effect on the modelled state.
- `TypedValue.applyDimension` float arithmetic is left out. The conversion is a parameter of `SetSizeForBrush`.
- `Color.parseColor` is a parameter of `SetColor`.
- Float coordinates and thicknesses are integers.
- `setSizeForBrush` appears twice in the file with identical bodies. It is modelled once.
- Strokes.Extend: contour structure of `android.graphics.Path` is not kept; `moveTo` is only ever applied right after `reset()`, so the one contour per path is the point list.
- Strokes.Extend: a `lineTo` on a path with no points is modelled as recording that one point. The graphics library would first insert an implicit start at the origin; that belongs to the foreign graphics library.
