/** The drawing surface (app/components/DrawingCanvas.tsx): a 320x320 frame painted in place, a
    linear history of full-frame snapshots with a cursor, and the tool and colour state.

    The history is specified on values first (`History`, `Commit`, `Undo`, `Redo`); the class
    `DrawingCanvas` keeps the source's state in fields and each handler is proved to move its
    state exactly as those functions say. */
module Canvas {
  import opened Types

  const CANVAS_SIZE: nat := 320
  const PIXELS: nat := CANVAS_SIZE * CANVAS_SIZE

  /** A pixel value, written as the CSS colour the context paints with. */
  type Color = string

  const WHITE: Color := "#ffffff"
  /** The contents of a canvas element before anything is painted on it. */
  const TRANSPARENT: Color := "rgba(0, 0, 0, 0)"
  const COLORS: seq<Color> := ["#2d2d2d", "#dc2626", "#ea580c", "#ca8a04", "#16a34a",
                               "#2563eb", "#9333ea", "#db2777", "#57534e"]

  /** A full copy of the frame, as `getImageData` returns it. */
  type Snapshot = seq<Color>

  datatype Tool = Pencil | Eraser

  datatype Point = Point(x: real, y: real)

  /** The context's `lineWidth` and `strokeStyle` for one dab. */
  datatype Brush = Brush(lineWidth: nat, strokeStyle: Color)

  /** The browser's stroke rasteriser: the pixel indices covered when the path's current point is
      joined to the new point with the given brush. */
  type Rasterizer = (Brush, Point, Point) -> seq<int>

  /** The tool parameters of `draw`: the pencil draws 3 wide in the selected colour, the eraser
      paints 20 wide in the background white. */
  function BrushFor(tool: Tool, selectedColor: Color): Brush {
    if tool == Pencil then Brush(3, selectedColor) else Brush(20, WHITE)
  }

  /** A uniform frame of `n` pixels. */
  function Filled(n: nat, c: Color): (r: Snapshot)
    ensures |r| == n
  {
    seq(n, _ => c)
  }

  /** The frame after `ink` is stroked over `cells`; cells outside the frame are clipped. The
      method `DrawingCanvas.StrokeCells` is proved to paint the array exactly so, pixel by pixel. */
  function Paint(frame: Snapshot, cells: seq<int>, ink: Color): (r: Snapshot)
    ensures |r| == |frame|
  {
    seq(|frame|, i requires 0 <= i < |frame| => if i in cells then ink else frame[i])
  }

  /** `lineTo(p); stroke()` on a frame. With a current point (`from`) the segment to `p` is painted;
      on an empty path (right after `beginPath`) `lineTo` only opens a one-point subpath, which
      `stroke()` does not paint, so the frame is left as it is. */
  function Stroked(frame: Snapshot, raster: Rasterizer, brush: Brush, from: Option<Point>, p: Point)
    : (r: Snapshot)
    ensures |r| == |frame|
    ensures from.None? ==> r == frame
    ensures from.Some? ==> r == Paint(frame, raster(brush, from.value, p), brush.strokeStyle)
  {
    match from
    case None => frame
    case Some(q) => Paint(frame, raster(brush, q, p), brush.strokeStyle)
  }

  /** Whatever the selected colour, what the eraser covers is back to the background that a
      clear produces. */
  lemma EraserRestoresBackground(frame: Snapshot, cells: seq<int>, selectedColor: Color, i: int)
    requires 0 <= i < |frame| && i in cells
    ensures Paint(frame, cells, BrushFor(Eraser, selectedColor).strokeStyle)[i]
            == Filled(|frame|, WHITE)[i]
  {
  }

  // ---------------------------------------------------------------------------------------
  // The history as a value

  datatype History = History(snapshots: seq<Snapshot>, step: int) {
    predicate Valid() {
      0 <= step < |snapshots|
    }

    /** The snapshot the frame shows when no stroke is in progress. */
    function Current(): Snapshot
      requires Valid()
    {
      snapshots[step]
    }

    /** Whether the redo button is enabled. */
    predicate CanRedo() {
      step < |snapshots| - 1
    }
  }

  /** The history right after mount: one snapshot, the cursor on it. */
  function Mounted(blank: Snapshot): (h: History)
    ensures h.Valid() && h.Current() == blank && |h.snapshots| == 1 && !h.CanRedo()
  {
    History([blank], 0)
  }

  /** End of stroke and clear: truncate after the cursor, append, advance. */
  function Commit(h: History, snap: Snapshot): (r: History)
    requires h.Valid()
    ensures r.Valid() && r.Current() == snap && |r.snapshots| == h.step + 2
    ensures r.snapshots[..h.step + 1] == h.snapshots[..h.step + 1]
    ensures r.step == h.step + 1 && !r.CanRedo()
  {
    var newHistory := h.snapshots[..h.step + 1] + [snap];
    History(newHistory, |newHistory| - 1)
  }

  /** Undo: the cursor moves back one snapshot unless it is on the first; the list is untouched. */
  function Undo(h: History): (r: History)
    requires h.Valid()
    ensures r.Valid() && r.snapshots == h.snapshots
    ensures h.step > 0 ==> r.step == h.step - 1 && r.Current() == h.snapshots[h.step - 1]
    ensures h.step == 0 ==> r == h
  {
    if h.step > 0 then History(h.snapshots, h.step - 1) else h
  }

  /** Redo: the cursor moves forward one snapshot unless it is on the last; the list is untouched. */
  function Redo(h: History): (r: History)
    requires h.Valid()
    ensures r.Valid() && r.snapshots == h.snapshots
    ensures h.CanRedo() ==> r.step == h.step + 1 && r.Current() == h.snapshots[h.step + 1]
    ensures !h.CanRedo() ==> r == h
  {
    if h.step < |h.snapshots| - 1 then History(h.snapshots, h.step + 1) else h
  }

  /** Undo followed by redo returns to the same cursor, hence the same frame. */
  lemma UndoThenRedo(h: History)
    requires h.Valid() && h.step > 0
    ensures Redo(Undo(h)) == h
  {
  }

  /** Redo followed by undo returns to the same cursor. */
  lemma RedoThenUndo(h: History)
    requires h.Valid() && h.CanRedo()
    ensures Undo(Redo(h)) == h
  {
  }

  /** `n` strokes committed one after another, oldest first. */
  function CommitAll(h: History, frames: seq<Snapshot>): (r: History)
    requires h.Valid()
    ensures r.Valid()
    decreases |frames|
  {
    if frames == [] then h
    else Commit(CommitAll(h, frames[..|frames| - 1]), frames[|frames| - 1])
  }

  /** After mount and N completed strokes the history holds the blank frame and the N stroke
      results in order, and the cursor is N. */
  lemma {:induction false} StrokesAfterMount(blank: Snapshot, frames: seq<Snapshot>)
    ensures CommitAll(Mounted(blank), frames) == History([blank] + frames, |frames|)
    decreases |frames|
  {
    if frames != [] {
      var init := frames[..|frames| - 1];
      StrokesAfterMount(blank, init);
      assert ([blank] + init)[..|init| + 1] == [blank] + init;
      assert [blank] + init + [frames[|frames| - 1]] == [blank] + frames;
    }
  }

  /** `k` presses of undo. */
  function UndoTimes(h: History, k: nat): (r: History)
    requires h.Valid()
    ensures r.Valid()
  {
    if k == 0 then h else Undo(UndoTimes(h, k - 1))
  }

  lemma {:induction false} UndoTimesMovesCursor(h: History, k: nat)
    requires h.Valid() && k <= h.step
    ensures UndoTimes(h, k) == History(h.snapshots, h.step - k)
  {
    if k > 0 {
      UndoTimesMovesCursor(h, k - 1);
    }
  }

  /** Undoing k times from the newest snapshot and then drawing drops exactly the k most recent
      snapshots; redo has nothing to restore afterwards. */
  lemma UndoThenDrawDropsRedoBranch(h: History, k: nat, snap: Snapshot)
    requires h.Valid() && h.step == |h.snapshots| - 1 && k <= h.step
    ensures Commit(UndoTimes(h, k), snap).snapshots == h.snapshots[..|h.snapshots| - k] + [snap]
    ensures Redo(Commit(UndoTimes(h, k), snap)) == Commit(UndoTimes(h, k), snap)
  {
    UndoTimesMovesCursor(h, k);
  }

  /** Mount, stroke A, stroke B, undo: the frame shows A, the cursor is 1 and three snapshots
      are kept. */
  lemma TwoStrokesThenUndo(blank: Snapshot, a: Snapshot, b: Snapshot)
    ensures Undo(Commit(Commit(Mounted(blank), a), b)).Current() == a
    ensures Undo(Commit(Commit(Mounted(blank), a), b)) == History([blank, a, b], 1)
  {
  }

  // ---------------------------------------------------------------------------------------
  // The component

  datatype CanvasEvent =
    | MouseDown(p: Point) | MouseMove(p: Point) | MouseUp | MouseLeave
    | TouchStart(p: Point) | TouchMove(p: Point) | TouchEnd

  class DrawingCanvas {
    /** The canvas pixels, painted in place. */
    var frame: array<Color>
    var history: seq<Snapshot>
    var historyStep: int
    var isDrawing: bool
    var tool: Tool
    var selectedColor: Color
    /** The current point of the context's path: set by `moveTo` after every dab and cleared by
        `beginPath` when a stroke ends. */
    var pen: Option<Point>

    function State(): History
      reads this
    {
      History(history, historyStep)
    }

    /** The cursor is a valid index, every snapshot is a full frame, and between strokes the frame
        shows the snapshot under the cursor and the path is empty. */
    ghost predicate Valid()
      reads this, frame
    {
      && frame.Length == PIXELS
      && State().Valid()
      && (forall k :: 0 <= k < |history| ==> |history[k]| == PIXELS)
      && (!isDrawing ==> frame[..] == history[historyStep] && pen.None?)
    }

    /** The component after its mount effect has run: the frame filled white and that blank frame
        saved as the only snapshot. */
    constructor ()
      ensures Valid() && fresh(frame)
      ensures frame[..] == Filled(PIXELS, WHITE)
      ensures State() == Mounted(Filled(PIXELS, WHITE))
      ensures !isDrawing && tool == Pencil && selectedColor == COLORS[0] && pen.None?
    {
      frame := new Color[PIXELS](_ => TRANSPARENT);
      history, historyStep := [], -1;
      isDrawing, tool, selectedColor, pen := false, Pencil, COLORS[0], None;
      new;
      FillRect(WHITE);
      history := [frame[..]];
      historyStep := 0;
    }

    /** `fillRect(0, 0, CANVAS_SIZE, CANVAS_SIZE)` with the given fill style. */
    method FillRect(c: Color)
      modifies frame
      ensures frame[..] == Filled(frame.Length, c)
    {
      var i := 0;
      while i < frame.Length
        invariant 0 <= i <= frame.Length
        invariant forall k :: 0 <= k < i ==> frame[k] == c
      {
        frame[i] := c;
        i := i + 1;
      }
    }

    /** `putImageData(snap, 0, 0)`. */
    method PutImageData(snap: Snapshot)
      requires |snap| == frame.Length
      modifies frame
      ensures frame[..] == snap
    {
      var i := 0;
      while i < frame.Length
        invariant 0 <= i <= frame.Length
        invariant forall k :: 0 <= k < i ==> frame[k] == snap[k]
      {
        frame[i] := snap[i];
        i := i + 1;
      }
    }

    /** `stroke()` of the current segment: `ink` over the covered cells that lie in the frame. */
    method StrokeCells(cells: seq<int>, ink: Color)
      modifies frame
      ensures frame[..] == Paint(old(frame[..]), cells, ink)
    {
      var i := 0;
      while i < |cells|
        invariant 0 <= i <= |cells|
        invariant frame[..] == Paint(old(frame[..]), cells[..i], ink)
      {
        assert cells[..i + 1] == cells[..i] + [cells[i]];
        if 0 <= cells[i] < frame.Length {
          frame[cells[i]] := ink;
        }
        i := i + 1;
      }
      assert cells[..i] == cells;
    }

    /** `draw(x, y)`: one dab from the path's current point with the tool's brush (nothing when
        the path is empty); the path then starts again at the new point. */
    method Draw(p: Point, raster: Rasterizer)
      requires Valid() && isDrawing
      modifies this, frame
      ensures Valid() && frame == old(frame) && isDrawing
      ensures frame[..] == Stroked(old(frame[..]), raster, BrushFor(tool, selectedColor), old(pen), p)
      ensures pen == Some(p)
      ensures State() == old(State()) && tool == old(tool) && selectedColor == old(selectedColor)
    {
      var brush := BrushFor(tool, selectedColor);
      if pen.Some? {
        StrokeCells(raster(brush, pen.value, p), brush.strokeStyle);
      }
      pen := Some(p);
    }

    /** `startDrawing`: the stroke becomes active and `draw` runs at the pressed point. Between
        strokes the path is empty, so that first dab paints nothing: the press only sets the
        path's current point for the moves that follow. */
    method StartDrawing(p: Point, raster: Rasterizer)
      requires Valid()
      modifies this, frame
      ensures Valid() && frame == old(frame) && isDrawing
      ensures frame[..] == Stroked(old(frame[..]), raster, BrushFor(tool, selectedColor), old(pen), p)
      ensures !old(isDrawing) ==> frame[..] == old(frame[..])
      ensures pen == Some(p)
      ensures State() == old(State()) && tool == old(tool) && selectedColor == old(selectedColor)
    {
      isDrawing := true;
      Draw(p, raster);
    }

    /** `handleMouseMove`: paints only while a stroke is active. */
    method HandleMouseMove(p: Point, raster: Rasterizer)
      requires Valid()
      modifies this, frame
      ensures Valid() && frame == old(frame) && isDrawing == old(isDrawing)
      ensures !old(isDrawing) ==> frame[..] == old(frame[..]) && pen == old(pen)
      ensures old(isDrawing) ==>
                frame[..] == Stroked(old(frame[..]), raster, BrushFor(tool, selectedColor), old(pen), p)
                && pen == Some(p)
      ensures State() == old(State()) && tool == old(tool) && selectedColor == old(selectedColor)
    {
      if !isDrawing {
        return;
      }
      Draw(p, raster);
    }

    /** `stopDrawing`: a no-op without an active stroke; otherwise the stroke ends, the path is
        reset and the frame is committed to the history. */
    method StopDrawing()
      requires Valid()
      modifies this
      ensures Valid() && !isDrawing && frame[..] == old(frame[..])
      ensures !old(isDrawing) ==> State() == old(State()) && pen == old(pen)
      ensures old(isDrawing) ==> State() == Commit(old(State()), old(frame[..])) && pen.None?
      ensures tool == old(tool) && selectedColor == old(selectedColor) && frame == old(frame)
    {
      if !isDrawing {
        return;
      }
      isDrawing := false;
      pen := None;
      var imageData := frame[..];
      var newHistory := history[..historyStep + 1] + [imageData];
      history := newHistory;
      historyStep := |newHistory| - 1;
    }

    /** `handleUndo`: moves the cursor back and repaints the frame from the snapshot there. */
    method HandleUndo()
      requires Valid()
      modifies this, frame
      ensures Valid() && frame == old(frame)
      ensures State() == Undo(old(State()))
      ensures frame[..] == if old(historyStep) > 0 then history[historyStep] else old(frame[..])
      ensures isDrawing == old(isDrawing) && pen == old(pen)
      ensures tool == old(tool) && selectedColor == old(selectedColor)
    {
      if historyStep > 0 {
        var newStep := historyStep - 1;
        PutImageData(history[newStep]);
        historyStep := newStep;
      }
    }

    /** `handleRedo`: moves the cursor forward and repaints the frame from the snapshot there. */
    method HandleRedo()
      requires Valid()
      modifies this, frame
      ensures Valid() && frame == old(frame)
      ensures State() == Redo(old(State()))
      ensures frame[..] == if old(historyStep) < |old(history)| - 1 then history[historyStep]
                           else old(frame[..])
      ensures isDrawing == old(isDrawing) && pen == old(pen)
      ensures tool == old(tool) && selectedColor == old(selectedColor)
    {
      if historyStep < |history| - 1 {
        var newStep := historyStep + 1;
        PutImageData(history[newStep]);
        historyStep := newStep;
      }
    }

    /** `clearCanvas`: the whole frame becomes white and that frame is committed. */
    method ClearCanvas()
      requires Valid()
      modifies this, frame
      ensures Valid() && frame == old(frame)
      ensures frame[..] == Filled(PIXELS, WHITE)
      ensures State() == Commit(old(State()), Filled(PIXELS, WHITE))
      ensures isDrawing == old(isDrawing) && pen == old(pen)
      ensures tool == old(tool) && selectedColor == old(selectedColor)
    {
      FillRect(WHITE);
      var imageData := frame[..];
      var newHistory := history[..historyStep + 1] + [imageData];
      history := newHistory;
      historyStep := |newHistory| - 1;
    }

    /** `handleColorSelect`: picking a colour also switches back to the pencil. */
    method HandleColorSelect(color: Color)
      requires Valid()
      modifies this
      ensures Valid() && selectedColor == color && tool == Pencil
      ensures State() == old(State()) && isDrawing == old(isDrawing) && pen == old(pen)
      ensures frame == old(frame)
    {
      selectedColor := color;
      tool := Pencil;
    }

    /** The pencil and eraser buttons. */
    method SetTool(t: Tool)
      requires Valid()
      modifies this
      ensures Valid() && tool == t && selectedColor == old(selectedColor)
      ensures State() == old(State()) && isDrawing == old(isDrawing) && pen == old(pen)
      ensures frame == old(frame)
    {
      tool := t;
    }

    /** The canvas element's event bindings: mouse-up, mouse-leave and touch-end all route to
        `stopDrawing`, so none of them leaves a stroke open. */
    method Handle(e: CanvasEvent, raster: Rasterizer)
      requires Valid()
      modifies this, frame
      ensures Valid() && frame == old(frame)
      ensures (e.MouseUp? || e.MouseLeave? || e.TouchEnd?) ==> !isDrawing
      ensures (e.MouseDown? || e.TouchStart?) ==> isDrawing
      ensures (e.MouseMove? || e.TouchMove?) ==> isDrawing == old(isDrawing)
      ensures (e.MouseUp? || e.MouseLeave? || e.TouchEnd?) && old(isDrawing) ==>
                State() == Commit(old(State()), old(frame[..]))
      ensures !(e.MouseUp? || e.MouseLeave? || e.TouchEnd?) || !old(isDrawing) ==>
                State() == old(State())
      ensures tool == old(tool) && selectedColor == old(selectedColor)
      ensures (e.MouseUp? || e.MouseLeave? || e.TouchEnd?) ==>
                frame[..] == old(frame[..]) && pen == if old(isDrawing) then None else old(pen)
      ensures (e.MouseDown? || e.TouchStart?) ==>
                && frame[..] == Stroked(old(frame[..]), raster, BrushFor(tool, selectedColor), old(pen), e.p)
                && (!old(isDrawing) ==> frame[..] == old(frame[..]))
                && pen == Some(e.p)
      ensures (e.MouseMove? || e.TouchMove?) && old(isDrawing) ==>
                frame[..] == Stroked(old(frame[..]), raster, BrushFor(tool, selectedColor), old(pen), e.p)
                && pen == Some(e.p)
      ensures (e.MouseMove? || e.TouchMove?) && !old(isDrawing) ==>
                frame[..] == old(frame[..]) && pen == old(pen)
    {
      match e
      case MouseDown(p) => StartDrawing(p, raster);
      case TouchStart(p) => StartDrawing(p, raster);
      case MouseMove(p) => HandleMouseMove(p, raster);
      case TouchMove(p) => HandleMouseMove(p, raster);
      case MouseUp => StopDrawing();
      case MouseLeave => StopDrawing();
      case TouchEnd => StopDrawing();
    }
  }

  /** Between strokes, undo then redo leaves the cursor and the frame as they were. */
  method UndoThenRedoRestoresFrame(c: DrawingCanvas)
    requires c.Valid() && !c.isDrawing && c.historyStep > 0
    modifies c, c.frame
    ensures c.Valid() && c.historyStep == old(c.historyStep) && c.history == old(c.history)
    ensures c.frame[..] == old(c.frame[..])
  {
    c.HandleUndo();
    c.HandleRedo();
  }

  /** A tap with no movement still commits exactly one new snapshot, and that snapshot is the frame
      as it was: the press paints nothing. */
  method TapCommitsOneSnapshot(c: DrawingCanvas, p: Point, raster: Rasterizer)
    requires c.Valid() && !c.isDrawing
    modifies c, c.frame
    ensures c.Valid() && !c.isDrawing
    ensures |c.history| == old(c.historyStep) + 2 && c.historyStep == old(c.historyStep) + 1
    ensures c.history[..old(c.historyStep) + 1] == old(c.history)[..old(c.historyStep) + 1]
    ensures c.frame[..] == old(c.frame[..]) && c.history[c.historyStep] == old(c.frame[..])
  {
    c.Handle(MouseDown(p), raster);
    c.Handle(MouseUp, raster);
  }
}
