/**
 * The freehand drawing layer of the preview (frontend/src/App.js): the
 * snapshot history behind undo and redo, and the drawing canvas whose
 * handlers move through it. A snapshot is the canvas's data URL; the pixels
 * a stroke paints arrive as the snapshot the canvas shows afterwards.
 */
module Drawing {

  type Snapshot = string

  /** Size of a newly created canvas element before anything sizes it. */
  const DefaultCanvasWidth: int := 300
  const DefaultCanvasHeight: int := 150

  /** The snapshot list and the index of the one shown (-1 for none). */
  datatype History = History(entries: seq<Snapshot>, index: int)

  /** Either empty with index -1, or the index points at an entry. */
  predicate ValidHistory(h: History)
  {
    (|h.entries| == 0 && h.index == -1) || (0 <= h.index < |h.entries|)
  }

  /** The state initializeDrawingCanvas leaves: no snapshots. */
  function EmptyHistory(): (h: History)
    ensures ValidHistory(h) && |h.entries| == 0
  {
    History([], -1)
  }

  /** Array.prototype.slice(0, end): a negative end counts back from the end. */
  function SlicePrefix(s: seq<Snapshot>, end: int): (r: seq<Snapshot>)
    ensures 0 <= end <= |s| ==> r == s[..end]
    ensures end > |s| ==> r == s
    ensures end < 0 ==> r == s[..if |s| + end < 0 then 0 else |s| + end]
  {
    if end >= 0 then (if end <= |s| then s[..end] else s)
    else s[..if |s| + end < 0 then 0 else |s| + end]
  }

  /**
   * saveToHistory on a sized canvas: drop every snapshot after the current
   * one, append `snap`, and show it.
   */
  function Save(h: History, snap: Snapshot): (r: History)
    ensures 0 <= r.index == |r.entries| - 1 && r.entries[r.index] == snap
    ensures ValidHistory(r)
    ensures ValidHistory(h) ==> r.entries[..r.index] == h.entries[..h.index + 1]
  {
    var kept := SlicePrefix(h.entries, h.index + 1) + [snap];
    History(kept, |kept| - 1)
  }

  /** undo: step back while there is an earlier snapshot. */
  function Undo(h: History): (r: History)
    ensures r.entries == h.entries
    ensures r == h || (r.index == h.index - 1 && 0 <= r.index)
    ensures r != h <==> h.index > 0 && |h.entries| > 1
    ensures ValidHistory(h) ==> ValidHistory(r)
  {
    if h.index > 0 && |h.entries| > 1 then h.(index := h.index - 1) else h
  }

  /** redo: step forward while there is a later snapshot. */
  function Redo(h: History): (r: History)
    ensures r.entries == h.entries
    ensures r == h || r.index == h.index + 1 < |h.entries|
    ensures r != h <==> h.index < |h.entries| - 1
    ensures ValidHistory(h) ==> ValidHistory(r)
  {
    if h.index < |h.entries| - 1 then h.(index := h.index + 1) else h
  }

  /**
   * The history update at the end of a stroke: the first stroke records the
   * blank canvas and the drawing together, later strokes are saved.
   */
  function CommitStroke(h: History, blank: Snapshot, drawn: Snapshot): (r: History)
    ensures 0 <= r.index == |r.entries| - 1 && r.entries[r.index] == drawn
    ensures ValidHistory(r)
    ensures |h.entries| == 0 ==> r.entries == [blank, drawn]
  {
    if |h.entries| == 0 then History([blank, drawn], 1) else Save(h, drawn)
  }

  /**
   * On a well-formed history, undo's length test adds nothing to its index
   * test: undo moves exactly when an earlier snapshot exists, and redo
   * exactly when a later one does.
   */
  lemma UndoRedoGuards(h: History)
    requires ValidHistory(h)
    ensures Undo(h) != h <==> h.index > 0
    ensures Redo(h) != h <==> h.index + 1 < |h.entries|
  {
  }

  /** The preview counts as having a drawing once more than one snapshot exists. */
  predicate HasDrawing(h: History)
  {
    |h.entries| > 1
  }

  /** Saving keeps the snapshots up to the current one, then shows the new one. */
  lemma SaveSpec(h: History, snap: Snapshot)
    requires ValidHistory(h)
    ensures ValidHistory(Save(h, snap))
    ensures Save(h, snap).entries == h.entries[..h.index + 1] + [snap]
    ensures Save(h, snap).entries[Save(h, snap).index] == snap
    ensures Save(h, snap).index == h.index + 1
  {
  }

  /** Saving leaves nothing to redo. */
  lemma SaveClearsRedo(h: History, snap: Snapshot)
    requires ValidHistory(h)
    ensures Redo(Save(h, snap)) == Save(h, snap)
  {
  }

  /** Undo and redo keep the history valid and never change the snapshots. */
  lemma UndoRedoKeepValid(h: History)
    requires ValidHistory(h)
    ensures ValidHistory(Undo(h)) && Undo(h).entries == h.entries
    ensures ValidHistory(Redo(h)) && Redo(h).entries == h.entries
  {
  }

  /** Redo after an undo that moved returns to where it was. */
  lemma RedoUndoes(h: History)
    requires ValidHistory(h)
    requires Undo(h) != h
    ensures Redo(Undo(h)) == h
  {
  }

  /** Undo after a redo that moved returns to where it was, as long as there is an earlier snapshot to stand on. */
  lemma UndoRedoes(h: History)
    requires ValidHistory(h)
    requires Redo(h) != h && h.index >= 0
    ensures Undo(Redo(h)) == h
  {
  }

  /** Undo never steps onto index -1 and never leaves the first snapshot. */
  lemma UndoStopsAtFirst(h: History)
    requires ValidHistory(h) && h.index == 0
    ensures Undo(h) == h
  {
  }

  /** After any committed stroke the preview has a drawing. */
  lemma CommitMakesDrawing(h: History, blank: Snapshot, drawn: Snapshot)
    requires ValidHistory(h)
    ensures ValidHistory(CommitStroke(h, blank, drawn))
    ensures HasDrawing(CommitStroke(h, blank, drawn))
    ensures CommitStroke(h, blank, drawn).entries[CommitStroke(h, blank, drawn).index] == drawn
  {
  }

  /** Saving alone (a clear) on an empty history gives a single snapshot, which is not yet a drawing. */
  lemma ClearAloneIsNoDrawing(blank: Snapshot)
    ensures Save(EmptyHistory(), blank) == History([blank], 0)
    ensures !HasDrawing(Save(EmptyHistory(), blank))
  {
  }

  /** Commits the strokes in order, first to last. */
  function CommitAll(h: History, blank: Snapshot, strokes: seq<Snapshot>): History
    decreases |strokes|
  {
    if |strokes| == 0 then h
    else CommitAll(CommitStroke(h, blank, strokes[0]), blank, strokes[1..])
  }

  /**
   * From a valid non-empty history, n >= 1 strokes keep the snapshots up to the
   * current one and append the n drawings.
   */
  lemma {:induction false} CommitAllAppends(h: History, blank: Snapshot, strokes: seq<Snapshot>)
    requires ValidHistory(h) && |h.entries| > 0
    requires |strokes| > 0
    ensures CommitAll(h, blank, strokes) == History(h.entries[..h.index + 1] + strokes, h.index + |strokes|)
    decreases |strokes|
  {
    var h1 := CommitStroke(h, blank, strokes[0]);
    SaveSpec(h, strokes[0]);
    if |strokes| == 1 {
      assert strokes == [strokes[0]];
    } else {
      CommitAllAppends(h1, blank, strokes[1..]);
      assert h1.entries[..h1.index + 1] == h1.entries;
      assert h.entries[..h.index + 1] + [strokes[0]] + strokes[1..] == h.entries[..h.index + 1] + strokes;
    }
  }

  /** After a reset, n >= 1 strokes give the blank canvas followed by the n drawings, showing the last. */
  lemma StrokesAfterReset(blank: Snapshot, strokes: seq<Snapshot>)
    requires |strokes| > 0
    ensures CommitAll(EmptyHistory(), blank, strokes) == History([blank] + strokes, |strokes|)
  {
    var h1 := CommitStroke(EmptyHistory(), blank, strokes[0]);
    assert h1 == History([blank, strokes[0]], 1);
    if |strokes| > 1 {
      CommitAllAppends(h1, blank, strokes[1..]);
      assert h1.entries[..h1.index + 1] + strokes[1..] == [blank] + strokes;
    } else {
      assert strokes == [strokes[0]];
    }
  }

  /**
   * The drawing canvas. `shown` is the canvas bitmap as a data URL and
   * `blank` is the data URL of an empty canvas of the current size.
   */
  class DrawingSurface {
    var entries: seq<Snapshot>
    var index: int
    var shown: Snapshot
    var width: int
    var height: int
    var drawingMode: bool
    var isDrawing: bool
    var canvasReady: bool

    function State(): History
      reads this
    {
      History(entries, index)
    }

    predicate Valid()
      reads this
    {
      ValidHistory(State()) && width >= 0 && height >= 0
    }

    /** A fresh component: no snapshots, an unsized canvas, drawing off. */
    constructor (blank: Snapshot)
      ensures Valid()
      ensures State() == EmptyHistory() && shown == blank
      ensures width == 0 && height == 0
      ensures !drawingMode && !isDrawing && !canvasReady
    {
      entries := [];
      index := -1;
      shown := blank;
      width := 0;
      height := 0;
      drawingMode := false;
      isDrawing := false;
      canvasReady := false;
    }

    /**
     * initializeDrawingCanvas: without the canvas and the image the canvas is
     * not ready; with an unsized image nothing changes (a retry is scheduled);
     * otherwise the canvas takes the image's size, which clears it, the
     * history is emptied and the canvas becomes ready.
     */
    method InitializeCanvas(mounted: bool, clientWidth: nat, clientHeight: nat, blank: Snapshot)
      requires Valid()
      modifies this
      ensures Valid()
      ensures drawingMode == old(drawingMode) && isDrawing == old(isDrawing)
      ensures !mounted ==> !canvasReady && State() == old(State()) && shown == old(shown)
                           && width == old(width) && height == old(height)
      ensures mounted && (clientWidth == 0 || clientHeight == 0) ==>
                canvasReady == old(canvasReady) && State() == old(State()) && shown == old(shown)
                && width == old(width) && height == old(height)
      ensures mounted && clientWidth > 0 && clientHeight > 0 ==>
                canvasReady && State() == EmptyHistory() && shown == blank
                && width == clientWidth && height == clientHeight
    {
      if !mounted {
        canvasReady := false;
        return;
      }
      if clientWidth == 0 || clientHeight == 0 {
        return;
      }
      width := clientWidth;
      height := clientHeight;
      shown := blank;
      entries := [];
      index := -1;
      canvasReady := true;
    }

    /** saveToHistory: an unsized canvas is skipped, otherwise the shown bitmap is saved. */
    method SaveToHistory()
      requires Valid()
      modifies this`entries, this`index
      ensures Valid()
      ensures width == 0 || height == 0 ==> State() == old(State())
      ensures width > 0 && height > 0 ==> State() == Save(old(State()), shown)
      ensures width > 0 && height > 0 ==> entries[index] == shown
    {
      if width == 0 || height == 0 {
        return;
      }
      var saved := Save(State(), shown);
      entries := saved.entries;
      index := saved.index;
    }

    /** undo: step back and show the earlier snapshot. */
    method UndoStep()
      requires Valid()
      modifies this`index, this`shown
      ensures Valid()
      ensures State() == Undo(old(State()))
      ensures old(index) > 0 && |entries| > 1 ==> index == old(index) - 1
      ensures !(old(index) > 0 && |entries| > 1) ==> index == old(index)
      ensures State() != old(State()) ==> shown == entries[index]
      ensures State() == old(State()) ==> shown == old(shown)
    {
      if index > 0 && |entries| > 1 {
        index := index - 1;
        shown := entries[index];
      }
    }

    /** redo: step forward and show the later snapshot. */
    method RedoStep()
      requires Valid()
      modifies this`index, this`shown
      ensures Valid()
      ensures State() == Redo(old(State()))
      ensures old(index) < |entries| - 1 ==> index == old(index) + 1
      ensures old(index) >= |entries| - 1 ==> index == old(index)
      ensures State() != old(State()) ==> shown == entries[index]
      ensures State() == old(State()) ==> shown == old(shown)
    {
      if index < |entries| - 1 {
        index := index + 1;
        shown := entries[index];
      }
    }

    /** clearDrawing: wipe the canvas and save the wiped state. */
    method Clear(blank: Snapshot)
      requires Valid()
      modifies this`entries, this`index, this`shown
      ensures Valid()
      ensures shown == blank
      ensures width == 0 || height == 0 ==> State() == old(State())
      ensures width > 0 && height > 0 ==> State() == Save(old(State()), blank)
    {
      shown := blank;
      SaveToHistory();
    }

    /**
     * handleDrawingStart: ignored until the canvas is ready, while it is
     * unsized and outside drawing mode; otherwise a stroke begins, and the
     * very first stroke wipes whatever the canvas still shows.
     */
    method BeginStroke(blank: Snapshot)
      requires Valid()
      modifies this`isDrawing, this`shown
      ensures Valid()
      ensures var starts := old(canvasReady) && width > 0 && height > 0 && drawingMode;
              (starts ==> isDrawing) && (!starts ==> isDrawing == old(isDrawing))
              && (starts && |entries| == 0 ==> shown == blank)
              && (!(starts && |entries| == 0) ==> shown == old(shown))
    {
      if !canvasReady {
        return;
      }
      if width == 0 || height == 0 {
        return;
      }
      if !drawingMode {
        return;
      }
      isDrawing := true;
      if |entries| == 0 && shown != blank {
        shown := blank;
      }
    }

    /** handleDrawingMove: while a stroke is in progress the canvas shows the painted bitmap. */
    method Paint(painted: Snapshot)
      requires Valid()
      modifies this`shown
      ensures Valid()
      ensures isDrawing && drawingMode ==> shown == painted
      ensures !(isDrawing && drawingMode) ==> shown == old(shown)
    {
      if isDrawing && drawingMode {
        shown := painted;
      }
    }

    /**
     * handleDrawingEnd: the stroke ends and, on a canvas with a width, the
     * history records it.
     */
    method EndStroke(blank: Snapshot)
      requires Valid()
      modifies this`isDrawing, this`entries, this`index
      ensures Valid()
      ensures !(old(isDrawing) && drawingMode) ==> isDrawing == old(isDrawing) && State() == old(State())
      ensures old(isDrawing) && drawingMode ==> !isDrawing
      ensures old(isDrawing) && drawingMode && width > 0 && (|old(entries)| == 0 || height > 0) ==>
                State() == CommitStroke(old(State()), blank, shown) && HasDrawing(State())
      ensures old(isDrawing) && drawingMode && (width == 0 || (|old(entries)| > 0 && height == 0)) ==>
                State() == old(State())
    {
      if !isDrawing || !drawingMode {
        return;
      }
      isDrawing := false;
      if width > 0 {
        CommitMakesDrawing(State(), blank, shown);
        if |entries| == 0 {
          entries := [blank, shown];
          index := 1;
        } else {
          SaveToHistory();
        }
      }
    }

    /**
     * Switching drawing mode. The canvas element is keyed on the mode, so in
     * preview it is replaced by a fresh one (blank, at the HTML default size
     * of 300 x 150) while the snapshot list survives. The drawing-mode effect
     * then ends any stroke, and switching the mode on in preview marks the
     * canvas not ready until it is initialised again.
     */
    method SetDrawingMode(on: bool, previewMode: bool, freshBlank: Snapshot)
      requires Valid()
      modifies this`drawingMode, this`isDrawing, this`canvasReady, this`shown, this`width, this`height
      ensures Valid()
      ensures drawingMode == on
      ensures State() == old(State())
      ensures previewMode ==> shown == freshBlank && width == DefaultCanvasWidth && height == DefaultCanvasHeight
      ensures !previewMode ==> shown == old(shown) && width == old(width) && height == old(height)
      ensures on && previewMode ==> !canvasReady && !isDrawing
      ensures !on ==> !isDrawing && canvasReady == old(canvasReady)
      ensures on && !previewMode ==> isDrawing == old(isDrawing) && canvasReady == old(canvasReady)
    {
      drawingMode := on;
      if previewMode {
        shown := freshBlank;
        width := DefaultCanvasWidth;
        height := DefaultCanvasHeight;
      }
      if on && previewMode {
        isDrawing := false;
        canvasReady := false;
      } else if !on {
        isDrawing := false;
      }
    }

    /**
     * startPreview marks the canvas not ready. Pressed from outside the
     * preview, it mounts the canvas element, which exists only in the
     * preview, afresh: blank at the HTML default size of 300 x 150, and the
     * drawing-mode effect, which runs on the preview change, ends any stroke
     * in both of its branches. Pressed again inside the preview (`wasPreview`)
     * nothing is remounted and the effect does not run, so only the readiness
     * is cleared. The snapshot list survives either way.
     */
    method PreviewStarted(wasPreview: bool, freshBlank: Snapshot)
      requires Valid()
      modifies this`canvasReady, this`isDrawing, this`shown, this`width, this`height
      ensures Valid() && !canvasReady
      ensures !wasPreview ==> !isDrawing && shown == freshBlank
                              && width == DefaultCanvasWidth && height == DefaultCanvasHeight
      ensures wasPreview ==> isDrawing == old(isDrawing) && shown == old(shown)
                             && width == old(width) && height == old(height)
      ensures State() == old(State()) && drawingMode == old(drawingMode)
    {
      canvasReady := false;
      if !wasPreview {
        isDrawing := false;
        shown := freshBlank;
        width := DefaultCanvasWidth;
        height := DefaultCanvasHeight;
      }
    }

    /**
     * As written, a second press of the preview button in drawing mode leaves
     * the canvas not ready (nothing initialises it again until the mode is
     * toggled or another base image is loaded), so the next stroke is refused.
     */
    method RepressRefusesStroke(blank: Snapshot)
      requires Valid() && ReadyToDraw()
      modifies this`canvasReady, this`isDrawing, this`shown, this`width, this`height
      ensures Valid() && !canvasReady && !isDrawing
      ensures State() == old(State())
    {
      PreviewStarted(true, blank);
      BeginStroke(blank);
    }

    /** A ready, sized canvas in drawing mode with no stroke in progress. */
    predicate ReadyToDraw()
      reads this
    {
      canvasReady && width > 0 && height > 0 && drawingMode && !isDrawing
    }

    /**
     * The press as evidently intended: the readiness is reset only when the
     * canvas is mounted afresh, that is when entering the preview; inside the
     * preview the press leaves the canvas alone.
     */
    method PreviewStartedGuarded(wasPreview: bool, freshBlank: Snapshot)
      requires Valid()
      modifies this`canvasReady, this`isDrawing, this`shown, this`width, this`height
      ensures Valid()
      ensures !wasPreview ==> !canvasReady && !isDrawing && shown == freshBlank
                              && width == DefaultCanvasWidth && height == DefaultCanvasHeight
      ensures wasPreview ==> canvasReady == old(canvasReady) && isDrawing == old(isDrawing)
                             && shown == old(shown) && width == old(width) && height == old(height)
      ensures State() == old(State()) && drawingMode == old(drawingMode)
    {
      if !wasPreview {
        PreviewStarted(false, freshBlank);
      }
    }

    /** With the guard, drawing goes on after a second press. */
    method RepressKeepsDrawing(blank: Snapshot)
      requires Valid() && ReadyToDraw()
      modifies this`canvasReady, this`isDrawing, this`shown, this`width, this`height
      ensures Valid() && canvasReady && isDrawing
      ensures State() == old(State())
    {
      PreviewStartedGuarded(true, blank);
      BeginStroke(blank);
    }
  }
}
