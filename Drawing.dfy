/**
 * The drawing exercise's undo and redo stacks. Canvas contents are abstract images:
 * a stroke's effect on the pixels is supplied by the caller, the stacks only ever
 * hold, move and restore whole images.
 */
module DrawingExercise {
  /** The pixels of the canvas (`ImageData`), kept abstract. */
  datatype Image = Image(pixels: seq<int>)

  const Blank := Image([])

  /** The two stacks; the top of each is its last element. */
  datatype History = History(undo: seq<Image>, redo: seq<Image>)

  /** `saveToUndoStack`: one more snapshot on the undo stack, and nothing left to redo. */
  function Save(h: History, snapshot: Image): (r: History)
    ensures |r.undo| == |h.undo| + 1 && r.undo[|r.undo| - 1] == snapshot && r.undo[..|h.undo|] == h.undo
    ensures r.redo == []
  {
    History(h.undo + [snapshot], [])
  }

  /** `undo`: with more than one snapshot the top moves onto the redo stack; otherwise nothing happens. */
  function Undone(h: History): History {
    if |h.undo| > 1 then History(h.undo[..|h.undo| - 1], h.redo + [h.undo[|h.undo| - 1]]) else h
  }

  /** `redo`: with something to redo its top moves back onto the undo stack. */
  function Redone(h: History): History {
    if |h.redo| > 0 then History(h.undo + [h.redo[|h.redo| - 1]], h.redo[..|h.redo| - 1]) else h
  }

  /** The image undo displays: the snapshot under the old top, which is the new top. */
  function AfterUndo(h: History): Image
    requires |h.undo| > 1
  {
    h.undo[|h.undo| - 2]
  }

  /** The image redo displays: the redo top. */
  function AfterRedo(h: History): Image
    requires |h.redo| > 0
  {
    h.redo[|h.redo| - 1]
  }

  /** Redo after an undo restores both stacks exactly, and undo after a redo does too. */
  lemma UndoRedoInverse(h: History)
    ensures |h.undo| > 1 ==> Redone(Undone(h)) == h
    ensures |h.redo| > 0 && |h.undo| > 0 ==> Undone(Redone(h)) == h
  {
    if |h.undo| > 1 {
      assert h.undo[..|h.undo| - 1] + [h.undo[|h.undo| - 1]] == h.undo;
      assert (h.redo + [h.undo[|h.undo| - 1]])[..|h.redo|] == h.redo;
    }
    if |h.redo| > 0 && |h.undo| > 0 {
      assert h.redo[..|h.redo| - 1] + [h.redo[|h.redo| - 1]] == h.redo;
      assert (h.undo + [h.redo[|h.redo| - 1]])[..|h.undo|] == h.undo;
    }
  }

  /** Undo and redo keep the number of snapshots; undo never empties the undo stack; after undo the displayed image is the undo top, after redo too. */
  lemma UndoRedoKeepSnapshots(h: History)
    ensures |Undone(h).undo| + |Undone(h).redo| == |h.undo| + |h.redo|
    ensures |Redone(h).undo| + |Redone(h).redo| == |h.undo| + |h.redo|
    ensures |h.undo| > 0 ==> |Undone(h).undo| > 0
    ensures |h.undo| > 1 ==> Undone(h).undo[|Undone(h).undo| - 1] == AfterUndo(h)
    ensures |h.redo| > 0 ==> Redone(h).undo[|Redone(h).undo| - 1] == AfterRedo(h)
  {
  }

  class Canvas {
    /** Whether `getContext('2d')` gave a context; without one no handler touches the stacks. */
    const hasContext: bool
    var isDrawing: bool
    var image: Image
    var undoStack: seq<Image>
    var redoStack: seq<Image>
    /** Every image passed to `onSave`, in order. */
    var saved: seq<Image>

    function Stacks(): History
      reads this
    {
      History(undoStack, redoStack)
    }

    /**
     * The first render and the mount effect. The effect's `saveToUndoStack` is the one
     * of the first render, whose `context` is still null, so the initial blank canvas
     * is not saved and the undo stack starts empty.
     */
    constructor(contextAvailable: bool)
      ensures hasContext == contextAvailable && !isDrawing && image == Blank
      ensures undoStack == [] && redoStack == [] && saved == []
    {
      hasContext := contextAvailable;
      isDrawing := false;
      image := Blank;
      undoStack := [];
      redoStack := [];
      saved := [];
    }

    method StartDrawing()
      modifies this
      ensures isDrawing && image == old(image) && Stacks() == old(Stacks()) && saved == old(saved)
    {
      isDrawing := true;
    }

    /** `draw`: while a stroke is in progress the stroke changes the pixels to `after`. */
    method Draw(after: Image)
      modifies this
      ensures image == (if old(isDrawing) && hasContext then after else old(image))
      ensures isDrawing == old(isDrawing) && Stacks() == old(Stacks()) && saved == old(saved)
    {
      if isDrawing && hasContext {
        image := after;
      }
    }

    /** `saveToUndoStack`. */
    method SaveToUndoStack()
      modifies this
      ensures Stacks() == (if hasContext then Save(old(Stacks()), old(image)) else old(Stacks()))
      ensures isDrawing == old(isDrawing) && image == old(image) && saved == old(saved)
    {
      if hasContext {
        var h := Save(Stacks(), image);
        undoStack := h.undo;
        redoStack := h.redo;
      }
    }

    /** `stopDrawing`: only a stroke in progress ends and saves a snapshot. */
    method StopDrawing()
      modifies this
      ensures old(isDrawing) && hasContext ==> Stacks() == Save(old(Stacks()), old(image))
      ensures !(old(isDrawing) && hasContext) ==> Stacks() == old(Stacks())
      ensures !isDrawing && image == old(image) && saved == old(saved)
    {
      if isDrawing {
        isDrawing := false;
        if hasContext {
          SaveToUndoStack();
        }
      }
    }

    /** `undo` (disabled with one snapshot or none): the stacks step back and the new top is displayed. */
    method Undo()
      modifies this
      ensures Stacks() == (if hasContext then Undone(old(Stacks())) else old(Stacks()))
      ensures hasContext && |old(undoStack)| > 1 ==> image == AfterUndo(old(Stacks()))
      ensures !(hasContext && |old(undoStack)| > 1) ==> image == old(image)
      ensures isDrawing == old(isDrawing) && saved == old(saved)
    {
      if |undoStack| > 1 && hasContext {
        image := AfterUndo(Stacks());
        var h := Undone(Stacks());
        undoStack := h.undo;
        redoStack := h.redo;
      }
    }

    /** `redo` (disabled with nothing to redo): the stacks step forward and the restored snapshot is displayed. */
    method Redo()
      modifies this
      ensures Stacks() == (if hasContext then Redone(old(Stacks())) else old(Stacks()))
      ensures hasContext && |old(redoStack)| > 0 ==> image == AfterRedo(old(Stacks()))
      ensures !(hasContext && |old(redoStack)| > 0) ==> image == old(image)
      ensures isDrawing == old(isDrawing) && saved == old(saved)
    {
      if |redoStack| > 0 && hasContext {
        image := AfterRedo(Stacks());
        var h := Redone(Stacks());
        undoStack := h.undo;
        redoStack := h.redo;
      }
    }

    /** `clearCanvas`: the canvas becomes blank and that blank canvas is saved as a snapshot. */
    method ClearCanvas()
      modifies this
      ensures hasContext ==> image == Blank && Stacks() == Save(old(Stacks()), Blank)
      ensures !hasContext ==> image == old(image) && Stacks() == old(Stacks())
      ensures isDrawing == old(isDrawing) && saved == old(saved)
    {
      if hasContext {
        image := Blank;
        SaveToUndoStack();
      }
    }

    /** `handleSave`: the current canvas goes to `onSave`. */
    method HandleSave()
      modifies this
      ensures saved == old(saved) + [image]
      ensures image == old(image) && isDrawing == old(isDrawing) && Stacks() == old(Stacks())
    {
      saved := saved + [image];
    }
  }

  /**
   * Because the mount saves nothing, the first stroke leaves a single snapshot and
   * undo does nothing until a second snapshot exists.
   */
  lemma FirstStrokeCannotBeUndone(stroke: Image)
    ensures Undone(Save(History([], []), stroke)) == Save(History([], []), stroke)
  {
  }
}
