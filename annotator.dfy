/**
 * The annotator component's editing state: its state variables as fields
 * and one method per event handler, each handler taken as one atomic step.
 */
module Annotator {
  import opened Annotations
  import Gesture
  import UndoHistory

  class App {
    // Text panel fields.
    var textInput: string
    var textColor: string
    var fontSize: int
    var fontFamily: string
    var bold: bool
    var textPosition: Option<Point>

    // Toolbar selection.
    var tool: Tool

    // The annotation list and its undo/redo history.
    var annotations: seq<Annotation>
    var history: seq<seq<Annotation>>
    var redoStack: seq<seq<Annotation>>

    // The gesture in progress.
    var drawing: bool
    var current: Option<Annotation>

    ghost function Model(): UndoHistory.EditState
      reads this
    {
      UndoHistory.EditState(annotations, history, redoStack)
    }

    /**
     * A draft exists exactly while drawing, and it is a box or a non-empty
     * stroke. The timeline starts from the empty list and each entry adds
     * one annotation to the previous one; every list in it is well formed.
     */
    ghost predicate Valid()
      reads this
    {
      && (drawing <==> current.Some?)
      && (current.Some? ==> IsDraft(current.value))
      && var t := UndoHistory.Timeline(Model());
      && t[0] == []
      && UndoHistory.Linear(t)
      && forall i :: 0 <= i < |t| ==> AllWellFormed(t[i])
    }

    /** The component's initial state. */
    constructor ()
      ensures Valid()
      ensures annotations == [] && history == [] && redoStack == []
      ensures tool == RectTool && !drawing && current == None
      ensures textInput == "" && textColor == "#000000" && fontSize == 20 && fontFamily == "Arial" && !bold
      ensures textPosition == None
    {
      textInput := "";
      textColor := "#000000";
      fontSize := 20;
      fontFamily := "Arial";
      bold := false;
      textPosition := None;
      tool := RectTool;
      annotations := [];
      history := [];
      redoStack := [];
      drawing := false;
      current := None;
    }

    /** Each undo step takes back one annotation, so the undo depth is the list's length. */
    lemma UndoDepthIsListLength()
      requires Valid()
      ensures |history| == |annotations|
    {
      var t := UndoHistory.Timeline(Model());
      assert t[0] == [] && t[|history|] == annotations;
      assert |t[|history|]| == |t[0]| + |history|;
    }

    twostate predicate Committed(ann: Annotation)
      reads this
    {
      && history == old(history) + [old(annotations)]
      && redoStack == []
      && annotations == old(annotations) + [ann]
    }

    /** addAnnotation: push the current list on history, clear redo, append ann. */
    method AddAnnotation(ann: Annotation)
      requires Valid()
      requires WellFormed(ann)
      modifies this`annotations, this`history, this`redoStack
      ensures Valid()
      ensures Committed(ann)
      ensures Model() == UndoHistory.Commit(old(Model()), ann)
    {
      ghost var s := Model();
      history := history + [annotations];
      redoStack := [];
      annotations := annotations + [ann];
      UndoHistory.CommitKeepsLinear(s, ann);
      ghost var t, t' := UndoHistory.Timeline(s), UndoHistory.Timeline(Model());
      assert t'[0] == t[0];
      forall i | 0 <= i < |t'|
        ensures AllWellFormed(t'[i])
      {
        if i == |t'| - 1 {
          assert t'[i] == s.annotations + [ann] && s.annotations == t[|s.history|];
        } else {
          assert t'[i] == t[i];
        }
      }
    }

    /** undo: no-op on an empty history; otherwise the last history entry becomes current. */
    method Undo()
      requires Valid()
      modifies this`annotations, this`history, this`redoStack
      ensures Valid()
      ensures old(history) == [] ==>
        annotations == old(annotations) && history == old(history) && redoStack == old(redoStack)
      ensures old(history) != [] ==>
        && annotations == old(history[|history| - 1])
        && history == old(history[..|history| - 1])
        && redoStack == [old(annotations)] + old(redoStack)
      ensures old(history) != [] ==>
        |old(annotations)| >= 1 && annotations == old(annotations[..|annotations| - 1])
      ensures Model() == UndoHistory.Undo(old(Model()))
    {
      if |history| == 0 {
        return;
      }
      ghost var s := Model();
      var prev := history[|history| - 1];
      redoStack := [annotations] + redoStack;
      annotations := prev;
      history := history[..|history| - 1];
      UndoHistory.UndoDropsLast(s);
    }

    /** redo: no-op on an empty redo stack; otherwise the front redo entry becomes current. */
    method Redo()
      requires Valid()
      modifies this`annotations, this`history, this`redoStack
      ensures Valid()
      ensures old(redoStack) == [] ==>
        annotations == old(annotations) && history == old(history) && redoStack == old(redoStack)
      ensures old(redoStack) != [] ==>
        && annotations == old(redoStack[0])
        && history == old(history) + [old(annotations)]
        && redoStack == old(redoStack[1..])
      ensures old(redoStack) != [] ==>
        |annotations| == |old(annotations)| + 1 && old(annotations) <= annotations
      ensures Model() == UndoHistory.Redo(old(Model()))
    {
      if |redoStack| == 0 {
        return;
      }
      ghost var s := Model();
      var next := redoStack[0];
      history := history + [annotations];
      annotations := next;
      redoStack := redoStack[1..];
      UndoHistory.RedoAddsOne(s);
    }

    /** The toolbar's tool buttons. */
    method SelectTool(t: Tool)
      requires Valid()
      modifies this`tool
      ensures Valid() && tool == t
    {
      tool := t;
    }

    /** The text panel's input field, colour picker, size field, family menu and bold button. */
    method SetTextInput(s: string)
      requires Valid()
      modifies this`textInput
      ensures Valid() && textInput == s
    {
      textInput := s;
    }

    method SetTextColor(c: string)
      requires Valid()
      modifies this`textColor
      ensures Valid() && textColor == c
    {
      textColor := c;
    }

    method SetFontSize(n: int)
      requires Valid()
      modifies this`fontSize
      ensures Valid() && fontSize == n
    {
      fontSize := n;
    }

    method SetFontFamily(f: string)
      requires Valid()
      modifies this`fontFamily
      ensures Valid() && fontFamily == f
    {
      fontFamily := f;
    }

    method ToggleBold()
      requires Valid()
      modifies this`bold
      ensures Valid() && bold == !old(bold)
    {
      bold := !bold;
    }

    /**
     * addTextAnnotation: silently does nothing without text or without a
     * clicked position; otherwise commits a text note at that position in
     * the panel's current style and clears the text and the position.
     */
    method AddTextAnnotation()
      requires Valid()
      modifies this`annotations, this`history, this`redoStack, this`textInput, this`textPosition
      ensures Valid()
      ensures old(textInput == "" || textPosition.None?) ==>
        && annotations == old(annotations) && history == old(history) && redoStack == old(redoStack)
        && textInput == old(textInput) && textPosition == old(textPosition)
      ensures old(textInput != "" && textPosition.Some?) ==>
        && Committed(TextNote(old(textPosition.value.x), old(textPosition.value.y), old(textInput),
                              textColor, fontSize, fontFamily, bold))
        && textInput == "" && textPosition == None
    {
      if textInput == "" || textPosition.None? {
        return;
      }
      var note := TextNote(textPosition.value.x, textPosition.value.y, textInput,
                           textColor, fontSize, fontFamily, bold);
      AddAnnotation(note);
      textInput := "";
      textPosition := None;
    }

    /**
     * handleMouseDown: the free tool starts a one-point stroke, the text tool
     * only records where the text goes, every other tool starts a zero-size
     * box of its kind at the click.
     */
    method MouseDown(x: int, y: int)
      requires Valid()
      modifies this`drawing, this`current, this`textPosition
      ensures Valid()
      ensures tool == FreeTool ==>
        drawing && current == Some(FreeDraw([Point(x, y)])) && textPosition == old(textPosition)
      ensures tool == TextTool ==>
        textPosition == Some(Point(x, y)) && drawing == old(drawing) && current == old(current)
      ensures IsBoxTool(tool) ==>
        && drawing && textPosition == old(textPosition)
        && current.Some? && IsBox(current.value) && Tag(current.value) == tool
        && current.value.x == x && current.value.y == y && current.value.w == 0 && current.value.h == 0
    {
      var draft := Gesture.StartDraft(tool, x, y);
      if draft.None? {
        textPosition := Some(Point(x, y));
      } else {
        drawing := true;
        current := draft;
      }
    }

    /**
     * handleMouseMove: while drawing, the draft grows by one pointer move;
     * otherwise nothing happens. The draft is grown by its own kind, not by
     * the selected tool (see Gesture.MoveDraftAsWritten).
     */
    method MouseMove(x: int, y: int)
      requires Valid()
      modifies this`current
      ensures Valid()
      ensures !old(drawing) || old(current).None? ==> current == old(current)
      ensures old(drawing) && old(current).Some? ==> current == Some(Gesture.MoveDraft(old(current.value), x, y))
    {
      if !drawing || current.None? {
        return;
      }
      current := Some(Gesture.MoveDraft(current.value, x, y));
    }

    /**
     * handleMouseUp: while drawing, commits the draft as it stands (a plain
     * click commits a zero-size box) and ends the gesture; otherwise nothing
     * happens.
     */
    method MouseUp()
      requires Valid()
      modifies this`annotations, this`history, this`redoStack, this`drawing, this`current
      ensures Valid()
      ensures !old(drawing) || old(current).None? ==>
        && annotations == old(annotations) && history == old(history) && redoStack == old(redoStack)
        && drawing == old(drawing) && current == old(current)
      ensures old(drawing) && old(current).Some? ==>
        Committed(old(current.value)) && current == None && !drawing
    {
      if !drawing || current.None? {
        return;
      }
      AddAnnotation(current.value);
      current := None;
      drawing := false;
    }
  }

  /** A plain click with the rectangle tool commits a zero-size rectangle; undo and redo take it back and restore it. */
  method ClickUndoRedoScenario()
  {
    var app := new App();
    app.MouseDown(3, 4);
    app.MouseUp();
    assert app.annotations == [Rectangle(3, 4, 0, 0)];
    app.Undo();
    assert app.annotations == [] && app.redoStack == [[Rectangle(3, 4, 0, 0)]];
    app.Redo();
    assert app.annotations == [Rectangle(3, 4, 0, 0)] && app.redoStack == [];
  }

  /** "Add Text" with an empty text field commits nothing and keeps the clicked position. */
  method EmptyTextScenario()
  {
    var app := new App();
    app.SelectTool(TextTool);
    app.MouseDown(1, 1);
    app.AddTextAnnotation();
    assert app.annotations == [] && app.textPosition == Some(Point(1, 1));
  }

  /** With text typed and a position clicked, "Add Text" commits one note and clears the text and the position. */
  method TextCommitScenario()
  {
    var app := new App();
    app.SelectTool(TextTool);
    app.SetTextInput("hi");
    app.MouseDown(1, 1);
    app.AddTextAnnotation();
    assert |app.annotations| == 1 && app.textInput == "" && app.textPosition == None;
  }
}
