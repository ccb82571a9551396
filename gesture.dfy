/**
 * How a pointer gesture builds its draft annotation: pressing starts a draft
 * of the selected tool's kind, each move grows it, and releasing commits it.
 */
module Gesture {
  import opened Annotations

  /**
   * handleMouseDown's draft: a one-point stroke for the free tool, nothing
   * for the text tool (it only records where the text goes), and a box of
   * the tool's kind with zero extent at the click for every other tool.
   */
  function StartDraft(tool: Tool, x: int, y: int): (r: Option<Annotation>)
    ensures r.None? <==> tool == TextTool
    ensures tool == FreeTool ==> r == Some(FreeDraw([Point(x, y)]))
    ensures r.Some? ==> IsDraft(r.value) && Tag(r.value) == tool
    ensures r.Some? && IsBox(r.value) ==> r.value.x == x && r.value.y == y && r.value.w == 0 && r.value.h == 0
  {
    match tool
    case FreeTool => Some(FreeDraw([Point(x, y)]))
    case TextTool => None
    case RectTool => Some(Rectangle(x, y, 0, 0))
    case ArrowTool => Some(Arrow(x, y, 0, 0))
    case HighlightTool => Some(Highlight(x, y, 0, 0))
    case BlurTool => Some(Blur(x, y, 0, 0))
  }

  /**
   * A box with its far corner moved to (x, y): `w: x - prev.x, h: y - prev.y`
   * over the draft's other fields. Kinds without an extent come back as they were.
   */
  function Resize(d: Annotation, x: int, y: int): Annotation
  {
    match d
    case Rectangle(ox, oy, _, _) => Rectangle(ox, oy, x - ox, y - oy)
    case Arrow(ox, oy, _, _) => Arrow(ox, oy, x - ox, y - oy)
    case Highlight(ox, oy, _, _) => Highlight(ox, oy, x - ox, y - oy)
    case Blur(ox, oy, _, _) => Blur(ox, oy, x - ox, y - oy)
    case FreeDraw(_) => d
    case TextNote(_, _, _, _, _, _, _) => d
  }

  /**
   * One pointer move while drawing, dispatched on the draft's own kind: a
   * stroke gains the point at its end; a box keeps its origin and takes the
   * pointer as its far corner, so w and h go negative when the pointer is
   * above or left of the origin.
   */
  function MoveDraft(d: Annotation, x: int, y: int): (r: Annotation)
    ensures Tag(r) == Tag(d)
    ensures IsDraft(d) ==> IsDraft(r)
    ensures d.FreeDraw? ==> |r.points| == |d.points| + 1 && r.points[..|d.points|] == d.points
                              && r.points[|d.points|] == Point(x, y)
    ensures IsBox(d) ==> r.x == d.x && r.y == d.y && r.x + r.w == x && r.y + r.h == y
    ensures d.TextNote? ==> r == d
  {
    if d.FreeDraw? then
      var r := FreeDraw(d.points + [Point(x, y)]);
      assert r.points[..|d.points|] == d.points;
      r
    else Resize(d, x, y)
  }

  /**
   * handleMouseMove as written: it dispatches on the selected tool rather
   * than on the draft. None stands for the exception thrown when the free
   * tool meets a draft with no point list (spreading an undefined list). A
   * stroke under any other tool only gains extra w/h fields its kind never
   * reads, which this model does not represent, so it comes back unchanged.
   */
  function MoveDraftAsWritten(tool: Tool, d: Annotation, x: int, y: int): (r: Option<Annotation>)
    ensures r.None? <==> tool == FreeTool && !d.FreeDraw?
    ensures r.Some? ==> Tag(r.value) == Tag(d)
  {
    if tool == FreeTool then
      if d.FreeDraw? then Some(FreeDraw(d.points + [Point(x, y)])) else None
    else Some(Resize(d, x, y))
  }

  /**
   * The two agree exactly when the selected tool is the free tool if and
   * only if the draft is a stroke, which holds through any gesture during
   * which the tool is not switched.
   */
  lemma MoveDraftAgreesUnlessToolSwitched(tool: Tool, d: Annotation, x: int, y: int)
    requires IsDraft(d)
    ensures MoveDraftAsWritten(tool, d, x, y) == Some(MoveDraft(d, x, y)) <==> (tool == FreeTool <==> d.FreeDraw?)
  {
  }

  /**
   * Press with the rectangle tool at (5, 5), release outside the canvas (so
   * the canvas sees no mouse-up), pick the free tool and move over the
   * canvas to (9, 9): the code as written throws, where the rectangle was
   * evidently meant to follow the pointer.
   */
  lemma ToolSwitchMidGestureThrows()
    ensures StartDraft(RectTool, 5, 5) == Some(Rectangle(5, 5, 0, 0))
    ensures MoveDraftAsWritten(FreeTool, Rectangle(5, 5, 0, 0), 9, 9) == None
    ensures MoveDraft(Rectangle(5, 5, 0, 0), 9, 9) == Rectangle(5, 5, 4, 4)
  {
  }

  /** The draft after a sequence of pointer moves. */
  function Drag(d: Annotation, moves: seq<Point>): Annotation
    decreases |moves|
  {
    if moves == [] then d else Drag(MoveDraft(d, moves[0].x, moves[0].y), moves[1..])
  }

  /** A free-hand stroke records every pointer position of the drag, in order. */
  lemma {:induction false} DragRecordsStroke(ps: seq<Point>, moves: seq<Point>)
    ensures Drag(FreeDraw(ps), moves) == FreeDraw(ps + moves)
    decreases |moves|
  {
    if moves != [] {
      var p := moves[0];
      var d' := MoveDraft(FreeDraw(ps), p.x, p.y);
      assert d'.points == ps + [p];
      assert d' == FreeDraw(ps + [p]);
      DragRecordsStroke(ps + [p], moves[1..]);
      assert ps + [p] + moves[1..] == ps + moves;
    }
  }

  /**
   * A box keeps its kind and origin through a drag, and after the last move
   * its far corner is the last pointer position; a drag with no moves keeps
   * the box as it was (a plain click commits a zero-size box).
   */
  lemma {:induction false} DragBoxFollowsPointer(d: Annotation, moves: seq<Point>)
    requires IsBox(d)
    ensures IsBox(Drag(d, moves)) && Tag(Drag(d, moves)) == Tag(d)
    ensures Drag(d, moves).x == d.x && Drag(d, moves).y == d.y
    ensures moves == [] ==> Drag(d, moves) == d
    ensures moves != [] ==> Drag(d, moves).x + Drag(d, moves).w == moves[|moves| - 1].x
                            && Drag(d, moves).y + Drag(d, moves).h == moves[|moves| - 1].y
    decreases |moves|
  {
    if moves != [] {
      var d' := MoveDraft(d, moves[0].x, moves[0].y);
      DragBoxFollowsPointer(d', moves[1..]);
      if |moves| > 1 {
        assert moves[1..][|moves[1..]| - 1] == moves[|moves| - 1];
      }
    }
  }

  /** A whole press-drag-release gesture with a box tool commits a box from the press to the release. */
  lemma BoxGesture(tool: Tool, press: Point, moves: seq<Point>)
    requires IsBoxTool(tool)
    ensures StartDraft(tool, press.x, press.y).Some?
    ensures var a := Drag(StartDraft(tool, press.x, press.y).value, moves);
      && IsBox(a) && Tag(a) == tool && a.x == press.x && a.y == press.y
      && (moves == [] ==> a.w == 0 && a.h == 0)
      && (moves != [] ==> a.x + a.w == moves[|moves| - 1].x && a.y + a.h == moves[|moves| - 1].y)
  {
  }

  /** A whole gesture with the free tool commits the stroke through the press and every move. */
  lemma StrokeGesture(press: Point, moves: seq<Point>)
    ensures Drag(StartDraft(FreeTool, press.x, press.y).value, moves) == FreeDraw([press] + moves)
  {
    DragRecordsStroke([press], moves);
  }
}
