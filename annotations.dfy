/**
 * The annotation values of the screenshot annotator: the toolbar's tools
 * and the six kinds of annotation they create, with the validity rule each
 * kind must meet before it may be committed to the annotation list.
 */
module Annotations {

  datatype Option<T> = None | Some(value: T)

  /** The toolbar's tools. Each tool's tag is also the `type` of the annotations it makes. */
  datatype Tool = RectTool | ArrowTool | FreeTool | TextTool | HighlightTool | BlurTool

  /** A pointer position in canvas coordinates (the event's offsetX/offsetY). */
  datatype Point = Point(x: int, y: int)

  /**
   * One committed (or draft) annotation. The four box kinds store an origin
   * and a signed extent: a drag up or to the left gives a negative w or h,
   * which is kept as it is.
   */
  datatype Annotation =
    | Rectangle(x: int, y: int, w: int, h: int)
    | Arrow(x: int, y: int, w: int, h: int)
    | Highlight(x: int, y: int, w: int, h: int)
    | Blur(x: int, y: int, w: int, h: int)
    | FreeDraw(points: seq<Point>)
    | TextNote(x: int, y: int, text: string, color: string, fontSize: int, fontFamily: string, bold: bool)

  /** The `type` tag of an annotation: the tool that made it. */
  function Tag(a: Annotation): Tool
  {
    match a
    case Rectangle(_, _, _, _) => RectTool
    case Arrow(_, _, _, _) => ArrowTool
    case Highlight(_, _, _, _) => HighlightTool
    case Blur(_, _, _, _) => BlurTool
    case FreeDraw(_) => FreeTool
    case TextNote(_, _, _, _, _, _, _) => TextTool
  }

  /** The tools whose annotations are an origin plus a width and height. */
  predicate IsBoxTool(t: Tool)
  {
    t != FreeTool && t != TextTool
  }

  predicate IsBox(a: Annotation)
  {
    a.Rectangle? || a.Arrow? || a.Highlight? || a.Blur?
  }

  /** A free-hand stroke has at least one point; a text note has some text. */
  predicate WellFormed(a: Annotation)
  {
    match a
    case FreeDraw(ps) => |ps| >= 1
    case TextNote(_, _, text, _, _, _, _) => text != ""
    case _ => true
  }

  predicate AllWellFormed(s: seq<Annotation>)
  {
    forall k :: 0 <= k < |s| ==> WellFormed(s[k])
  }

  /** What a pointer gesture can be building: a box or a non-empty stroke, never text. */
  predicate IsDraft(a: Annotation)
  {
    IsBox(a) || (a.FreeDraw? && |a.points| >= 1)
  }
}
