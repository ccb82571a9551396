# Screenshot annotator: editing model

A Dafny model of the editing core of a browser-extension screenshot
annotator (`src/App.js`). The user draws rectangles, arrows, highlights,
blur regions, free-hand strokes and text notes over a captured tab. The
model covers three parts:

- **Annotation values** (module `Annotations`). The toolbar's six tools
  (`TOOLS`) and the six annotation kinds they make. The four box kinds
  carry an origin and a signed extent `x, y, w, h`. A free-hand stroke
  carries an ordered point list. A text note carries a position, its
  text, colour, font size, font family and a bold flag. `WellFormed`
  is the rule every committed annotation meets: a stroke has at least
  one point and a note has some text.
- **Linear undo/redo history** (module `UndoHistory`). `addAnnotation`,
  `undo` and `redo` are pure functions over the triple
  `annotations` / `history` (most recent last) / `redoStack` (most
  recent first). The three lists form a timeline
  `history + [annotations] + redoStack` with a cursor at `|history|`.
  Undo and redo move the cursor and never change the timeline. A commit
  cuts the timeline after the cursor and appends the new list. From these
  two facts follow the round trips (undo then redo, k undos then k redos),
  the rule that a commit discards redo, and the rule that N commits
  append those N annotations in call order.
- **Pointer-gesture state machine** (modules `Gesture` and `Annotator`).
  Class `Annotator.App` holds the component's state variables as fields.
  It has one method per handler: `MouseDown`, `MouseMove`, `MouseUp`,
  `AddTextAnnotation`, `AddAnnotation`, `Undo` and `Redo`. It also has
  the small setters behind the toolbar and the text panel. Each handler
  is one atomic step. Its `modifies` clause names exactly the fields it
  may change. Its `ensures` clauses give the new value of each of those
  fields. The object invariant `Valid()` says three things:
  - a draft exists exactly while `drawing` is set, and it is a box or a
    non-empty stroke (never text);
  - the timeline starts from the empty list and each entry adds exactly
    one annotation to the one before, so undo always takes back the most
    recent annotation and the undo depth equals the list's length;
  - every list in the timeline is well formed.

Pointer coordinates (`offsetX`/`offsetY`) are `int`s passed to the
handlers. Snapshots are immutable `seq` values, which matches the source's
copy-on-write spreads and `slice` calls.

`App.AddAnnotation` requires its argument to be well formed. Its two
callers in `App.js` always meet this: `handleMouseUp` passes a box or a
stroke that has at least its first point, and `addTextAnnotation` has
already refused empty text.

## Model

| member | source | states |
|---|---|---|
| `UndoHistory.Commit` | src/App.js:219-223 | Adds exactly one history entry. The new timeline is the old one cut just after the current list, followed by the current list with `ann` appended. So redo is emptied and every earlier state can still be reached by undo. |
| `UndoHistory.Undo` | src/App.js:225-231 | Leaves the timeline unchanged. Moves the cursor back by one, or is the identity when `history` is empty. |
| `UndoHistory.Redo` | src/App.js:233-239 | Leaves the timeline unchanged. Moves the cursor forward by one, or is the identity when `redoStack` is empty. |
| `UndoHistory.TimelineDetermines` | src/App.js:26-28 | The timeline and the cursor `|history|` together fix `annotations`, `history` and `redoStack`. |
| `UndoHistory.UndoThenRedo` | src/App.js:225-239 | With a non-empty history, redo after undo restores all three lists exactly. |
| `UndoHistory.RedoThenUndo` | src/App.js:225-239 | With a non-empty redo stack, undo after redo restores all three lists exactly. |
| `UndoHistory.CommitDiscardsRedo` | src/App.js:219-223 | After a commit, redo is a no-op. The commit keeps the timeline up to the cursor as it was. |
| `UndoHistory.CommitKeepsLinear` | src/App.js:219-223 | A commit keeps the timeline linear: each entry is a prefix of every later one and exactly one annotation shorter per step. |
| `UndoHistory.UndoDropsLast` | src/App.js:225-231 | On a linear timeline with non-empty history, undo removes exactly the last annotation of the current list. |
| `UndoHistory.RedoAddsOne` | src/App.js:233-239 | On a linear timeline with a non-empty redo stack, redo keeps the current list as a prefix and adds exactly one annotation after it. |
| `UndoHistory.CommitAllAppends` | src/App.js:219-223 | Commits in sequence append exactly the given annotations in call order. Each adds one history entry. The states before them stay reachable. A non-empty sequence leaves nothing to redo. |
| `UndoHistory.CommitsFromEmpty` | src/App.js:219-223 | Starting from the empty list, the list after N commits is exactly those N annotations, in call order. |
| `UndoHistory.UndoNMovesBack` | src/App.js:225-231 | k undos, with k at most the history depth, keep the timeline and move the cursor back by k. |
| `UndoHistory.RedoNMovesForward` | src/App.js:233-239 | k redos, with k at most the redo depth, keep the timeline and move the cursor forward by k. |
| `UndoHistory.UndosThenRedos` | src/App.js:225-239 | k undos followed by k redos restore the whole state exactly. |
| `UndoHistory.CommitsUndosRedos` | src/App.js:219-239 | After k commits, k undos return to the starting list and history. k redos after that return to the state right after the commits. |
| `Gesture.StartDraft` | src/App.js:167-182 | The text tool starts no draft. The free tool starts a stroke of exactly the click point. Every other tool starts a box of its own tag at the click with `w = h = 0`. |
| `Gesture.MoveDraft` | src/App.js:184-202 | Keeps the draft's tag. A stroke keeps its points and gains the pointer position at the end. A box keeps its origin and gets its far corner (`x + w`, `y + h`) at the pointer, so `w` and `h` can be negative. |
| `Gesture.MoveDraftAsWritten` | src/App.js:184-202 | The handler as written, choosing by the selected tool. It fails, modelling the thrown exception, exactly when the free tool is selected and the draft is not a stroke. Otherwise it keeps the draft's tag. |
| `Gesture.MoveDraftAgreesUnlessToolSwitched` | src/App.js:184-202 | For any draft, the handler as written and `MoveDraft` agree if and only if "the tool is free" and "the draft is a stroke" are both true or both false. |
| `Gesture.ToolSwitchMidGestureThrows` | src/App.js:167-202 | A rectangle started at (5, 5) and moved to (9, 9) after a switch to the free tool: the handler as written throws, while `MoveDraft` gives `Rectangle(5, 5, 4, 4)`. |
| `Gesture.DragRecordsStroke` | src/App.js:190-194 | Dragging a stroke appends every pointer position, in order. |
| `Gesture.DragBoxFollowsPointer` | src/App.js:195-201 | Dragging a box keeps its kind and origin. After at least one move its far corner is the last pointer position. With no moves it is unchanged. |
| `Gesture.BoxGesture` | src/App.js:167-217 | A press, drag and release with a box tool builds a box of that tool's tag from the press point to the last pointer position. A plain click gives zero size. |
| `Gesture.StrokeGesture` | src/App.js:171-194 | A free-tool gesture builds the stroke of the press point followed by every move. |
| `Annotator.App.constructor` | src/App.js:15-31 | Initial state: empty list, history and redo stack; rectangle tool; not drawing and no draft; no text position; text panel at "", #000000, 20, Arial, not bold. |
| `Annotator.App.UndoDepthIsListLength` | src/App.js:219-239 | In every valid state the history depth equals the number of annotations. |
| `Annotator.App.AddAnnotation` | src/App.js:219-223 | Pushes the old list onto the end of `history`, empties `redoStack` and appends `ann`. Keeps `Valid()`. Equals `UndoHistory.Commit` on the triple. Nothing else changes. |
| `Annotator.App.Undo` | src/App.js:225-231 | With an empty history: all three lists unchanged. Otherwise: the last history entry becomes current, it is dropped from `history`, and the old list goes to the front of `redoStack`. The new list is the old one minus its last annotation. Keeps `Valid()`. |
| `Annotator.App.Redo` | src/App.js:233-239 | With an empty redo stack: all three lists unchanged. Otherwise: `redoStack[0]` becomes current, the old list is appended to `history`, and the front of `redoStack` is dropped. The new list extends the old one by one annotation. Keeps `Valid()`. |
| `Annotator.App.SelectTool` | src/App.js:250-254 | The toolbar sets `tool`. Nothing else changes. |
| `Annotator.App.SetTextInput` | src/App.js:283-288 | The text field sets `textInput`. Nothing else changes. |
| `Annotator.App.SetTextColor` | src/App.js:290-294 | The colour picker sets `textColor`. Nothing else changes. |
| `Annotator.App.SetFontSize` | src/App.js:296-303 | The size field stores its value unchecked; there is no clamping to 10..100. Nothing else changes. |
| `Annotator.App.SetFontFamily` | src/App.js:305-314 | The family menu sets `fontFamily`. Nothing else changes. |
| `Annotator.App.ToggleBold` | src/App.js:316-318 | Flips `bold`. Nothing else changes. |
| `Annotator.App.AddTextAnnotation` | src/App.js:146-164 | With empty text or no clicked position: nothing changes. Otherwise: commits a text note at the position, with the text and the panel's current colour, size, family and bold, then clears the text to "" and the position to none. |
| `Annotator.App.MouseDown` | src/App.js:167-182 | Free tool: `drawing` is set and the draft is a stroke of exactly the click point. Text tool: only `textPosition` is set to the click; `drawing` and the draft are untouched. Any other tool: `drawing` is set and the draft is a box of the tool's tag at the click with `w = h = 0`. |
| `Annotator.App.MouseMove` | src/App.js:184-202 | Not drawing, or no draft: nothing changes. Otherwise: the draft becomes `MoveDraft` of itself at the pointer. Only the draft changes. |
| `Annotator.App.MouseUp` | src/App.js:212-217 | Not drawing, or no draft: nothing changes. Otherwise: the draft is committed as it stands, zero-size boxes included, with the effect of `AddAnnotation`; then the draft is cleared and `drawing` is reset. Only those five fields change. |

## Findings

| source | as written | input that shows it | evidently intended | confidence | as-written member | corrected member |
|---|---|---|---|---|---|---|
| src/App.js:190-201 | `handleMouseMove` picks between "append a point" and "resize" by the selected `tool`, not by the draft's own `type`. | Rectangle tool, press on the canvas at (5, 5), release outside the canvas so the canvas sees no mouse-up, click the "free" button, move over the canvas to (9, 9). `drawing` is still set, so the handler spreads `prev.points`, which is undefined on a rectangle, and throws. In the opposite case (a stroke under a box tool) the stroke gains `NaN` `w`/`h` fields. | Grow the draft by its own kind: the rectangle's far corner follows the pointer to (9, 9). | medium; not executed | `Gesture.MoveDraftAsWritten`, `Gesture.ToolSwitchMidGestureThrows` | `Gesture.MoveDraft` |

`Annotator.App.MouseMove` uses the corrected `Gesture.MoveDraft`.
`Gesture.MoveDraftAgreesUnlessToolSwitched` shows that the two versions
differ only when the tool is switched during a gesture.

## Left out

- Rendering: `redrawCanvas`, `drawAnnotation` and `drawArrow` (src/App.js:53-144). They produce pixels through the browser's Canvas 2D API, with floating-point trigonometry for arrowheads and a CSS blur filter. The only ordering fact they carry is that annotations are drawn in list order (src/App.js:63), so a later entry in `annotations` is drawn on top.
- Loading the screenshot from extension storage (src/App.js:34-44), `saveSession` (src/App.js:241-245) and `downloadPNG` (src/App.js:204-210). These are browser and storage I/O.
- React scheduling: the re-render `useEffect` (src/App.js:47-51), batching of `setState` calls and stale closures. Each handler is modelled as one atomic step on the state it reads.
- The JSX layout of the toolbar and the text panel (src/App.js:247-327), apart from the setters that its controls call.
- `Annotator.App.SetFontSize`: stores an `int`. The source's `Number(e.target.value)` can also yield a fraction or `NaN`. The `min`/`max` attributes of the field do not clamp the stored value, and the model claims no clamping.
- Extra object fields the handlers create as a side effect are not represented. The case in point is the `NaN` `w`/`h` that a stroke gains under a box tool. Annotation kinds never read those fields.
- `public/popup.js` and `public/background.js`: extension messaging, storage and tab capture, with no editing logic.
