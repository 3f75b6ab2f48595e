# Pain tool: undo history and stroke handling

A Dafny model of the drawing core of a browser pain-diagram tool. A user
picks a body silhouette (male or female, front or back), marks it with
pencil, eraser, circle, square, triangle, arrow or text, undoes, clears and
downloads the picture. The model covers the page state of `app/page.tsx`
and the pointer handlers of `components/drawing-canvas.tsx`:

- the undo history, a list of surface snapshots plus a cursor;
- the stroke state machine (idle or stroking, start point, last point);
- the small pure pieces (silhouette choice, stroke styles, square and
  triangle geometry, view toggle, download file name).

Modules, leaves first:

- `Options`: the optional value used for a prompt answer and for the
  background image.
- `JsText`: `String.prototype.trim` and the text tool's test on the answer.
  `TrimmedNonEmpty` is the test as the component writes it. `HasText`, the
  form the handlers use, asks for one visible character, and a lemma proves
  the two equal.
- `Subject`: gender, view, the view toggle and the download file name.
- `Drawing`: silhouette assets, the seven tools, stroke styles and shape
  geometry. The canvas is a *picture*, the list of drawing commands issued
  since it was last blanked. A snapshot (`toDataURL`) is a `Snapshot`
  holding that picture, and decoding a snapshot gives the picture back.
- `History`: the history as a generic `Log<T>` (entries and cursor) with
  pure operations. Their lemmas cover the cursor invariant, truncation
  after undo, Clear against a stroke, and runs of user actions.
- `PainTool`: class `Session`. Its fields are the page's and the canvas
  component's state, and its methods are the event handlers. Each handler
  states its new state through the `History` and `Drawing` functions.
- `Scenarios`: client event sequences, checked against the handlers'
  contracts alone: a pencil line, a circle drag, clear then undo, text
  stamps, and a view switch.

Behaviour of the code that the lemmas make explicit:

- A stroke truncates the history after the cursor, but Clear appends after
  *all* entries. After an undo, Clear followed by Undo brings back an
  undone entry instead of the one shown before the clear
  (`History.ClearKeepsUndone`).
- Clear always adds exactly one entry (`History.Clear`), and so does a
  stroke while the cursor is on the newest entry; a run of strokes, text
  stamps and clears without undo therefore adds at least one entry per edit
  (`History.EditsGrowHistory`). Only a stroke after an undo drops entries
  from the history: stroke, undo, stroke after seeding leaves two entries
  (`History.UndoBreaksGrowth`).
- Switching view does not reseed a non-empty history. Once the other
  silhouette loads, the surface shows it while the cursor still names a
  snapshot of the old view (`Scenarios.SwitchViewKeepsHistory`).
- A shape or text preview is drawn only once a background image exists. Before
  that, a shape or text drag draws nothing, while a pencil or eraser drag
  still draws its segments (`PainTool.Session.Move`).
- The text tool also previews while dragging. It restores the base every
  frame and draws no shape (`Drawing.Preview`).

## Model

| member | source | states |
|---|---|---|
| `JsText.TrimStart` | components/drawing-canvas.tsx:414 | removes exactly the leading JavaScript white space: the result is a suffix, everything dropped is white space, and it does not start with white space |
| `JsText.TrimEnd` | components/drawing-canvas.tsx:414 | removes exactly the trailing white space: the result is a prefix, everything dropped is white space, and it does not end with white space |
| `JsText.Trim` | components/drawing-canvas.tsx:414 | the trimmed answer is the slice of the input between leading and trailing white space; it is empty exactly when every character is white space, and otherwise starts and ends with a visible character |
| `JsText.HasTextIffTrimmedNonEmpty` | components/drawing-canvas.tsx:414 | the component's test (`text && text.trim() !== ""`) accepts exactly the answers that are not null and hold a non-white-space character; null, empty and blank answers are discarded |
| `Subject.Toggled` | app/page.tsx:37-39 | the switch gives the other view |
| `Subject.ToggledTwice` | app/page.tsx:37-39 | switching twice restores the view |
| `Subject.FileName` | app/page.tsx:47 | the download name is `pain-diagram-`, the gender, `-`, the view and `.png`, in that order, and nothing else |
| `Subject.FileNameInjective` | app/page.tsx:47 | the four (gender, view) pairs give four different file names |
| `Drawing.ImageSource` | components/drawing-canvas.tsx:69-74 | the image loaded for a pair shows that gender from that side, so distinct pairs load distinct images |
| `Drawing.ImageSourceOnto` | components/drawing-canvas.tsx:69-74 | each of the four images is the one loaded for its own pair |
| `Drawing.FreehandStyle` | components/drawing-canvas.tsx:294-336 | for the dot on pointer down (lines 294-295) and each segment (lines 335-336), the eraser paints white at width 20 whatever colour is selected; the pencil paints the selected colour at width 3 |
| `Drawing.SquareRect` | components/drawing-canvas.tsx:367-370 | the rectangle is anchored at the start with signed width and height, so its opposite corner is the pointer in every quadrant |
| `Drawing.Mirror` | components/drawing-canvas.tsx:374 | the third triangle vertex has the pointer's y and lies as far left of the start as the pointer lies right, or the reverse |
| `Drawing.MirrorTwice` | components/drawing-canvas.tsx:374 | mirroring twice across the same start gives the pointer back |
| `Drawing.TriangleVertices` | components/drawing-canvas.tsx:371-375 | the vertices are start, pointer and mirrored pointer, and the two sides meeting at the start are equally long |
| `Drawing.Preview` | components/drawing-canvas.tsx:359-388 | each shape tool draws exactly one shape in the selected colour at width 3: circle at the start through the pointer, the rectangle, the triangle, or the arrow; the text tool draws nothing |
| `Drawing.PreviewDeterminesPointer` | components/drawing-canvas.tsx:364-388 | for two pointer positions that draw different shapes (a different radius for the circle, a pointer other than the mirror image for the triangle), the shape drawn for one is not in the preview drawn for the other; the restored base under a frame may still hold that shape from an earlier committed stroke |
| `Drawing.RingRadiusSquared` | components/drawing-canvas.tsx:365 | the circle's squared radius is zero exactly when the pointer is on the start |
| `History.Initial` | app/page.tsx:15-16 | the history starts empty, with a cursor that names no entry (-1) |
| `History.Current` | components/drawing-canvas.tsx:245 | an entry is on display exactly when the cursor is in range; with the invariant, exactly when the history is non-empty |
| `History.Prefix` | components/drawing-canvas.tsx:407 | `slice(0, end)` is a prefix of the entries: `end` long when in range, clamped above, counted back from the end when negative |
| `History.Seed` | components/drawing-canvas.tsx:94-98 | an empty history becomes the initial snapshot with cursor 0; a non-empty one is left untouched; the invariant holds afterwards |
| `History.Commit` | components/drawing-canvas.tsx:406-409 | entries up to the cursor stay in place, those above it are dropped, the new snapshot follows them and the cursor names it; the result satisfies the invariant whatever the input |
| `History.CommitPair` | components/drawing-canvas.tsx:422-425 | with stamped text, the kept prefix is followed by the stroke snapshot and the text snapshot, and the cursor names the text snapshot |
| `History.CommitPairIsTwoCommits` | components/drawing-canvas.tsx:406-425 | the text path equals two successive commits: the second drops nothing |
| `History.Undo` | app/page.tsx:19-23 | the cursor moves back by exactly one when it is past the first entry, and otherwise nothing changes; the entries never change; the invariant is kept |
| `History.Clear` | app/page.tsx:31-32 | the blank snapshot goes after all entries, with nothing truncated: every old entry keeps its place and the cursor is the old length |
| `History.ClearThenUndo` | app/page.tsx:19-32 | Undo after Clear puts the cursor on the old last entry and shows it |
| `History.ClearKeepsUndone` | app/page.tsx:31-32 | after an undo, Clear and a stroke give different histories, and Undo after Clear shows the undone last entry |
| `History.UndoTimes` | app/page.tsx:19-23 | any number of undos leaves the entries as they are |
| `History.UndoTimesCursor` | app/page.tsx:19-23 | k undos move the cursor back by k, stopping at the first entry |
| `History.StrokeAfterUndosDropsFuture` | components/drawing-canvas.tsx:406-409 | after k undos a stroke leaves the entries up to the moved cursor plus the new one, so undone entries can no longer be reached |
| `History.RunKeepsWf` | components/drawing-canvas.tsx:94-425 | the cursor invariant holds across any sequence of seeding (lines 94-113), strokes and text stamps (lines 406-425), and the undos and clears of app/page.tsx lines 19-32 |
| `History.EditsGrowHistory` | components/drawing-canvas.tsx:406-425 | from the newest entry, N strokes, stamps (these lines) or clears (app/page.tsx lines 31-32) without undo add at least N entries and keep the cursor on the newest |
| `History.UndoBreaksGrowth` | app/page.tsx:19-23 | stroke, undo, stroke after seeding leaves only two entries |
| `PainTool.Session.PreviewBase` | components/drawing-canvas.tsx:342-357 | a preview frame is drawn on the snapshot the cursor names, or on the background when the cursor names none |
| `PainTool.Session.constructor` | app/page.tsx:11-16 | male, front, pencil, red; empty history with cursor -1; and, from components/drawing-canvas.tsx lines 35-41, idle at (0,0), a blank surface and no background |
| `PainTool.Session.Reload` | components/drawing-canvas.tsx:53-66 | the loading effect blanks the surface and resets both load flags |
| `PainTool.Session.ImageLoaded` | components/drawing-canvas.tsx:81-99 | the surface becomes the chosen silhouette, which is also the background, and the history is seeded with it if empty |
| `PainTool.Session.ImageFailed` | components/drawing-canvas.tsx:101-114 | the fallback outline for the view is drawn over the surface and kept as background, the notice flag is set, and the history is seeded if empty |
| `PainTool.Session.StartStroke` | components/drawing-canvas.tsx:258-300 | a stroke is active with start and last at the pointer; pencil and eraser draw a dot there in their style |
| `PainTool.Session.Move` | components/drawing-canvas.tsx:302-396 | idle: nothing changes; freehand: one segment from the last point to the pointer in the tool's style; shapes: base plus one preview, independent of earlier frames; no background: nothing drawn; last becomes the pointer and start is kept |
| `PainTool.Session.EndStroke` | components/drawing-canvas.tsx:398-428 | idle: nothing changes; otherwise the stroke ends and the surface is committed after the cursor; a visible text answer is stamped at the start and committed as a second entry; the cursor then names what is displayed |
| `PainTool.Session.Undo` | app/page.tsx:19-23 | the history is undone as `History.Undo` says, and the surface is repainted with the entry now named, as the effect at components/drawing-canvas.tsx lines 241-256 does |
| `PainTool.Session.Clear` | app/page.tsx:25-35 | the surface is blanked, silhouette included, and its snapshot is appended as `History.Clear` says |
| `PainTool.Session.SwitchView` | app/page.tsx:37-39 | the view toggles and the loading effect restarts on a blank surface |
| `PainTool.Session.SelectGender` | app/page.tsx:84 | a new gender is taken and reloads; a deselecting click or the current gender changes nothing |
| `PainTool.Session.SelectTool` | app/page.tsx:13 | the chosen tool becomes the active one |
| `PainTool.Session.SelectColor` | app/page.tsx:14 | the chosen colour becomes the active one |
| `PainTool.Session.Download` | app/page.tsx:41-52 | the export is a snapshot of the surface, named after the current gender and view |

## Left out

- Pixels and image encoding: the canvas is a list of drawing commands. Two
  snapshots are equal only when their command lists are, which is finer
  than pixel equality.
- Screen-to-surface coordinate scaling and the aspect-ratio resize: both
  are floating-point arithmetic on CSS sizes. Points are integers already
  in surface coordinates, and the surface dimensions are not modelled.
- Drawing.Preview: keeps the circle as its centre and a point on it, and
  the arrow as its two ends. The radius (`Math.sqrt`) and the arrowhead
  angles (`atan2`, `cos`, `sin`) are floating point.
- The fallback outline's drawing commands: they are one `Outline(view)`
  command. The outline depends only on the view; the gender it receives is
  unused.
- Asynchronous loading. The image callbacks are the separate methods
  `ImageLoaded` and `ImageFailed`. The repaint that follows a cursor change
  happens at once, inside `Undo`.
- The loading effect also re-runs whenever the number of entries changes:
  after seeding, after every clear, and after a commit or text stamp unless
  its truncation leaves the count unchanged. The re-run blanks the surface
  and loads the silhouette again, racing with the history repaint; that
  reload and race are left out.
- The shape preview draws the cursor's snapshot right after setting the
  image source. The model draws it decoded.
- Stale callbacks after a later selection change, and React batching of
  state updates: every setter is an immediate assignment.
- The guards for a missing canvas or drawing context: the canvas is always
  present.
- `prompt()`: its answer is the parameter of `EndStroke`, with `None` for
  a cancelled prompt. The model ignores it unless the text tool is active.
- The download anchor and click, the forwarded ref, `console.error`, the
  JSX, and the tool and colour palette component.
- The `imageLoaded` flag is kept but never read, as in the code.
