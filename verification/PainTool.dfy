/** The state the page and its drawing component keep between events, and
    the event handlers that change it. React setters are immediate
    assignments here; the canvas is the `surface` picture. */
module PainTool {
  import opened Options
  import opened JsText
  import opened Subject
  import opened Drawing
  import History

  class Session {
    // page state
    var gender: Gender
    var view: View
    var tool: Tool
    var color: string
    var history: seq<Snapshot>   // canvasHistory
    var index: int               // currentHistoryIndex
    // drawing component state
    var isDrawing: bool
    var start: Point
    var last: Point
    var surface: Picture             // what the canvas shows
    var background: Option<Picture>  // the body image kept for shape previews
    var imageLoaded: bool
    var imageError: bool             // shows the "fallback body outline" notice

    ghost predicate Valid()
      reads this
    {
      History.Wf(Stack())
    }

    function Stack(): History.Log<Snapshot>
      reads this
    {
      History.Log(history, index)
    }

    /** What a shape preview frame is drawn on: the snapshot the cursor
        names, or the background when it names none. */
    function PreviewBase(): (r: Picture)
      reads this
      requires background.Some?
      ensures 0 <= index < |history| ==> r == history[index].picture
      ensures !(0 <= index < |history|) ==> r == background.value
    {
      match History.Current(Stack())
      case Some(s) => s.picture
      case None => background.value
    }

    /** Mounting the page: the initial selections, an empty history whose
        cursor names nothing, no stroke, and the blank surface the loading
        effect starts from. */
    constructor ()
      ensures Valid()
      ensures gender == Male && view == Front && tool == Pencil && color == "#ff0000"
      ensures history == [] && index == -1
      ensures !isDrawing && start == Point(0, 0) && last == Point(0, 0)
      ensures surface == [] && background == None && !imageLoaded && !imageError
    {
      gender, view, tool, color := Male, Front, Pencil, "#ff0000";
      history, index := [], -1;
      isDrawing, start, last := false, Point(0, 0), Point(0, 0);
      surface, background := [], None;
      imageLoaded, imageError := false, false;
    }

    /** The loading effect, up to the image request: resizing the canvas
        blanks it and both load flags are reset. */
    method Reload()
      requires Valid()
      modifies this`surface, this`imageLoaded, this`imageError
      ensures Valid()
      ensures surface == [] && !imageLoaded && !imageError
    {
      surface := [];
      imageLoaded, imageError := false, false;
    }

    /** The silhouette image arrived: it replaces the surface, becomes the
        background, and seeds the history if the history is still empty. */
    method ImageLoaded()
      requires Valid()
      modifies this`surface, this`background, this`imageLoaded, this`history, this`index
      ensures Valid() && |history| > 0
      ensures surface == [BodyImage(ImageSource(gender, view))] && background == Some(surface)
      ensures imageLoaded
      ensures Stack() == History.Seed(old(Stack()), Snapshot(surface))
    {
      surface := [BodyImage(ImageSource(gender, view))];
      background := Some(surface);
      imageLoaded := true;
      if |history| == 0 {
        history, index := [Snapshot(surface)], 0;
      }
    }

    /** The silhouette image failed: the outline is drawn over the surface,
        the result becomes the background, and the history is seeded if it is
        still empty. */
    method ImageFailed()
      requires Valid()
      modifies this`surface, this`background, this`imageError, this`history, this`index
      ensures Valid() && |history| > 0
      ensures surface == old(surface) + [Outline(view)] && background == Some(surface)
      ensures imageError
      ensures Stack() == History.Seed(old(Stack()), Snapshot(surface))
    {
      imageError := true;
      surface := surface + [Outline(view)];
      background := Some(surface);
      if |history| == 0 {
        history, index := [Snapshot(surface)], 0;
      }
    }

    /** Pointer down: a stroke starts at p, and pencil or eraser put a dot there. */
    method StartStroke(p: Point)
      requires Valid()
      modifies this`isDrawing, this`start, this`last, this`surface
      ensures Valid()
      ensures isDrawing && start == p && last == p
      ensures IsFreehand(tool) ==> surface == old(surface) + [Segment(p, p, FreehandStyle(tool, color))]
      ensures !IsFreehand(tool) ==> surface == old(surface)
    {
      isDrawing := true;
      start, last := p, p;
      if IsFreehand(tool) {
        surface := surface + [Segment(p, p, FreehandStyle(tool, color))];
      }
    }

    /** Pointer move. Outside a stroke nothing changes. Pencil and eraser add
        the segment from the previous point; the other tools redraw the base
        and one preview on it, so the frame does not depend on what the
        surface showed before (and nothing is drawn until a background
        exists). The pointer becomes the last point; the start stays. */
    method Move(p: Point)
      requires Valid()
      modifies this`last, this`surface
      ensures Valid()
      ensures !isDrawing ==> last == old(last) && surface == old(surface)
      ensures isDrawing ==> last == p
      ensures isDrawing && IsFreehand(tool) ==>
        surface == old(surface) + [Segment(old(last), p, FreehandStyle(tool, color))]
      ensures isDrawing && !IsFreehand(tool) && background.Some? ==>
        surface == PreviewBase() + Preview(tool, start, p, color)
      ensures isDrawing && !IsFreehand(tool) && background.None? ==> surface == old(surface)
    {
      if !isDrawing {
        return;
      }
      if IsFreehand(tool) {
        surface := surface + [Segment(last, p, FreehandStyle(tool, color))];
      } else if background.Some? {
        surface := PreviewBase() + Preview(tool, start, p, color);
      }
      last := p;
    }

    /** Pointer up or leave. Outside a stroke nothing changes. Otherwise the
        stroke ends and the surface is committed after the cursor; with the
        text tool and a non-blank answer the text is stamped at the start and
        committed as a second entry. Either way the cursor then names a
        snapshot of what is on display. */
    method EndStroke(answer: Option<string>)
      requires Valid()
      modifies this`isDrawing, this`history, this`index, this`surface
      ensures Valid() && !isDrawing
      ensures !old(isDrawing) ==> history == old(history) && index == old(index) && surface == old(surface)
      ensures old(isDrawing) && !(tool == Text && HasText(answer)) ==>
        surface == old(surface) && Stack() == History.Commit(old(Stack()), Snapshot(old(surface)))
      ensures old(isDrawing) && tool == Text && HasText(answer) ==>
        surface == old(surface) + [Label(answer.value, start, color)] &&
        Stack() == History.CommitPair(old(Stack()), Snapshot(old(surface)), Snapshot(surface))
      ensures old(isDrawing) ==> History.Current(Stack()) == Some(Snapshot(surface))
    {
      if !isDrawing {
        return;
      }
      var log, saved := Stack(), Snapshot(surface);
      isDrawing := false;
      // the text path's second history write supersedes the first one
      var next;
      if tool == Text && HasText(answer) {
        surface := surface + [Label(answer.value, start, color)];
        next := History.CommitPair(log, saved, Snapshot(surface));
      } else {
        next := History.Commit(log, saved);
      }
      history, index := next.entries, next.cursor;
    }

    /** The Undo button, with the repaint that follows a cursor change. */
    method Undo()
      requires Valid()
      modifies this`index, this`surface
      ensures Valid()
      ensures Stack() == History.Undo(old(Stack()))
      ensures old(index) > 0 ==> surface == history[index].picture
      ensures old(index) <= 0 ==> surface == old(surface)
    {
      if index > 0 {
        index := index - 1;
        surface := history[index].picture;
      }
    }

    /** The Clear button: the surface is blanked, silhouette included, and its
        snapshot is appended after all entries. */
    method Clear()
      requires Valid()
      modifies this`history, this`index, this`surface
      ensures Valid()
      ensures surface == [] && Stack() == History.Clear(old(Stack()), Snapshot([]))
    {
      surface := [];
      history, index := history + [Snapshot(surface)], |history|;
    }

    /** The switch button: the other view, and the loading effect restarts. */
    method SwitchView()
      requires Valid()
      modifies this`view, this`surface, this`imageLoaded, this`imageError
      ensures Valid()
      ensures view == Toggled(old(view)) && surface == [] && !imageLoaded && !imageError
    {
      view := Toggled(view);
      Reload();
    }

    /** The gender toggle; None is the deselecting click, which is ignored.
        Picking the gender already shown changes nothing. */
    method SelectGender(choice: Option<Gender>)
      requires Valid()
      modifies this`gender, this`surface, this`imageLoaded, this`imageError
      ensures Valid()
      ensures choice.Some? && choice.value != old(gender) ==>
        gender == choice.value && surface == [] && !imageLoaded && !imageError
      ensures !(choice.Some? && choice.value != old(gender)) ==>
        gender == old(gender) && surface == old(surface) &&
        imageLoaded == old(imageLoaded) && imageError == old(imageError)
    {
      if choice.Some? && choice.value != gender {
        gender := choice.value;
        Reload();
      }
    }

    method SelectTool(t: Tool)
      modifies this`tool
      ensures tool == t
    {
      tool := t;
    }

    method SelectColor(c: string)
      modifies this`color
      ensures color == c
    {
      color := c;
    }

    /** The Download button: a snapshot of the surface under the file name
        of the current selection. */
    method Download() returns (name: string, image: Snapshot)
      ensures name == FileName(gender, view) && image == Snapshot(surface)
    {
      name := FileName(gender, view);
      image := Snapshot(surface);
    }
  }
}
