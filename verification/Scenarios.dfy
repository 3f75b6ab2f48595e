/** Client sequences of events, checked against the handlers' contracts
    alone. */
module Scenarios {
  import opened Options
  import opened Subject
  import opened Drawing
  import opened PainTool
  import History

  /** A red pencil line from (100,100) to (100,200) on a loaded silhouette:
      a dot, one segment of width 3, and exactly one new history entry. */
  method PencilLine() {
    var s := new Session();
    s.ImageLoaded();
    assert s.history == [Snapshot([BodyImage(MaleFront)])] && s.index == 0;
    s.StartStroke(Point(100, 100));
    s.Move(Point(100, 200));
    var red := Style("#ff0000", 3);
    assert s.surface == [BodyImage(MaleFront), Segment(Point(100, 100), Point(100, 100), red),
                         Segment(Point(100, 100), Point(100, 200), red)];
    s.EndStroke(None);
    assert |s.history| == 2 && s.index == 1 && s.history[1] == Snapshot(s.surface);
  }

  /** A circle dragged from (100,100) to (150,100) has radius 50; a second
      drag frame replaces the first preview instead of adding to it. */
  method CircleDrag() {
    var s := new Session();
    s.ImageLoaded();
    s.SelectTool(Circle);
    s.StartStroke(Point(100, 100));
    s.Move(Point(120, 130));
    s.Move(Point(150, 100));
    var ring := Ring(Point(100, 100), Point(150, 100), Style("#ff0000", 3));
    assert s.surface == [BodyImage(MaleFront), ring];
    assert RingRadiusSquared(ring) == 50 * 50;
  }

  /** Undo on the first snapshot does nothing; Clear then Undo goes back to
      the snapshot before the blank one. */
  method ClearThenUndo() {
    var s := new Session();
    s.ImageFailed();
    var seeded := s.surface;
    s.Undo();
    assert s.index == 0 && s.surface == seeded;
    s.Clear();
    assert s.surface == [] && |s.history| == 2 && s.index == 1;
    s.Undo();
    assert s.index == 0 && s.surface == seeded;
  }

  /** After switching view and loading the other silhouette, the history is
      not reseeded: the surface shows the back view while the cursor still
      names the front-view snapshot. */
  method SwitchViewKeepsHistory() {
    var s := new Session();
    s.ImageLoaded();
    s.SwitchView();
    s.ImageLoaded();
    assert s.surface == [BodyImage(MaleBack)];
    assert s.history == [Snapshot([BodyImage(MaleFront)])] && s.index == 0;
    assert History.Current(s.Stack()) != Some(Snapshot(s.surface));
  }

  /** A text stroke on a freshly seeded history whose answer is cancelled,
      empty or blank adds one entry and no label. */
  method TextBlankAnswer(s: Session, answer: Option<string>)
    requires s.Valid() && s.tool == Text && |s.history| == 1
    requires !JsText.HasText(answer)
    modifies s
  {
    s.StartStroke(Point(5, 7));
    var before := s.surface;
    s.EndStroke(answer);
    assert |s.history| == 2 && s.index == 1 && s.surface == before;
  }

  /** An answer with visible text is stamped, untrimmed, at the stroke's start. */
  method TextStampLabel(s: Session, answer: string)
    requires s.Valid() && s.tool == Text
    requires JsText.HasText(Some(answer))
    modifies s
  {
    s.StartStroke(Point(5, 7));
    var before := s.surface;
    s.EndStroke(Some(answer));
    assert s.surface == before + [Label(answer, Point(5, 7), s.color)];
  }
}
