/** The undo history: the list of surface snapshots the page keeps
    (canvasHistory) and the cursor naming the one on display
    (currentHistoryIndex). The entries are opaque here, so every operation
    is generic in their type. */
module History {
  import opened Options

  datatype Log<T> = Log(entries: seq<T>, cursor: int)

  /** The cursor invariant: -1 exactly when there are no entries, and
      otherwise the index of an existing entry. */
  predicate Wf<T>(l: Log<T>) {
    if |l.entries| == 0 then l.cursor == -1 else 0 <= l.cursor < |l.entries|
  }

  /** The page's initial state: no entries and a cursor that names none. */
  function Initial<T>(): (l: Log<T>)
    ensures Wf(l) && l.entries == []
  {
    Log([], -1)
  }

  /** The entry on display, if the cursor names one. */
  function Current<T>(l: Log<T>): (r: Option<T>)
    ensures r.Some? <==> 0 <= l.cursor < |l.entries|
    ensures r.Some? ==> r.value == l.entries[l.cursor]
    ensures Wf(l) ==> (r.Some? <==> |l.entries| > 0)
  {
    if 0 <= l.cursor < |l.entries| then Some(l.entries[l.cursor]) else None
  }

  /** Array.prototype.slice(0, end): a prefix of s, with a negative end
      counting back from the end of s and a too large one clamped. */
  function Prefix<T>(s: seq<T>, end: int): (r: seq<T>)
    ensures |r| <= |s| && r == s[..|r|]
    ensures 0 <= end <= |s| ==> |r| == end
    ensures end > |s| ==> r == s
    ensures end < 0 ==> |r| == (if |s| + end < 0 then 0 else |s| + end)
  {
    var n := if end < 0 then (if |s| + end < 0 then 0 else |s| + end)
             else if end < |s| then end else |s|;
    s[..n]
  }

  /** Seeding once the background is ready: an empty history becomes the
      single initial snapshot on display; a history that has entries is
      left as it is. */
  function Seed<T>(l: Log<T>, initial: T): (r: Log<T>)
    ensures |l.entries| == 0 ==> r.entries == [initial] && r.cursor == 0
    ensures |l.entries| > 0 ==> r == l
    ensures Wf(l) || |l.entries| == 0 ==> Wf(r) && |r.entries| > 0
  {
    if |l.entries| == 0 then Log([initial], 0) else l
  }

  /** Saving a finished stroke: the entries up to the cursor are kept in
      place, those after it are dropped, the new snapshot follows them and
      the cursor names it. The result is well formed whatever the input. */
  function Commit<T>(l: Log<T>, snap: T): (r: Log<T>)
    ensures Wf(r) && |r.entries| > 0 && r.cursor == |r.entries| - 1 && r.entries[r.cursor] == snap
    ensures r.entries[..r.cursor] == Prefix(l.entries, l.cursor + 1)
    ensures Wf(l) ==> |r.entries| == l.cursor + 2
    ensures Wf(l) ==> forall j :: 0 <= j <= l.cursor ==> r.entries[j] == l.entries[j]
  {
    var kept := Prefix(l.entries, l.cursor + 1);
    Log(kept + [snap], |kept|)
  }

  /** Saving a text stroke: the kept prefix is followed by the stroke's
      snapshot and then the snapshot with the text, and the cursor names the
      latter. */
  function CommitPair<T>(l: Log<T>, first: T, second: T): (r: Log<T>)
    ensures Wf(r) && r.cursor == |r.entries| - 1 && r.cursor >= 1
    ensures r.entries[..r.cursor - 1] == Prefix(l.entries, l.cursor + 1)
    ensures r.entries[r.cursor - 1] == first && r.entries[r.cursor] == second
  {
    var kept := Prefix(l.entries, l.cursor + 1);
    Log(kept + [first, second], |kept| + 1)
  }

  /** The pair is what two successive commits give: the first leaves the
      cursor on the last entry, so the second truncates nothing. */
  lemma CommitPairIsTwoCommits<T>(l: Log<T>, first: T, second: T)
    ensures CommitPair(l, first, second) == Commit(Commit(l, first), second)
  {
  }

  /** Undo moves the cursor back by one when it is past the first entry and
      never touches the entries. */
  function Undo<T>(l: Log<T>): (r: Log<T>)
    ensures r.entries == l.entries
    ensures l.cursor > 0 ==> r.cursor == l.cursor - 1
    ensures l.cursor <= 0 ==> r == l
    ensures Wf(l) ==> Wf(r)
  {
    if l.cursor > 0 then Log(l.entries, l.cursor - 1) else l
  }

  /** Clear appends the blank snapshot after ALL entries, also those past the
      cursor, keeps every old entry in place and puts the cursor on the new one. */
  function Clear<T>(l: Log<T>, blank: T): (r: Log<T>)
    ensures |r.entries| == |l.entries| + 1 && r.entries[..|l.entries|] == l.entries
    ensures r.entries[|l.entries|] == blank && r.cursor == |l.entries|
    ensures Wf(r)
  {
    Log(l.entries + [blank], |l.entries|)
  }

  /** Undo right after Clear shows the entry that was last in the history
      before the clear. */
  lemma ClearThenUndo<T>(l: Log<T>, blank: T)
    requires |l.entries| > 0
    ensures Undo(Clear(l, blank)).cursor == |l.entries| - 1
    ensures Current(Undo(Clear(l, blank))) == Some(l.entries[|l.entries| - 1])
  {
  }

  /** Clear and a stroke differ once something has been undone: the stroke
      drops the undone entries, Clear keeps them, and an Undo after Clear
      brings back the last undone entry instead of the one shown before. */
  lemma ClearKeepsUndone<T>(l: Log<T>, blank: T)
    requires Wf(l) && l.cursor < |l.entries| - 1
    ensures Clear(l, blank).entries != Commit(l, blank).entries
    ensures Current(Undo(Clear(l, blank))) == Some(l.entries[|l.entries| - 1])
  {
  }

  /** k presses of Undo. */
  function UndoTimes<T>(l: Log<T>, k: nat): (r: Log<T>)
    ensures r.entries == l.entries
  {
    if k == 0 then l else Undo(UndoTimes(l, k - 1))
  }

  /** k presses of Undo move the cursor back by k, stopping at the first entry. */
  lemma {:induction false} UndoTimesCursor<T>(l: Log<T>, k: nat)
    requires Wf(l) && |l.entries| > 0
    ensures UndoTimes(l, k).cursor == (if l.cursor - k < 0 then 0 else l.cursor - k)
  {
    if k > 0 {
      UndoTimesCursor(l, k - 1);
    }
  }

  /** After any number of undos a new stroke leaves exactly the entries up to
      the cursor, then the new one: the undone entries can no longer be
      reached by undo. */
  lemma {:induction false} StrokeAfterUndosDropsFuture<T>(l: Log<T>, k: nat, snap: T)
    requires Wf(l) && |l.entries| > 0
    ensures var c := if l.cursor - k < 0 then 0 else l.cursor - k;
            Commit(UndoTimes(l, k), snap).entries == l.entries[..c + 1] + [snap]
  {
    UndoTimesCursor(l, k);
  }

  /** One user action on the history. */
  datatype Step<T> =
    | Seeded(initial: T)            // the background became ready
    | Stroked(snap: T)              // a stroke ended
    | Stamped(snap: T, text: T)     // a text stroke ended with text entered
    | Undone                        // the Undo button
    | Cleared(blank: T)             // the Clear button

  function Apply<T>(l: Log<T>, step: Step<T>): Log<T> {
    match step
    case Seeded(s) => Seed(l, s)
    case Stroked(s) => Commit(l, s)
    case Stamped(s, t) => CommitPair(l, s, t)
    case Undone => Undo(l)
    case Cleared(b) => Clear(l, b)
  }

  function Run<T>(l: Log<T>, steps: seq<Step<T>>): Log<T>
    decreases |steps|
  {
    if steps == [] then l else Run(Apply(l, steps[0]), steps[1..])
  }

  /** The cursor invariant survives any sequence of actions. */
  lemma {:induction false} RunKeepsWf<T>(l: Log<T>, steps: seq<Step<T>>)
    requires Wf(l)
    ensures Wf(Run(l, steps))
    decreases |steps|
  {
    if steps != [] {
      RunKeepsWf(Apply(l, steps[0]), steps[1..]);
    }
  }

  predicate IsEdit<T>(step: Step<T>) {
    step.Stroked? || step.Stamped? || step.Cleared?
  }

  /** Without undo, each stroke or clear adds at least one entry and the
      cursor stays on the newest: N edits after seeding leave N + 1 entries
      or more. */
  lemma {:induction false} EditsGrowHistory<T>(l: Log<T>, steps: seq<Step<T>>)
    requires Wf(l) && |l.entries| > 0 && l.cursor == |l.entries| - 1
    requires forall i :: 0 <= i < |steps| ==> IsEdit(steps[i])
    ensures |Run(l, steps).entries| >= |l.entries| + |steps|
    ensures Run(l, steps).cursor == |Run(l, steps).entries| - 1
    decreases |steps|
  {
    if steps != [] {
      var next := Apply(l, steps[0]);
      assert |next.entries| >= |l.entries| + 1 && next.cursor == |next.entries| - 1;
      EditsGrowHistory(next, steps[1..]);
    }
  }

  /** With an undo in between, two strokes after seeding leave only two
      entries: the bound above needs the run to be free of undos. */
  lemma UndoBreaksGrowth(a: int, b: int, c: int)
    ensures |Run(Log([a], 0), [Stroked(b), Undone, Stroked(c)]).entries| == 2
  {
    var steps := [Stroked(b), Undone, Stroked(c)];
    var l1 := Commit(Log([a], 0), b);
    assert l1 == Log([a, b], 1);
    var l2 := Undo(l1);
    assert l2 == Log([a, b], 0);
    var l3 := Commit(l2, c);
    assert l3 == Log([a, c], 1);
    assert Run(l3, steps[3..]) == l3;
    assert Run(l2, steps[2..]) == Run(l3, steps[3..]);
    assert Run(l1, steps[1..]) == Run(l2, steps[2..]);
    assert Run(Log([a], 0), steps) == Run(l1, steps[1..]);
  }
}
