/**
 * The linear undo/redo history of the annotator as values: the current
 * annotation list, the `history` of earlier lists (most recent last) and
 * the `redoStack` of undone lists (most recent first).
 *
 * The three together form a timeline, history + [annotations] + redoStack,
 * with a cursor at position |history|. Undo and redo move the cursor and
 * leave the timeline as it is; a commit cuts the timeline after the cursor
 * and appends the new list.
 */
module UndoHistory {
  import opened Annotations

  type Snapshot = seq<Annotation>

  datatype EditState = EditState(annotations: Snapshot, history: seq<Snapshot>, redoStack: seq<Snapshot>)

  /** Every list reachable by undo and redo, oldest first. */
  function Timeline(s: EditState): seq<Snapshot>
  {
    s.history + [s.annotations] + s.redoStack
  }

  /** Each list in the timeline is the one before it with annotations appended, one per step. */
  ghost predicate Linear(t: seq<Snapshot>)
  {
    forall i, j :: 0 <= i <= j < |t| ==> t[i] <= t[j] && |t[j]| == |t[i]| + (j - i)
  }

  /** addAnnotation: the list before the change is pushed on history, redo is cleared, ann is appended. */
  function Commit(s: EditState, ann: Annotation): (r: EditState)
    ensures |r.history| == |s.history| + 1
    ensures Timeline(r) == Timeline(s)[..|s.history| + 1] + [s.annotations + [ann]]
  {
    var r := EditState(s.annotations + [ann], s.history + [s.annotations], []);
    assert Timeline(s)[..|s.history| + 1] == s.history + [s.annotations];
    r
  }

  /** undo: no-op on an empty history; otherwise step back to the last history entry. */
  function Undo(s: EditState): (r: EditState)
    ensures Timeline(r) == Timeline(s)
    ensures |r.history| == if s.history == [] then 0 else |s.history| - 1
    ensures s.history == [] ==> r == s
  {
    if |s.history| == 0 then s
    else
      var n := |s.history| - 1;
      var r := EditState(s.history[n], s.history[..n], [s.annotations] + s.redoStack);
      assert s.history == s.history[..n] + [s.history[n]];
      r
  }

  /** redo: no-op on an empty redo stack; otherwise step forward to its front entry. */
  function Redo(s: EditState): (r: EditState)
    ensures Timeline(r) == Timeline(s)
    ensures |r.history| == if s.redoStack == [] then |s.history| else |s.history| + 1
    ensures s.redoStack == [] ==> r == s
  {
    if |s.redoStack| == 0 then s
    else
      var r := EditState(s.redoStack[0], s.history + [s.annotations], s.redoStack[1..]);
      assert s.redoStack == [s.redoStack[0]] + s.redoStack[1..];
      r
  }

  /** The timeline and the cursor together fix the whole state. */
  lemma TimelineDetermines(s: EditState, t: EditState)
    requires Timeline(s) == Timeline(t)
    requires |s.history| == |t.history|
    ensures s == t
  {
    var n := |s.history|;
    assert s.history == Timeline(s)[..n] && t.history == Timeline(t)[..n];
    assert s.annotations == Timeline(s)[n] && t.annotations == Timeline(t)[n];
    assert s.redoStack == Timeline(s)[n + 1..] && t.redoStack == Timeline(t)[n + 1..];
  }

  lemma UndoThenRedo(s: EditState)
    requires s.history != []
    ensures Redo(Undo(s)) == s
  {
  }

  lemma RedoThenUndo(s: EditState)
    requires s.redoStack != []
    ensures Undo(Redo(s)) == s
  {
  }

  /** A commit made after undos leaves nothing to redo, however much there was. */
  lemma CommitDiscardsRedo(s: EditState, ann: Annotation)
    ensures Redo(Commit(s, ann)) == Commit(s, ann)
    ensures Timeline(Commit(s, ann))[..|s.history| + 1] == Timeline(s)[..|s.history| + 1]
  {
  }

  lemma {:induction false} CommitKeepsLinear(s: EditState, ann: Annotation)
    requires Linear(Timeline(s))
    ensures Linear(Timeline(Commit(s, ann)))
  {
    var t, c := Timeline(s), |s.history|;
    var t' := Timeline(Commit(s, ann));
    assert t[c] == s.annotations;
    forall i, j | 0 <= i <= j < |t'|
      ensures t'[i] <= t'[j] && |t'[j]| == |t'[i]| + (j - i)
    {
      if j <= c {
        assert t'[i] == t[i] && t'[j] == t[j];
      } else if i == j {
      } else {
        assert t'[i] == t[i];
        assert t'[j] == t[c] + [ann];
        assert t[i] <= t[c] && |t[c]| == |t[i]| + (c - i);
      }
    }
  }

  /** On a linear timeline, undo takes back exactly the most recent annotation. */
  lemma UndoDropsLast(s: EditState)
    requires Linear(Timeline(s))
    requires s.history != []
    ensures |s.annotations| >= 1
    ensures Undo(s).annotations == s.annotations[..|s.annotations| - 1]
  {
    var t, c := Timeline(s), |s.history|;
    assert t[c - 1] == s.history[c - 1] && t[c] == s.annotations;
    assert t[c - 1] <= t[c] && |t[c]| == |t[c - 1]| + 1;
  }

  /** On a linear timeline, redo puts back exactly one annotation on top of the current list. */
  lemma RedoAddsOne(s: EditState)
    requires Linear(Timeline(s))
    requires s.redoStack != []
    ensures |Redo(s).annotations| == |s.annotations| + 1
    ensures Redo(s).annotations == s.annotations + [Redo(s).annotations[|s.annotations|]]
  {
    var t, c := Timeline(s), |s.history|;
    assert t[c] == s.annotations && t[c + 1] == s.redoStack[0];
    assert t[c] <= t[c + 1] && |t[c + 1]| == |t[c]| + 1;
    var r := Redo(s).annotations;
    assert r == r[..|s.annotations|] + [r[|s.annotations|]];
  }

  /** addAnnotation applied to each of anns in turn. */
  function CommitAll(s: EditState, anns: seq<Annotation>): EditState
    decreases |anns|
  {
    if anns == [] then s else CommitAll(Commit(s, anns[0]), anns[1..])
  }

  /** undo pressed k times. */
  function UndoN(s: EditState, k: nat): EditState
    decreases k
  {
    if k == 0 then s else UndoN(Undo(s), k - 1)
  }

  /** redo pressed k times. */
  function RedoN(s: EditState, k: nat): EditState
    decreases k
  {
    if k == 0 then s else RedoN(Redo(s), k - 1)
  }

  /**
   * N commits append exactly those N annotations in call order, push one
   * history entry each, keep every earlier state reachable by undo, and
   * leave nothing to redo.
   */
  lemma {:induction false} CommitAllAppends(s: EditState, anns: seq<Annotation>)
    ensures CommitAll(s, anns).annotations == s.annotations + anns
    ensures |CommitAll(s, anns).history| == |s.history| + |anns|
    ensures Timeline(CommitAll(s, anns))[..|s.history| + 1] == Timeline(s)[..|s.history| + 1]
    ensures anns != [] ==> CommitAll(s, anns).redoStack == []
    decreases |anns|
  {
    if anns != [] {
      var s' := Commit(s, anns[0]);
      CommitAllAppends(s', anns[1..]);
      CommitDiscardsRedo(s, anns[0]);
      var r := CommitAll(s', anns[1..]);
      var n := |s.history| + 1;
      assert Timeline(r)[..n] == Timeline(r)[..n + 1][..n];
      assert Timeline(s')[..n] == Timeline(s')[..n + 1][..n];
      assert s.annotations + anns == s.annotations + [anns[0]] + anns[1..];
      if anns[1..] == [] {
        assert r == s';
      }
    }
  }

  /** Starting from an empty list, the list after N commits is exactly those N annotations. */
  lemma CommitsFromEmpty(anns: seq<Annotation>)
    ensures CommitAll(EditState([], [], []), anns).annotations == anns
  {
    CommitAllAppends(EditState([], [], []), anns);
  }

  lemma {:induction false} UndoNMovesBack(s: EditState, k: nat)
    requires k <= |s.history|
    ensures Timeline(UndoN(s, k)) == Timeline(s)
    ensures |UndoN(s, k).history| == |s.history| - k
    decreases k
  {
    if k > 0 {
      UndoNMovesBack(Undo(s), k - 1);
    }
  }

  lemma {:induction false} RedoNMovesForward(s: EditState, k: nat)
    requires k <= |s.redoStack|
    ensures Timeline(RedoN(s, k)) == Timeline(s)
    ensures |RedoN(s, k).history| == |s.history| + k
    decreases k
  {
    if k > 0 {
      var s' := Redo(s);
      assert |Timeline(s')| == |s'.history| + 1 + |s'.redoStack|;
      RedoNMovesForward(s', k - 1);
    }
  }

  /** k undos followed by k redos restore the whole state exactly. */
  lemma UndosThenRedos(s: EditState, k: nat)
    requires k <= |s.history|
    ensures RedoN(UndoN(s, k), k) == s
  {
    var u := UndoN(s, k);
    UndoNMovesBack(s, k);
    assert |Timeline(u)| == |u.history| + 1 + |u.redoStack|;
    RedoNMovesForward(u, k);
    TimelineDetermines(RedoN(u, k), s);
  }

  /**
   * k commits then k undos return to the starting list and history; k
   * redos after that return to the state right after the commits.
   */
  lemma CommitsUndosRedos(s: EditState, anns: seq<Annotation>)
    ensures UndoN(CommitAll(s, anns), |anns|).annotations == s.annotations
    ensures UndoN(CommitAll(s, anns), |anns|).history == s.history
    ensures RedoN(UndoN(CommitAll(s, anns), |anns|), |anns|) == CommitAll(s, anns)
  {
    var t := CommitAll(s, anns);
    var k, n := |anns|, |s.history|;
    CommitAllAppends(s, anns);
    UndoNMovesBack(t, k);
    var u := UndoN(t, k);
    assert Timeline(u)[..n + 1] == Timeline(s)[..n + 1];
    assert u.history == Timeline(u)[..n + 1][..n] && s.history == Timeline(s)[..n + 1][..n];
    assert u.annotations == Timeline(u)[..n + 1][n] && s.annotations == Timeline(s)[..n + 1][n];
    UndosThenRedos(t, k);
  }
}
