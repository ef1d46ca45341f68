/** What each call does to the two stacks, the open group and the revision, whatever the commands are. */
module HistoryLaws {
  import opened Forests
  import opened Scenes
  import opened Commands
  import opened Reversal
  import opened Histories
  import opened Effects

  /** An accepted command is absorbed exactly when it asks to be, a group is open, and the newest command is of
      the same property of the same entity. */
  lemma AbsorbedIff(h: HistoryState, t: Snapshots, e: Edit, coalesce: bool)
    requires Represents(h, t) && Fresh(e)
    ensures WellFormedState(h.scene)
    ensures Apply(e, h.scene).status == Ok ==>
      (Absorbed(h, e, coalesce) <==> coalesce && h.open && h.undo != [] && SameProperty(Last(h.undo), e))
  {
    RepresentedIsWellFormed(h, t);
    if Apply(e, h.scene).status == Ok && h.undo != [] {
      SameKind(e, h.scene);
      MergeDoes(Last(h.undo), Apply(e, h.scene).edit);
      hide Apply, Merge;
    }
  }

  lemma SameKind(e: Edit, s: SceneState)
    requires WellFormedState(s) && Fresh(e) && Apply(e, s).status == Ok
    ensures var after := Apply(e, s).edit;
      (after.id == e.id || e.Create?) && (after.Rename? <==> e.Rename?)
      && (after.SetLocalTransform? <==> e.SetLocalTransform?) && (after.ReplaceAnimator? <==> e.ReplaceAnimator?)
  {
    if IsSetter(e) {
      SetterCaptures(e, s);
    } else if e.Create? {
      CreateDoes(e, s);
    }
  }

  /** Applying: a refusal leaves no trace. Otherwise the scene is the one the command made and the revision is
      one more; an absorbed command changes only the newest entry, and any other becomes the newest entry,
      forgets what was undone, drops the oldest entry only when there is no room for it, and opens a group
      exactly when it asks for one. */
  lemma ApplyDoes(h: HistoryState, t: Snapshots, e: Edit, coalesce: bool)
    requires Represents(h, t) && Fresh(e)
    ensures WellFormedState(h.scene)
    ensures var (g, status) := ApplyStep(h, e, coalesce);
      && status == Apply(e, h.scene).status && (status != Ok ==> g == h)
      && (status == Ok ==> g.scene == Apply(e, h.scene).scene && g.revision == h.revision + 1)
      && (status == Ok ==> g.capacity == h.capacity && g.lastError == h.lastError)
      && (status == Ok && Absorbed(h, e, coalesce) ==>
          g.open && g.redo == h.redo && |g.undo| == |h.undo| && Front(g.undo) == Front(h.undo))
      && (status == Ok && !Absorbed(h, e, coalesce) ==>
          g.open == coalesce && g.redo == [] && Pushed(h.undo, g.undo, Apply(e, h.scene).edit, h.capacity))
  {
    RepresentedIsWellFormed(h, t);
    NeverPartlyApplied(e, h.scene);
    hide Apply, Merge;
  }

  /** `after` is `before` with one entry more at the end, and without its first if that is one too many. */
  predicate Pushed(before: seq<Edit>, after: seq<Edit>, e: Edit, capacity: nat) {
    && after != [] && after[|after| - 1] == e
    && (|before| < capacity ==> after[..|after| - 1] == before)
    && (|before| >= capacity ==> before != [] && after[..|after| - 1] == before[1..])
  }

  /** Undoing and redoing move one entry from the end of one stack to the end of the other, close the group and
      count as a revision; with nothing to move they change nothing. */
  lemma UndoDoes(h: HistoryState, t: Snapshots)
    requires Represents(h, t)
    ensures WellFormedState(h.scene)
    ensures var (g, undone) := UndoStep(h);
      && undone == (h.undo != []) && (!undone ==> g == h)
      && (undone ==> g.undo == h.undo[..|h.undo| - 1] && g.redo == h.redo + [h.undo[|h.undo| - 1]])
      && (undone ==> !g.open && g.revision == h.revision + 1 && g.capacity == h.capacity && g.lastError == h.lastError)
  {
    UndoRefines(h, t);
    hide Apply, Revert;
  }

  lemma RedoDoes(h: HistoryState, t: Snapshots)
    requires Represents(h, t)
    ensures WellFormedState(h.scene)
    ensures var (g, redone) := RedoStep(h);
      && redone == (h.redo != []) && (!redone ==> g == h)
      && (redone ==> g.redo == h.redo[..|h.redo| - 1] && g.undo == h.undo + [h.redo[|h.redo| - 1]])
      && (redone ==> !g.open && g.revision == h.revision + 1 && g.capacity == h.capacity && g.lastError == h.lastError)
  {
    RedoRefines(h, t);
    if h.redo != [] {
      NextLink(h, t);
      assert LinksAt(Last(h.redo), t.line[t.at], t.line[t.at + 1], h.scene.nextId);
    }
    hide Apply, Revert, Reversed;
  }

  /** After a break, a successful undo or redo, or a clear, no command is absorbed into what came before. */
  lemma NothingAbsorbedAfter(h: HistoryState, t: Snapshots, op: Operation, e: Edit, coalesce: bool)
    requires Represents(h, t) && Fresh(e)
    requires op.BreakCoalescing? || op.Clear? || (op.DoUndo? && h.undo != []) || (op.DoRedo? && h.redo != [])
    ensures WellFormedState(h.scene)
    ensures WellFormedState(Step(h, op).scene) && !Absorbed(Step(h, op), e, coalesce)
  {
    UndoDoes(h, t);
    RedoDoes(h, t);
    StepRefines(h, t, op);
    RepresentedIsWellFormed(Step(h, op), SnapshotStep(t, h, op));
    hide Apply, Revert, Merge, Represents;
  }

  /** Breaking a group closes it and clearing empties both stacks; neither touches the scene. */
  lemma BreakAndClearDo(h: HistoryState)
    requires WellFormedState(h.scene)
    ensures var (g, c) := (Step(h, BreakCoalescing), Step(h, Clear));
      && g.scene == h.scene && g.undo == h.undo && g.redo == h.redo && !g.open && g.revision == h.revision
      && c.scene == h.scene && c.undo == [] && c.redo == [] && !c.open && c.revision == h.revision
      && g.capacity == c.capacity == h.capacity && g.lastError == c.lastError == h.lastError
  {
  }
}
