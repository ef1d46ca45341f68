/** The undo and redo stacks as a state machine, and the reference it refines: a history that keeps
    a whole snapshot of the scene for every step. */
module Histories {
  import opened Forests
  import opened Scenes
  import opened Commands
  import opened Reversal

  datatype HistoryState = HistoryState(
    scene: SceneState, undo: seq<Edit>, redo: seq<Edit>, capacity: nat,
    open: bool, revision: nat, lastError: Option<Error>)

  function Last<T>(s: seq<T>): T
    requires s != []
  {
    s[|s| - 1]
  }

  function Front<T>(s: seq<T>): seq<T>
    requires s != []
  {
    s[..|s| - 1]
  }

  // ---------------------------------------------------------------- the machine

  function Cleared(h: HistoryState): HistoryState { h.(undo := [], redo := [], open := false) }

  ghost predicate Absorbed(h: HistoryState, e: Edit, coalesce: bool)
    requires WellFormedState(h.scene)
  {
    coalesce && h.open && h.undo != [] && Merge(Last(h.undo), Apply(e, h.scene).edit).Some?
  }

  function Evict<T>(s: seq<T>, capacity: nat): seq<T> {
    if |s| > capacity then s[1..] else s
  }

  ghost function ApplyStep(h: HistoryState, e: Edit, coalesce: bool): (r: (HistoryState, Status))
    requires WellFormedState(h.scene)
  {
    var applied := Apply(e, h.scene);
    var h1 := h.(scene := applied.scene);
    if !applied.status.Ok? then (h1, applied.status)
    else (Keep(h1.(revision := h.revision + 1), applied.edit, coalesce), Ok)
  }

  /** Where an applied command goes: into the one before it, or onto the stack. */
  function Keep(h: HistoryState, applied: Edit, coalesce: bool): HistoryState {
    if coalesce && h.open && h.undo != [] && Merge(Last(h.undo), applied).Some? then
      h.(undo := Front(h.undo) + [Merge(Last(h.undo), applied).value])
    else
      h.(undo := Evict(h.undo + [applied], h.capacity), redo := [], open := coalesce)
  }

  ghost function UndoStep(h: HistoryState): (HistoryState, bool)
    requires WellFormedState(h.scene)
  {
    if h.undo == [] then (h, false)
    else
      var e := Last(h.undo);
      var reverted := Revert(e, h.scene);
      var h1 := h.(scene := reverted.scene);
      if !reverted.status.Ok? then (Cleared(h1).(lastError := Some(reverted.status.error)), false)
      else (h1.(undo := Front(h.undo), redo := h.redo + [e], open := false, revision := h.revision + 1), true)
  }

  ghost function RedoStep(h: HistoryState): (HistoryState, bool)
    requires WellFormedState(h.scene)
  {
    if h.redo == [] then (h, false)
    else
      var applied := Apply(Last(h.redo), h.scene);
      var h1 := h.(scene := applied.scene);
      if !applied.status.Ok? then (Cleared(h1).(lastError := Some(applied.status.error)), false)
      else (h1.(redo := Front(h.redo), undo := h.undo + [applied.edit], open := false,
                revision := h.revision + 1), true)
  }

  // ---------------------------------------------------------------- the reference

  /** A history that simply keeps every scene it can return to, and where it stands among them. */
  datatype Snapshots = Snapshots(line: seq<Forest>, at: nat)

  function Record(t: Snapshots, scene: Forest, absorbed: bool, capacity: nat): Snapshots
    requires t.at < |t.line|
  {
    if absorbed then Snapshots(t.line[..t.at] + [scene], t.at)
    else
      var line := t.line[..t.at + 1] + [scene];
      if |line| > capacity + 1 then Snapshots(line[1..], t.at) else Snapshots(line, t.at + 1)
  }

  function Back(t: Snapshots): Snapshots { if t.at == 0 then t else t.(at := t.at - 1) }

  function Forward(t: Snapshots): Snapshots { if t.at + 1 >= |t.line| then t else t.(at := t.at + 1) }

  function Forget(t: Snapshots): Snapshots
    requires t.at < |t.line|
  {
    Snapshots([t.line[t.at]], 0)
  }

  ghost predicate GoodLine(line: seq<Forest>, nextId: nat) {
    forall i :: 0 <= i < |line| ==> WellFormed(line[i]) && Bounded(line[i], nextId)
  }

  /** The commands of both stacks, oldest first. */
  function Chain(h: HistoryState): seq<Edit> { h.undo + Reversed(h.redo) }

  function Reversed<T>(s: seq<T>): (r: seq<T>)
    ensures |r| == |s|
  {
    if s == [] then [] else [Last(s)] + Reversed(Front(s))
  }

  ghost predicate Linked(chain: seq<Edit>, line: seq<Forest>) {
    |line| == |chain| + 1 && forall i :: 0 <= i < |chain| ==> Links(chain[i], line[i], line[i + 1])
  }

  /** The commands in `h` stand for exactly the snapshots in `t`. */
  ghost predicate Represents(h: HistoryState, t: Snapshots) {
    && Linked(Chain(h), t.line) && t.at == |h.undo| && t.line[t.at] == h.scene.entities
    && GoodLine(t.line, h.scene.nextId) && h.scene.nextId >= 1
    && 1 <= h.capacity && |h.undo| + |h.redo| <= h.capacity
    && (h.open ==> h.redo == [] && h.undo != [])
  }

  lemma RepresentedIsWellFormed(h: HistoryState, t: Snapshots)
    requires Represents(h, t)
    ensures WellFormedState(h.scene)
  {
    assert t.line[t.at] == h.scene.entities;
  }

  // ---------------------------------------------------------------- one step

  /** A refused command leaves no trace; an accepted one is recorded as its resulting scene. */
  lemma ApplyRefines(h: HistoryState, t: Snapshots, e: Edit, coalesce: bool)
    requires Represents(h, t) && Fresh(e)
    ensures WellFormedState(h.scene)
    ensures var (h', status) := ApplyStep(h, e, coalesce);
      && h'.lastError == h.lastError && h'.capacity == h.capacity
      && (!status.Ok? ==> h' == h)
      && (status.Ok? ==> h'.revision == h.revision + 1)
      && (status.Ok? ==> Represents(h', Record(t, h'.scene.entities, Absorbed(h, e, coalesce), h.capacity)))
  {
    RepresentedIsWellFormed(h, t);
    NeverPartlyApplied(e, h.scene);
    if Apply(e, h.scene).status.Ok? {
      if Absorbed(h, e, coalesce) {
        AbsorbRefines(h, t, e);
      } else {
        PushRefines(h, t, e, coalesce);
      }
    }
    hide Apply, Represents, Fresh, Merge, Record;
  }

  lemma AbsorbRefines(h: HistoryState, t: Snapshots, e: Edit)
    requires Represents(h, t) && WellFormedState(h.scene) && Apply(e, h.scene).status.Ok? && Absorbed(h, e, true)
    ensures var h' := ApplyStep(h, e, true).0; Represents(h', Record(t, h'.scene.entities, true, h.capacity))
  {
    NeverPartlyApplied(e, h.scene);
    RecordedLine(t, h.scene.nextId, Apply(e, h.scene).scene, true, h.capacity);
    AbsorbKeepsLink(h, t, e);
    hide Apply, Links, WellFormed, Merge;
  }

  lemma PushRefines(h: HistoryState, t: Snapshots, e: Edit, coalesce: bool)
    requires Represents(h, t) && WellFormedState(h.scene) && Apply(e, h.scene).status.Ok? && Fresh(e)
    requires !Absorbed(h, e, coalesce)
    ensures var h' := ApplyStep(h, e, coalesce).0; Represents(h', Record(t, h'.scene.entities, false, h.capacity))
  {
    NeverPartlyApplied(e, h.scene);
    RecordedLine(t, h.scene.nextId, Apply(e, h.scene).scene, false, h.capacity);
    FirstApplicationLinks(e, h.scene);
    hide Apply, Links, WellFormed, Merge, Fresh;
    PushKeepsLink(h, t, Apply(e, h.scene).edit, Apply(e, h.scene).scene.entities);
  }

  lemma RecordedLine(t: Snapshots, n: nat, s: SceneState, absorbed: bool, capacity: nat)
    requires GoodLine(t.line, n) && t.at < |t.line| && WellFormedState(s) && n <= s.nextId
    ensures GoodLine(Record(t, s.entities, absorbed, capacity).line, s.nextId)
  {
    BoundedGrows(t.line, n, s.nextId);
    hide WellFormed, Bounded;
    var r := Record(t, s.entities, absorbed, capacity).line;
    forall i | 0 <= i < |r| ensures WellFormed(r[i]) && Bounded(r[i], s.nextId) {
      assert r[i] == s.entities || r[i] in t.line;
    }
  }

  lemma BoundedGrows(line: seq<Forest>, n: nat, m: nat)
    requires GoodLine(line, n) && n <= m
    ensures GoodLine(line, m)
  {
    forall i | 0 <= i < |line| ensures WellFormed(line[i]) && Bounded(line[i], m) {
      assert Bounded(line[i], n);
    }
  }

  lemma PushKeepsLink(h: HistoryState, t: Snapshots, e: Edit, scene: Forest)
    requires Represents(h, t) && Links(e, h.scene.entities, scene)
    ensures var r := Record(t, scene, false, h.capacity);
      Linked(Evict(h.undo + [e], h.capacity), r.line) && r.at < |r.line| &&
      r.at == |Evict(h.undo + [e], h.capacity)| && r.line[r.at] == scene
  {
    hide Links, WellFormed, Reversed, GoodLine;
    var chain := h.undo + [e];
    var line := t.line[..t.at + 1] + [scene];
    forall i | 0 <= i < |chain| ensures Links(chain[i], line[i], line[i + 1]) {
      if i < |h.undo| {
        assert Chain(h)[i] == chain[i];
      }
    }
  }

  lemma AbsorbKeepsLink(h: HistoryState, t: Snapshots, e: Edit)
    requires Represents(h, t) && WellFormedState(h.scene) && Absorbed(h, e, true) && Apply(e, h.scene).status.Ok?
    ensures var scene := Apply(e, h.scene).scene.entities;
      var merged := Merge(Last(h.undo), Apply(e, h.scene).edit).value;
      Linked(Front(h.undo) + [merged], t.line[..t.at] + [scene])
  {
    hide Links, Apply, Merge, Reversed, WellFormed, Bounded;
    var n := |h.undo|;
    assert Chain(h)[n - 1] == Last(h.undo);
    assert GoodLine(t.line, h.scene.nextId);
    assert Bounded(t.line[n - 1], h.scene.nextId);
    MergeLinks(Last(h.undo), e, t.line[n - 1], h.scene);
    var chain := Front(h.undo) + [Merge(Last(h.undo), Apply(e, h.scene).edit).value];
    var line := t.line[..t.at] + [Apply(e, h.scene).scene.entities];
    forall i | 0 <= i < |chain| ensures Links(chain[i], line[i], line[i + 1]) {
      if i < n - 1 {
        assert Chain(h)[i] == chain[i];
      }
    }
  }

  lemma PreviousLink(h: HistoryState, t: Snapshots)
    requires Represents(h, t) && h.undo != []
    ensures t.at > 0 && Links(Last(h.undo), t.line[t.at - 1], t.line[t.at])
    ensures Front(h.undo) + Reversed(h.redo + [Last(h.undo)]) == Chain(h)
  {
    hide Links, WellFormed, GoodLine;
    assert Chain(h)[t.at - 1] == Last(h.undo);
    ReversedPush(h.redo, Last(h.undo));
    hide Represents, Linked, Reversed;
    assert Front(h.undo) + [Last(h.undo)] == h.undo;
  }

  lemma ReversedPush<T>(s: seq<T>, x: T)
    ensures Reversed(s + [x]) == [x] + Reversed(s)
  {
    assert Front(s + [x]) == s;
  }

  lemma NextLink(h: HistoryState, t: Snapshots)
    requires Represents(h, t) && h.redo != []
    ensures t.at + 1 < |t.line| && Links(Last(h.redo), t.line[t.at], t.line[t.at + 1])
    ensures h.undo + [Last(h.redo)] + Reversed(Front(h.redo)) == Chain(h)
  {
    hide Links, WellFormed;
    assert Chain(h)[t.at] == Last(h.redo);
  }

  /** Undo gives exactly the previous scene, and fails only when there is none. */
  lemma UndoRefines(h: HistoryState, t: Snapshots)
    requires Represents(h, t)
    ensures WellFormedState(h.scene)
    ensures var (h', undone) := UndoStep(h);
      && Represents(h', Back(t)) && undone == (t.at > 0)
      && h'.lastError == h.lastError && h'.capacity == h.capacity && Chain(h') == Chain(h)
  {
    RepresentedIsWellFormed(h, t);
    hide Apply, Revert, WellFormed, Reversed;
    if h.undo != [] {
      PreviousLink(h, t);
      assert LinksAt(Last(h.undo), t.line[t.at - 1], t.line[t.at], h.scene.nextId);
    }
  }

  /** Redo gives exactly the next scene, and fails only when there is none. */
  lemma RedoRefines(h: HistoryState, t: Snapshots)
    requires Represents(h, t)
    ensures WellFormedState(h.scene)
    ensures var (h', redone) := RedoStep(h);
      && Represents(h', Forward(t)) && redone == (t.at + 1 < |t.line|)
      && h'.lastError == h.lastError && h'.capacity == h.capacity && Chain(h') == Chain(h)
  {
    RepresentedIsWellFormed(h, t);
    hide Apply, Revert, WellFormed, Reversed;
    if h.redo != [] {
      NextLink(h, t);
      assert LinksAt(Last(h.redo), t.line[t.at], t.line[t.at + 1], h.scene.nextId);
    }
  }

  // ---------------------------------------------------------------- whole runs

  datatype Operation =
    | DoApply(edit: Edit, coalesce: bool)
    | DoUndo
    | DoRedo
    | BreakCoalescing
    | Clear

  ghost function Step(h: HistoryState, op: Operation): HistoryState
    requires WellFormedState(h.scene)
  {
    match op
    case DoApply(e, coalesce) => ApplyStep(h, e, coalesce).0
    case DoUndo => UndoStep(h).0
    case DoRedo => RedoStep(h).0
    case BreakCoalescing => h.(open := false)
    case Clear => Cleared(h)
  }

  /** The same operation on snapshots: it is told only the scene an accepted command produced. */
  ghost function SnapshotStep(t: Snapshots, h: HistoryState, op: Operation): Snapshots
    requires WellFormedState(h.scene) && t.at < |t.line|
  {
    match op
    case DoApply(e, coalesce) =>
      if ApplyStep(h, e, coalesce).1.Ok?
      then Record(t, ApplyStep(h, e, coalesce).0.scene.entities, Absorbed(h, e, coalesce), h.capacity) else t
    case DoUndo => Back(t)
    case DoRedo => Forward(t)
    case BreakCoalescing => t
    case Clear => Forget(t)
  }

  lemma StepRefines(h: HistoryState, t: Snapshots, op: Operation)
    requires Represents(h, t) && (op.DoApply? ==> Fresh(op.edit))
    ensures WellFormedState(h.scene)
    ensures Represents(Step(h, op), SnapshotStep(t, h, op))
    ensures Step(h, op).lastError == h.lastError && Step(h, op).capacity == h.capacity
  {
    RepresentedIsWellFormed(h, t);
    match op
    case DoApply(e, coalesce) => ApplyRefines(h, t, e, coalesce);
    case DoUndo => UndoRefines(h, t);
    case DoRedo => RedoRefines(h, t);
    case BreakCoalescing =>
    case Clear =>
  }

  ghost predicate Initial(h: HistoryState) {
    WellFormedState(h.scene) && h.undo == [] && h.redo == [] && !h.open && h.lastError.None? && h.capacity >= 1
  }

  function Start(h: HistoryState): Snapshots { Snapshots([h.scene.entities], 0) }

  /** Every command applied is a new one: a command belongs to one history from its first application. */
  predicate NewCommands(ops: seq<Operation>) {
    forall i :: 0 <= i < |ops| && ops[i].DoApply? ==> Fresh(ops[i].edit)
  }

  /** Run the operations on both machines; the contract is the refinement, at the end of every run. */
  ghost function Run(h: HistoryState, t: Snapshots, ops: seq<Operation>): (r: (HistoryState, Snapshots))
    requires Represents(h, t) && NewCommands(ops)
    ensures Represents(r.0, r.1) && r.0.lastError == h.lastError && r.0.capacity == h.capacity
    decreases |ops|
  {
    if ops == [] then (h, t)
    else
      StepRefines(h, t, ops[0]);
      Run(Step(h, ops[0]), SnapshotStep(t, h, ops[0]), ops[1..])
  }

  /** Whatever is applied, undone and redone, the scene is the snapshot the reference stands at, undo
      and redo are offered exactly when it has one to give, and the history is never given up. */
  lemma HistoryIsSnapshots(h: HistoryState, ops: seq<Operation>)
    requires Initial(h) && NewCommands(ops)
    ensures Represents(h, Start(h))
    ensures var (h', t) := Run(h, Start(h), ops);
      && h'.lastError.None? && WellFormedState(h'.scene)
      && t.at < |t.line| && h'.scene.entities == t.line[t.at]
      && UndoStep(h').1 == (t.at > 0) && RedoStep(h').1 == (t.at + 1 < |t.line|)
      && |t.line| <= h.capacity + 1
  {
    assert Linked(Chain(h), Start(h).line);
    var (h', t) := Run(h, Start(h), ops);
    UndoRefines(h', t);
    RedoRefines(h', t);
  }

  ghost function UndoTimes(h: HistoryState, t: Snapshots, k: nat): (h': HistoryState)
    requires Represents(h, t) && k <= t.at
    ensures Represents(h', t.(at := t.at - k)) && h'.lastError == h.lastError && Chain(h') == Chain(h)
    decreases k
  {
    if k == 0 then h else
      UndoRefines(h, t);
      UndoTimes(UndoStep(h).0, Back(t), k - 1)
  }

  ghost function RedoTimes(h: HistoryState, t: Snapshots, k: nat): (h': HistoryState)
    requires Represents(h, t) && t.at + k < |t.line|
    ensures Represents(h', t.(at := t.at + k)) && h'.lastError == h.lastError && Chain(h') == Chain(h)
    decreases k
  {
    if k == 0 then h else
      RedoRefines(h, t);
      RedoTimes(RedoStep(h).0, Forward(t), k - 1)
  }

  /** Undoing as often as offered reaches the oldest scene kept, whatever happened before. */
  lemma UndoAllReachesOldest(h: HistoryState, t: Snapshots)
    requires Represents(h, t)
    ensures UndoTimes(h, t, |h.undo|).scene.entities == t.line[0]
    ensures UndoTimes(h, t, |h.undo|).undo == []
  {
  }

  /** `k` undos and then `k` redos restore the scene and both stacks. */
  lemma UndoThenRedo(h: HistoryState, t: Snapshots, k: nat)
    requires Represents(h, t) && k <= t.at
    ensures var back := UndoTimes(h, t, k);
      var again := RedoTimes(back, t.(at := t.at - k), k);
      again.scene.entities == h.scene.entities && again.undo == h.undo && again.redo == h.redo
  {
    var back := UndoTimes(h, t, k);
    var again := RedoTimes(back, t.(at := t.at - k), k);
    assert again.undo == Chain(again)[..t.at] && h.undo == Chain(h)[..t.at];
    assert Reversed(again.redo) == Chain(again)[t.at..] && Reversed(h.redo) == Chain(h)[t.at..];
    ReversedInjective(again.redo, h.redo);
  }

  lemma {:induction false} ReversedInjective<T>(a: seq<T>, b: seq<T>)
    requires Reversed(a) == Reversed(b)
    ensures a == b
  {
    if a != [] {
      assert Reversed(a)[0] == Reversed(b)[0];
      assert Reversed(a)[1..] == Reversed(Front(a)) && Reversed(b)[1..] == Reversed(Front(b));
      ReversedInjective(Front(a), Front(b));
      assert a == Front(a) + [Last(a)] && b == Front(b) + [Last(b)];
    } else {
      assert |Reversed(b)| == 0;
    }
  }

  // ---------------------------------------------------------------- a drag is one step

  /** An edit that can absorb later ones of the same property of the same entity. */
  predicate SameProperty(a: Edit, b: Edit) {
    a.id == b.id && ((a.Rename? && b.Rename?) || (a.SetLocalTransform? && b.SetLocalTransform?)
                     || (a.ReplaceAnimator? && b.ReplaceAnimator?))
  }

  /** What a widget sends while its control is dragged. */
  function DragOps(edits: seq<Edit>): (ops: seq<Operation>)
    ensures |ops| == |edits| && forall i :: 0 <= i < |edits| ==> ops[i] == DoApply(edits[i], true)
  {
    if edits == [] then [] else [DoApply(edits[0], true)] + DragOps(edits[1..])
  }

  /** The rest of a drag is of the property of whatever its first edit was absorbed into or became. */
  lemma SamePropertyCarries(group: Edit, now: Edit, edits: seq<Edit>)
    requires edits != [] && SameProperty(now, edits[0])
    requires forall i :: 0 <= i < |edits| ==> Fresh(edits[i]) && SameProperty(group, edits[i])
    ensures forall i :: 0 <= i < |edits[1..]| ==> Fresh(edits[1..][i]) && SameProperty(now, edits[1..][i])
  {
  }

  /** A later edit of the same property leaves no trace of an earlier one. */
  lemma SamePropertyOverwrites(begin: SceneState, done: Edit, e: Edit)
    requires WellFormedState(begin) && SameProperty(done, e) && Apply(done, begin).status.Ok?
    ensures WellFormedState(Apply(done, begin).scene) && Apply(done, begin).scene.nextId == begin.nextId
    ensures Apply(e, begin).status.Ok? && Apply(e, begin).scene.nextId == begin.nextId
    ensures Apply(e, Apply(done, begin).scene).status.Ok?
    ensures Apply(e, Apply(done, begin).scene).scene == Apply(e, begin).scene
  {
    NeverPartlyApplied(done, begin);
    var f, g, h := begin.entities, Apply(done, begin).scene.entities, Apply(e, begin).scene.entities;
    assert g == f[e.id := g[e.id]] && h == f[e.id := h[e.id]];
    assert Apply(e, Apply(done, begin).scene).scene.entities == f[e.id := h[e.id]];
  }

  /** Only edits of one property are merged. */
  lemma MergedSameProperty(a: Edit, b: Edit)
    ensures Merge(a, b).Some? ==> SameProperty(a, b)
  {
  }

  /** Where an absorbed edit leaves both machines. */
  lemma AbsorbingStep(h: HistoryState, t: Snapshots, e: Edit)
    requires Represents(h, t) && Fresh(e) && h.open && WellFormedState(h.scene)
    requires Apply(e, h.scene).status.Ok? && SameProperty(Last(h.undo), e)
    ensures var op := DoApply(e, true);
      var (h1, t1) := (Step(h, op), SnapshotStep(t, h, op));
      && Represents(h1, t1) && h1.open && |h1.undo| == |h.undo| && h1.scene == Apply(e, h.scene).scene
      && SameProperty(Last(h1.undo), e)
      && t1.at == t.at && 0 < t.at < |t1.line| && t1.line[..t.at] == t.line[..t.at]
  {
    var op := DoApply(e, true);
    SamePropertyApplied(e, h.scene);
    StepRefines(h, t, op);
    assert Absorbed(h, e, true);
    hide Links, Apply;
    var line := t.line[..t.at] + [Apply(e, h.scene).scene.entities];
    assert line[..t.at] == t.line[..t.at];
  }

  lemma RunDrag(h: HistoryState, t: Snapshots, edits: seq<Edit>)
    requires Represents(h, t) && edits != [] && forall i :: 0 <= i < |edits| ==> Fresh(edits[i])
    ensures WellFormedState(h.scene) && t.at < |t.line|
    ensures var op := DoApply(edits[0], true);
      var (h1, t1) := (Step(h, op), SnapshotStep(t, h, op));
      Represents(h1, t1) && Run(h, t, DragOps(edits)) == Run(h1, t1, DragOps(edits[1..]))
  {
    StepRefines(h, t, DoApply(edits[0], true));
    hide Represents, Step, SnapshotStep, Fresh, WellFormedState;
    assert DragOps(edits)[1..] == DragOps(edits[1..]);
  }

  /** An open group has nothing to redo, and a drag of no edits is no step. */
  lemma OpenGroup(h: HistoryState, t: Snapshots)
    requires Represents(h, t)
    ensures h.open ==> h.redo == [] && h.undo != []
    ensures Run(h, t, DragOps([])) == (h, t)
  {
  }

  /** Where the open group began. */
  function GroupBegan(h: HistoryState, t: Snapshots): SceneState
    requires 0 < t.at <= |t.line|
  {
    SceneState(t.line[t.at - 1], h.scene.nextId)
  }

  /** The open group's command carries the scene it began from to the scene now. */
  lemma OpenGroupApplied(h: HistoryState, t: Snapshots)
    requires Represents(h, t) && h.open
    ensures 0 < t.at < |t.line| && WellFormedState(GroupBegan(h, t))
    ensures Apply(Last(h.undo), GroupBegan(h, t)) == Outcome(Ok, Last(h.undo), h.scene)
  {
    PreviousLink(h, t);
    RepresentedIsWellFormed(h, t);
    hide Apply, Revert, WellFormed, Reversed;
    assert LinksAt(Last(h.undo), t.line[t.at - 1], t.line[t.at], h.scene.nextId);
  }

  /** While a group is open, every further edit of its property is absorbed: undo still leads to where the
      group began, and the scene is what the last edit alone makes of that. */
  lemma {:induction false} DragContinues(h: HistoryState, t: Snapshots, edits: seq<Edit>)
    requires Represents(h, t) && h.open
    requires forall i :: 0 <= i < |edits| ==> Fresh(edits[i]) && SameProperty(Last(h.undo), edits[i])
    ensures 0 < t.at < |t.line| && WellFormedState(GroupBegan(h, t))
    ensures var (h', t') := Run(h, t, DragOps(edits));
      && |h'.undo| == |h.undo| && h'.redo == []
      && t'.at == t.at < |t'.line| && t'.line[..t.at] == t.line[..t.at]
      && h'.scene == if edits == [] then h.scene else Apply(Last(edits), GroupBegan(h, t)).scene
    decreases |edits|
  {
    hide Apply, Step, SnapshotStep, Fresh, WellFormedState, SameProperty, Represents, Run, DragOps;
    OpenGroup(h, t);
    OpenGroupApplied(h, t);
    if edits != [] {
      var e, op := edits[0], DoApply(edits[0], true);
      SamePropertyOverwrites(GroupBegan(h, t), Last(h.undo), e);
      RepresentedIsWellFormed(h, t);
      AbsorbingStep(h, t, e);
      var h1, t1 := Step(h, op), SnapshotStep(t, h, op);
      SamePropertyCarries(Last(h.undo), Last(h1.undo), edits);
      RunDrag(h, t, edits);
      DragContinues(h1, t1, edits[1..]);
      assert t.line[..t.at][t.at - 1] == t1.line[..t.at][t.at - 1];
    }
  }

  lemma UndoGivesPrevious(h: HistoryState, t: Snapshots)
    requires Represents(h, t) && t.at > 0
    ensures WellFormedState(h.scene)
    ensures UndoStep(h).1 && UndoStep(h).0.scene.entities == t.line[t.at - 1]
  {
    UndoRefines(h, t);
    hide Apply, Revert, UndoStep;
  }

  lemma OpeningStep(h: HistoryState, t: Snapshots, e: Edit)
    requires Represents(h, t) && Fresh(e) && WellFormedState(h.scene) && !Absorbed(h, e, true)
    requires Apply(e, h.scene).status.Ok? && SameProperty(Apply(e, h.scene).edit, e)
    ensures var op := DoApply(e, true);
      var (h1, t1) := (Step(h, op), SnapshotStep(t, h, op));
      && Represents(h1, t1) && h1.open && h1.scene == Apply(e, h.scene).scene
      && |h1.undo| == (if |h.undo| < h.capacity then |h.undo| + 1 else h.capacity)
      && h1.undo != [] && SameProperty(Last(h1.undo), e)
      && 0 < t1.at < |t1.line| && t1.line[t1.at - 1] == h.scene.entities
  {
    var op := DoApply(e, true);
    StepRefines(h, t, op);
    hide Links, Apply, SameProperty, Merge;
    assert (t.line[..t.at + 1] + [Apply(e, h.scene).scene.entities])[t.at] == h.scene.entities;
  }

  /** A dragging widget's edits, however many, are one undo step that returns to where the drag began, unless
      the group still open is of the same property and goes on. */
  lemma {:induction false} DragIsOneStep(h: HistoryState, t: Snapshots, edits: seq<Edit>)
    requires Represents(h, t) && edits != [] && edits[0].id in h.scene.entities
    requires h.open ==> !SameProperty(Last(h.undo), edits[0])
    requires forall i :: 0 <= i < |edits| ==> Fresh(edits[i]) && SameProperty(edits[0], edits[i])
    ensures WellFormedState(h.scene)
    ensures var (h', t') := Run(h, t, DragOps(edits));
      && WellFormedState(h'.scene)
      && |h'.undo| == (if |h.undo| < h.capacity then |h.undo| + 1 else h.capacity) && h'.redo == []
      && h'.scene == Apply(Last(edits), h.scene).scene
      && UndoStep(h').1 && UndoStep(h').0.scene.entities == h.scene.entities
  {
    hide Apply, Step, SnapshotStep, WellFormedState, Revert, UndoStep, Fresh, Represents, SameProperty, Run, DragOps, Merge;
    RepresentedIsWellFormed(h, t);
    var e, op := edits[0], DoApply(edits[0], true);
    SetterAccepted(e, h.scene);
    SamePropertyOverwrites(h.scene, e, e);
    SamePropertyApplied(e, h.scene);
    NotAbsorbed(h, e);
    RunDrag(h, t, edits);
    OpeningStep(h, t, e);
    var h1, t1 := Step(h, op), SnapshotStep(t, h, op);
    SamePropertyCarries(e, Last(h1.undo), edits);
    DragContinues(h1, t1, edits[1..]);
    assert GroupBegan(h1, t1) == h.scene;
    var (h', t') := Run(h, t, DragOps(edits));
    UndoGivesPrevious(h', t');
    assert t'.line[..t1.at][t1.at - 1] == t1.line[..t1.at][t1.at - 1];
  }

  lemma SetterAccepted(e: Edit, s: SceneState)
    requires WellFormedState(s) && SameProperty(e, e) && e.id in s.entities
    ensures Apply(e, s).status.Ok?
  {
  }

  lemma NotAbsorbed(h: HistoryState, e: Edit)
    requires WellFormedState(h.scene) && SameProperty(Apply(e, h.scene).edit, e)
    requires h.open && h.undo != [] ==> !SameProperty(Last(h.undo), e)
    ensures !Absorbed(h, e, true)
  {
    hide Apply, Merge;
    if h.undo != [] {
      MergedSameProperty(Last(h.undo), Apply(e, h.scene).edit);
    }
  }

  lemma SamePropertyApplied(e: Edit, s: SceneState)
    requires WellFormedState(s) && SameProperty(e, e)
    ensures SameProperty(Apply(e, s).edit, e)
  {
  }
}
