/** Undoable edits: what each command captures, how it applies, reverts and merges. */
module Commands {
  import opened Forests
  import opened Scenes

  const DEFAULT_SPRITE := Sprite(0, 1.0, 1.0, 0, true)
  const DEFAULT_CAMERA := Camera(1.0, true)
  const DEFAULT_ANIMATOR := Animator(0, 0, 1.0, true)

  /** What a capture keeps of one entity: all of it, and the identifier it goes back to. */
  datatype Record = Record(id: StableId, entity: Entity)

  /** A command's fields. `before` is empty until the first successful application captures it. */
  datatype Edit =
    | Rename(id: StableId, newName: string, oldName: Option<string>)
    | SetLocalTransform(id: StableId, newTransform: LocalTransform, oldTransform: Option<LocalTransform>)
    | ReplaceSprite(id: StableId, newSprite: Sprite, oldSprite: Option<Option<Sprite>>)
    | RemoveSprite(id: StableId, removedSprite: Option<Sprite>)
    | ReplaceAnimator(id: StableId, newAnimator: Animator, oldAnimator: Option<Option<Animator>>)
    | RemoveAnimator(id: StableId, removedAnimator: Option<Animator>)
    | ReplaceCamera(id: StableId, newCamera: Camera, oldCamera: Option<Option<Camera>>)
    | RemoveCamera(id: StableId, removedCamera: Option<Camera>)
    | Reparent(id: StableId, newParent: StableId, oldParent: Option<StableId>)
    | Create(id: StableId, name: string, parent: StableId)
    | Destroy(id: StableId, subtree: seq<Record>)

  /** A command that has not been applied yet. */
  predicate Fresh(e: Edit) {
    match e
    case Rename(_, _, before) => before.None?
    case SetLocalTransform(_, _, before) => before.None?
    case ReplaceSprite(_, _, before) => before.None?
    case RemoveSprite(_, before) => before.None?
    case ReplaceAnimator(_, _, before) => before.None?
    case RemoveAnimator(_, before) => before.None?
    case ReplaceCamera(_, _, before) => before.None?
    case RemoveCamera(_, before) => before.None?
    case Reparent(_, _, before) => before.None?
    case Create(id, _, _) => id == NO_ENTITY
    case Destroy(_, subtree) => subtree == []
  }

  function Captured<T>(before: Option<T>, now: T): Option<T> {
    if before.None? then Some(now) else before
  }

  function Or<T>(before: Option<T>, default: T): T {
    if before.Some? then before.value else default
  }

  /** A call's status, the command's fields after it, and the scene it leaves, refused or not. */
  datatype Outcome = Outcome(status: Status, edit: Edit, scene: SceneState)

  ghost function Refused(e: Edit, s: SceneState, error: Error): Outcome { Outcome(Failed(error), e, s) }

  ghost function Done(e: Edit, s: SceneState, f: Forest): Outcome { Outcome(Ok, e, s.(entities := f)) }

  // ---------------------------------------------------------------- apply

  ghost function Apply(e: Edit, s: SceneState): Outcome
    requires WellFormedState(s)
  {
    var f := s.entities;
    if e.Create? then ApplyCreate(e, s)
    else if e.id !in f then Refused(e, s, NotFound)
    else match e
      case Rename(id, name, before) =>
        Done(e.(oldName := Captured(before, f[id].name)), s, SetName(f, id, name))
      case SetLocalTransform(id, transform, before) =>
        Done(e.(oldTransform := Captured(before, f[id].transform)), s, SetTransform(f, id, transform))
      case ReplaceSprite(id, sprite, before) =>
        Done(e.(oldSprite := Captured(before, f[id].sprite)), s, SetSprite(f, id, Some(sprite)))
      case RemoveSprite(id, before) =>
        if before.None? && f[id].sprite.None? then Refused(e, s, NotFound)
        else Done(if before.None? then RemoveSprite(id, f[id].sprite) else e, s, SetSprite(f, id, None))
      case ReplaceAnimator(id, animator, before) =>
        Done(e.(oldAnimator := Captured(before, f[id].animator)), s, SetAnimator(f, id, Some(animator)))
      case RemoveAnimator(id, before) =>
        if before.None? && f[id].animator.None? then Refused(e, s, NotFound)
        else Done(if before.None? then RemoveAnimator(id, f[id].animator) else e, s, SetAnimator(f, id, None))
      case ReplaceCamera(id, camera, before) =>
        Done(e.(oldCamera := Captured(before, f[id].camera)), s, SetCamera(f, id, Some(camera)))
      case RemoveCamera(id, before) =>
        if before.None? && f[id].camera.None? then Refused(e, s, NotFound)
        else Done(if before.None? then RemoveCamera(id, f[id].camera) else e, s, SetCamera(f, id, None))
      case Reparent(id, parent, before) =>
        var status := SetParentStatus(f, id, parent);
        if !status.Ok? then Outcome(status, e, s)
        else Done(e.(oldParent := Captured(before, f[id].parent)), s, WithParent(f, id, parent))
      case Destroy(id, subtree) =>
        Done(if subtree == [] then Destroy(id, Capture(f, id)) else e, s, WithoutSubtree(f, id))
  }

  ghost function ApplyCreate(e: Edit, s: SceneState): Outcome
    requires e.Create?
  {
    var f := s.entities;
    if e.parent != NO_ENTITY && e.parent !in f then Refused(e, s, NotFound)
    else if e.id != NO_ENTITY && e.id in f then Refused(e, s, AlreadyExists)
    else
      var id := if e.id == NO_ENTITY then s.nextId else e.id;
      var made := Create(id, e.name, e.parent);
      var created := SceneState(f[id := NewEntity(e.name)], Max(s.nextId, id + 1));
      if e.parent == NO_ENTITY then Outcome(Ok, made, created)
      else
        var status := SetParentStatus(created.entities, id, e.parent);
        if !status.Ok? then Outcome(status, made, created)
        else Done(made, created, WithParent(created.entities, id, e.parent))
  }

  // ---------------------------------------------------------------- revert

  ghost function Revert(e: Edit, s: SceneState): Outcome
    requires WellFormedState(s)
  {
    var f := s.entities;
    if e.Destroy? then Restore(e, e.subtree, s)
    else if e.id !in f then Refused(e, s, NotFound)
    else match e
      case Rename(id, _, before) => Done(e, s, SetName(f, id, Or(before, "")))
      case SetLocalTransform(id, _, before) => Done(e, s, SetTransform(f, id, Or(before, IDENTITY)))
      case ReplaceSprite(id, _, before) => Done(e, s, SetSprite(f, id, Or(before, None)))
      case RemoveSprite(id, before) => Done(e, s, SetSprite(f, id, Some(Or(before, DEFAULT_SPRITE))))
      case ReplaceAnimator(id, _, before) => Done(e, s, SetAnimator(f, id, Or(before, None)))
      case RemoveAnimator(id, before) => Done(e, s, SetAnimator(f, id, Some(Or(before, DEFAULT_ANIMATOR))))
      case ReplaceCamera(id, _, before) => Done(e, s, SetCamera(f, id, Or(before, None)))
      case RemoveCamera(id, before) => Done(e, s, SetCamera(f, id, Some(Or(before, DEFAULT_CAMERA))))
      case Reparent(id, _, before) =>
        var status := SetParentStatus(f, id, Or(before, NO_ENTITY));
        if !status.Ok? then Outcome(status, e, s)
        else Done(e, s, WithParent(f, id, Or(before, NO_ENTITY)))
      case Create(id, _, _) => Done(e, s, WithoutSubtree(f, id))
  }

  /** Recreate captured entities in order, stopping at the first that cannot be. */
  ghost function Restore(e: Edit, records: seq<Record>, s: SceneState): Outcome
    decreases |records|
  {
    if records == [] then Outcome(Ok, e, s)
    else
      var one := RestoreOne(e, records[0], s);
      if !one.status.Ok? then one else Restore(e, records[1..], one.scene)
  }

  ghost function RestoreOne(e: Edit, record: Record, s: SceneState): Outcome {
    var f := s.entities;
    var id := record.id;
    if id == NO_ENTITY || id in f then Refused(e, s, AlreadyExists)
    else
      var parent := record.entity.parent;
      var made := SceneState(f[id := record.entity.(parent := NO_ENTITY)], Max(s.nextId, id + 1));
      if parent == NO_ENTITY then Outcome(Ok, e, made)
      else
        var status := SetParentStatus(made.entities, id, parent);
        if !status.Ok? then Outcome(status, e, made)
        else Done(e, made, WithParent(made.entities, id, parent))
  }

  // ---------------------------------------------------------------- merge

  /** What the earlier command becomes when it absorbs the later one, if it does. */
  function Merge(earlier: Edit, later: Edit): Option<Edit> {
    match (earlier, later)
    case (Rename(a, _, before), Rename(b, name, _)) =>
      if a == b then Some(Rename(a, name, before)) else None
    case (SetLocalTransform(a, _, before), SetLocalTransform(b, transform, _)) =>
      if a == b then Some(SetLocalTransform(a, transform, before)) else None
    case (ReplaceAnimator(a, _, before), ReplaceAnimator(b, animator, _)) =>
      if a == b then Some(ReplaceAnimator(a, animator, before)) else None
    case _ => None
  }

  // ---------------------------------------------------------------- the captured subtree

  /** The growing worklist of a breadth-first capture, `index` of whose entries are recorded. */
  ghost predicate Worklist(f: Forest, root: StableId, pending: seq<StableId>, index: nat) {
    && WellFormed(f) && root in f && index <= |pending|
    && pending != [] && pending[0] == root
    && Distinct(pending)
    && (forall i :: 0 <= i < |pending| ==> pending[i] in f && Beneath(f, root, pending[i]))
    && (forall i :: 0 < i < |pending| ==> ParentEarlier(f, pending, i, index))
    && ChildrenListed(f, pending, index)
  }

  predicate Distinct(s: seq<StableId>) {
    forall i, j :: 0 <= i < j < |s| ==> s[i] != s[j]
  }

  ghost predicate ChildrenListed(f: Forest, pending: seq<StableId>, index: nat)
    requires index <= |pending|
  {
    forall x :: x in f && f[x].parent in pending[..index] ==> x in pending
  }

  ghost predicate ParentEarlier(f: Forest, pending: seq<StableId>, i: nat, index: nat)
    requires i < |pending| && pending[i] in f && index <= |pending|
  {
    exists j :: 0 <= j < i && j < index && pending[j] == f[pending[i]].parent
  }

  lemma WorklistFits(f: Forest, root: StableId, pending: seq<StableId>, index: nat)
    requires Worklist(f, root, pending, index)
    ensures |pending| <= |f|
  {
    DistinctFits(pending, f.Keys);
  }

  lemma {:induction false} DistinctFits(s: seq<StableId>, ids: set<StableId>)
    requires Distinct(s) && forall i :: 0 <= i < |s| ==> s[i] in ids
    ensures |s| <= |ids|
  {
    if s != [] {
      DistinctFits(s[1..], ids - {s[0]});
    }
  }

  lemma ChildIsNew(f: Forest, root: StableId, pending: seq<StableId>, index: nat, child: StableId)
    requires Worklist(f, root, pending, index) && index < |pending|
    requires child in f && f[child].parent == pending[index]
    ensures child !in pending && Beneath(f, root, child)
  {
    BeneathStep(f, root, child);
    SubtreeShrinks(f, child);
    forall i | 0 <= i < |pending| ensures pending[i] != child {
      if i > 0 {
        assert ParentEarlier(f, pending, i, index);
      }
    }
  }

  lemma GrownParent(f: Forest, root: StableId, pending: seq<StableId>, index: nat, i: nat)
    requires Worklist(f, root, pending, index) && index < |pending|
    requires 0 < i < |pending| + |Children(f, pending[index])|
    ensures var grown := pending + Children(f, pending[index]);
      grown[i] in f && ParentEarlier(f, grown, i, index + 1)
  {
    var kids := Children(f, pending[index]);
    var grown := pending + kids;
    if i < |pending| {
      assert ParentEarlier(f, pending, i, index);
      var j :| 0 <= j < i && j < index && pending[j] == f[pending[i]].parent;
      assert grown[j] == f[grown[i]].parent;
    } else {
      assert grown[i] in kids;
      assert grown[index] == f[grown[i]].parent;
    }
  }

  lemma WorklistStep(f: Forest, root: StableId, pending: seq<StableId>, index: nat)
    requires Worklist(f, root, pending, index) && index < |pending|
    ensures Worklist(f, root, pending + Children(f, pending[index]), index + 1)
  {
    var kids := Children(f, pending[index]);
    assert ListsChildren(f, pending[index], kids);
    var grown, next := pending + kids, index + 1;
    forall i | 0 <= i < |kids| ensures kids[i] in kids && kids[i] !in pending && Beneath(f, root, kids[i]) {
      assert kids[i] in kids;
      ChildIsNew(f, root, pending, index, kids[i]);
    }
    forall i | 0 < i < |grown| ensures grown[i] in f && ParentEarlier(f, grown, i, next) {
      GrownParent(f, root, pending, index, i);
    }
    GrownDistinct(pending, kids);
    GrownChildren(f, pending, index, kids);
  }

  lemma GrownDistinct(s: seq<StableId>, t: seq<StableId>)
    requires Distinct(s) && Increasing(t) && forall i :: 0 <= i < |t| ==> t[i] !in s
    ensures Distinct(s + t)
  {
  }

  lemma GrownChildren(f: Forest, pending: seq<StableId>, index: nat, kids: seq<StableId>)
    requires index < |pending| && ChildrenListed(f, pending, index)
    requires ListsChildren(f, pending[index], kids)
    ensures ChildrenListed(f, pending + kids, index + 1)
  {
    assert (pending + kids)[..index + 1] == pending[..index] + [pending[index]];
  }

  /** Run the worklist to its end. */
  ghost function BreadthFirst(f: Forest, root: StableId, pending: seq<StableId>, index: nat): (all: seq<StableId>)
    requires Worklist(f, root, pending, index)
    ensures Worklist(f, root, all, |all|)
    decreases |f| - index
  {
    WorklistFits(f, root, pending, index);
    if index == |pending| then pending
    else
      WorklistStep(f, root, pending, index);
      BreadthFirst(f, root, pending + Children(f, pending[index]), index + 1)
  }

  lemma WorklistStart(f: Forest, root: StableId)
    requires WellFormed(f) && root in f
    ensures Worklist(f, root, [root], 0)
  {
  }

  ghost function SubtreeInOrder(f: Forest, root: StableId): (all: seq<StableId>)
    requires WellFormed(f) && root in f
    ensures Worklist(f, root, all, |all|)
  {
    WorklistStart(f, root);
    BreadthFirst(f, root, [root], 0)
  }

  function Records(f: Forest, ids: seq<StableId>): (records: seq<Record>)
    requires forall i :: 0 <= i < |ids| ==> ids[i] in f
    ensures |records| == |ids|
    ensures forall i :: 0 <= i < |ids| ==> records[i] == Record(ids[i], f[ids[i]])
  {
    if ids == [] then [] else [Record(ids[0], f[ids[0]])] + Records(f, ids[1..])
  }

  ghost function Capture(f: Forest, root: StableId): (records: seq<Record>)
    requires WellFormed(f) && root in f
    ensures records != []
  {
    Records(f, SubtreeInOrder(f, root))
  }

  ghost function CapturedIds(records: seq<Record>): set<StableId> {
    set i | 0 <= i < |records| :: records[i].id
  }

  ghost predicate ParentsFirst(records: seq<Record>) {
    forall i :: 0 < i < |records| ==> records[i].entity.parent in CapturedIds(records[..i])
  }

  /** The capture holds exactly the subtree, each entity once and as it was, every parent before its
      children. */
  lemma CaptureIsSubtree(f: Forest, root: StableId)
    requires WellFormed(f) && root in f
    ensures var records := Capture(f, root);
      && records != [] && records[0].id == root && ParentsFirst(records)
      && CapturedIds(records) == Subtree(f, root) && |records| == |Subtree(f, root)|
      && forall i :: 0 <= i < |records| ==> records[i].id in f && records[i].entity == f[records[i].id]
  {
    var all := SubtreeInOrder(f, root);
    CapturedIdsAreSubtree(f, root, all);
    forall i | 0 < i < |all| ensures Capture(f, root)[i].entity.parent in CapturedIds(Capture(f, root)[..i]) {
      CapturedParent(f, root, all, Capture(f, root), i);
    }
  }

  lemma CapturedIdsAreSubtree(f: Forest, root: StableId, all: seq<StableId>)
    requires Worklist(f, root, all, |all|)
    ensures CapturedIds(Records(f, all)) == Subtree(f, root) && |all| == |Subtree(f, root)|
  {
    forall id ensures id in CapturedIds(Records(f, all)) <==> id in Subtree(f, root) {
      CapturedId(f, all, Records(f, all), id);
      if id in f {
        WorklistComplete(f, root, all, id);
      }
    }
    forall id ensures id in all <==> id in Subtree(f, root) {
      if id in f {
        WorklistComplete(f, root, all, id);
      }
    }
    DistinctSize(all, Subtree(f, root));
  }

  lemma CapturedParent(f: Forest, root: StableId, all: seq<StableId>, records: seq<Record>, i: nat)
    requires Worklist(f, root, all, |all|) && records == Records(f, all) && 0 < i < |all|
    ensures records[i].entity.parent in CapturedIds(records[..i])
  {
    assert ParentEarlier(f, all, i, |all|);
    var j :| 0 <= j < i && j < |all| && all[j] == f[all[i]].parent;
    assert records[..i][j].id == all[j];
  }

  lemma CapturedId(f: Forest, all: seq<StableId>, records: seq<Record>, id: StableId)
    requires (forall i :: 0 <= i < |all| ==> all[i] in f) && records == Records(f, all)
    ensures id in CapturedIds(records) <==> id in all
  {
    if id in all {
      var i :| 0 <= i < |all| && all[i] == id;
      assert records[i].id == id;
    }
  }

  lemma {:induction false} DistinctSize(s: seq<StableId>, ids: set<StableId>)
    requires Distinct(s) && forall id :: id in s <==> id in ids
    ensures |s| == |ids|
  {
    if s != [] {
      assert s[0] in s && s == [s[0]] + s[1..];
      assert s[0] !in s[1..];
      DistinctSize(s[1..], ids - {s[0]});
    } else {
      assert ids == {};
    }
  }

  lemma WorklistComplete(f: Forest, root: StableId, all: seq<StableId>, id: StableId)
    requires Worklist(f, root, all, |all|) && id in f
    ensures id in all <==> Beneath(f, root, id)
  {
    assert all[..|all|] == all;
    if Beneath(f, root, id) && id != root {
      var steps: nat :| Climb(f, id, steps) == root;
      WorklistReaches(f, root, all, id, steps);
    }
  }

  lemma {:induction false} WorklistReaches(f: Forest, root: StableId, all: seq<StableId>, id: StableId, steps: nat)
    requires Worklist(f, root, all, |all|) && id in f && Climb(f, id, steps) == root
    ensures id in all
    decreases steps
  {
    assert all[..|all|] == all;
    if id != root {
      assert f[id].parent in f;
      WorklistReaches(f, root, all, f[id].parent, steps - 1);
    }
  }
}
