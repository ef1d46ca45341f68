/** The command object: fields filled in on first application, and a scene mutated in place. Each
    method is tied to the function of Commands.dfy that says what it does. */
module EditCommands {
  import opened Forests
  import opened Scenes
  import Commands
  import opened E = Commands

  class Command {
    var edit: Edit

    constructor (edit: Edit)
      ensures this.edit == edit
    {
      this.edit := edit;
    }

    method Apply(scene: Scene) returns (status: Status)
      requires scene.Valid()
      modifies this, scene
      ensures scene.Valid()
      ensures Outcome(status, edit, scene.State()) == Commands.Apply(old(edit), old(scene.State()))
    {
      if edit.Create? {
        status := ApplyCreate(scene);
        return;
      }
      if edit.id !in scene.entities {
        return Failed(NotFound);
      }
      if edit.Reparent? {
        status := ApplyReparent(scene);
      } else if edit.Destroy? {
        status := ApplyDestroy(scene);
      } else {
        status := ApplySetter(scene);
      }
    }

    method ApplySetter(scene: Scene) returns (status: Status)
      requires scene.Valid() && edit.id in scene.entities
      requires !edit.Create? && !edit.Reparent? && !edit.Destroy?
      modifies this, scene`entities
      ensures scene.Valid()
      ensures Outcome(status, edit, scene.State()) == Commands.Apply(old(edit), old(scene.State()))
    {
      var current := scene.entities[edit.id];
      status := Ok;
      match edit
      case Rename(id, name, before) =>
        edit := edit.(oldName := Captured(before, current.name));
        scene.PutName(id, name);
      case SetLocalTransform(id, transform, before) =>
        edit := edit.(oldTransform := Captured(before, current.transform));
        scene.PutTransform(id, transform);
      case ReplaceSprite(id, sprite, before) =>
        edit := edit.(oldSprite := Captured(before, current.sprite));
        scene.PutSprite(id, Some(sprite));
      case RemoveSprite(id, before) =>
        if before.None? {
          // Refused rather than recorded: undoing it would have to invent a sprite.
          if current.sprite.None? { return Failed(NotFound); }
          edit := RemoveSprite(id, current.sprite);
        }
        scene.PutSprite(id, None);
      case ReplaceAnimator(id, animator, before) =>
        edit := edit.(oldAnimator := Captured(before, current.animator));
        scene.PutAnimator(id, Some(animator));
      case RemoveAnimator(id, before) =>
        if before.None? {
          if current.animator.None? { return Failed(NotFound); }
          edit := RemoveAnimator(id, current.animator);
        }
        scene.PutAnimator(id, None);
      case ReplaceCamera(id, camera, before) =>
        edit := edit.(oldCamera := Captured(before, current.camera));
        scene.PutCamera(id, Some(camera));
      case RemoveCamera(id, before) =>
        if before.None? {
          if current.camera.None? { return Failed(NotFound); }
          edit := RemoveCamera(id, current.camera);
        }
        scene.PutCamera(id, None);
    }

    method ApplyReparent(scene: Scene) returns (status: Status)
      requires scene.Valid() && edit.Reparent? && edit.id in scene.entities
      modifies this, scene
      ensures scene.Valid()
      ensures Outcome(status, edit, scene.State()) == Commands.Apply(old(edit), old(scene.State()))
    {
      var previous := scene.entities[edit.id].parent;
      status := scene.SetParent(edit.id, edit.newParent);
      if status.Ok? {
        edit := edit.(oldParent := Captured(edit.oldParent, previous));
      }
    }

    method ApplyCreate(scene: Scene) returns (status: Status)
      requires scene.Valid() && edit.Create?
      modifies this, scene
      ensures scene.Valid()
      ensures Outcome(status, edit, scene.State()) == E.ApplyCreate(old(edit), old(scene.State()))
    {
      if edit.parent != NO_ENTITY && edit.parent !in scene.entities {
        return Failed(NotFound);
      }
      if edit.id == NO_ENTITY {
        var id := scene.Create(edit.name);
        edit := Create(id, edit.name, edit.parent);
      } else {
        // A redo: the same identifier, so that whatever still holds it means this entity again.
        status := scene.CreateWithId(edit.id, edit.name);
        if !status.Ok? {
          return;
        }
      }
      status := Ok;
      if edit.parent != NO_ENTITY {
        status := scene.SetParent(edit.id, edit.parent);
      }
    }

    method ApplyDestroy(scene: Scene) returns (status: Status)
      requires scene.Valid() && edit.Destroy? && edit.id in scene.entities
      modifies this, scene
      ensures scene.Valid()
      ensures Outcome(status, edit, scene.State()) == Commands.Apply(old(edit), old(scene.State()))
    {
      if edit.subtree == [] {
        var subtree := CaptureSubtree(scene, edit.id);
        edit := Destroy(edit.id, subtree);
      }
      var found := scene.Destroy(edit.id);
      status := if found then Ok else Failed(NotFound);
    }

    /** Breadth-first over a worklist that grows as it is walked. */
    static method CaptureSubtree(scene: Scene, root: StableId) returns (records: seq<Record>)
      requires scene.Valid() && root in scene.entities
      ensures records == Capture(scene.entities, root)
    {
      var pending := [root];
      records := [];
      var index := 0;
      ghost var f := scene.entities;
      WorklistStart(f, root);
      hide Worklist, BreadthFirst, ListsChildren, WellFormedState;
      while index < |pending|
        invariant 0 <= index <= |pending| && Worklist(f, root, pending, index)
        invariant forall i :: 0 <= i < |pending| ==> pending[i] in f
        invariant BreadthFirst(f, root, pending, index) == SubtreeInOrder(f, root)
        invariant records == Records(f, pending[..index])
        decreases |f| - index
      {
        var id := pending[index];
        CaptureStep(f, root, pending, index);
        ChildrenUnique(f, id, scene.children[id]);
        records := records + [Record(id, scene.entities[id])];
        pending := pending + scene.children[id];
        index := index + 1;
      }
      assert pending[..index] == pending;
      CaptureDone(f, root, pending);
    }

    method Revert(scene: Scene) returns (status: Status)
      requires scene.Valid()
      modifies scene
      ensures scene.Valid()
      ensures Outcome(status, edit, scene.State()) == Commands.Revert(edit, old(scene.State()))
    {
      if edit.Destroy? {
        status := RestoreSubtree(scene);
        return;
      }
      var id := edit.id;
      if id !in scene.entities {
        return Failed(NotFound);
      }
      status := Ok;
      match edit
      case Rename(_, _, before) => scene.PutName(id, Or(before, ""));
      case SetLocalTransform(_, _, before) => scene.PutTransform(id, Or(before, IDENTITY));
      case ReplaceSprite(_, _, before) => scene.PutSprite(id, Or(before, None));
      case RemoveSprite(_, before) => scene.PutSprite(id, Some(Or(before, DEFAULT_SPRITE)));
      case ReplaceAnimator(_, _, before) => scene.PutAnimator(id, Or(before, None));
      case RemoveAnimator(_, before) => scene.PutAnimator(id, Some(Or(before, DEFAULT_ANIMATOR)));
      case ReplaceCamera(_, _, before) => scene.PutCamera(id, Or(before, None));
      case RemoveCamera(_, before) => scene.PutCamera(id, Some(Or(before, DEFAULT_CAMERA)));
      case Reparent(_, _, before) => status := scene.SetParent(id, Or(before, NO_ENTITY));
      case Create(_, _, _) => var _ := scene.Destroy(id);
    }

    /** Recreate the captured subtree in order, parents before children. */
    method RestoreSubtree(scene: Scene) returns (status: Status)
      requires scene.Valid() && edit.Destroy?
      modifies scene
      ensures scene.Valid()
      ensures Outcome(status, edit, scene.State()) == Restore(edit, edit.subtree, old(scene.State()))
    {
      status := Ok;
      var i := 0;
      while i < |edit.subtree|
        invariant 0 <= i <= |edit.subtree| && scene.Valid() && status.Ok?
        invariant Restore(edit, edit.subtree[i..], scene.State()) == Restore(edit, edit.subtree, old(scene.State()))
      {
        assert edit.subtree[i..][1..] == edit.subtree[i + 1..];
        status := RestoreRecord(scene, edit.subtree[i]);
        if !status.Ok? {
          return;
        }
        i := i + 1;
      }
    }

    method RestoreRecord(scene: Scene, record: Record) returns (status: Status)
      requires scene.Valid()
      modifies scene
      ensures scene.Valid()
      ensures Outcome(status, edit, scene.State()) == RestoreOne(edit, record, old(scene.State()))
    {
      var id, e := record.id, record.entity;
      var recreated := scene.CreateWithId(id, e.name);
      if !recreated.Ok? {
        return Failed(AlreadyExists);
      }
      FillRecord(scene, id, e);
      Overwritten(old(scene.entities), id, NewEntity(e.name), e.(parent := NO_ENTITY));
      assert scene.State() == SceneState(old(scene.entities)[id := e.(parent := NO_ENTITY)],
                                         Max(old(scene.nextId), id + 1));
      status := Attach(scene, id, e.parent);
    }

    static method Attach(scene: Scene, id: StableId, parent: StableId) returns (status: Status)
      requires scene.Valid() && id in scene.entities
      modifies scene`entities, scene`children
      ensures scene.Valid()
      ensures status == if parent == NO_ENTITY then Ok else SetParentStatus(old(scene.entities), id, parent)
      ensures scene.entities == if parent != NO_ENTITY && status.Ok?
        then WithParent(old(scene.entities), id, parent) else old(scene.entities)
    {
      status := Ok;
      if parent != NO_ENTITY {
        status := scene.SetParent(id, parent);
      }
    }

    static method FillRecord(scene: Scene, id: StableId, e: Entity)
      requires scene.Valid() && id in scene.entities && scene.entities[id] == NewEntity(e.name)
      modifies scene`entities
      ensures scene.Valid() && scene.entities == old(scene.entities)[id := e.(parent := NO_ENTITY)]
    {
      ghost var f, bare := scene.entities, NewEntity(e.name);
      scene.PutTransform(id, e.transform);
      FillSprite(scene, id, e.sprite);
      FillCamera(scene, id, e.camera);
      FillAnimator(scene, id, e.animator);
      Overwritten(f, id, bare.(transform := e.transform), bare.(transform := e.transform, sprite := e.sprite));
      Overwritten(f, id, bare.(transform := e.transform, sprite := e.sprite),
                  e.(parent := NO_ENTITY, animator := None));
      Overwritten(f, id, e.(parent := NO_ENTITY, animator := None), e.(parent := NO_ENTITY));
    }

    static method FillSprite(scene: Scene, id: StableId, sprite: Option<Sprite>)
      requires scene.Valid() && id in scene.entities && scene.entities[id].sprite.None?
      modifies scene`entities
      ensures scene.Valid() && scene.entities == old(scene.entities)[id := old(scene.entities)[id].(sprite := sprite)]
    {
      if sprite.Some? { scene.PutSprite(id, sprite); }
    }

    static method FillCamera(scene: Scene, id: StableId, camera: Option<Camera>)
      requires scene.Valid() && id in scene.entities && scene.entities[id].camera.None?
      modifies scene`entities
      ensures scene.Valid() && scene.entities == old(scene.entities)[id := old(scene.entities)[id].(camera := camera)]
    {
      if camera.Some? { scene.PutCamera(id, camera); }
    }

    static method FillAnimator(scene: Scene, id: StableId, animator: Option<Animator>)
      requires scene.Valid() && id in scene.entities && scene.entities[id].animator.None?
      modifies scene`entities
      ensures scene.Valid()
      ensures scene.entities == old(scene.entities)[id := old(scene.entities)[id].(animator := animator)]
    {
      if animator.Some? { scene.PutAnimator(id, animator); }
    }

    /** Absorb a later command: its after-image, this command's before-image. */
    method Merge(later: Command) returns (merged: bool)
      modifies this
      ensures merged == E.Merge(old(edit), old(later.edit)).Some?
      ensures edit == if merged then E.Merge(old(edit), old(later.edit)).value else old(edit)
    {
      var absorbed := E.Merge(edit, later.edit);
      merged := absorbed.Some?;
      if merged {
        edit := absorbed.value;
      }
    }
  }

  lemma Overwritten(f: Forest, id: StableId, a: Entity, b: Entity)
    ensures f[id := a][id := b] == f[id := b]
  {
  }

  lemma CaptureStep(f: Forest, root: StableId, pending: seq<StableId>, index: nat)
    requires Worklist(f, root, pending, index) && index < |pending|
    ensures var id, grown := pending[index], pending + Children(f, pending[index]);
      && Worklist(f, root, grown, index + 1) && index < |f|
      && (forall i :: 0 <= i < |grown| ==> grown[i] in f)
      && BreadthFirst(f, root, grown, index + 1) == BreadthFirst(f, root, pending, index)
      && Records(f, grown[..index + 1]) == Records(f, pending[..index]) + [Record(id, f[id])]
  {
    WorklistFits(f, root, pending, index);
    WorklistStep(f, root, pending, index);
    RecordsGrow(f, pending, index);
    assert (pending + Children(f, pending[index]))[..index + 1] == pending[..index + 1];
  }

  lemma ChildrenUnique(f: Forest, id: StableId, list: seq<StableId>)
    requires ListsChildren(f, id, list)
    ensures list == Children(f, id)
  {
    IncreasingUnique(list, Children(f, id));
  }

  lemma CaptureDone(f: Forest, root: StableId, all: seq<StableId>)
    requires Worklist(f, root, all, |all|)
    ensures BreadthFirst(f, root, all, |all|) == all
  {
  }

  lemma {:induction false} RecordsGrow(f: Forest, ids: seq<StableId>, index: nat)
    requires index < |ids| && forall i :: 0 <= i < |ids| ==> ids[i] in f
    ensures Records(f, ids[..index + 1]) == Records(f, ids[..index]) + [Record(ids[index], f[ids[index]])]
    decreases index
  {
    var longer := Records(f, ids[..index + 1]);
    var shorter := Records(f, ids[..index]);
    assert forall i :: 0 <= i < index ==> longer[i] == shorter[i];
  }
}
