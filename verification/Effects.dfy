/** What each command does to the scene, read off the scenes before and after: one component of one entity,
    one parent, one entity more or one subtree fewer, and nothing else anywhere. */
module Effects {
  import opened Forests
  import opened Scenes
  import opened Commands
  import opened Reversal

  datatype Aspect = ItsName | ItsTransform | ItsSprite | ItsCamera | ItsAnimator | ItsParent

  /** The two entities agree in everything but, perhaps, one aspect. */
  predicate SameBut(a: Entity, b: Entity, but: Aspect) {
    && (but.ItsName? || b.name == a.name) && (but.ItsTransform? || b.transform == a.transform)
    && (but.ItsSprite? || b.sprite == a.sprite) && (but.ItsCamera? || b.camera == a.camera)
    && (but.ItsAnimator? || b.animator == a.animator) && (but.ItsParent? || b.parent == a.parent)
  }

  predicate OnlyChanged(s: SceneState, t: SceneState, id: StableId, but: Aspect) {
    && t.nextId == s.nextId && t.entities.Keys == s.entities.Keys && id in s.entities
    && (forall x :: x in s.entities && x != id ==> t.entities[x] == s.entities[x])
    && SameBut(s.entities[id], t.entities[id], but)
  }

  predicate IsSetter(e: Edit) { !e.Create? && !e.Reparent? && !e.Destroy? }

  /** Which aspect an edit of a component is of. */
  function AspectOf(e: Edit): Aspect {
    match e
    case Rename(_, _, _) => ItsName
    case SetLocalTransform(_, _, _) => ItsTransform
    case ReplaceSprite(_, _, _) => ItsSprite
    case RemoveSprite(_, _) => ItsSprite
    case ReplaceAnimator(_, _, _) => ItsAnimator
    case RemoveAnimator(_, _) => ItsAnimator
    case ReplaceCamera(_, _, _) => ItsCamera
    case RemoveCamera(_, _) => ItsCamera
    case Reparent(_, _, _) => ItsParent
    case Create(_, _, _) => ItsName
    case Destroy(_, _) => ItsName
  }

  /** The entity has, after the edit, just what the edit is to give it. */
  predicate Given(e: Edit, b: Entity) {
    match e
    case Rename(_, name, _) => b.name == name
    case SetLocalTransform(_, transform, _) => b.transform == transform
    case ReplaceSprite(_, sprite, _) => b.sprite == Some(sprite)
    case RemoveSprite(_, _) => b.sprite == None
    case ReplaceAnimator(_, animator, _) => b.animator == Some(animator)
    case RemoveAnimator(_, _) => b.animator == None
    case ReplaceCamera(_, camera, _) => b.camera == Some(camera)
    case RemoveCamera(_, _) => b.camera == None
    case Reparent(_, parent, _) => b.parent == parent
    case Create(_, name, _) => b.name == name
    case Destroy(_, _) => true
  }

  /** A removal with nothing to remove. */
  predicate NothingThere(e: Edit, a: Entity) {
    || (e == RemoveSprite(e.id, None) && a.sprite.None?)
    || (e == RemoveAnimator(e.id, None) && a.animator.None?)
    || (e == RemoveCamera(e.id, None) && a.camera.None?)
  }

  /** An edit of a component is accepted exactly when its entity is there and, if it is a first removal, has
      the component. Then that component is what the edit says, and nothing else in the scene is different. */
  lemma SetterDoes(e: Edit, s: SceneState)
    requires WellFormedState(s) && IsSetter(e)
    ensures var r := Apply(e, s);
      && (r.status == Ok <==> e.id in s.entities && !NothingThere(e, s.entities[e.id]))
      && (r.status != Ok ==> r == Outcome(Failed(NotFound), e, s))
      && (r.status == Ok ==> OnlyChanged(s, r.scene, e.id, AspectOf(e)) && Given(e, r.scene.entities[e.id]))
  {
  }

  /** The component as it was, when the edit has captured one. */
  predicate Kept(e: Edit, a: Entity) {
    match e
    case Rename(_, _, before) => before == Some(a.name)
    case SetLocalTransform(_, _, before) => before == Some(a.transform)
    case ReplaceSprite(_, _, before) => before == Some(a.sprite)
    case RemoveSprite(_, before) => before == a.sprite && before.Some?
    case ReplaceAnimator(_, _, before) => before == Some(a.animator)
    case RemoveAnimator(_, before) => before == a.animator && before.Some?
    case ReplaceCamera(_, _, before) => before == Some(a.camera)
    case RemoveCamera(_, before) => before == a.camera && before.Some?
    case Reparent(_, _, before) => before == Some(a.parent)
    case Create(_, _, _) => true
    case Destroy(_, _) => true
  }

  /** The same request, whatever has been captured with it. */
  predicate SameRequest(a: Edit, b: Edit) {
    && a.id == b.id
    && match a
       case Rename(_, name, _) => b.Rename? && b.newName == name
       case SetLocalTransform(_, transform, _) => b.SetLocalTransform? && b.newTransform == transform
       case ReplaceSprite(_, sprite, _) => b.ReplaceSprite? && b.newSprite == sprite
       case RemoveSprite(_, _) => b.RemoveSprite?
       case ReplaceAnimator(_, animator, _) => b.ReplaceAnimator? && b.newAnimator == animator
       case RemoveAnimator(_, _) => b.RemoveAnimator?
       case ReplaceCamera(_, camera, _) => b.ReplaceCamera? && b.newCamera == camera
       case RemoveCamera(_, _) => b.RemoveCamera?
       case Reparent(_, parent, _) => b.Reparent? && b.newParent == parent
       case Create(_, name, parent) => b.Create? && b.name == name && b.parent == parent
       case Destroy(_, _) => b.Destroy?
  }

  /** The first application captures the component as it was; a later one keeps what the first captured. */
  lemma SetterCaptures(e: Edit, s: SceneState)
    requires WellFormedState(s) && IsSetter(e) && Apply(e, s).status == Ok
    ensures var after := Apply(e, s).edit;
      && SameRequest(e, after) && (Fresh(e) ==> Kept(after, s.entities[e.id])) && (!Fresh(e) ==> after == e)
  {
  }

  /** Reverting puts back what was captured. */
  predicate GivenBack(e: Edit, b: Entity) {
    match e
    case Rename(_, _, before) => b.name == if before.Some? then before.value else ""
    case SetLocalTransform(_, _, before) => b.transform == if before.Some? then before.value else IDENTITY
    case ReplaceSprite(_, _, before) => b.sprite == if before.Some? then before.value else None
    case RemoveSprite(_, before) => b.sprite == if before.Some? then before else Some(DEFAULT_SPRITE)
    case ReplaceAnimator(_, _, before) => b.animator == if before.Some? then before.value else None
    case RemoveAnimator(_, before) => b.animator == if before.Some? then before else Some(DEFAULT_ANIMATOR)
    case ReplaceCamera(_, _, before) => b.camera == if before.Some? then before.value else None
    case RemoveCamera(_, before) => b.camera == if before.Some? then before else Some(DEFAULT_CAMERA)
    case Reparent(_, _, before) => b.parent == if before.Some? then before.value else NO_ENTITY
    case Create(_, _, _) => true
    case Destroy(_, _) => true
  }

  lemma SetterReverts(e: Edit, s: SceneState)
    requires WellFormedState(s) && IsSetter(e)
    ensures var r := Revert(e, s);
      && (r.status == Ok <==> e.id in s.entities) && (r.status != Ok ==> r == Outcome(Failed(NotFound), e, s))
      && (r.status == Ok ==> r.edit == e && OnlyChanged(s, r.scene, e.id, AspectOf(e)))
      && (r.status == Ok ==> GivenBack(e, r.scene.entities[e.id]))
  {
  }

  /** A parent is refused for exactly two reasons: one of the two is not there, or the parent is beneath the
      child or is the child itself. */
  lemma ParentRefused(f: Forest, child: StableId, parent: StableId)
    requires WellFormed(f)
    ensures var status := SetParentStatus(f, child, parent);
      && (status == Failed(NotFound) <==> child !in f || (parent != 0 && parent !in f))
      && (status == Failed(InvalidArgument) <==> child in f && parent in Subtree(f, child))
      && (status == Ok <==> child in f && (parent == 0 || parent in f) && parent !in Subtree(f, child))
  {
  }

  /** A reparent is accepted exactly when both ends are there and the new parent is not the entity nor beneath
      it; then that one parent is different. A refusal says which it was. */
  lemma ReparentDoes(e: Edit, s: SceneState)
    requires WellFormedState(s) && e.Reparent?
    ensures var r, f := Apply(e, s), s.entities;
      && (r.status == Failed(NotFound) <==> e.id !in f || (e.newParent != NO_ENTITY && e.newParent !in f))
      && (r.status == Failed(InvalidArgument) <==>
          e.id in f && e.newParent != NO_ENTITY && e.newParent in f && Beneath(f, e.id, e.newParent))
      && (r.status != Ok ==> r == Outcome(r.status, e, s) && r.status != Failed(AlreadyExists))
      && (r.status == Ok ==> OnlyChanged(s, r.scene, e.id, ItsParent) && r.scene.entities[e.id].parent == e.newParent)
      && (r.status == Ok ==> SameRequest(e, r.edit) && (Fresh(e) ==> Kept(r.edit, f[e.id])))
  {
  }

  /** A creation adds one bare entity of that name under that parent, the next identifier the first time and
      the same one on redo, and every identifier handed out later is above it. */
  lemma CreateDoes(e: Edit, s: SceneState)
    requires WellFormedState(s) && e.Create?
    ensures var r, f := Apply(e, s), s.entities;
      && (r.status == Failed(NotFound) <==> e.parent != NO_ENTITY && e.parent !in f)
      && (r.status == Failed(AlreadyExists) <==> (e.parent == NO_ENTITY || e.parent in f) && e.id in f)
      && (r.status != Ok ==> r == Outcome(r.status, e, s) && r.status != Failed(InvalidArgument))
      && (r.status == Ok ==> SameMade(e, r.edit) && r.edit.id == if e.id == NO_ENTITY then s.nextId else e.id)
      && (r.status == Ok ==> CreatedOne(s, r.scene, r.edit))
  {
    CreateIsWhole(e, s);
  }

  predicate SameMade(a: Edit, b: Edit) { a.Create? && b.Create? && b.name == a.name && b.parent == a.parent }

  predicate CreatedOne(s: SceneState, t: SceneState, made: Edit)
    requires made.Create?
  {
    && made.id !in s.entities && t.entities.Keys == s.entities.Keys + {made.id}
    && (forall x :: x in s.entities ==> t.entities[x] == s.entities[x])
    && t.entities[made.id] == Entity(made.name, LocalTransform(0.0, 0.0, 0.0, 1.0, 1.0), None, None, None, made.parent)
    && t.nextId >= s.nextId && t.nextId > made.id && (t.nextId == s.nextId || t.nextId == made.id + 1)
  }

  /** A destruction removes the entity and all that lies beneath it, and nothing else is different. */
  lemma DestroyDoes(e: Edit, s: SceneState)
    requires WellFormedState(s) && e.Destroy?
    ensures var r, f := Apply(e, s), s.entities;
      && (r.status == Ok <==> e.id in f) && (r.status != Ok ==> r == Outcome(Failed(NotFound), e, s))
      && (r.status == Ok ==> r.scene.nextId == s.nextId)
      && (r.status == Ok ==> forall x :: x in r.scene.entities <==> x in f && !Beneath(f, e.id, x))
      && (r.status == Ok ==> forall x :: x in r.scene.entities ==> r.scene.entities[x] == f[x])
  {
  }

  /** Taking back a creation removes what it made and what has since been put beneath it. */
  lemma CreateReverts(e: Edit, s: SceneState)
    requires WellFormedState(s) && e.Create?
    ensures var r, f := Revert(e, s), s.entities;
      && (r.status == Ok <==> e.id in f) && (r.status != Ok ==> r == Outcome(Failed(NotFound), e, s))
      && (r.status == Ok ==> r.scene.nextId == s.nextId && r.edit == e)
      && (r.status == Ok ==> forall x :: x in r.scene.entities <==> x in f && !Beneath(f, e.id, x))
      && (r.status == Ok ==> forall x :: x in r.scene.entities ==> r.scene.entities[x] == f[x])
  {
  }

  /** Only a rename, a move or an animator edit absorbs a later one, of the same kind and entity; the result
      asks what the later one asks and keeps what the earlier one captured. */
  lemma MergeDoes(a: Edit, b: Edit)
    ensures Merge(a, b).Some? <==>
      a.id == b.id && ((a.Rename? && b.Rename?) || (a.SetLocalTransform? && b.SetLocalTransform?)
                       || (a.ReplaceAnimator? && b.ReplaceAnimator?))
    ensures Merge(a, b).Some? ==> SameRequest(b, Merge(a, b).value) && SameCaptured(a, Merge(a, b).value)
  {
  }

  predicate SameCaptured(a: Edit, b: Edit) {
    || (a.Rename? && b.Rename? && b.oldName == a.oldName)
    || (a.SetLocalTransform? && b.SetLocalTransform? && b.oldTransform == a.oldTransform)
    || (a.ReplaceAnimator? && b.ReplaceAnimator? && b.oldAnimator == a.oldAnimator)
  }
}
