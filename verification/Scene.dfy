/** The scene as the engine holds it: entities, each parent's list of children, and the next
    identifier, all updated in place. The lists are stored, so every method has to keep them in step
    with the parents; `Valid` says they are always exactly the children, ascending. */
module Scenes {
  import opened Forests

  /** What the scene's owner can observe of it; sibling lists are determined by the parents. */
  datatype SceneState = SceneState(entities: Forest, nextId: nat)

  ghost predicate WellFormedState(s: SceneState) {
    WellFormed(s.entities) && Bounded(s.entities, s.nextId) && s.nextId >= 1
  }

  // Setters do nothing for an entity that is not there.

  function SetName(f: Forest, id: StableId, name: string): Forest {
    if id in f then f[id := f[id].(name := name)] else f
  }

  function SetTransform(f: Forest, id: StableId, transform: LocalTransform): Forest {
    if id in f then f[id := f[id].(transform := transform)] else f
  }

  function SetSprite(f: Forest, id: StableId, sprite: Option<Sprite>): Forest {
    if id in f then f[id := f[id].(sprite := sprite)] else f
  }

  function SetCamera(f: Forest, id: StableId, camera: Option<Camera>): Forest {
    if id in f then f[id := f[id].(camera := camera)] else f
  }

  function SetAnimator(f: Forest, id: StableId, animator: Option<Animator>): Forest {
    if id in f then f[id := f[id].(animator := animator)] else f
  }

  function Max(a: nat, b: nat): nat { if a < b then b else a }

  function Erase(s: seq<StableId>, id: StableId): (r: seq<StableId>)
    ensures forall x :: x in r <==> x in s && x != id
    ensures Increasing(s) ==> Increasing(r)
  {
    if s == [] then [] else
      assert s == [s[0]] + s[1..];
      var rest := Erase(s[1..], id);
      assert forall i :: 0 <= i < |rest| ==> rest[i] in rest;
      if s[0] == id then rest else [s[0]] + rest
  }

  /** Every entity's stored list is exactly its children. */
  ghost predicate Listed(f: Forest, children: map<StableId, seq<StableId>>) {
    children.Keys == f.Keys && forall id :: id in f ==> ListsChildren(f, id, children[id])
  }

  lemma AttachListed(f: Forest, children: map<StableId, seq<StableId>>, child: StableId, parent: StableId)
    requires Listed(f, children) && child in f && parent in f && f[child].parent == NO_ENTITY
    requires NO_ENTITY !in f
    ensures child !in children[parent]
    ensures Listed(WithParent(f, child, parent), children[parent := InsertSorted(children[parent], child)])
  {
    assert ListsChildren(f, parent, children[parent]);
    var g := WithParent(f, child, parent);
    forall id | id in f && id != parent ensures ListsChildren(g, id, children[id]) {
      assert ListsChildren(f, id, children[id]);
    }
  }

  lemma Reattached(f: Forest, child: StableId, parent: StableId)
    requires child in f
    ensures WithParent(WithParent(f, child, NO_ENTITY), child, parent) == WithParent(f, child, parent)
  {
  }

  lemma DetachListed(f: Forest, children: map<StableId, seq<StableId>>, child: StableId)
    requires Listed(f, children) && child in f && f[child].parent in f && NO_ENTITY !in f
    ensures var parent := f[child].parent;
      Listed(WithParent(f, child, NO_ENTITY), children[parent := Erase(children[parent], child)])
  {
    var parent := f[child].parent;
    assert ListsChildren(f, parent, children[parent]);
    var g := WithParent(f, child, NO_ENTITY);
    forall id | id in f && id != parent ensures ListsChildren(g, id, children[id]) {
      assert ListsChildren(f, id, children[id]);
    }
  }

  lemma RemoveListed(f: Forest, children: map<StableId, seq<StableId>>, id: StableId)
    requires WellFormed(f) && Listed(f, children) && id in f && f[id].parent == NO_ENTITY
    requires forall x :: x in f ==> f[x].parent != id
    ensures Listed(f - {id}, children - {id}) && WellFormed(f - {id})
  {
    PartKeepsWellFormed(f - {id}, f);
    forall x | x in f && x != id ensures ListsChildren(f - {id}, x, children[x]) {
      assert ListsChildren(f, x, children[x]);
    }
  }

  class Scene {
    var entities: Forest
    var children: map<StableId, seq<StableId>>
    var nextId: nat

    ghost predicate Valid()
      reads this
    {
      WellFormedState(State()) && Listed(entities, children)
    }

    ghost function State(): SceneState
      reads this
    {
      SceneState(entities, nextId)
    }

    constructor ()
      ensures Valid() && State() == SceneState(map[], 1)
    {
      entities, children, nextId := map[], map[], 1;
      new;
      assert Ranked(entities, map[]);
    }

    // ---------------------------------------------------------------- identity

    method Create(name: string) returns (id: StableId)
      requires Valid()
      modifies this
      ensures Valid() && id == old(nextId) && id !in old(entities) && id != NO_ENTITY
      ensures State() == SceneState(old(entities)[id := NewEntity(name)], old(nextId) + 1)
    {
      id := nextId;
      nextId := nextId + 1;
      AddLeaf(id, name);
    }

    method CreateWithId(id: StableId, name: string) returns (status: Status)
      requires Valid()
      modifies this
      ensures Valid()
      ensures status == if id == NO_ENTITY then Failed(InvalidArgument)
                        else if id in old(entities) then Failed(AlreadyExists) else Ok
      ensures !status.Ok? ==> State() == old(State())
      ensures status.Ok? ==>
        State() == SceneState(old(entities)[id := NewEntity(name)], Max(old(nextId), id + 1))
    {
      if id == NO_ENTITY {
        return Failed(InvalidArgument);
      }
      if id in entities {
        return Failed(AlreadyExists);
      }
      nextId := Max(nextId, id + 1);
      AddLeaf(id, name);
      status := Ok;
    }

    method AddLeaf(id: StableId, name: string)
      requires Valid() && id !in entities && NO_ENTITY < id < nextId
      modifies this
      ensures Valid() && State() == SceneState(old(entities)[id := NewEntity(name)], old(nextId))
    {
      AddKeepsWellFormed(entities, id, NewEntity(name));
      entities := entities[id := NewEntity(name)];
      children := children[id := []];
    }

    // ---------------------------------------------------------------- components

    method Put(id: StableId, e: Entity)
      requires Valid() && id in entities && e.parent == entities[id].parent
      modifies this`entities
      ensures Valid() && entities == old(entities)[id := e]
    {
      EditKeepsWellFormed(entities, id, e);
      entities := entities[id := e];
    }

    method PutName(id: StableId, name: string)
      requires Valid()
      modifies this`entities
      ensures Valid() && entities == SetName(old(entities), id, name)
    {
      if id in entities { Put(id, entities[id].(name := name)); }
    }

    method PutTransform(id: StableId, transform: LocalTransform)
      requires Valid()
      modifies this`entities
      ensures Valid() && entities == SetTransform(old(entities), id, transform)
    {
      if id in entities { Put(id, entities[id].(transform := transform)); }
    }

    /** `set_sprite` with a sprite, `remove_sprite` with none. */
    method PutSprite(id: StableId, sprite: Option<Sprite>)
      requires Valid()
      modifies this`entities
      ensures Valid() && entities == SetSprite(old(entities), id, sprite)
    {
      if id in entities { Put(id, entities[id].(sprite := sprite)); }
    }

    method PutCamera(id: StableId, camera: Option<Camera>)
      requires Valid()
      modifies this`entities
      ensures Valid() && entities == SetCamera(old(entities), id, camera)
    {
      if id in entities { Put(id, entities[id].(camera := camera)); }
    }

    method PutAnimator(id: StableId, animator: Option<Animator>)
      requires Valid()
      modifies this`entities
      ensures Valid() && entities == SetAnimator(old(entities), id, animator)
    {
      if id in entities { Put(id, entities[id].(animator := animator)); }
    }

    // ---------------------------------------------------------------- hierarchy

    /** Walks down the stored child lists; answers the question `Beneath` asks by walking up. */
    method IsSelfOrDescendant(node: StableId, candidate: StableId) returns (found: bool)
      requires Valid()
      ensures found == Beneath(entities, node, candidate)
      decreases Subtree(entities, node)
    {
      if node == candidate {
        return true;
      }
      if node !in entities {
        return false;
      }
      var list := children[node];
      var i := 0;
      while i < |list|
        invariant 0 <= i <= |list|
        invariant forall j :: 0 <= j < i ==> !Beneath(entities, list[j], candidate)
      {
        assert list[i] in list;
        SubtreeShrinks(entities, list[i]);
        var below := IsSelfOrDescendant(list[i], candidate);
        if below {
          BeneathStep(entities, node, list[i]);
          BeneathTransitive(entities, node, list[i], candidate);
          return true;
        }
        i := i + 1;
      }
      assert forall child :: child in list ==> !Beneath(entities, child, candidate);
      assert ListsChildren(entities, node, list);
      if Beneath(entities, node, candidate) {
        var child := ChildTowards(entities, node, candidate);
        assert false;
      }
      found := false;
    }

    method Detach(child: StableId)
      requires Valid() && child in entities
      modifies this`entities, this`children
      ensures Valid() && entities == WithParent(old(entities), child, NO_ENTITY)
    {
      SetParentKeepsWellFormed(entities, child, NO_ENTITY);
      var parent := entities[child].parent;
      if parent == NO_ENTITY {
        return;
      }
      DetachListed(entities, children, child);
      children := children[parent := Erase(children[parent], child)];
      entities := WithParent(entities, child, NO_ENTITY);
    }

    method SetParent(child: StableId, parent: StableId) returns (status: Status)
      requires Valid()
      modifies this`entities, this`children
      ensures Valid() && status == SetParentStatus(old(entities), child, parent)
      ensures entities == if status.Ok? then WithParent(old(entities), child, parent) else old(entities)
    {
      if child !in entities {
        return Failed(NotFound);
      }
      if parent != NO_ENTITY && parent !in entities {
        return Failed(NotFound);
      }
      if parent != NO_ENTITY {
        var cycle := IsSelfOrDescendant(child, parent);
        if cycle {
          return Failed(InvalidArgument);
        }
      }
      SetParentKeepsWellFormed(entities, child, parent);
      Detach(child);
      status := Ok;
      if parent == NO_ENTITY {
        return;
      }
      AttachListed(entities, children, child, parent);
      Reattached(old(entities), child, parent);
      entities := WithParent(entities, child, parent);
      // The list is kept sorted: push_back and sort leave what inserting in place leaves.
      children := children[parent := InsertSorted(children[parent], child)];
    }

    /** Destroy an entity and everything beneath it. */
    method Destroy(id: StableId) returns (found: bool)
      requires Valid()
      modifies this
      ensures Valid() && found == (id in old(entities)) && nextId == old(nextId)
      ensures entities == if found then WithoutSubtree(old(entities), id) else old(entities)
    {
      found := id in entities;
      if found {
        DestroyRecursive(id);
      }
    }

    method DestroyRecursive(id: StableId)
      requires Valid() && id in entities
      modifies this`entities, this`children
      ensures Valid() && entities == WithoutSubtree(old(entities), id)
      decreases Subtree(entities, id)
    {
      ghost var before := entities;
      var list := children[id];
      var i := 0;
      while i < |list|
        invariant 0 <= i <= |list|
        invariant Valid()
        invariant entities == Pruned(before, list[..i])
      {
        assert list[i] in list;
        PrunedStep(before, id, list, i);
        SubtreeShrinks(before, list[i]);
        SubtreeInPart(entities, before, list[i]);
        DestroyRecursive(list[i]);
        i := i + 1;
      }
      assert list[..|list|] == list;
      PrunedLast(before, id, list);
      HeadIsMember(children[id]);
      RemoveLeaf(id);
    }

    /** What is left of an entity once its children are gone: detach it and drop it. */
    method RemoveLeaf(id: StableId)
      requires Valid() && id in entities && children[id] == []
      modifies this`entities, this`children
      ensures Valid() && entities == old(entities) - {id}
    {
      hide Acyclic, ParentsPresent, Listed;
      LeafAlone(entities, children, id);
      Detach(id);
      assert WellFormed(entities) && Listed(entities, children);
      RemoveListed(entities, children, id);
      assert entities - {id} == old(entities) - {id};
      entities := entities - {id};
      children := children - {id};
    }
  }

  lemma LeafAlone(f: Forest, children: map<StableId, seq<StableId>>, id: StableId)
    requires Listed(f, children) && id in f && children[id] == [] && id != NO_ENTITY
    ensures forall x :: x in f ==> f[x].parent != id
    ensures forall x :: x in WithParent(f, id, NO_ENTITY) ==> WithParent(f, id, NO_ENTITY)[x].parent != id
  {
    assert ListsChildren(f, id, children[id]);
  }

  /** The child of `node` on the way down to something strictly beneath it. */
  lemma ChildTowards(f: Forest, node: StableId, id: StableId) returns (child: StableId)
    requires WellFormed(f) && node in f && Beneath(f, node, id) && id != node
    ensures child in f && f[child].parent == node && Beneath(f, child, id)
  {
    var steps: nat :| Climb(f, id, steps) == node;
    child := ChildTowardsBySteps(f, node, id, steps);
  }

  lemma {:induction false} ChildTowardsBySteps(f: Forest, node: StableId, id: StableId, steps: nat)
      returns (child: StableId)
    requires WellFormed(f) && node in f && id != node && Climb(f, id, steps) == node
    ensures child in f && f[child].parent == node && Beneath(f, child, id)
    decreases steps
  {
    if f[id].parent == node {
      child := id;
    } else {
      child := ChildTowardsBySteps(f, node, f[id].parent, steps - 1);
      BeneathStep(f, child, id);
    }
  }

  /** The forest once the subtrees of some of one entity's children have gone. */
  ghost function Pruned(f: Forest, gone: seq<StableId>): Forest {
    map id | id in f && (forall child :: child in gone ==> !Beneath(f, child, id)) :: f[id]
  }

  ghost predicate ChildrenOf(f: Forest, id: StableId, list: seq<StableId>) {
    ListsChildren(f, id, list) && id in f && WellFormed(f)
  }

  lemma PrunedIsPart(f: Forest, gone: seq<StableId>)
    requires WellFormed(f) && forall child :: child in gone ==> child in f
    ensures UpwardPart(Pruned(f, gone), f)
  {
    forall id, child | id in Pruned(f, gone) && child in gone && f[id].parent in f
      ensures !Beneath(f, child, f[id].parent)
    {
      BeneathStep(f, child, id);
    }
  }

  lemma SiblingsApart(f: Forest, a: StableId, b: StableId)
    requires WellFormed(f) && a in f && b in f && a != b && f[a].parent == f[b].parent
    ensures !Beneath(f, a, b)
  {
    BeneathStep(f, a, b);
    if f[a].parent == NO_ENTITY {
      assert forall steps: nat :: Climb(f, NO_ENTITY, steps) == NO_ENTITY;
    } else {
      SubtreeShrinks(f, a);
    }
  }

  lemma PrunedHasNext(f: Forest, id: StableId, list: seq<StableId>, i: nat)
    requires ChildrenOf(f, id, list) && i < |list|
    ensures var g := Pruned(f, list[..i]);
      UpwardPart(g, f) && WellFormed(g) && list[i] in g && f[list[i]].parent == id
  {
    assert forall j :: 0 <= j < |list| ==> list[j] in list;
    PrunedIsPart(f, list[..i]);
    PartKeepsWellFormed(Pruned(f, list[..i]), f);
    forall child | child in list[..i] ensures !Beneath(f, child, list[i]) {
      SiblingsApart(f, child, list[i]);
    }
  }

  lemma PrunedStep(f: Forest, id: StableId, list: seq<StableId>, i: nat)
    requires ChildrenOf(f, id, list) && i < |list|
    ensures var g := Pruned(f, list[..i]);
      UpwardPart(g, f) && WellFormed(g) && list[i] in g && f[list[i]].parent == id &&
      WithoutSubtree(g, list[i]) == Pruned(f, list[..i + 1])
  {
    PrunedHasNext(f, id, list, i);
    PrunedOneMore(f, list[..i], list[i]);
    assert list[..i + 1] == list[..i] + [list[i]];
  }

  lemma PrunedOneMore(f: Forest, gone: seq<StableId>, next: StableId)
    requires WellFormed(f) && UpwardPart(Pruned(f, gone), f) && next in Pruned(f, gone)
    ensures WithoutSubtree(Pruned(f, gone), next) == Pruned(f, gone + [next])
  {
    var g := Pruned(f, gone);
    forall x | x in g ensures Beneath(g, next, x) <==> Beneath(f, next, x) {
      BeneathInPart(g, f, next, x);
    }
    hide Beneath, WellFormed, UpwardPart;
  }

  lemma SubtreeInPart(g: Forest, f: Forest, root: StableId)
    requires WellFormed(f) && UpwardPart(g, f) && root in g
    ensures Subtree(g, root) <= Subtree(f, root)
  {
    forall x | x in g ensures Beneath(g, root, x) <==> Beneath(f, root, x) {
      BeneathInPart(g, f, root, x);
    }
  }

  lemma PrunedLast(f: Forest, id: StableId, list: seq<StableId>)
    requires ChildrenOf(f, id, list)
    ensures var g := Pruned(f, list);
      id in g && g - {id} == WithoutSubtree(f, id) && forall x :: x in g ==> g[x].parent != id
  {
    var g := Pruned(f, list);
    forall child | child in list ensures !Beneath(f, child, id) {
      SubtreeShrinks(f, child);
      assert id !in Subtree(f, child) by {
        if id in Subtree(f, child) {
          BeneathStep(f, id, child);
          BeneathAntisymmetric(f, child, id);
        }
      }
    }
    forall x | x in f && x != id
      ensures Beneath(f, id, x) <==> exists child :: child in list && Beneath(f, child, x)
    {
      if Beneath(f, id, x) {
        var child := ChildTowards(f, id, x);
        assert child in list;
      }
      if child :| child in list && Beneath(f, child, x) {
        BeneathStep(f, id, child);
        BeneathTransitive(f, id, child, x);
      }
    }
  }
}
