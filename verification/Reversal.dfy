/** Every command is exactly reversible in the scene it was first applied to. */
module Reversal {
  import opened Forests
  import opened Scenes
  import opened Commands

  /** `e` carries `before` to `after` and back, whatever identifiers have been handed out since. */
  ghost predicate Links(e: Edit, before: Forest, after: Forest) {
    WellFormed(before) && WellFormed(after) &&
    forall n: nat :: n >= 1 && Bounded(before, n) && Bounded(after, n) ==> LinksAt(e, before, after, n)
  }

  ghost predicate LinksAt(e: Edit, before: Forest, after: Forest, n: nat)
    requires WellFormedState(SceneState(before, n)) && WellFormedState(SceneState(after, n))
  {
    && Apply(e, SceneState(before, n)) == Outcome(Ok, e, SceneState(after, n))
    && Revert(e, SceneState(after, n)) == Outcome(Ok, e, SceneState(before, n))
  }

  // ---------------------------------------------------------------- what one application does

  /** Applying leaves a well-formed scene, refused or not, and a refusal changes nothing in it. */
  lemma NeverPartlyApplied(e: Edit, s: SceneState)
    requires WellFormedState(s)
    ensures var r := Apply(e, s);
      WellFormedState(r.scene) && r.scene.nextId >= s.nextId && (r.status.Ok? || r.scene == s)
  {
    var f := s.entities;
    if e.Create? {
      CreateIsWhole(e, s);
    } else if e.id in f {
      if e.Reparent? {
        SetParentKeepsWellFormed(f, e.id, e.newParent);
      } else if e.Destroy? {
        WithoutSubtreeIsPart(f, e.id);
        PartKeepsWellFormed(WithoutSubtree(f, e.id), f);
      } else {
        var g := Apply(e, s).scene.entities;
        assert g == f[e.id := g[e.id]];
        EditKeepsWellFormed(f, e.id, g[e.id]);
      }
    }
  }

  /** An entity with no children has nothing else beneath it. */
  lemma NothingBeneathLeaf(f: Forest, leaf: StableId, id: StableId)
    requires WellFormed(f) && leaf in f && (forall x :: x in f ==> f[x].parent != leaf) && id != leaf
    ensures !Beneath(f, leaf, id)
  {
    if Beneath(f, leaf, id) {
      var child := ChildTowards(f, leaf, id);
      assert false;
    }
  }

  lemma CreateIsWhole(e: Edit, s: SceneState)
    requires WellFormedState(s) && e.Create?
    ensures var r := Apply(e, s);
      WellFormedState(r.scene) && r.scene.nextId >= s.nextId && (r.status.Ok? || r.scene == s)
    ensures Apply(e, s).status.Ok? <==>
      (e.parent == NO_ENTITY || e.parent in s.entities) && (e.id == NO_ENTITY || e.id !in s.entities)
    ensures var r := Apply(e, s); r.status.Ok? ==>
      r.edit.Create? && r.edit.id !in s.entities && r.edit.id != NO_ENTITY &&
      r.edit == Create(r.edit.id, e.name, e.parent) && (e.id != NO_ENTITY ==> r.edit == e) &&
      (e.parent != NO_ENTITY ==> e.parent in s.entities) &&
      r.scene.entities == s.entities[r.edit.id := NewEntity(e.name).(parent := e.parent)]
  {
    var f := s.entities;
    if (e.parent == NO_ENTITY || e.parent in f) && (e.id == NO_ENTITY || e.id !in f) {
      var id := if e.id == NO_ENTITY then s.nextId else e.id;
      var g := f[id := NewEntity(e.name)];
      AddKeepsWellFormed(f, id, NewEntity(e.name));
      if e.parent != NO_ENTITY {
        NothingBeneathLeaf(g, id, e.parent);
        SetParentKeepsWellFormed(g, id, e.parent);
        assert WithParent(g, id, e.parent) == f[id := NewEntity(e.name).(parent := e.parent)];
      }
    }
  }

  // ---------------------------------------------------------------- destroy, restored

  /** The forest with the last records of a capture still missing. */
  ghost function Missing(f: Forest, ids: seq<StableId>): Forest {
    map id | id in f && id !in ids :: f[id]
  }

  /** A recorded entity's parent is back, or was never away, by the time it is restored. */
  lemma RestoreOneSucceeds(e: Edit, f: Forest, root: StableId, all: seq<StableId>, k: nat, n: nat)
    requires Worklist(f, root, all, |all|) && k < |all| && Bounded(f, n)
    ensures RestoreOne(e, Record(all[k], f[all[k]]), SceneState(Missing(f, all[k..]), n))
      == Outcome(Ok, e, SceneState(Missing(f, all[k + 1..]), n))
  {
    var id := all[k];
    var parent := f[id].parent;
    var made := Missing(f, all[k..])[id := f[id].(parent := NO_ENTITY)];
    MadeIsLeaf(f, root, all, k);
    assert all[k..] == [id] + all[k + 1..];
    assert id !in all[k + 1..];
    hide Worklist, WellFormed;
    if parent != NO_ENTITY {
      ParentIsBack(f, root, all, k);
      NothingBeneathLeaf(made, id, parent);
      assert WithParent(made, id, parent) == Missing(f, all[k + 1..]);
    } else {
      assert made == Missing(f, all[k + 1..]);
    }
  }

  lemma MadeIsLeaf(f: Forest, root: StableId, all: seq<StableId>, k: nat)
    requires Worklist(f, root, all, |all|) && k < |all|
    ensures var id := all[k];
      var made := Missing(f, all[k..])[id := f[id].(parent := NO_ENTITY)];
      && id !in Missing(f, all[k..]) && WellFormed(made) && forall x :: x in made ==> made[x].parent != id
  {
    var id := all[k];
    var g := Missing(f, all[k..]);
    assert all[k..][0] == id;
    MissingIsPart(f, root, all, k);
    PartKeepsWellFormed(g, f);
    AddKeepsWellFormed(g, id, f[id].(parent := NO_ENTITY));
    forall x | x in g ensures g[x].parent != id {
      if f[x].parent == id {
        ChildComesLater(f, root, all, k, x);
      }
    }
  }

  lemma ChildComesLater(f: Forest, root: StableId, all: seq<StableId>, k: nat, child: StableId)
    requires Worklist(f, root, all, |all|) && k < |all| && child in f && f[child].parent == all[k]
    ensures child in all[k..]
  {
    assert all[..|all|] == all;
    assert child in all;
    var i :| 0 <= i < |all| && all[i] == child;
    if i == 0 {
      SubtreeShrinks(f, root);
      assert false;
    }
    assert ParentEarlier(f, all, i, |all|);
    assert all[k..][i - k] == child;
  }

  lemma ParentIsBack(f: Forest, root: StableId, all: seq<StableId>, k: nat)
    requires Worklist(f, root, all, |all|) && k < |all| && f[all[k]].parent != NO_ENTITY
    ensures f[all[k]].parent in Missing(f, all[k..]) && f[all[k]].parent != all[k]
  {
    SubtreeShrinks(f, all[k]);
    if k == 0 {
      SubtreeShrinks(f, root);
      assert all[0..] == all;
      WorklistComplete(f, root, all, f[root].parent);
    } else {
      assert ParentEarlier(f, all, k, |all|);
    }
  }

  lemma MissingIsPart(f: Forest, root: StableId, all: seq<StableId>, k: nat)
    requires Worklist(f, root, all, |all|) && k <= |all|
    ensures UpwardPart(Missing(f, all[k..]), f)
  {
    forall id | id in f && f[id].parent in all[k..] ensures id in all[k..] {
      var i :| 0 <= i < |all[k..]| && all[k..][i] == f[id].parent;
      ChildComesLater(f, root, all, k + i, id);
      assert all[k + i..] == all[k..][i..];
    }
  }

  lemma {:induction false} RestoreSucceeds(e: Edit, f: Forest, root: StableId, all: seq<StableId>, k: nat, n: nat)
    requires Worklist(f, root, all, |all|) && k <= |all| && Bounded(f, n)
    ensures Restore(e, Records(f, all[k..]), SceneState(Missing(f, all[k..]), n))
      == Outcome(Ok, e, SceneState(f, n))
    decreases |all| - k
  {
    if k == |all| {
      assert Missing(f, all[k..]) == f;
    } else {
      RestoreOneSucceeds(e, f, root, all, k, n);
      RestoreSucceeds(e, f, root, all, k + 1, n);
      assert all[k..][1..] == all[k + 1..];
    }
  }

  /** Replaying the captured records after the cascading destroy gives back the identical forest. */
  lemma RestoreUndoesDestroy(f: Forest, root: StableId, n: nat)
    requires WellFormed(f) && root in f && Bounded(f, n)
    ensures var e := Destroy(root, Capture(f, root));
      Restore(e, e.subtree, SceneState(WithoutSubtree(f, root), n)) == Outcome(Ok, e, SceneState(f, n))
  {
    var all := SubtreeInOrder(f, root);
    forall id | id in f ensures id in all <==> Beneath(f, root, id) {
      WorklistComplete(f, root, all, id);
    }
    assert all[0..] == all;
    assert Missing(f, all) == WithoutSubtree(f, root);
    RestoreSucceeds(Destroy(root, Capture(f, root)), f, root, all, 0, n);
  }

  // ---------------------------------------------------------------- the two scenes of a command

  /** A command's first successful application captures what carries the scene both ways. */
  lemma FirstApplicationLinks(e: Edit, s: SceneState)
    requires WellFormedState(s) && Fresh(e) && Apply(e, s).status.Ok?
    ensures Links(Apply(e, s).edit, s.entities, Apply(e, s).scene.entities)
  {
    var r := Apply(e, s);
    var f, g := s.entities, r.scene.entities;
    NeverPartlyApplied(e, s);
    forall n: nat | n >= 1 && Bounded(f, n) && Bounded(g, n) ensures LinksAt(r.edit, f, g, n) {
      if e.Create? {
        CreateLinks(e, s, n);
      } else if e.Destroy? {
        DestroyLinks(f, e.id, n);
      } else if e.Reparent? {
        ReparentLinks(f, e.id, e.newParent, n);
      }
    }
  }

  lemma ReparentLinks(f: Forest, id: StableId, parent: StableId, n: nat)
    requires WellFormed(f) && Bounded(f, n) && n >= 1 && id in f && SetParentStatus(f, id, parent).Ok?
    ensures WellFormed(WithParent(f, id, parent))
    ensures LinksAt(Reparent(id, parent, Some(f[id].parent)), f, WithParent(f, id, parent), n)
  {
    var g := WithParent(f, id, parent);
    SetParentKeepsWellFormed(f, id, parent);
    assert WithParent(g, id, f[id].parent) == f;
    SetParentKeepsWellFormed(g, id, f[id].parent);
    hide SetParentStatus, WellFormed;
    var e := Reparent(id, parent, Some(f[id].parent));
    assert Apply(e, SceneState(f, n)) == Outcome(Ok, e, SceneState(g, n));
    assert Revert(e, SceneState(g, n)) == Outcome(Ok, e, SceneState(f, n));
  }

  lemma CreateLinks(e: Edit, s: SceneState, n: nat)
    requires WellFormedState(s) && e.Create? && e.id == NO_ENTITY && Apply(e, s).status.Ok?
    requires var g := Apply(e, s).scene.entities;
      WellFormed(g) && n >= 1 && Bounded(s.entities, n) && Bounded(g, n)
    ensures LinksAt(Apply(e, s).edit, s.entities, Apply(e, s).scene.entities, n)
  {
    var r := Apply(e, s);
    var f, g, id := s.entities, r.scene.entities, r.edit.id;
    CreateIsWhole(e, s);
    CreateIsWhole(r.edit, SceneState(f, n));
    hide Apply;
    CreatedLeaf(f, g, id);
    assert Max(n, id + 1) == n;
  }

  /** Removing a new entity that nothing hangs from gives back the forest it was added to. */
  lemma CreatedLeaf(f: Forest, g: Forest, id: StableId)
    requires WellFormed(f) && WellFormed(g) && id !in f && id != NO_ENTITY && id in g
    requires g[id].parent != id && g == f[id := g[id]]
    ensures WithoutSubtree(g, id) == f
  {
    forall x | x in f ensures !Beneath(g, id, x) {
      NothingBeneathLeaf(g, id, x);
    }
  }

  lemma DestroyLinks(f: Forest, id: StableId, n: nat)
    requires WellFormed(f) && Bounded(f, n) && n >= 1 && id in f
    ensures WellFormed(WithoutSubtree(f, id))
    ensures LinksAt(Destroy(id, Capture(f, id)), f, WithoutSubtree(f, id), n)
  {
    WithoutSubtreeIsPart(f, id);
    PartKeepsWellFormed(WithoutSubtree(f, id), f);
    RestoreUndoesDestroy(f, id, n);
    hide Capture, WithoutSubtree, Restore, Acyclic;
  }

  // ---------------------------------------------------------------- coalescing

  /** What a linked command that can absorb others says about its two scenes. */
  lemma LinkedSetter(e: Edit, f: Forest, g: Forest, n: nat)
    requires WellFormedState(SceneState(f, n)) && WellFormedState(SceneState(g, n)) && LinksAt(e, f, g, n)
    ensures !e.Create? && !e.Destroy? ==> e.id in f
    ensures e.Rename? ==> g == SetName(f, e.id, e.newName) && e.oldName == Some(f[e.id].name)
    ensures e.SetLocalTransform? ==>
      g == SetTransform(f, e.id, e.newTransform) && e.oldTransform == Some(f[e.id].transform)
    ensures e.ReplaceAnimator? ==>
      g == SetAnimator(f, e.id, Some(e.newAnimator)) && e.oldAnimator == Some(f[e.id].animator)
  {
  }

  lemma SetterLinks(e: Edit, f: Forest)
    requires WellFormed(f) && e.id in f
    requires || (e.Rename? && e.oldName == Some(f[e.id].name))
             || (e.SetLocalTransform? && e.oldTransform == Some(f[e.id].transform))
             || (e.ReplaceAnimator? && e.oldAnimator == Some(f[e.id].animator))
    ensures Links(e, f, SetterResult(e, f))
  {
    var g := SetterResult(e, f);
    EditKeepsWellFormed(f, e.id, g[e.id]);
    assert g == f[e.id := g[e.id]];
    forall n: nat | n >= 1 && Bounded(f, n) && Bounded(g, n) ensures LinksAt(e, f, g, n) {
      assert Revert(e, SceneState(g, n)).scene.entities == f;
    }
  }

  ghost function SetterResult(e: Edit, f: Forest): Forest
    requires e.Rename? || e.SetLocalTransform? || e.ReplaceAnimator?
  {
    if e.Rename? then SetName(f, e.id, e.newName)
    else if e.SetLocalTransform? then SetTransform(f, e.id, e.newTransform)
    else SetAnimator(f, e.id, Some(e.newAnimator))
  }

  /** The command left by a merge spans both: from before the earlier to after the later. */
  lemma MergeLinks(earlier: Edit, later: Edit, before: Forest, s: SceneState)
    requires WellFormedState(s) && Links(earlier, before, s.entities) && Bounded(before, s.nextId)
    requires Apply(later, s).status.Ok? && Merge(earlier, Apply(later, s).edit).Some?
    ensures Links(Merge(earlier, Apply(later, s).edit).value, before, Apply(later, s).scene.entities)
  {
    assert LinksAt(earlier, before, s.entities, s.nextId);
    LinkedSetter(earlier, before, s.entities, s.nextId);
    MergedResult(earlier, later, before, s);
    hide Apply, Revert, Merge;
    SetterLinks(Merge(earlier, Apply(later, s).edit).value, before);
  }

  /** The earlier before-image and the later after-image. */
  lemma MergedResult(earlier: Edit, later: Edit, before: Forest, s: SceneState)
    requires WellFormedState(s) && earlier.id in before
    requires earlier.Rename? || earlier.SetLocalTransform? || earlier.ReplaceAnimator?
    requires s.entities == SetterResult(earlier, before)
    requires Apply(later, s).status.Ok? && Merge(earlier, Apply(later, s).edit).Some?
    ensures var merged := Merge(earlier, Apply(later, s).edit).value;
      && merged.id == earlier.id
      && (earlier.Rename? ==> merged.Rename? && merged.oldName == earlier.oldName)
      && (earlier.SetLocalTransform? ==> merged.SetLocalTransform? && merged.oldTransform == earlier.oldTransform)
      && (earlier.ReplaceAnimator? ==> merged.ReplaceAnimator? && merged.oldAnimator == earlier.oldAnimator)
      && SetterResult(merged, before) == Apply(later, s).scene.entities
  {
    hide WellFormed, Capture, SetParentStatus, WithoutSubtree;
  }
}
