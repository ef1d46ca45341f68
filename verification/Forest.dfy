/** The authored state of a scene: entities by stable identifier, and the forest their parents form.
    Everything here is a value; the class that updates one in place is in Scene.dfy. */
module Forests {

  datatype Option<+T> = None | Some(value: T)

  /** An entity's durable identity. Zero means "no entity". */
  type StableId = nat
  const NO_ENTITY: StableId := 0

  datatype LocalTransform = LocalTransform(x: real, y: real, rotation: real, scaleX: real, scaleY: real)
  const IDENTITY := LocalTransform(0.0, 0.0, 0.0, 1.0, 1.0)

  datatype Sprite = Sprite(texture: nat, width: real, height: real, layer: int, visible: bool)
  datatype Camera = Camera(height: real, active: bool)
  datatype Animator = Animator(clip: nat, startMs: nat, speed: real, playing: bool)

  datatype Entity = Entity(
    name: string, transform: LocalTransform,
    sprite: Option<Sprite>, camera: Option<Camera>, animator: Option<Animator>,
    parent: StableId)

  type Forest = map<StableId, Entity>

  function NewEntity(name: string): Entity {
    Entity(name, IDENTITY, None, None, None, NO_ENTITY)
  }

  // ---------------------------------------------------------------- well-formedness

  /** Every parent is ranked below its children: a witness that no path upwards returns. */
  ghost predicate Ranked(f: Forest, rank: map<StableId, nat>) {
    forall id :: id in f ==>
      id in rank && (f[id].parent != NO_ENTITY ==> f[id].parent in rank && rank[f[id].parent] < rank[id])
  }

  ghost predicate Acyclic(f: Forest) {
    exists rank :: Ranked(f, rank)
  }

  predicate ParentsPresent(f: Forest) {
    forall id :: id in f ==> f[id].parent == NO_ENTITY || f[id].parent in f
  }

  /** A scene no cycle and no dangling parent can be observed in. */
  ghost predicate WellFormed(f: Forest) {
    NO_ENTITY !in f && ParentsPresent(f) && Acyclic(f)
  }

  predicate Bounded(f: Forest, nextId: nat) {
    forall id :: id in f ==> id < nextId
  }

  // ---------------------------------------------------------------- going up

  /** The entity `steps` links above `id`, or the first identifier on the way that is absent. */
  function Climb(f: Forest, id: StableId, steps: nat): StableId
    decreases steps
  {
    if steps == 0 || id !in f then id else Climb(f, f[id].parent, steps - 1)
  }

  /** `id` is `root` or lies beneath it. */
  ghost predicate Beneath(f: Forest, root: StableId, id: StableId) {
    id == root || (root in f && exists steps: nat :: Climb(f, id, steps) == root)
  }

  ghost function Subtree(f: Forest, root: StableId): (s: set<StableId>) {
    set id | id in f && Beneath(f, root, id)
  }

  lemma BeneathStep(f: Forest, root: StableId, id: StableId)
    requires WellFormed(f) && root in f && id in f
    ensures Beneath(f, root, id) <==> id == root || Beneath(f, root, f[id].parent)
  {
    if Beneath(f, root, id) && id != root {
      var steps: nat :| Climb(f, id, steps) == root;
      assert Climb(f, f[id].parent, steps - 1) == root;
    }
    if Beneath(f, root, f[id].parent) && id != root {
      if f[id].parent == root {
        assert Climb(f, id, 1) == Climb(f, f[id].parent, 0);
      } else {
        var steps: nat :| Climb(f, f[id].parent, steps) == root;
        assert Climb(f, id, steps + 1) == root;
      }
    }
  }

  lemma {:induction false} ClimbLowersRank(f: Forest, rank: map<StableId, nat>, id: StableId, steps: nat)
    requires WellFormed(f) && Ranked(f, rank) && id in f
    requires Climb(f, id, steps) in f
    ensures rank[Climb(f, id, steps)] <= rank[id]
    ensures Climb(f, id, steps) != id ==> rank[Climb(f, id, steps)] < rank[id]
    decreases steps
  {
    if steps > 0 && f[id].parent in f {
      ClimbLowersRank(f, rank, f[id].parent, steps - 1);
    }
  }

  /** Nothing lies beneath one of its own proper descendants. */
  lemma BeneathAntisymmetric(f: Forest, a: StableId, b: StableId)
    requires WellFormed(f) && a in f && b in f
    requires Beneath(f, a, b) && Beneath(f, b, a)
    ensures a == b
  {
    if a != b {
      var rank :| Ranked(f, rank);
      var up: nat :| Climb(f, b, up) == a;
      ClimbLowersRank(f, rank, b, up);
      var down: nat :| Climb(f, a, down) == b;
      ClimbLowersRank(f, rank, a, down);
    }
  }

  lemma {:induction false} ClimbPresent(f: Forest, id: StableId, steps: nat)
    requires ParentsPresent(f) && NO_ENTITY !in f
    requires id in f || id == NO_ENTITY
    ensures Climb(f, id, steps) in f || Climb(f, id, steps) == NO_ENTITY
    decreases steps
  {
    if steps > 0 && id in f {
      ClimbPresent(f, f[id].parent, steps - 1);
    }
  }

  lemma {:induction false} ClimbAdds(f: Forest, id: StableId, a: nat, b: nat)
    ensures Climb(f, Climb(f, id, a), b) == Climb(f, id, a + b)
    decreases a
  {
    if a > 0 && id in f {
      ClimbAdds(f, f[id].parent, a - 1, b);
    } else if id !in f {
      assert Climb(f, id, a) == id && Climb(f, id, b) == id && Climb(f, id, a + b) == id;
    }
  }

  lemma BeneathTransitive(f: Forest, a: StableId, b: StableId, c: StableId)
    requires Beneath(f, a, b) && Beneath(f, b, c)
    ensures Beneath(f, a, c)
  {
    if a != b && b != c {
      var lower: nat :| Climb(f, c, lower) == b;
      var upper: nat :| Climb(f, b, upper) == a;
      ClimbAdds(f, c, lower, upper);
    }
  }

  /** A child's subtree is a proper part of its parent's. */
  lemma SubtreeShrinks(f: Forest, child: StableId)
    requires WellFormed(f) && child in f && f[child].parent in f
    ensures Subtree(f, child) < Subtree(f, f[child].parent)
    ensures !Beneath(f, child, f[child].parent)
  {
    var parent := f[child].parent;
    BeneathStep(f, parent, child);
    forall id | id in Subtree(f, child) ensures id in Subtree(f, parent) {
      BeneathTransitive(f, parent, child, id);
    }
    if Beneath(f, child, parent) {
      var rank :| Ranked(f, rank);
      BeneathAntisymmetric(f, child, parent);
      assert false;
    }
    assert parent in Subtree(f, parent) && parent !in Subtree(f, child);
  }

  // ---------------------------------------------------------------- the scene's operations

  datatype Error = NotFound | AlreadyExists | InvalidArgument
  datatype Status = Ok | Failed(error: Error)

  /** Where a well-formed scene may attach `child`: existing ends, and no cycle. */
  ghost function SetParentStatus(f: Forest, child: StableId, parent: StableId): Status {
    if child !in f then Failed(NotFound)
    else if parent != NO_ENTITY && parent !in f then Failed(NotFound)
    else if parent != NO_ENTITY && Beneath(f, child, parent) then Failed(InvalidArgument)
    else Ok
  }

  function WithParent(f: Forest, child: StableId, parent: StableId): Forest
    requires child in f
  {
    f[child := f[child].(parent := parent)]
  }

  ghost function WithoutSubtree(f: Forest, root: StableId): Forest {
    map id | id in f && !Beneath(f, root, id) :: f[id]
  }

  /** Reparenting keeps the forest well-formed exactly when it is not refused. */
  lemma SetParentKeepsWellFormed(f: Forest, child: StableId, parent: StableId)
    requires WellFormed(f) && child in f
    ensures WellFormed(WithParent(f, child, parent)) <==> SetParentStatus(f, child, parent).Ok?
  {
    var g := WithParent(f, child, parent);
    if SetParentStatus(f, child, parent).Ok? {
      var rank :| Ranked(f, rank);
      var lift := if parent == NO_ENTITY then 0 else rank[parent] + 1;
      var lifted := map id | id in f :: if Beneath(f, child, id) then rank[id] + lift else rank[id];
      forall id | id in g && g[id].parent != NO_ENTITY
        ensures lifted[g[id].parent] < lifted[id]
      {
        BeneathStep(f, child, id);
      }
      assert Ranked(g, lifted);
    } else if WellFormed(g) {
      var rank :| Ranked(g, rank);
      assert g[child].parent == parent && rank[parent] < rank[child];
      if parent != child {
        var steps: nat :| Climb(f, parent, steps) == child;
        var up := ShortClimb(f, g, child, parent, steps);
        ClimbLowersRank(g, rank, parent, up);
      }
      assert false;
    }
  }

  /** A path up to `child` does not use the link `child` itself has. */
  lemma {:induction false} ShortClimb(f: Forest, g: Forest, child: StableId, id: StableId, steps: nat)
      returns (up: nat)
    requires child in f && g.Keys == f.Keys
    requires forall x :: x in f && x != child ==> g[x].parent == f[x].parent
    requires Climb(f, id, steps) == child
    ensures Climb(g, id, up) == child
    decreases steps
  {
    if id == child {
      up := 0;
    } else {
      up := ShortClimb(f, g, child, f[id].parent, steps - 1);
      up := up + 1;
    }
  }

  lemma AddKeepsWellFormed(f: Forest, id: StableId, e: Entity)
    requires WellFormed(f) && id !in f && id != NO_ENTITY
    requires e.parent == NO_ENTITY || e.parent in f
    ensures WellFormed(f[id := e])
  {
    var rank :| Ranked(f, rank);
    var above := if e.parent == NO_ENTITY then 0 else rank[e.parent] + 1;
    assert Ranked(f[id := e], rank[id := above]);
  }

  lemma EditKeepsWellFormed(f: Forest, id: StableId, e: Entity)
    requires WellFormed(f) && id in f && e.parent == f[id].parent
    ensures WellFormed(f[id := e])
  {
    var rank :| Ranked(f, rank);
    assert Ranked(f[id := e], rank);
  }

  /** A part of a forest that keeps every kept entity's parent. */
  ghost predicate UpwardPart(g: Forest, f: Forest) {
    forall id :: id in g ==> id in f && g[id] == f[id] && (f[id].parent in f ==> f[id].parent in g)
  }

  lemma PartKeepsWellFormed(g: Forest, f: Forest)
    requires WellFormed(f) && UpwardPart(g, f)
    ensures WellFormed(g)
  {
    var rank :| Ranked(f, rank);
    assert Ranked(g, rank);
  }

  lemma {:induction false} ClimbInPart(g: Forest, f: Forest, id: StableId, steps: nat)
    requires WellFormed(f) && UpwardPart(g, f) && (id in g || id == NO_ENTITY)
    ensures Climb(g, id, steps) == Climb(f, id, steps)
    decreases steps
  {
    if steps > 0 && id in g {
      ClimbInPart(g, f, f[id].parent, steps - 1);
    }
  }

  lemma BeneathInPart(g: Forest, f: Forest, root: StableId, id: StableId)
    requires WellFormed(f) && UpwardPart(g, f) && id in g && root in f
    ensures Beneath(g, root, id) <==> Beneath(f, root, id)
  {
    PartKeepsWellFormed(g, f);
    if Beneath(f, root, id) && id != root {
      var steps: nat :| Climb(f, id, steps) == root;
      ClimbInPart(g, f, id, steps);
      ClimbPresent(g, id, steps);
    }
    if Beneath(g, root, id) && id != root {
      var steps: nat :| Climb(g, id, steps) == root;
      ClimbInPart(g, f, id, steps);
    }
  }

  lemma WithoutSubtreeIsPart(f: Forest, root: StableId)
    requires WellFormed(f) && root in f
    ensures UpwardPart(WithoutSubtree(f, root), f)
  {
    var g := WithoutSubtree(f, root);
    forall id | id in g ensures f[id].parent in f ==> f[id].parent in g {
      BeneathStep(f, root, id);
    }
  }

  // ---------------------------------------------------------------- siblings, in order

  predicate Increasing(s: seq<StableId>) {
    forall i, j :: 0 <= i < j < |s| ==> s[i] < s[j]
  }

  /** `s` lists exactly the children of `parent`, each once, by identifier. */
  ghost predicate ListsChildren(f: Forest, parent: StableId, s: seq<StableId>) {
    Increasing(s) && forall id :: id in s <==> id in f && f[id].parent == parent
  }

  /** Two ascending lists of the same identifiers are the same list: sibling order carries no history. */
  lemma {:induction false} IncreasingUnique(s: seq<StableId>, t: seq<StableId>)
    requires Increasing(s) && Increasing(t)
    requires forall id :: id in s <==> id in t
    ensures s == t
  {
    if s == [] || t == [] {
      HeadIsMember(s);
      HeadIsMember(t);
    } else {
      assert s[0] in t && t[0] in s;
      assert s[0] == t[0];
      forall id ensures id in s[1..] <==> id in t[1..] {
        if id in s[1..] { assert id in s && id != s[0]; }
        if id in t[1..] { assert id in t && id != t[0]; }
      }
      IncreasingUnique(s[1..], t[1..]);
      assert s == [s[0]] + s[1..] && t == [t[0]] + t[1..];
    }
  }

  lemma HeadIsMember(s: seq<StableId>)
    ensures s == [] || s[0] in s
  {
  }

  function InsertSorted(s: seq<StableId>, id: StableId): (r: seq<StableId>)
    requires Increasing(s) && id !in s
    ensures Increasing(r)
    ensures forall x :: x in r <==> x == id || x in s
  {
    if s == [] || id < s[0] then [id] + s
    else
      assert s == [s[0]] + s[1..];
      var r := InsertSorted(s[1..], id);
      AboveHead(s, id, r);
      [s[0]] + r
  }

  lemma AboveHead(s: seq<StableId>, id: StableId, r: seq<StableId>)
    requires s != [] && Increasing(s) && s[0] < id && Increasing(r)
    requires forall x :: x in r <==> x == id || x in s[1..]
    ensures Increasing([s[0]] + r)
  {
    forall i | 0 <= i < |r| ensures s[0] < r[i] {
      assert r[i] in r;
    }
  }

  /** The children of `parent`, ascending. */
  ghost function Children(f: Forest, parent: StableId): (s: seq<StableId>)
    ensures ListsChildren(f, parent, s)
  {
    Ascending(set id | id in f && f[id].parent == parent)
  }

  ghost function Ascending(ids: set<StableId>): (s: seq<StableId>)
    ensures Increasing(s) && |s| == |ids|
    ensures forall id :: id in s <==> id in ids
  {
    if ids == {} then [] else
      var id :| id in ids;
      assert |ids - {id}| == |ids| - 1;
      InsertedLength(Ascending(ids - {id}), id);
      InsertSorted(Ascending(ids - {id}), id)
  }

  lemma {:induction false} InsertedLength(s: seq<StableId>, id: StableId)
    requires Increasing(s) && id !in s
    ensures |InsertSorted(s, id)| == |s| + 1
  {
    if s != [] && id >= s[0] {
      InsertedLength(s[1..], id);
    }
  }
}
