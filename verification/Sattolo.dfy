/** The pointer chase: Sattolo's shuffle always leaves one cycle through every node, so the checks that
    follow it never fail, and any number of steps ends where the recorded order says. */
module Sattolo {
  import opened Division

  /** A seq of links, each naming a node. */
  predicate IsLinks(next: seq<nat>) {
    forall i :: 0 <= i < |next| ==> next[i] < |next|
  }

  /** The node reached from node zero after `steps` links. */
  function Walk(next: seq<nat>, steps: nat): (at: nat)
    requires IsLinks(next) && next != []
    ensures at < |next|
  {
    if steps == 0 then 0 else next[Walk(next, steps - 1)]
  }

  /** The first steps of the walk, in order. */
  function Visits(next: seq<nat>, steps: nat): (v: seq<nat>)
    requires IsLinks(next) && next != []
    ensures |v| == steps && forall k :: 0 <= k < steps ==> v[k] == Walk(next, k)
  {
    if steps == 0 then [] else Visits(next, steps - 1) + [Walk(next, steps - 1)]
  }

  predicate Distinct(s: seq<nat>) {
    forall j, k :: 0 <= j < k < |s| ==> s[j] != s[k]
  }

  /** As many steps as there are nodes visit different nodes, and the walk is then back at the start. */
  ghost predicate OneCycle(next: seq<nat>)
    requires IsLinks(next) && next != []
  {
    Distinct(Visits(next, |next|)) && Walk(next, |next|) == 0
  }

  /** On one cycle, every node is visited. */
  lemma EveryNodeVisited(next: seq<nat>, x: nat)
    requires IsLinks(next) && next != [] && OneCycle(next) && x < |next|
    ensures x in Visits(next, |next|)
  {
    var visits := Visits(next, |next|);
    if x !in visits {
      assert |Below(|next|) - {x}| == |next| - 1;
      DistinctFits(visits, Below(|next|) - {x});
      assert false;
    }
  }

  function Below(n: nat): (s: set<nat>)
    ensures |s| == n && forall x: nat :: x in s <==> x < n
  {
    if n == 0 then {} else Below(n - 1) + {n - 1}
  }

  lemma {:induction false} DistinctFits(s: seq<nat>, bound: set<nat>)
    requires Distinct(s) && forall k :: 0 <= k < |s| ==> s[k] in bound
    ensures |s| <= |bound|
  {
    if s != [] {
      DistinctFits(s[1..], bound - {s[0]});
    }
  }

  /** After any number of steps the walk stands where the recorded visit says. */
  lemma {:induction false} WalkWraps(next: seq<nat>, taken: nat)
    requires IsLinks(next) && next != [] && OneCycle(next)
    ensures Walk(next, taken) == Walk(next, taken % |next|)
    decreases taken
  {
    var n := |next|;
    if taken >= n {
      WalkShift(next, taken - n);
      WalkWraps(next, taken - n);
      WrapOnce(taken, n);
    } else {
      RemainderBelow(taken, n);
    }
  }

  lemma WrapOnce(taken: nat, n: nat)
    requires taken >= n > 0
    ensures taken % n == (taken - n) % n
  {
    var q, r := (taken - n) / n, (taken - n) % n;
    assert taken == (q + 1) * n + r;
    Quotient(taken, n, q + 1, r);
  }

  lemma RemainderBelow(a: nat, n: nat)
    requires a < n
    ensures a % n == a
  {
  }

  lemma {:induction false} WalkShift(next: seq<nat>, k: nat)
    requires IsLinks(next) && next != [] && Walk(next, |next|) == 0
    ensures Walk(next, k + |next|) == Walk(next, k)
  {
    if k > 0 {
      WalkShift(next, k - 1);
    }
  }

  // ---------------------------------------------------------------- the shuffle

  /** One cycle written out: each entry links to the one after it, the last to the first. */
  ghost predicate IsCycle(next: seq<nat>, cycle: seq<nat>) {
    && cycle != [] && (forall k :: 0 <= k < |cycle| ==> cycle[k] < |next|)
    && (forall k :: 0 < k < |cycle| ==> next[cycle[k - 1]] == cycle[k])
    && next[cycle[|cycle| - 1]] == cycle[0]
  }

  /** The links fall into disjoint cycles, one through each node below `|cycles|`, covering every node;
      `at[x]` says on which cycle, and where on it, node `x` is. */
  ghost predicate Cycles(next: seq<nat>, cycles: seq<seq<nat>>, at: seq<(nat, nat)>) {
    && |at| == |next| && |cycles| <= |next|
    && (forall r :: 0 <= r < |cycles| ==> CycleFrom(next, cycles[r], r, at))
    && (forall x :: 0 <= x < |next| ==> FoundAt(cycles, at[x], x))
  }

  ghost predicate CycleFrom(next: seq<nat>, cycle: seq<nat>, r: nat, at: seq<(nat, nat)>) {
    IsCycle(next, cycle) && cycle[0] == r && Located(cycle, r, at)
  }

  predicate FoundAt(cycles: seq<seq<nat>>, here: (nat, nat), x: nat) {
    here.0 < |cycles| && here.1 < |cycles[here.0]| && cycles[here.0][here.1] == x
  }

  ghost predicate Located(cycle: seq<nat>, r: nat, at: seq<(nat, nat)>) {
    forall k :: 0 <= k < |cycle| ==> cycle[k] < |at| && at[cycle[k]] == (r, k)
  }

  /** Two cycles joined by exchanging the links of their first nodes. */
  ghost function Joined(low: seq<nat>, high: seq<nat>): seq<nat>
    requires low != [] && high != []
  {
    [low[0]] + high[1..] + [high[0]] + low[1..]
  }

  ghost function Relocate(here: (nat, nat), i: nat, j: nat, high: nat): (nat, nat) {
    if here.0 == i then (j, if here.1 == 0 then high else here.1)
    else if here.0 == j && here.1 > 0 then (j, high + here.1) else here
  }

  /** The join is a cycle of the exchanged links. */
  lemma JoinedIsCycle(next: seq<nat>, low: seq<nat>, high: seq<nat>, at: seq<(nat, nat)>, j: nat, i: nat)
    requires IsCycle(next, low) && IsCycle(next, high) && low[0] == j < i == high[0] < |next|
    requires |at| == |next| && Located(low, j, at) && Located(high, i, at)
    ensures IsCycle(next[i := next[j]][j := next[i]], Joined(low, high))
  {
    var after := next[i := next[j]][j := next[i]];
    var c := Joined(low, high);
    forall k | 0 <= k < |c| ensures c[k] < |next| && after[c[k]] == c[(if k + 1 < |c| then k + 1 else 0)] {
      if k == 0 {
        assert c[1] == if |high| > 1 then high[1] else high[0];
      } else if k < |high| {
        assert c[k] == high[k] && high[k] != i && high[k] != j;
      } else if k == |high| {
        assert c[k] == i;
      } else {
        var m := k - |high|;
        assert c[k] == low[m] && low[m] != i && low[m] != j;
      }
    }
    forall k | 0 < k < |c| ensures after[c[k - 1]] == c[k] {
      var p := k - 1;
      assert after[c[p]] == c[(if p + 1 < |c| then p + 1 else 0)];
    }
  }

  ghost function JoinedCycles(cycles: seq<seq<nat>>, i: nat, j: nat): seq<seq<nat>>
    requires j < i < |cycles| && cycles[i] != [] && cycles[j] != []
  {
    cycles[..i][j := Joined(cycles[j], cycles[i])]
  }

  ghost function Relocated(at: seq<(nat, nat)>, i: nat, j: nat, high: nat): (r: seq<(nat, nat)>)
    ensures |r| == |at| && forall x :: 0 <= x < |at| ==> r[x] == Relocate(at[x], i, j, high)
  {
    seq(|at|, x requires 0 <= x < |at| => Relocate(at[x], i, j, high))
  }

  /** One swap of the shuffle joins cycle `i` into cycle `j`. */
  lemma SwapJoins(next: seq<nat>, cycles: seq<seq<nat>>, at: seq<(nat, nat)>, i: nat, j: nat)
    requires IsLinks(next) && |cycles| == i + 1 && j < i < |next| && Cycles(next, cycles, at)
    ensures cycles[i] != [] && cycles[j] != [] && |JoinedCycles(cycles, i, j)| == i
    ensures Cycles(next[i := next[j]][j := next[i]], JoinedCycles(cycles, i, j), Relocated(at, i, j, |cycles[i]|))
  {
    FirstOfCycle(next, cycles, at, i);
    FirstOfCycle(next, cycles, at, j);
    var after := next[i := next[j]][j := next[i]];
    var cycles', at' := JoinedCycles(cycles, i, j), Relocated(at, i, j, |cycles[i]|);
    assert |cycles'| == i;
    hide CycleFrom, FoundAt, JoinedCycles, Relocate, Joined;
    forall r: nat | r < i ensures CycleFrom(after, cycles'[r], r, at') {
      JoinedOne(next, cycles, at, i, j, r);
    }
    forall x: nat | x < |next| ensures FoundAt(cycles', at'[x], x) {
      RelocatedNode(at[x], i, j, x, cycles);
    }
  }

  lemma FirstOfCycle(next: seq<nat>, cycles: seq<seq<nat>>, at: seq<(nat, nat)>, r: nat)
    requires Cycles(next, cycles, at) && r < |cycles|
    ensures CycleFrom(next, cycles[r], r, at) && cycles[r] != [] && cycles[r][0] == r
  {
    hide FoundAt;
  }

  lemma JoinedOne(next: seq<nat>, cycles: seq<seq<nat>>, at: seq<(nat, nat)>, i: nat, j: nat, r: nat)
    requires |cycles| == i + 1 && j < i < |next| && |at| == |next| && r < i
    requires CycleFrom(next, cycles[i], i, at) && CycleFrom(next, cycles[j], j, at)
    requires CycleFrom(next, cycles[r], r, at)
    ensures CycleFrom(next[i := next[j]][j := next[i]], JoinedCycles(cycles, i, j)[r], r,
                      Relocated(at, i, j, |cycles[i]|))
  {
    hide IsCycle, Located, Joined, Relocated;
    var low, high := cycles[j], cycles[i];
    FirstLocated(next, low, j, at);
    FirstLocated(next, high, i, at);
    if r == j {
      JoinedNode(low, high, 0);
      JoinedIsCycle(next, low, high, at, j, i);
      JoinedLocated(low, high, at, Relocated(at, i, j, |high|), i, j);
    } else {
      OtherCycle(next, cycles[r], at, r, i, j);
      OtherLocated(cycles[r], at, Relocated(at, i, j, |high|), r, i, j, |high|);
    }
  }

  lemma FirstLocated(next: seq<nat>, cycle: seq<nat>, r: nat, at: seq<(nat, nat)>)
    requires CycleFrom(next, cycle, r, at) && r < |at|
    ensures cycle != [] && cycle[0] == r && at[r] == (r, 0)
  {
  }

  lemma OtherLocated(cycle: seq<nat>, at: seq<(nat, nat)>, at': seq<(nat, nat)>, r: nat, i: nat, j: nat, high: nat)
    requires Located(cycle, r, at) && r != i && r != j && at' == Relocated(at, i, j, high)
    ensures Located(cycle, r, at')
  {
  }

  lemma OtherCycle(next: seq<nat>, cycle: seq<nat>, at: seq<(nat, nat)>, r: nat, i: nat, j: nat)
    requires IsCycle(next, cycle) && Located(cycle, r, at) && r != i && r != j && i < |next| && j < |next|
    requires |at| == |next| && at[i].0 == i && at[j].0 == j
    ensures IsCycle(next[i := next[j]][j := next[i]], cycle)
  {
    forall k | 0 <= k < |cycle| ensures cycle[k] != i && cycle[k] != j {
    }
  }

  lemma RelocatedNode(here: (nat, nat), i: nat, j: nat, x: nat, cycles: seq<seq<nat>>)
    requires j < i && |cycles| == i + 1 && cycles[i] != [] && cycles[j] != [] && cycles[i][0] == i
    requires cycles[j][0] == j
    requires FoundAt(cycles, here, x)
    ensures FoundAt(JoinedCycles(cycles, i, j), Relocate(here, i, j, |cycles[i]|), x)
  {
  }

  lemma JoinedLocated(low: seq<nat>, high: seq<nat>, at: seq<(nat, nat)>, at': seq<(nat, nat)>, i: nat, j: nat)
    requires low != [] && high != [] && low[0] == j && high[0] == i && j < i
    requires Located(low, j, at) && Located(high, i, at) && |at'| == |at|
    requires at' == Relocated(at, i, j, |high|)
    ensures Located(Joined(low, high), j, at')
  {
    var c := Joined(low, high);
    forall k | 0 <= k < |c| ensures c[k] < |at'| && at'[c[k]] == (j, k) {
      JoinedNode(low, high, k);
      hide Joined;
    }
  }

  lemma JoinedNode(low: seq<nat>, high: seq<nat>, k: nat)
    requires low != [] && high != [] && k < |low| + |high|
    ensures |Joined(low, high)| == |low| + |high|
    ensures Joined(low, high)[k]
      == if k == 0 then low[0] else if k < |high| then high[k] else if k == |high| then high[0] else low[k - |high|]
  {
  }

  /** A single cycle written out from node zero is the walk from node zero. */
  lemma {:induction false} CycleIsWalk(next: seq<nat>, cycle: seq<nat>, k: nat)
    requires IsLinks(next) && next != [] && IsCycle(next, cycle) && cycle[0] == 0 && k < |cycle|
    ensures Walk(next, k) == cycle[k]
  {
    if k > 0 {
      CycleIsWalk(next, cycle, k - 1);
    }
  }

  lemma OneLeft(next: seq<nat>, cycles: seq<seq<nat>>, at: seq<(nat, nat)>)
    requires IsLinks(next) && next != [] && |cycles| == 1 && Cycles(next, cycles, at)
    ensures OneCycle(next)
  {
    var c, n := cycles[0], |next|;
    assert CycleFrom(next, c, 0, at);
    assert forall x :: 0 <= x < n ==> FoundAt(cycles, at[x], x);
    LoneCycleDistinct(c, at);
    LoneCycleCovers(c, at, n);
    hide Cycles, Located;
    forall k | 0 <= k < n ensures Visits(next, n)[k] == c[k] {
      CycleIsWalk(next, c, k);
    }
    assert Visits(next, n) == c;
    CycleIsWalk(next, c, n - 1);
    assert Walk(next, n) == next[Walk(next, n - 1)];
  }

  lemma LoneCycleDistinct(c: seq<nat>, at: seq<(nat, nat)>)
    requires Located(c, 0, at)
    ensures Distinct(c) && |c| <= |at|
  {
    forall j, k | 0 <= j < k < |c| ensures c[j] != c[k] {
      assert at[c[j]] == (0, j) && at[c[k]] == (0, k);
    }
    DistinctFits(c, Below(|at|));
  }

  lemma LoneCycleCovers(c: seq<nat>, at: seq<(nat, nat)>, n: nat)
    requires |at| == n && forall x :: 0 <= x < n ==> at[x].1 < |c| && c[at[x].1] == x
    ensures n <= |c|
  {
    var positions := Positions(at);
    forall x, y | 0 <= x < y < n ensures positions[x] != positions[y] {
      assert c[at[x].1] == x && c[at[y].1] == y;
    }
    DistinctFits(positions, Below(|c|));
  }

  ghost function Positions(at: seq<(nat, nat)>): (p: seq<nat>)
    ensures |p| == |at| && forall x :: 0 <= x < |at| ==> p[x] == at[x].1
  {
    if at == [] then [] else [at[0].1] + Positions(at[1..])
  }

  function Exchanged(s: seq<nat>, i: nat, j: nat): seq<nat>
    requires i < |s| && j < |s|
  {
    s[i := s[j]][j := s[i]]
  }

  /** What the shuffle makes of the places up to `i`: each exchanged with one below it, the highest first. */
  function Shuffled(s: seq<nat>, i: nat, draw: nat -> nat): (r: seq<nat>)
    requires i < |s|
    ensures |r| == |s|
    decreases i
  {
    if i == 0 then s else Shuffled(Exchanged(s, i, draw(i) % i), i - 1, draw)
  }

  function InOrder(n: nat): (s: seq<nat>)
    ensures |s| == n && forall k :: 0 <= k < n ==> s[k] == k
  {
    seq(n, k => k)
  }

  /** Sattolo's shuffle, in place, for any draws: `draw(i) % i` is the raw draw reduced as it is there. */
  method Shuffle(order: array<nat>, draw: nat -> nat)
    requires order.Length > 0
    modifies order
    ensures IsLinks(order[..]) && OneCycle(order[..])
    ensures order[..] == Shuffled(InOrder(order.Length), order.Length - 1, draw)
  {
    hide Cycles, OneCycle, JoinedCycles, Relocated, Singles, Homes;
    var count := order.Length;
    for i := 0 to count
      invariant forall k :: 0 <= k < i ==> order[k] == k
    {
      order[i] := i;
    }
    ghost var cycles, at := Singles(count), Homes(count);
    IdentityCycles(order[..]);
    assert order[..] == InOrder(count);
    var i := count - 1;
    while i > 0
      invariant 0 <= i < count && IsLinks(order[..]) && |cycles| == i + 1 && Cycles(order[..], cycles, at)
      invariant Shuffled(order[..], i, draw) == Shuffled(InOrder(count), count - 1, draw)
    {
      var j := draw(i) % i;
      SwapJoins(order[..], cycles, at, i, j);
      Exchange(order, i, j);
      cycles, at := JoinedCycles(cycles, i, j), Relocated(at, i, j, |cycles[i]|);
      i := i - 1;
    }
    OneLeft(order[..], cycles, at);
  }

  lemma IdentityCycles(next: seq<nat>)
    requires forall k :: 0 <= k < |next| ==> next[k] == k
    ensures Cycles(next, Singles(|next|), Homes(|next|))
  {
    var cycles, at := Singles(|next|), Homes(|next|);
    hide Singles, Homes, CycleFrom, FoundAt;
    forall r: nat | r < |next| ensures CycleFrom(next, cycles[r], r, at) && FoundAt(cycles, at[r], r) {
      NodeOnItsOwn(next, cycles, at, r);
    }
  }

  lemma NodeOnItsOwn(next: seq<nat>, cycles: seq<seq<nat>>, at: seq<(nat, nat)>, r: nat)
    requires r < |next| == |cycles| == |at| && next[r] == r && cycles[r] == [r] && at[r] == (r, 0)
    ensures CycleFrom(next, cycles[r], r, at) && FoundAt(cycles, at[r], r)
  {
  }

  ghost function Singles(n: nat): (s: seq<seq<nat>>)
    ensures |s| == n && forall r :: 0 <= r < n ==> s[r] == [r]
  {
    if n == 0 then [] else Singles(n - 1) + [[n - 1]]
  }

  ghost function Homes(n: nat): (s: seq<(nat, nat)>)
    ensures |s| == n && forall x :: 0 <= x < n ==> s[x] == (x, 0)
  {
    if n == 0 then [] else Homes(n - 1) + [(n - 1, 0)]
  }

  method Exchange(a: array<nat>, i: nat, j: nat)
    requires j < i < a.Length
    modifies a
    ensures a[..] == Exchanged(old(a[..]), i, j)
  {
    a[i], a[j] := a[j], a[i];
  }

  // ---------------------------------------------------------------- the checks

  /** Record the visiting order. `died` when a node comes up twice or the walk does not close: that is,
      exactly when the links are not one cycle. */
  method Record(next: seq<nat>) returns (visit: seq<nat>, died: bool)
    requires IsLinks(next) && next != []
    ensures died <==> !OneCycle(next)
    ensures !died ==> visit == Visits(next, |next|)
  {
    var seen := new bool[|next|](_ => false);
    visit := [];
    var at := 0;
    var step := 0;
    while step < |next|
      invariant 0 <= step <= |next| && at == Walk(next, step) && visit == Visits(next, step)
      invariant forall x: nat :: x < |next| ==> (seen[x] <==> x in visit)
      invariant Distinct(visit)
    {
      if seen[at] {
        Repeated(next, step);
        return visit, true;
      }
      seen[at] := true;
      visit := visit + [at];
      at := next[at];
      step := step + 1;
    }
    died := at != 0;
  }

  /** A node that comes up again is a repeat in the whole walk. */
  lemma Repeated(next: seq<nat>, step: nat)
    requires IsLinks(next) && next != [] && step < |next| && Walk(next, step) in Visits(next, step)
    ensures !OneCycle(next)
  {
    var early := Visits(next, step);
    var k :| 0 <= k < |early| && early[k] == Walk(next, step);
    var all := Visits(next, |next|);
    assert all[k] == all[step];
  }

  const MAX_NODES := 0xFFFF_FFFF

  /** The whole benchmark's walk: build, check, take `taken` more steps, and compare. It dies only for a
      count of nodes it refuses outright; none of the three checks that follow can fail. */
  method Chase(count: nat, draw: nat -> nat, taken: nat) returns (died: bool)
    ensures died <==> count < 2 || count > 0xFFFF_FFFF
  {
    if count < 2 || count > MAX_NODES {
      return true;
    }
    var order := new nat[count];
    Shuffle(order, draw);
    var visit;
    visit, died := Record(order[..]);
    if died {
      return;
    }
    var current, steps := 0, 0;
    while steps < taken
      invariant 0 <= steps <= taken && current < count && current == Walk(order[..], steps)
    {
      current := order[current];
      steps := steps + 1;
    }
    WalkWraps(order[..], taken);
    assert taken % count < count;
    died := current != visit[taken % count];
  }

  // ---------------------------------------------------------------- every draw matters

  lemma ExchangedDistinct(s: seq<nat>, i: nat, j: nat)
    requires Distinct(s) && i < |s| && j < |s|
    ensures Distinct(Exchanged(s, i, j))
  {
    assert forall k :: 0 <= k < |s| ==> Exchanged(s, i, j)[k] == s[if k == j then i else if k == i then j else k];
  }

  /** A place is settled by its own exchange: the lower ones leave it alone. */
  lemma {:induction false} PlaceStays(s: seq<nat>, i: nat, draw: nat -> nat, k: nat)
    requires i < k < |s|
    ensures Shuffled(s, i, draw)[k] == s[k]
    decreases i
  {
    if i > 0 {
      PlaceStays(Exchanged(s, i, draw(i) % i), i - 1, draw, k);
    }
  }

  lemma {:induction false} DrawsMatterFrom(s: seq<nat>, i: nat, d: nat -> nat, e: nat -> nat, k: nat)
    requires Distinct(s) && 0 < k <= i < |s| && d(k) % k != e(k) % k
    ensures Shuffled(s, i, d) != Shuffled(s, i, e)
    decreases i
  {
    var a, b := d(i) % i, e(i) % i;
    if a != b {
      FirstDiffers(s, i, d, e);
    } else {
      hide Shuffled, Distinct;
      ShuffledTurns(s, i, d);
      ShuffledTurns(s, i, e);
      ExchangedDistinct(s, i, a);
      DrawsMatterFrom(Exchanged(s, i, a), i - 1, d, e, k);
    }
  }

  lemma ShuffledTurns(s: seq<nat>, i: nat, draw: nat -> nat)
    requires 0 < i < |s|
    ensures Shuffled(s, i, draw) == Shuffled(Exchanged(s, i, draw(i) % i), i - 1, draw)
  {
  }

  lemma FirstDiffers(s: seq<nat>, i: nat, d: nat -> nat, e: nat -> nat)
    requires Distinct(s) && 0 < i < |s| && d(i) % i != e(i) % i
    ensures Shuffled(s, i, d)[i] != Shuffled(s, i, e)[i]
  {
    hide Shuffled;
    var a, b := d(i) % i, e(i) % i;
    ShuffledTurns(s, i, d);
    ShuffledTurns(s, i, e);
    PlaceStays(Exchanged(s, i, a), i - 1, d, i);
    PlaceStays(Exchanged(s, i, b), i - 1, e, i);
  }

  /** Draws that differ anywhere leave different cycles: each of the (n - 1)! ways to draw is a cycle of its
      own. */
  lemma DrawsMatter(n: nat, d: nat -> nat, e: nat -> nat, k: nat)
    requires 0 < k < n && d(k) % k != e(k) % k
    ensures Shuffled(InOrder(n), n - 1, d) != Shuffled(InOrder(n), n - 1, e)
  {
    DrawsMatterFrom(InOrder(n), n - 1, d, e, k);
  }
}
