/** A message leaves its pipe on exactly the receiver's (latency + 1)-th later poll, whatever faults,
    permutations, losses of others and other traffic there are in between. */
module Latency {
  import opened Inboxes
  import opened Loopback
  import opened Conservation

  /** Between `h` and `g` the pipe only gained messages at its end, with new order numbers. */
  ghost predicate Grew(h: Hub, g: Hub, f: nat, t: nat) {
    var before, after := InFlight(h, f, t), InFlight(g, f, t);
    && |before| <= |after| && after[..|before|] == before
    && forall i :: |before| <= i < |after| ==> h.nextOrder <= after[i].order < g.nextOrder
  }

  ghost predicate SameClock(h: Hub, g: Hub) {
    g.polls == h.polls && g.lost == h.lost && g.peers == h.peers && g.latency == h.latency && g.nextOrder >= h.nextOrder
  }

  lemma GrewTransitive(h: Hub, g: Hub, k: Hub, f: nat, t: nat)
    requires SameClock(h, g) && SameClock(g, k) && Grew(h, g, f, t) && Grew(g, k, f, t)
    ensures SameClock(h, k) && Grew(h, k, f, t)
  {
    var a, b, c := InFlight(h, f, t), InFlight(g, f, t), InFlight(k, f, t);
    assert c[..|a|] == c[..|b|][..|a|];
    forall i | |a| <= i < |c| ensures h.nextOrder <= c[i].order < k.nextOrder {
      if i < |b| {
        assert c[..|b|][i] == b[i];
      }
    }
  }

  ghost predicate GrewAt(h: Hub, g: Hub, from: nat, to: nat, f: nat, t: nat) {
    SameClock(h, g) && Grew(h, g, f, t) && ((f, t) != (from, to) ==> InFlight(g, f, t) == InFlight(h, f, t))
  }

  lemma AdmitGrew(h: Hub, from: nat, to: nat, p: Pending, stats: Stats, f: nat, t: nat)
    requires p.order == h.nextOrder
    ensures GrewAt(h, Admit(h, from, to, p, stats), from, to, f, t)
  {
  }

  lemma VanishGrew(h: Hub, from: nat, to: nat, stats: Stats, f: nat, t: nat)
    ensures GrewAt(h, Vanish(h, from, to, stats), from, to, f, t)
  {
  }

  lemma EnqueueGrew(h: Hub, from: nat, to: nat, bytes: Message, origin: nat, everyone: bool, f: nat, t: nat)
    ensures GrewAt(h, Enqueue(h, from, to, bytes, origin, everyone), from, to, f, t)
  {
    hide Corrupted, Admit, Vanish, GrewAt, PipeOf, PollsOf;
    forall p: Pending, stats | p.order == h.nextOrder ensures GrewAt(h, Admit(h, from, to, p, stats), from, to, f, t) {
      AdmitGrew(h, from, to, p, stats, f, t);
    }
    forall stats ensures GrewAt(h, Vanish(h, from, to, stats), from, to, f, t) {
      VanishGrew(h, from, to, stats, f, t);
    }
  }

  lemma {:induction false} RelayGrew(h: Hub, origin: nat, bytes: Message, to: nat, f: nat, t: nat)
    ensures var g := RelayTo(h, origin, bytes, to);
      SameClock(h, g) && Grew(h, g, f, t) && (f != 0 || t < to ==> InFlight(g, f, t) == InFlight(h, f, t))
    decreases h.peers - to
  {
    hide Enqueue;
    if to < h.peers {
      if to == origin || to in h.lost {
        RelayGrew(h, origin, bytes, to + 1, f, t);
      } else {
        var h1 := Enqueue(h, 0, to, bytes, origin, false);
        EnqueueGrew(h, 0, to, bytes, origin, false, f, t);
        RelayGrew(h1, origin, bytes, to + 1, f, t);
        GrewTransitive(h, h1, RelayTo(h1, origin, bytes, to + 1), f, t);
      }
    }
  }

  lemma SendGrew(h: Hub, from: nat, to: nat, bytes: Message, f: nat, t: nat)
    ensures SameClock(h, Send(h, from, to, bytes).0) && Grew(h, Send(h, from, to, bytes).0, f, t)
  {
    EnqueueGrew(h, from, to, bytes, from, false, f, t);
    hide Enqueue;
  }

  lemma {:induction false} SendToEachGrew(h: Hub, from: nat, bytes: Message, peer: nat, f: nat, t: nat)
    ensures var g := SendToEach(h, from, bytes, peer).0;
      SameClock(h, g) && Grew(h, g, f, t)
    decreases h.peers - peer
  {
    hide Send;
    if peer < h.peers {
      if peer == from {
        SendToEachGrew(h, from, bytes, peer + 1, f, t);
      } else {
        var h1 := Send(h, from, peer, bytes).0;
        SendGrew(h, from, peer, bytes, f, t);
        SendToEachGrew(h1, from, bytes, peer + 1, f, t);
        GrewTransitive(h, h1, SendToEach(h1, from, bytes, peer + 1).0, f, t);
      }
    }
  }

  lemma DeliverOneGrew(h: Hub, from: nat, peer: nat, p: Pending, f: nat, t: nat)
    ensures var g := DeliverOne(h, from, peer, p);
      SameClock(h, g) && Grew(h, g, f, t) && (t == peer ==> InFlight(g, f, t) == InFlight(h, f, t))
  {
    var h1 := h.(relayed := h.relayed + [CopyOf(p)]);
    RelayGrew(h1, p.origin, p.bytes, 1, f, t);
    hide RelayTo;
  }

  lemma {:induction false} DeliverAllGrew(h: Hub, from: nat, peer: nat, batch: seq<Pending>, f: nat, t: nat)
    ensures var g := DeliverAll(h, from, peer, batch);
      SameClock(h, g) && Grew(h, g, f, t) && (t == peer ==> InFlight(g, f, t) == InFlight(h, f, t))
    decreases |batch|
  {
    hide DeliverOne;
    if batch != [] {
      var h1 := DeliverOne(h, from, peer, batch[0]);
      DeliverOneGrew(h, from, peer, batch[0], f, t);
      DeliverAllGrew(h1, from, peer, batch[1..], f, t);
      GrewTransitive(h, h1, DeliverAll(h1, from, peer, batch[1..]), f, t);
    }
  }

  lemma TakeDueTakes(h: Hub, from: nat, peer: nat, draw: Draw, f: nat, t: nat)
    ensures var g := TakeDue(h, from, peer, draw).0;
      && SameClock(h, g) && g.nextOrder == h.nextOrder
      && InFlight(g, f, t) == if (f, t) == (from, peer) then Kept(InFlight(h, f, t), PollsOf(h, peer))
                              else InFlight(h, f, t)
  {
    hide Shuffle, Kept, Due;
  }

  /** A poll takes only what was there, whatever the order it hands it on in. */
  lemma TakenMembers(h: Hub, from: nat, peer: nat, draw: Draw)
    ensures forall p :: p in TakeDue(h, from, peer, draw).1 ==> p in InFlight(h, from, peer)
  {
    var s, now := InFlight(h, from, peer), PollsOf(h, peer);
    DueAndKept(s, now);
    hide Due, Kept, Shuffle;
    var batch := TakeDue(h, from, peer, draw).1;
    assert multiset(batch) == multiset(Due(s, now));
    forall p | p in batch ensures p in s {
      assert p in multiset(batch);
      assert p in Due(s, now);
    }
  }

  /** A poll takes everything due out of each of the receiver's pipes, and only adds to other pipes. */
  lemma {:induction false} PumpPipesTake(h: Hub, peer: nat, count: nat, draw: Draw, f: nat, t: nat)
    ensures var g := PumpPipes(h, peer, count, draw);
      && SameClock(h, g)
      && (t != peer ==> Grew(h, g, f, t))
      && (t == peer ==> InFlight(g, f, t) == if f < count && f != peer
            then Kept(InFlight(h, f, t), PollsOf(h, peer)) else InFlight(h, f, t))
    decreases count
  {
    hide TakeDue, DeliverAll, Kept;
    if count > 0 {
      PumpPipesTake(h, peer, count - 1, draw, f, t);
      var h1 := PumpPipes(h, peer, count - 1, draw);
      if count - 1 != peer {
        var (h2, batch) := TakeDue(h1, count - 1, peer, draw);
        TakeDueTakes(h1, count - 1, peer, draw, f, t);
        DeliverAllGrew(h2, count - 1, peer, batch, f, t);
        if t != peer {
          GrewTransitive(h, h1, h2, f, t);
          GrewTransitive(h, h2, DeliverAll(h2, count - 1, peer, batch), f, t);
        }
      }
    }
  }

  lemma {:induction false} ClearPipesKeep(h: Hub, peer: nat, count: nat, f: nat, t: nat)
    ensures var g := ClearPipes(h, peer, count);
      && SameClock(h, g) && g.nextOrder == h.nextOrder
      && (f != peer && t != peer ==> InFlight(g, f, t) == InFlight(h, f, t))
      && (InFlight(g, f, t) == InFlight(h, f, t) || InFlight(g, f, t) == [])
    decreases count
  {
    hide ClearPipe, InFlight, SameClock;
    ClearNone(h);
    if count > 0 {
      ClearPipesKeep(h, peer, count - 1, f, t);
      var h1, other := ClearPipes(h, peer, count - 1), count - 1;
      ClearPipeKeeps(h, h1, peer, other, f, t);
      ClearPipeKeeps(h, ClearPipe(h1, peer, other), other, peer, f, t);
    }
  }

  lemma ClearNone(h: Hub)
    ensures SameClock(h, h)
  {
  }

  lemma ClearPipeKeeps(h: Hub, h1: Hub, from: nat, to: nat, f: nat, t: nat)
    requires SameClock(h, h1) && h1.nextOrder == h.nextOrder
    requires InFlight(h1, f, t) == InFlight(h, f, t) || InFlight(h1, f, t) == []
    ensures var g := ClearPipe(h1, from, to);
      && SameClock(h, g) && g.nextOrder == h.nextOrder
      && (f != from || t != to ==> InFlight(g, f, t) == InFlight(h1, f, t))
      && (InFlight(g, f, t) == InFlight(h, f, t) || InFlight(g, f, t) == [])
  {
  }

  // ---------------------------------------------------------------- following one message

  /** The only message in the pipe with the number of `c`, if there is one, is `c`, which is not held. */
  ghost predicate Tagged(h: Hub, f: nat, t: nat, c: Pending) {
    !c.held && c.order < h.nextOrder && forall p :: p in InFlight(h, f, t) && p.order == c.order ==> p == c
  }

  ghost predicate Below(h: Hub, f: nat, t: nat) {
    forall p :: p in InFlight(h, f, t) ==> p.order < h.nextOrder
  }

  function Pumps(ops: seq<Operation>, peer: nat): nat {
    if ops == [] then 0 else (if ops[0] == DoPump(peer) then 1 else 0) + Pumps(ops[1..], peer)
  }

  predicate Loses(op: Operation, f: nat, t: nat) { op == DoLose(f) || op == DoLose(t) }

  lemma GrewKeepsTag(h: Hub, g: Hub, f: nat, t: nat, c: Pending)
    requires Grew(h, g, f, t) && Tagged(h, f, t, c) && h.nextOrder <= g.nextOrder
    ensures Tagged(g, f, t, c) && (c in InFlight(g, f, t) <==> c in InFlight(h, f, t))
  {
    GrewMembers(h, g, f, t);
    hide Grew, InFlight;
  }

  lemma GrewMembers(h: Hub, g: Hub, f: nat, t: nat)
    requires Grew(h, g, f, t)
    ensures forall p :: p in InFlight(h, f, t) ==> p in InFlight(g, f, t)
    ensures forall p :: p in InFlight(g, f, t) ==> p in InFlight(h, f, t) || h.nextOrder <= p.order < g.nextOrder
  {
    var a, b := InFlight(h, f, t), InFlight(g, f, t);
    hide InFlight;
    assert b == a + b[|a|..];
    forall p | p in b ensures p in a || h.nextOrder <= p.order < g.nextOrder {
      var i :| 0 <= i < |b| && b[i] == p;
    }
  }

  lemma StepFollows(h: Hub, op: Operation, draw: Draw, f: nat, t: nat, c: Pending)
    requires Tagged(h, f, t, c) && f < h.peers && t < h.peers && f != t && t !in h.lost
    requires !Loses(op, f, t) && Sensible(op, h.peers)
    ensures var g := Step(h, op, draw);
      && Tagged(g, f, t, c) && g.peers == h.peers && g.latency == h.latency && t !in g.lost
      && PollsOf(g, t) == PollsOf(h, t) + (if op == DoPump(t) then 1 else 0)
      && (c in InFlight(g, f, t) <==> c in InFlight(h, f, t) && (op == DoPump(t) ==> PollsOf(g, t) <= c.release))
  {
    StepMoves(h, op, draw, f, t);
    var g := Step(h, op, draw);
    hide Step, Kept;
    if op == DoPump(t) {
      DueAndKept(InFlight(h, f, t), PollsOf(g, t));
    } else if op.DoRelease? {
      ReleasedFollows(h, g, f, t, c);
    } else {
      GrewKeepsTag(h, g, f, t, c);
    }
  }

  lemma ReleasedFollows(h: Hub, g: Hub, f: nat, t: nat, c: Pending)
    requires InFlight(g, f, t) == Released(InFlight(h, f, t)) && Tagged(h, f, t, c) && g.nextOrder == h.nextOrder
    ensures Tagged(g, f, t, c) && (c in InFlight(g, f, t) <==> c in InFlight(h, f, t))
  {
    var a, b := InFlight(h, f, t), InFlight(g, f, t);
    forall p | p in a ensures p.(held := false) in b {
      var i :| 0 <= i < |a| && a[i] == p;
      assert b[i] == p.(held := false);
    }
    forall p | p in b ensures exists q :: q in a && p == q.(held := false) {
      var i :| 0 <= i < |b| && b[i] == p;
      assert a[i] in a;
    }
  }

  /** What each operation does to one pipe. */
  lemma StepMoves(h: Hub, op: Operation, draw: Draw, f: nat, t: nat)
    requires f < h.peers && t < h.peers && f != t && Sensible(op, h.peers)
    ensures var g := Step(h, op, draw);
      && g.peers == h.peers && g.latency == h.latency && g.nextOrder >= h.nextOrder
      && (t !in h.lost && !Loses(op, f, t) ==> t !in g.lost)
      && PollsOf(g, t) == PollsOf(h, t) + (if op == DoPump(t) then 1 else 0)
      && (if Loses(op, f, t) then InFlight(g, f, t) == InFlight(h, f, t) || InFlight(g, f, t) == []
          else if op == DoPump(t) && t !in h.lost then InFlight(g, f, t) == Kept(InFlight(h, f, t), PollsOf(g, t))
          else if op.DoRelease? then InFlight(g, f, t) == Released(InFlight(h, f, t)) && g.nextOrder == h.nextOrder
          else Grew(h, g, f, t))
  {
    match op
    case DoSend(from, to, bytes) =>
      SendGrew(h, from, to, bytes, f, t);
      hide Send, Grew, Broadcast, Pump, Lose, ReleaseHeld, ArmFault;
    case DoBroadcast(from, bytes) =>
      BroadcastGrew(h, from, bytes, f, t);
      hide Send, Grew, Broadcast, Pump, Lose, ReleaseHeld, ArmFault;
    case DoPump(peer) =>
      PumpMoves(h, peer, draw, f, t);
      hide Send, Grew, Broadcast, Pump, Lose, ReleaseHeld, ArmFault, Kept;
    case DoLose(peer) =>
      LoseMoves(h, peer, f, t);
      hide Send, Grew, Broadcast, Pump, Lose, ReleaseHeld, ArmFault;
    case DoArm(from, to, fault) =>
      ArmMoves(h, from, to, fault, f, t);
      hide Send, Grew, Broadcast, Pump, Lose, ReleaseHeld, ArmFault;
    case DoRelease =>
      hide Send, Broadcast, Pump, Lose, ArmFault;
    case DoDrain(peer, origin) =>
      hide Send, Broadcast, Pump, Lose, ArmFault;
  }

  lemma BroadcastGrew(h: Hub, from: nat, bytes: Message, f: nat, t: nat)
    ensures SameClock(h, Broadcast(h, from, bytes).0) && Grew(h, Broadcast(h, from, bytes).0, f, t)
  {
    SendToEachGrew(h, from, bytes, 0, f, t);
    RelayGrew(h, 0, bytes, 1, f, t);
    EnqueueGrew(h, from, 0, bytes, from, true, f, t);
    hide SendToEach, RelayTo, Enqueue;
  }

  lemma PumpMoves(h: Hub, peer: nat, draw: Draw, f: nat, t: nat)
    requires f < h.peers && f != t
    ensures var g := Pump(h, peer, draw);
      && g.peers == h.peers && g.latency == h.latency && g.nextOrder >= h.nextOrder && g.lost == h.lost
      && PollsOf(g, t) == PollsOf(h, t) + (if peer == t then 1 else 0)
      && (if peer == t && t !in h.lost then InFlight(g, f, t) == Kept(InFlight(h, f, t), PollsOf(g, t))
          else Grew(h, g, f, t))
  {
    PolledMoves(h, peer, f, t);
    hide Polled, PumpPipes, Kept, InFlight, Grew;
    PumpPipesTake(Polled(h, peer), peer, h.peers, draw, f, t);
  }

  lemma PolledMoves(h: Hub, peer: nat, f: nat, t: nat)
    ensures var g := Polled(h, peer);
      && g == h.(polls := g.polls) && InFlight(g, f, t) == InFlight(h, f, t)
      && PollsOf(g, t) == PollsOf(h, t) + (if peer == t then 1 else 0)
      && Grew(h, g, f, t) && forall k :: Grew(g, k, f, t) <==> Grew(h, k, f, t)
  {
  }

  lemma LoseMoves(h: Hub, peer: nat, f: nat, t: nat)
    requires f < h.peers && t < h.peers && f != t
    ensures var g := Lose(h, peer).0;
      && g.peers == h.peers && g.latency == h.latency && g.nextOrder == h.nextOrder && g.polls == h.polls
      && g.lost <= h.lost + {peer}
      && (InFlight(g, f, t) == InFlight(h, f, t) || (InFlight(g, f, t) == [] && (peer == f || peer == t)))
  {
    ClearPipesKeep(h.(lost := h.lost + {peer}), peer, h.peers, f, t);
    hide ClearPipes;
  }

  lemma ArmMoves(h: Hub, from: nat, to: nat, fault: Fault, f: nat, t: nat)
    ensures var g := ArmFault(h, from, to, fault).0;
      SameClock(h, g) && g.nextOrder == h.nextOrder && InFlight(g, f, t) == InFlight(h, f, t)
  {
  }

  lemma {:induction false} RunFollows(h: Hub, ops: seq<Operation>, draw: Draw, f: nat, t: nat, c: Pending)
    requires Tagged(h, f, t, c) && f < h.peers && t < h.peers && f != t && t !in h.lost
    requires forall i :: 0 <= i < |ops| ==> !Loses(ops[i], f, t) && Sensible(ops[i], h.peers)
    requires c in InFlight(h, f, t) <==> PollsOf(h, t) <= c.release
    ensures var g := Run(h, ops, draw);
      && PollsOf(g, t) == PollsOf(h, t) + Pumps(ops, t) && g.peers == h.peers && g.latency == h.latency
      && t !in g.lost && Tagged(g, f, t, c) && (c in InFlight(g, f, t) <==> PollsOf(g, t) <= c.release)
    decreases |ops|
  {
    if ops != [] {
      StepFollows(h, ops[0], draw, f, t, c);
      hide Step, Tagged;
      RunFollows(Step(h, ops[0], draw), ops[1..], draw, f, t, c);
    }
  }

  /** The armed fault, if any, neither drops nor holds the next message. */
  predicate Passes(h: Hub, from: nat, to: nat) {
    var armed := PipeOf(h, from, to).armed;
    armed.Unarmed? || armed.fault.Corrupt?
  }

  /** What goes in flight. */
  function Carried(h: Hub, from: nat, to: nat, bytes: Message, origin: nat, everyone: bool): Pending {
    var said := if PipeOf(h, from, to).armed.Unarmed? then bytes else Corrupted(bytes);
    Pending(said, PollsOf(h, to) + h.latency, h.nextOrder, false, origin, everyone)
  }

  lemma EnqueueCarries(h: Hub, from: nat, to: nat, bytes: Message, origin: nat, everyone: bool)
    requires Below(h, from, to) && Passes(h, from, to)
    ensures var (g, c) := (Enqueue(h, from, to, bytes, origin, everyone),
                           Carried(h, from, to, bytes, origin, everyone));
      && InFlight(g, from, to) == InFlight(h, from, to) + [c] && c in InFlight(g, from, to)
      && Tagged(g, from, to, c) && g.nextOrder == h.nextOrder + 1
  {
    var g, c := Enqueue(h, from, to, bytes, origin, everyone), Carried(h, from, to, bytes, origin, everyone);
    EnqueueAdmits(h, from, to, bytes, origin, everyone);
    assert c.order == h.nextOrder && !c.held;
    hide Enqueue, Carried;
    AdmitAppends(h, from, to, c, g.stats);
    hide Admit, InFlight;
    assert c == (InFlight(h, from, to) + [c])[|InFlight(h, from, to)|];
  }

  lemma EnqueueAdmits(h: Hub, from: nat, to: nat, bytes: Message, origin: nat, everyone: bool)
    requires Passes(h, from, to)
    ensures var g := Enqueue(h, from, to, bytes, origin, everyone);
      g == Admit(h, from, to, Carried(h, from, to, bytes, origin, everyone), g.stats)
  {
    hide Corrupted, Vanish;
    forall p, stats ensures Admit(h, from, to, p, stats).stats == stats {
    }
    hide Admit;
  }

  lemma AdmitAppends(h: Hub, from: nat, to: nat, p: Pending, stats: Stats)
    ensures var g := Admit(h, from, to, p, stats);
      InFlight(g, from, to) == InFlight(h, from, to) + [p] && g.nextOrder == h.nextOrder + 1
  {
  }

  /** Whoever sends a message and however it comes to be sent, on to others included, it is in its pipe
      exactly until its receiver's (latency + 1)-th poll, counted from where the receiver was. Only a fault
      that drops or holds it, or the loss of an end of the pipe, is excepted. */
  lemma LatencyIsExact(h: Hub, from: nat, to: nat, bytes: Message, origin: nat, everyone: bool,
                       ops: seq<Operation>, draw: Draw)
    requires Below(h, from, to) && from < h.peers && to < h.peers && from != to && to !in h.lost
    requires Passes(h, from, to)
    requires forall i :: 0 <= i < |ops| ==> !Loses(ops[i], from, to) && Sensible(ops[i], h.peers)
    ensures var (g, c) := (Enqueue(h, from, to, bytes, origin, everyone),
                           Carried(h, from, to, bytes, origin, everyone));
      c in InFlight(Run(g, ops, draw), from, to) <==> Pumps(ops, to) <= h.latency
  {
    var g, c := Enqueue(h, from, to, bytes, origin, everyone), Carried(h, from, to, bytes, origin, everyone);
    EnqueueCarries(h, from, to, bytes, origin, everyone);
    EnqueueGrew(h, from, to, bytes, origin, everyone, from, to);
    hide Enqueue, Tagged;
    RunFollows(g, ops, draw, from, to, c);
  }

  /** Order numbers in a pipe stay below the next one, as `LatencyIsExact` asks. */
  lemma StepKeepsBelow(h: Hub, op: Operation, draw: Draw, f: nat, t: nat)
    requires Below(h, f, t) && f < h.peers && t < h.peers && f != t && Sensible(op, h.peers)
    ensures Below(Step(h, op, draw), f, t)
  {
    var g := Step(h, op, draw);
    StepMoves(h, op, draw, f, t);
    hide Step;
    if Loses(op, f, t) {
    } else if op == DoPump(t) && t !in h.lost {
      DueAndKept(InFlight(h, f, t), PollsOf(g, t));
    } else if op.DoRelease? {
      ReleasedBelow(h, g, f, t);
    } else {
      GrewKeepsBelow(h, g, f, t);
    }
  }

  lemma {:induction false} RunKeepsBelow(h: Hub, ops: seq<Operation>, draw: Draw, f: nat, t: nat)
    requires Below(h, f, t) && f < h.peers && t < h.peers && f != t
    requires forall i :: 0 <= i < |ops| ==> Sensible(ops[i], h.peers)
    ensures var g := Run(h, ops, draw);
      Below(g, f, t) && g.peers == h.peers && g.latency == h.latency
    decreases |ops|
  {
    if ops != [] {
      StepKeepsBelow(h, ops[0], draw, f, t);
      StepMoves(h, ops[0], draw, f, t);
      hide Step, Below;
      RunKeepsBelow(Step(h, ops[0], draw), ops[1..], draw, f, t);
    }
  }

  lemma ReleasedBelow(h: Hub, g: Hub, f: nat, t: nat)
    requires InFlight(g, f, t) == Released(InFlight(h, f, t)) && h.nextOrder == g.nextOrder && Below(h, f, t)
    ensures Below(g, f, t)
  {
    var a, b := InFlight(h, f, t), InFlight(g, f, t);
    forall p | p in b ensures p.order < g.nextOrder {
      var i :| 0 <= i < |b| && b[i] == p;
      assert a[i] in a;
    }
  }

  lemma GrewKeepsBelow(h: Hub, g: Hub, f: nat, t: nat)
    requires Grew(h, g, f, t) && Below(h, f, t) && h.nextOrder <= g.nextOrder
    ensures Below(g, f, t)
  {
    var a, b := InFlight(h, f, t), InFlight(g, f, t);
    forall p | p in b ensures p.order < g.nextOrder {
      var i :| 0 <= i < |b| && b[i] == p;
      if i < |a| {
        assert b[..|a|][i] == a[i];
        assert a[i] in a;
      }
    }
  }
}
