/** The second hop on a star: a broadcast due at the relay puts a copy of itself in flight to every live
    connector but its origin, and the copy keeps the same latency. With any faults and any permutation. */
module TwoHops {
  import opened Inboxes
  import opened Loopback
  import opened Conservation
  import opened Latency

  // ---------------------------------------------------------------- armed faults stay or are spent

  ghost predicate ArmedKept(h: Hub, g: Hub, f: nat, t: nat) {
    PipeOf(g, f, t).armed == PipeOf(h, f, t).armed || PipeOf(g, f, t).armed.Unarmed?
  }

  lemma AdmitArmed(h: Hub, from: nat, to: nat, p: Pending, stats: Stats, f: nat, t: nat)
    ensures ArmedKept(h, Admit(h, from, to, p, stats), f, t)
  {
  }

  lemma VanishArmed(h: Hub, from: nat, to: nat, stats: Stats, f: nat, t: nat)
    ensures ArmedKept(h, Vanish(h, from, to, stats), f, t)
  {
  }

  lemma EnqueueArmed(h: Hub, from: nat, to: nat, bytes: Message, origin: nat, everyone: bool, f: nat, t: nat)
    ensures ArmedKept(h, Enqueue(h, from, to, bytes, origin, everyone), f, t)
  {
    hide Corrupted, Admit, Vanish, ArmedKept, PipeOf, PollsOf;
    forall p, stats ensures ArmedKept(h, Admit(h, from, to, p, stats), f, t) {
      AdmitArmed(h, from, to, p, stats, f, t);
    }
    forall stats ensures ArmedKept(h, Vanish(h, from, to, stats), f, t) {
      VanishArmed(h, from, to, stats, f, t);
    }
  }

  lemma {:induction false} RelayArmed(h: Hub, origin: nat, bytes: Message, to: nat, f: nat, t: nat)
    ensures ArmedKept(h, RelayTo(h, origin, bytes, to), f, t)
    decreases h.peers - to
  {
    hide Enqueue;
    if to < h.peers {
      if to == origin || to in h.lost {
        RelayArmed(h, origin, bytes, to + 1, f, t);
      } else {
        EnqueueArmed(h, 0, to, bytes, origin, false, f, t);
        EnqueueGrew(h, 0, to, bytes, origin, false, f, t);
        RelayArmed(Enqueue(h, 0, to, bytes, origin, false), origin, bytes, to + 1, f, t);
      }
    }
  }

  lemma DeliverOneArmed(h: Hub, from: nat, peer: nat, p: Pending, f: nat, t: nat)
    ensures ArmedKept(h, DeliverOne(h, from, peer, p), f, t)
  {
    RelayArmed(h.(relayed := h.relayed + [CopyOf(p)]), p.origin, p.bytes, 1, f, t);
    hide RelayTo;
  }

  lemma {:induction false} DeliverAllArmed(h: Hub, from: nat, peer: nat, batch: seq<Pending>, f: nat, t: nat)
    ensures ArmedKept(h, DeliverAll(h, from, peer, batch), f, t)
    decreases |batch|
  {
    hide DeliverOne;
    if batch != [] {
      DeliverOneArmed(h, from, peer, batch[0], f, t);
      DeliverAllArmed(DeliverOne(h, from, peer, batch[0]), from, peer, batch[1..], f, t);
    }
  }

  lemma TakeDueArmed(h: Hub, from: nat, peer: nat, draw: Draw, f: nat, t: nat)
    ensures ArmedKept(h, TakeDue(h, from, peer, draw).0, f, t)
  {
    hide Shuffle, Kept, Due;
  }

  lemma {:induction false} PumpPipesArmed(h: Hub, peer: nat, count: nat, draw: Draw, f: nat, t: nat)
    ensures ArmedKept(h, PumpPipes(h, peer, count, draw), f, t)
    decreases count
  {
    hide TakeDue, DeliverAll;
    if count > 0 {
      PumpPipesArmed(h, peer, count - 1, draw, f, t);
      var h1 := PumpPipes(h, peer, count - 1, draw);
      if count - 1 != peer {
        var (h2, batch) := TakeDue(h1, count - 1, peer, draw);
        TakeDueArmed(h1, count - 1, peer, draw, f, t);
        DeliverAllArmed(h2, count - 1, peer, batch, f, t);
      }
    }
  }

  // ---------------------------------------------------------------- the copy

  /** In the relay's pipe to `q`, the copy of `e` it makes from state `h` on: a new message, due `latency`
      polls from where `q` was, its bytes those of `e` unless a fault was armed to damage them. */
  ghost predicate IsCopy(h: Hub, g: Hub, q: nat, e: Pending, c: Pending) {
    && c in InFlight(g, 0, q) && Tagged(g, 0, q, c) && h.nextOrder <= c.order
    && c.origin == e.origin && !c.everyone && c.release == PollsOf(h, q) + h.latency
    && (PipeOf(h, 0, q).armed.Unarmed? ==> c.bytes == e.bytes)
    && (c.bytes == e.bytes || c.bytes == Corrupted(e.bytes))
  }

  ghost predicate Copied(h: Hub, g: Hub, q: nat, e: Pending) {
    exists c :: IsCopy(h, g, q, e, c)
  }

  ghost predicate Ready(h: Hub, q: nat) {
    0 < q < h.peers && q !in h.lost && Below(h, 0, q) && Passes(h, 0, q)
  }

  /** What follows in the pipe leaves the copy where it is. */
  lemma CopiedStays(h: Hub, g: Hub, k: Hub, q: nat, e: Pending)
    requires Copied(h, g, q, e) && Grew(g, k, 0, q) && g.nextOrder <= k.nextOrder
    ensures Copied(h, k, q, e)
  {
    var c :| IsCopy(h, g, q, e, c);
    GrewKeepsTag(g, k, 0, q, c);
    assert IsCopy(h, k, q, e, c);
  }

  /** What came before leaves the relay ready. */
  lemma CopiedLater(h: Hub, g: Hub, k: Hub, q: nat, e: Pending)
    requires Ready(h, q) && SameClock(h, g) && Grew(h, g, 0, q) && ArmedKept(h, g, 0, q)
    ensures Ready(g, q) && (Copied(g, k, q, e) ==> Copied(h, k, q, e))
  {
    GrewKeepsBelow(h, g, 0, q);
    if Copied(g, k, q, e) {
      var c :| IsCopy(g, k, q, e, c);
      assert IsCopy(h, k, q, e, c);
    }
  }

  lemma EnqueueCopies(h: Hub, q: nat, e: Pending)
    requires Ready(h, q)
    ensures Copied(h, Enqueue(h, 0, q, e.bytes, e.origin, false), q, e)
  {
    EnqueueCarries(h, 0, q, e.bytes, e.origin, false);
    var g := Enqueue(h, 0, q, e.bytes, e.origin, false);
    hide Enqueue, Corrupted;
    assert IsCopy(h, g, q, e, Carried(h, 0, q, e.bytes, e.origin, false));
  }

  lemma {:induction false} RelayCopies(h: Hub, e: Pending, to: nat, q: nat)
    requires Ready(h, q) && 1 <= to <= q && q != e.origin
    ensures Copied(h, RelayTo(h, e.origin, e.bytes, to), q, e)
    decreases h.peers - to
  {
    hide Enqueue, Copied, Ready, Grew, ArmedKept;
    assert q < h.peers && q !in h.lost by { ReadyIs(h, q); }
    if to == e.origin || to in h.lost {
      RelayCopies(h, e, to + 1, q);
    } else {
      var h1 := Enqueue(h, 0, to, e.bytes, e.origin, false);
      EnqueueGrew(h, 0, to, e.bytes, e.origin, false, 0, q);
      RelayGrew(h1, e.origin, e.bytes, to + 1, 0, q);
      var g := RelayTo(h1, e.origin, e.bytes, to + 1);
      if to == q {
        EnqueueCopies(h, q, e);
        CopiedStays(h, h1, g, q, e);
      } else {
        EnqueueArmed(h, 0, to, e.bytes, e.origin, false, 0, q);
        CopiedLater(h, h1, g, q, e);
        RelayCopies(h1, e, to + 1, q);
      }
    }
  }

  lemma ReadyIs(h: Hub, q: nat)
    requires Ready(h, q)
    ensures 0 < q < h.peers && q !in h.lost
  {
  }

  lemma DeliverOneCopies(h: Hub, from: nat, e: Pending, q: nat)
    requires Ready(h, q) && e.everyone && q != e.origin
    ensures Copied(h, DeliverOne(h, from, 0, e), q, e)
  {
    var h1 := h.(relayed := h.relayed + [CopyOf(e)]);
    RelayCopies(h1, e, 1, q);
    var g := RelayTo(h1, e.origin, e.bytes, 1);
    hide RelayTo, Offer;
    assert InFlight(DeliverOne(h, from, 0, e), 0, q) == InFlight(g, 0, q);
    var c :| IsCopy(h1, g, q, e, c);
    hide Corrupted;
    assert IsCopy(h, DeliverOne(h, from, 0, e), q, e, c);
  }

  lemma {:induction false} DeliverAllCopies(h: Hub, from: nat, batch: seq<Pending>, e: Pending, q: nat)
    requires Ready(h, q) && e.everyone && q != e.origin && e in batch
    ensures Copied(h, DeliverAll(h, from, 0, batch), q, e)
    decreases |batch|
  {
    hide DeliverOne, Ready, Copied, Grew, ArmedKept;
    var h1 := DeliverOne(h, from, 0, batch[0]);
    var g := DeliverAll(h1, from, 0, batch[1..]);
    DeliverOneGrew(h, from, 0, batch[0], 0, q);
    DeliverAllGrew(h1, from, 0, batch[1..], 0, q);
    if batch[0] == e {
      DeliverOneCopies(h, from, e, q);
      CopiedStays(h, h1, g, q, e);
    } else {
      DeliverOneArmed(h, from, 0, batch[0], 0, q);
      CopiedLater(h, h1, g, q, e);
      DeliverAllCopies(h1, from, batch[1..], e, q);
    }
  }

  /** A message that is due is in the batch, wherever the permutation puts it. */
  lemma DueIsTaken(h: Hub, from: nat, peer: nat, draw: Draw, e: Pending)
    requires e in InFlight(h, from, peer) && IsDue(e, PollsOf(h, peer))
    ensures e in TakeDue(h, from, peer, draw).1
  {
    DueAndKept(InFlight(h, from, peer), PollsOf(h, peer));
    var due := Due(InFlight(h, from, peer), PollsOf(h, peer));
    hide Due, Kept, IsDue;
    assert e in due && e in multiset(due);
    assert e in multiset(TakeDue(h, from, peer, draw).1);
  }

  lemma {:induction false} PumpPipesCopies(h: Hub, count: nat, draw: Draw, p: nat, e: Pending, q: nat)
    requires Ready(h, q) && e.everyone && q != e.origin
    requires e in InFlight(h, p, 0) && IsDue(e, PollsOf(h, 0)) && 0 < p < count
    ensures Copied(h, PumpPipes(h, 0, count, draw), q, e)
    decreases count
  {
    var from, h1 := count - 1, PumpPipes(h, 0, count - 1, draw);
    var (h2, batch) := TakeDue(h1, from, 0, draw);
    var g := DeliverAll(h2, from, 0, batch);
    assert g == PumpPipes(h, 0, count, draw);
    PumpPipesTake(h, 0, count - 1, draw, 0, q);
    PumpPipesTake(h, 0, count - 1, draw, p, 0);
    TakeDueTakes(h1, from, 0, draw, 0, q);
    DeliverAllGrew(h2, from, 0, batch, 0, q);
    if from == p {
      DueIsTaken(h1, from, 0, draw, e);
      PumpPipesArmed(h, 0, count - 1, draw, 0, q);
      TakeDueArmed(h1, from, 0, draw, 0, q);
      hide TakeDue, DeliverAll, PumpPipes, Ready, Copied, ArmedKept, Grew, Kept;
      TakenReady(h, h1, h2, g, q, e);
      DeliverAllCopies(h2, from, batch, e, q);
    } else {
      hide TakeDue, DeliverAll, Ready, Copied, Grew, Kept;
      PumpPipesCopies(h, count - 1, draw, p, e, q);
      TakenStays(h, h1, h2, g, q, e);
    }
  }

  lemma TakenReady(h: Hub, h1: Hub, h2: Hub, g: Hub, q: nat, e: Pending)
    requires Ready(h, q) && SameClock(h, h1) && Grew(h, h1, 0, q) && ArmedKept(h, h1, 0, q)
    requires SameClock(h1, h2) && InFlight(h2, 0, q) == InFlight(h1, 0, q) && ArmedKept(h1, h2, 0, q)
    ensures Ready(h2, q) && (Copied(h2, g, q, e) ==> Copied(h, g, q, e))
  {
    assert Grew(h1, h2, 0, q);
    hide Copied, Ready, ArmedKept, Grew;
    CopiedLater(h, h1, g, q, e);
    CopiedLater(h1, h2, g, q, e);
  }

  lemma TakenStays(h: Hub, h1: Hub, h2: Hub, g: Hub, q: nat, e: Pending)
    requires Copied(h, h1, q, e) && InFlight(h2, 0, q) == InFlight(h1, 0, q) && h1.nextOrder == h2.nextOrder
    requires Grew(h2, g, 0, q) && h2.nextOrder <= g.nextOrder
    ensures Copied(h, g, q, e)
  {
    assert Grew(h1, h2, 0, q);
    hide Copied, Grew;
    CopiedStays(h, h1, h2, q, e);
    CopiedStays(h, h2, g, q, e);
  }

  /** A broadcast due at the relay's next poll is passed on in that poll to every live connector but its
      origin, and the copy stays in flight exactly until that connector's (latency + 1)-th later poll. */
  lemma ForwardedOnTime(h: Hub, p: nat, q: nat, e: Pending, ops: seq<Operation>, draw: Draw)
    requires Ready(h, q) && 0 !in h.lost && 0 < p < h.peers && q != e.origin
    requires e in InFlight(h, p, 0) && e.everyone && IsDue(e, PollsOf(h, 0) + 1)
    requires forall i :: 0 <= i < |ops| ==> !Loses(ops[i], 0, q) && Sensible(ops[i], h.peers)
    ensures var g := Pump(h, 0, draw);
      exists c :: IsCopy(h, g, q, e, c) && (c in InFlight(Run(g, ops, draw), 0, q) <==> Pumps(ops, q) <= h.latency)
  {
    var h1, g := Polled(h, 0), Pump(h, 0, draw);
    PolledMoves(h, 0, p, 0);
    PolledMoves(h, 0, 0, q);
    PumpMoves(h, 0, draw, 0, q);
    assert Ready(h1, q) && g == PumpPipes(h1, 0, h.peers, draw);
    hide PumpPipes, Pump, Ready, Grew, Tagged, Corrupted;
    PumpPipesCopies(h1, h.peers, draw, p, e, q);
    var c :| IsCopy(h1, g, q, e, c);
    assert IsCopy(h, g, q, e, c);
    RunFollows(g, ops, draw, 0, q, c);
  }

  /** Both hops: a broadcast made by one connector reaches the relay on its (latency + 1)-th later poll, and
      in that poll is sent on to another, which gets it on its own (latency + 1)-th poll after that. */
  lemma BroadcastArrives(h: Hub, p: nat, q: nat, bytes: Message, ops: seq<Operation>, more: seq<Operation>, draw: Draw)
    requires h.star && 0 < p < h.peers && 0 < q < h.peers && p != q && {0, p, q} !! h.lost
    requires Below(h, p, 0) && Below(h, 0, q) && Passes(h, p, 0)
    requires forall i :: 0 <= i < |ops| ==> NoneLost(ops[i], p, q) && Sensible(ops[i], h.peers)
    requires forall i :: 0 <= i < |more| ==> NoneLost(more[i], p, q) && Sensible(more[i], h.peers)
    requires Pumps(ops, 0) == h.latency && Passes(Run(Broadcast(h, p, bytes).0, ops, draw), 0, q)
    ensures var h1 := Run(Broadcast(h, p, bytes).0, ops, draw);
      var g, e := Pump(h1, 0, draw), Carried(h, p, 0, bytes, p, true);
      && e in InFlight(h1, p, 0) && e !in InFlight(g, p, 0)
      && exists c :: IsCopy(h1, g, q, e, c) && (c in InFlight(Run(g, more, draw), 0, q) <==> Pumps(more, q) <= h.latency)
  {
    var h0, e := Enqueue(h, p, 0, bytes, p, true), Carried(h, p, 0, bytes, p, true);
    assert h0 == Broadcast(h, p, bytes).0;
    var h1 := Run(h0, ops, draw);
    EnqueueCarries(h, p, 0, bytes, p, true);
    EnqueueGrew(h, p, 0, bytes, p, true, p, 0);
    EnqueueGrew(h, p, 0, bytes, p, true, 0, q);
    assert e.everyone && e.origin == p && !e.held && e.release == PollsOf(h, 0) + h.latency;
    hide Enqueue, Carried, Passes, Tagged, Broadcast;
    RunFollows(h0, ops, draw, p, 0, e);
    RunKeeps(h0, ops, draw, p, q);
    var g := Pump(h1, 0, draw);
    PumpMoves(h1, 0, draw, p, 0);
    DueAndKept(InFlight(h1, p, 0), PollsOf(g, 0));
    hide Run, Pump, Kept, Due, Grew, IsCopy;
    ForwardedOnTime(h1, p, q, e, more, draw);
  }

  predicate NoneLost(op: Operation, p: nat, q: nat) {
    !Loses(op, p, 0) && !Loses(op, 0, q)
  }

  lemma {:induction false} RunKeeps(h: Hub, ops: seq<Operation>, draw: Draw, p: nat, q: nat)
    requires 0 < q < h.peers && Below(h, 0, q) && {0, q} !! h.lost
    requires forall i :: 0 <= i < |ops| ==> NoneLost(ops[i], p, q) && Sensible(ops[i], h.peers)
    ensures var g := Run(h, ops, draw);
      Below(g, 0, q) && g.peers == h.peers && g.latency == h.latency && {0, q} !! g.lost
    decreases |ops|
  {
    if ops != [] {
      StepKeepsBelow(h, ops[0], draw, 0, q);
      StepMoves(h, ops[0], draw, 0, q);
      StepMoves(h, ops[0], draw, q, 0);
      hide Step, Below, Grew, Kept;
      RunKeeps(Step(h, ops[0], draw), ops[1..], draw, p, q);
    }
  }
}
