/** Facts about the loopback that hold under every fault, hold, permutation and topology: no message
    is made or lost unaccounted, and latency is exact. */
module Conservation {
  import opened Inboxes
  import opened Loopback

  // ---------------------------------------------------------------- counting what is in flight

  function RowTotal(h: Hub, from: nat, count: nat): nat {
    if count == 0 then 0 else RowTotal(h, from, count - 1) + |InFlight(h, from, count - 1)|
  }

  function Total(h: Hub, rows: nat): nat {
    if rows == 0 then 0 else Total(h, rows - 1) + RowTotal(h, rows - 1, h.peers)
  }

  /** Every message handed to the hub is dropped, delivered, refused, discarded with a lost peer, still in
      a pipe, or one of the `hand` just taken out of one. */
  ghost predicate Balanced(h: Hub, hand: nat) {
    h.stats.sent == h.stats.dropped + h.stats.delivered + h.stats.refused + h.discarded + Total(h, h.peers) + hand
  }

  ghost predicate OnlyPipeDiffers(h: Hub, g: Hub, from: nat, to: nat) {
    g.peers == h.peers && forall f: nat, t: nat :: (f, t) != (from, to) ==> InFlight(g, f, t) == InFlight(h, f, t)
  }

  lemma {:induction false} RowChanges(h: Hub, g: Hub, from: nat, to: nat, row: nat, count: nat)
    requires OnlyPipeDiffers(h, g, from, to)
    ensures RowTotal(g, row, count) - RowTotal(h, row, count)
      == if row == from && to < count then |InFlight(g, from, to)| - |InFlight(h, from, to)| else 0
    decreases count
  {
    if count > 0 {
      RowChanges(h, g, from, to, row, count - 1);
    }
  }

  lemma {:induction false} TotalChanges(h: Hub, g: Hub, from: nat, to: nat, rows: nat)
    requires OnlyPipeDiffers(h, g, from, to) && to < h.peers
    ensures Total(g, rows) - Total(h, rows)
      == if from < rows then |InFlight(g, from, to)| - |InFlight(h, from, to)| else 0
    decreases rows
  {
    if rows > 0 {
      TotalChanges(h, g, from, to, rows - 1);
      RowChanges(h, g, from, to, rows - 1, h.peers);
    }
  }

  // ---------------------------------------------------------------- conservation, step by step

  lemma EnqueueBalanced(h: Hub, from: nat, to: nat, bytes: Message, origin: nat, everyone: bool, hand: nat)
    requires Balanced(h, hand) && from < h.peers && to < h.peers
    ensures var g := Enqueue(h, from, to, bytes, origin, everyone);
      Balanced(g, hand) && g.peers == h.peers
  {
    EnqueueCounts(h, from, to, bytes, origin, everyone);
    hide Enqueue, Total;
    TotalChanges(h, Enqueue(h, from, to, bytes, origin, everyone), from, to, h.peers);
  }

  ghost predicate OneMore(h: Hub, g: Hub, from: nat, to: nat) {
    && OnlyPipeDiffers(h, g, from, to) && g.discarded == h.discarded
    && g.stats.sent == h.stats.sent + 1 && g.stats.delivered == h.stats.delivered
    && g.stats.refused == h.stats.refused
    && g.stats.dropped + |InFlight(g, from, to)| == h.stats.dropped + |InFlight(h, from, to)| + 1
  }

  ghost predicate CountsOne(h: Hub, stats: Stats, dropped: nat) {
    && stats.sent == h.stats.sent + 1 && stats.dropped == h.stats.dropped + dropped
    && stats.delivered == h.stats.delivered && stats.refused == h.stats.refused
  }

  lemma AdmitCounts(h: Hub, from: nat, to: nat, p: Pending, stats: Stats)
    requires CountsOne(h, stats, 0)
    ensures OneMore(h, Admit(h, from, to, p, stats), from, to)
  {
  }

  lemma VanishCounts(h: Hub, from: nat, to: nat, stats: Stats)
    requires CountsOne(h, stats, 1)
    ensures OneMore(h, Vanish(h, from, to, stats), from, to)
  {
  }

  lemma EnqueueCounts(h: Hub, from: nat, to: nat, bytes: Message, origin: nat, everyone: bool)
    ensures OneMore(h, Enqueue(h, from, to, bytes, origin, everyone), from, to)
  {
    hide Corrupted, Admit, Vanish, OneMore, PipeOf, PollsOf;
    forall p, stats | CountsOne(h, stats, 0) ensures OneMore(h, Admit(h, from, to, p, stats), from, to) {
      AdmitCounts(h, from, to, p, stats);
    }
    forall stats | CountsOne(h, stats, 1) ensures OneMore(h, Vanish(h, from, to, stats), from, to) {
      VanishCounts(h, from, to, stats);
    }
  }

  lemma {:induction false} RelayBalanced(h: Hub, origin: nat, bytes: Message, to: nat, hand: nat)
    requires Balanced(h, hand) && h.peers > 0
    ensures var g := RelayTo(h, origin, bytes, to);
      Balanced(g, hand) && g.peers == h.peers
    decreases h.peers - to
  {
    hide Balanced, Enqueue;
    if to < h.peers {
      if to == origin || to in h.lost {
        RelayBalanced(h, origin, bytes, to + 1, hand);
      } else {
        EnqueueBalanced(h, 0, to, bytes, origin, false, hand);
        RelayBalanced(Enqueue(h, 0, to, bytes, origin, false), origin, bytes, to + 1, hand);
      }
    }
  }

  lemma {:induction false} SendToEachBalanced(h: Hub, from: nat, bytes: Message, peer: nat)
    requires Balanced(h, 0)
    ensures var g := SendToEach(h, from, bytes, peer).0;
      Balanced(g, 0) && g.peers == h.peers
    decreases h.peers - peer
  {
    hide Balanced, Send;
    if peer < h.peers {
      if peer != from {
        SendBalanced(h, from, peer, bytes);
        SendToEachBalanced(Send(h, from, peer, bytes).0, from, bytes, peer + 1);
      } else {
        SendToEachBalanced(h, from, bytes, peer + 1);
      }
    }
  }

  lemma SendBalanced(h: Hub, from: nat, to: nat, bytes: Message)
    requires Balanced(h, 0)
    ensures var g := Send(h, from, to, bytes).0;
      Balanced(g, 0) && g.peers == h.peers
  {
    if from < h.peers && to < h.peers {
      EnqueueBalanced(h, from, to, bytes, from, false, 0);
    }
  }

  lemma {:induction false} DueAndKept(s: seq<Pending>, now: nat)
    ensures |Due(s, now)| + |Kept(s, now)| == |s|
    ensures forall p :: p in Due(s, now) <==> p in s && IsDue(p, now)
    ensures forall p :: p in Kept(s, now) <==> p in s && !IsDue(p, now)
  {
    if s != [] {
      DueAndKept(s[1..], now);
      assert s == [s[0]] + s[1..];
    }
  }

  lemma TakeBalanced(h: Hub, from: nat, peer: nat, draw: Draw)
    requires Balanced(h, 0) && from < h.peers && peer < h.peers
    ensures var (g, batch) := TakeDue(h, from, peer, draw);
      Balanced(g, |batch|) && g.peers == h.peers
  {
    var (g, batch) := TakeDue(h, from, peer, draw);
    var due := Due(InFlight(h, from, peer), PollsOf(h, peer));
    DueAndKept(InFlight(h, from, peer), PollsOf(h, peer));
    hide Total, Due, Kept;
    assert multiset(batch) == multiset(due);
    assert |batch| == |multiset(batch)| && |due| == |multiset(due)|;
    TotalChanges(h, g, from, peer, h.peers);
  }

  lemma DeliverOneBalanced(h: Hub, from: nat, peer: nat, p: Pending, hand: nat)
    requires Balanced(h, hand + 1) && h.peers > 0
    ensures var g := DeliverOne(h, from, peer, p);
      Balanced(g, hand) && g.peers == h.peers
  {
    var h1 := h;
    if p.everyone && peer == 0 {
      h1 := h.(relayed := h.relayed + [CopyOf(p)]);
      SameTotal(h, h1, h.peers);
      RelayBalanced(h1, p.origin, p.bytes, 1, hand + 1);
      h1 := RelayTo(h1, p.origin, p.bytes, 1);
    }
    SameTotal(h1, File(h1, from, peer, p), h.peers);
  }

  lemma {:induction false} SameTotal(h: Hub, g: Hub, rows: nat)
    requires g.pipes == h.pipes && g.peers == h.peers
    ensures Total(g, rows) == Total(h, rows)
    decreases rows
  {
    if rows > 0 {
      SameTotal(h, g, rows - 1);
      RowChanges(h, g, rows, 0, rows - 1, h.peers);
    }
  }

  lemma {:induction false} DeliverAllBalanced(h: Hub, from: nat, peer: nat, batch: seq<Pending>)
    requires Balanced(h, |batch|) && h.peers > 0
    ensures var g := DeliverAll(h, from, peer, batch);
      Balanced(g, 0) && g.peers == h.peers
    decreases |batch|
  {
    hide Balanced, DeliverOne;
    if batch != [] {
      DeliverOneBalanced(h, from, peer, batch[0], |batch| - 1);
      DeliverAllBalanced(DeliverOne(h, from, peer, batch[0]), from, peer, batch[1..]);
    }
  }

  lemma {:induction false} PumpPipesBalanced(h: Hub, peer: nat, count: nat, draw: Draw)
    requires Balanced(h, 0) && peer < h.peers && count <= h.peers
    ensures var g := PumpPipes(h, peer, count, draw);
      Balanced(g, 0) && g.peers == h.peers
    decreases count
  {
    hide Balanced, TakeDue, DeliverAll;
    if count > 0 {
      PumpPipesBalanced(h, peer, count - 1, draw);
      var h1 := PumpPipes(h, peer, count - 1, draw);
      if count - 1 != peer {
        TakeBalanced(h1, count - 1, peer, draw);
        var (h2, batch) := TakeDue(h1, count - 1, peer, draw);
        DeliverAllBalanced(h2, count - 1, peer, batch);
      }
    }
  }

  lemma ClearPipeBalanced(h: Hub, from: nat, to: nat)
    requires Balanced(h, 0) && from < h.peers && to < h.peers
    ensures Balanced(ClearPipe(h, from, to), 0) && ClearPipe(h, from, to).peers == h.peers
  {
    TotalChanges(h, ClearPipe(h, from, to), from, to, h.peers);
  }

  lemma {:induction false} ClearPipesBalanced(h: Hub, peer: nat, count: nat)
    requires Balanced(h, 0) && peer < h.peers && count <= h.peers
    ensures var g := ClearPipes(h, peer, count);
      Balanced(g, 0) && g.peers == h.peers
    decreases count
  {
    hide Balanced, ClearPipe;
    if count > 0 {
      ClearPipesBalanced(h, peer, count - 1);
      if count - 1 != peer {
        var h1 := ClearPipes(h, peer, count - 1);
        ClearPipeBalanced(h1, peer, count - 1);
        ClearPipeBalanced(ClearPipe(h1, peer, count - 1), count - 1, peer);
      }
    }
  }

  lemma {:induction false} ReleaseSameTotal(h: Hub, g: Hub, rows: nat)
    requires g.peers == h.peers && forall f: nat, t: nat :: |InFlight(g, f, t)| == |InFlight(h, f, t)|
    ensures Total(g, rows) == Total(h, rows)
    decreases rows
  {
    if rows > 0 {
      ReleaseSameTotal(h, g, rows - 1);
      ReleaseSameRow(h, g, rows - 1, h.peers);
    }
  }

  lemma {:induction false} ReleaseSameRow(h: Hub, g: Hub, row: nat, count: nat)
    requires forall f: nat, t: nat :: |InFlight(g, f, t)| == |InFlight(h, f, t)|
    ensures RowTotal(g, row, count) == RowTotal(h, row, count)
    decreases count
  {
    if count > 0 {
      ReleaseSameRow(h, g, row, count - 1);
    }
  }

  lemma StepBalanced(h: Hub, op: Operation, draw: Draw)
    requires Balanced(h, 0) && h.peers > 0 && Sensible(op, h.peers)
    ensures Balanced(Step(h, op, draw), 0) && Step(h, op, draw).peers == h.peers
  {
    hide PumpPipes, ClearPipes, SendToEach, RelayTo, Enqueue, Total, ReleaseHeld, DrainBox, ArmFault, InFlight;
    match op
    case DoSend(from, to, bytes) => SendBalanced(h, from, to, bytes);
    case DoBroadcast(from, bytes) =>
      if !h.star {
        SendToEachBalanced(h, from, bytes, 0);
      } else if from == 0 {
        RelayBalanced(h, 0, bytes, 1, 0);
      } else if from < h.peers {
        EnqueueBalanced(h, from, 0, bytes, from, true, 0);
      }
    case DoPump(peer) =>
      SameTotal(h, Polled(h, peer), h.peers);
      PumpPipesBalanced(Polled(h, peer), peer, h.peers, draw);
    case DoLose(peer) =>
      if peer < h.peers {
        SameTotal(h, h.(lost := h.lost + {peer}), h.peers);
        ClearPipesBalanced(h.(lost := h.lost + {peer}), peer, h.peers);
      }
    case DoArm(from, to, fault) =>
      ArmBalanced(h, from, to, fault);
    case DoRelease => ReleaseBalanced(h);
    case DoDrain(peer, origin) => DrainBalanced(h, peer, origin);
  }

  lemma ArmBalanced(h: Hub, from: nat, to: nat, fault: Fault)
    requires Balanced(h, 0) && h.peers > 0
    ensures Balanced(ArmFault(h, from, to, fault).0, 0) && ArmFault(h, from, to, fault).0.peers == h.peers
  {
    hide Total;
    if from < h.peers && to < h.peers {
      TotalChanges(h, ArmFault(h, from, to, fault).0, from, to, h.peers);
    }
  }

  lemma ReleaseBalanced(h: Hub)
    requires Balanced(h, 0) && h.peers > 0
    ensures Balanced(ReleaseHeld(h), 0) && ReleaseHeld(h).peers == h.peers
  {
    hide Total;
    assert forall f: nat, t: nat :: |InFlight(ReleaseHeld(h), f, t)| == |InFlight(h, f, t)|;
    ReleaseSameTotal(h, ReleaseHeld(h), h.peers);
  }

  lemma DrainBalanced(h: Hub, peer: nat, origin: nat)
    requires Balanced(h, 0) && h.peers > 0
    ensures Balanced(DrainBox(h, peer, origin), 0) && DrainBox(h, peer, origin).peers == h.peers
  {
    hide Total;
    SameTotal(h, DrainBox(h, peer, origin), h.peers);
  }

  /** Messages are conserved over every run from a balanced state. */
  lemma {:induction false} RunConserves(h: Hub, ops: seq<Operation>, draw: Draw)
    requires Balanced(h, 0) && h.peers > 0 && forall i :: 0 <= i < |ops| ==> Sensible(ops[i], h.peers)
    ensures Balanced(Run(h, ops, draw), 0)
    decreases |ops|
  {
    if ops != [] {
      StepBalanced(h, ops[0], draw);
      RunConserves(Step(h, ops[0], draw), ops[1..], draw);
    }
  }

  /** So from the start on, whatever is sent, lost, armed, held or permuted: every message handed to the hub
      is dropped, delivered, refused, discarded with a lost peer, or still in a pipe. */
  lemma EveryRunConserves(peers: nat, star: bool, latency: nat, reorder: bool, ops: seq<Operation>, draw: Draw)
    requires peers > 0 && forall i :: 0 <= i < |ops| ==> Sensible(ops[i], peers)
    ensures var h := Run(Initial(peers, star, latency, reorder), ops, draw);
      h.stats.sent
        == h.stats.dropped + h.stats.delivered + h.stats.refused + h.discarded + Total(h, h.peers)
  {
    hide Run, Total;
    InitialBalanced(peers, star, latency, reorder);
    RunConserves(Initial(peers, star, latency, reorder), ops, draw);
  }

  lemma InitialBalanced(peers: nat, star: bool, latency: nat, reorder: bool)
    ensures Balanced(Initial(peers, star, latency, reorder), 0)
  {
    EmptyTotal(Initial(peers, star, latency, reorder), peers);
  }

  lemma {:induction false} EmptyTotal(h: Hub, rows: nat)
    requires forall f: nat, t: nat :: InFlight(h, f, t) == []
    ensures Total(h, rows) == 0
    decreases rows
  {
    if rows > 0 {
      EmptyTotal(h, rows - 1);
      EmptyRow(h, rows - 1, h.peers);
    }
  }

  lemma {:induction false} EmptyRow(h: Hub, row: nat, count: nat)
    requires forall f: nat, t: nat :: InFlight(h, f, t) == []
    ensures RowTotal(h, row, count) == 0
    decreases count
  {
    if count > 0 {
      EmptyRow(h, row, count - 1);
    }
  }
}
