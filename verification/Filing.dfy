/** What an inbox holds in every run, whatever the faults, holds, permutations and topology: a beginning of
    what its peer was handed of that origin, in that order, cut short only where the inbox overflowed. */
module Filing {
  import opened Inboxes
  import opened Loopback
  import opened Conservation
  import opened Latency
  import opened StarRelay
  import opened Survivors

  /** Which pipe brings `origin`'s messages to peer `t`: on a star, the relay's unless `t` is the relay. */
  function Source(star: bool, t: nat, origin: nat): nat { if star && t != 0 then 0 else origin }

  predicate Fits(star: bool, f: nat, t: nat, p: Pending) {
    f == Source(star, t, p.origin) && (p.everyone ==> star)
  }

  /** Every message in flight is in the pipe its origin's messages come by. */
  ghost predicate Fitting(h: Hub) {
    forall f: nat, t: nat, p :: p in InFlight(h, f, t) ==> Fits(h.star, f, t, p)
  }

  /** What that pipe has handed `t` as `o`'s, in the order it was handed over. */
  function HandedAs(h: Hub, t: nat, o: nat): seq<Message> { MessagesOf(Handed(h, Source(h.star, t, o), t), o) }

  ghost predicate BoxHolds(h: Hub, t: nat, o: nat) {
    var box := BoxOf(h, t, o);
    Stream(box) <= HandedAs(h, t, o) && (box.overflowed <==> Stream(box) != HandedAs(h, t, o))
  }

  ghost predicate NoneBy(h: Hub, f: nat, t: nat, o: nat) {
    f != Source(h.star, t, o) ==> MessagesOf(Handed(h, f, t), o) == []
  }

  ghost predicate HoldsHanded(h: Hub, t: nat, o: nat) {
    BoxHolds(h, t, o) && forall f: nat :: NoneBy(h, f, t, o)
  }

  /** The inbox and the log stay as they are. */
  lemma SameHolds(h: Hub, g: Hub, t: nat, o: nat)
    requires HoldsHanded(h, t, o) && g.handedLog == h.handedLog && g.star == h.star
    requires Stream(BoxOf(g, t, o)) == Stream(BoxOf(h, t, o)) && BoxOf(g, t, o).overflowed == BoxOf(h, t, o).overflowed
    ensures HoldsHanded(g, t, o)
  {
    hide MessagesOf, Stream;
    forall f: nat ensures NoneBy(g, f, t, o) {
      assert NoneBy(h, f, t, o);
    }
  }

  // ---------------------------------------------------------------- one message in

  ghost predicate KeepsFiling(h: Hub, g: Hub) {
    g.boxes == h.boxes && g.handedLog == h.handedLog && g.star == h.star && (Fitting(h) ==> Fitting(g))
  }

  lemma KeptFiling(h: Hub, g: Hub, t: nat, o: nat)
    requires KeepsFiling(h, g) && HoldsHanded(h, t, o)
    ensures HoldsHanded(g, t, o)
  {
    hide HoldsHanded, Fitting;
    SameHolds(h, g, t, o);
  }

  lemma AdmitFiling(h: Hub, from: nat, to: nat, p: Pending, stats: Stats)
    requires Fits(h.star, from, to, p)
    ensures KeepsFiling(h, Admit(h, from, to, p, stats))
  {
    hide Fits;
    var g := Admit(h, from, to, p, stats);
    if Fitting(h) {
      forall f: nat, t: nat, q | q in InFlight(g, f, t) ensures Fits(g.star, f, t, q) {
        assert q in InFlight(h, f, t) || (q == p && (f, t) == (from, to));
      }
    }
  }

  lemma VanishFiling(h: Hub, from: nat, to: nat, stats: Stats)
    ensures KeepsFiling(h, Vanish(h, from, to, stats))
  {
    hide Fits;
    var g := Vanish(h, from, to, stats);
    assert forall f: nat, t: nat :: InFlight(g, f, t) == InFlight(h, f, t);
  }

  lemma EnqueueFiling(h: Hub, from: nat, to: nat, bytes: Message, origin: nat, everyone: bool)
    requires from == Source(h.star, to, origin) && (everyone ==> h.star)
    ensures KeepsFiling(h, Enqueue(h, from, to, bytes, origin, everyone))
  {
    hide Corrupted, Admit, Vanish, KeepsFiling, PipeOf, PollsOf;
    forall p: Pending, stats | Fits(h.star, from, to, p) ensures KeepsFiling(h, Admit(h, from, to, p, stats)) {
      AdmitFiling(h, from, to, p, stats);
    }
    forall stats ensures KeepsFiling(h, Vanish(h, from, to, stats)) {
      VanishFiling(h, from, to, stats);
    }
  }

  lemma {:induction false} RelayFiling(h: Hub, origin: nat, bytes: Message, to: nat)
    requires h.star && to >= 1
    ensures KeepsFiling(h, RelayTo(h, origin, bytes, to))
    decreases h.peers - to
  {
    hide Enqueue, Fitting;
    if to < h.peers {
      if to == origin || to in h.lost {
        RelayFiling(h, origin, bytes, to + 1);
      } else {
        EnqueueFiling(h, 0, to, bytes, origin, false);
        EnqueueGrew(h, 0, to, bytes, origin, false, 0, 0);
        RelayFiling(Enqueue(h, 0, to, bytes, origin, false), origin, bytes, to + 1);
      }
    }
  }

  lemma SendFiling(h: Hub, from: nat, to: nat, bytes: Message)
    ensures KeepsFiling(h, Send(h, from, to, bytes).0)
  {
    hide Enqueue, Fitting;
    if h.star && from != 0 && to != 0 {
    } else {
      EnqueueFiling(h, from, to, bytes, from, false);
    }
  }

  lemma {:induction false} SendToEachFiling(h: Hub, from: nat, bytes: Message, peer: nat)
    ensures KeepsFiling(h, SendToEach(h, from, bytes, peer).0)
    decreases h.peers - peer
  {
    hide Send, Fitting;
    if peer < h.peers {
      if peer == from {
        SendToEachFiling(h, from, bytes, peer + 1);
      } else {
        SendFiling(h, from, peer, bytes);
        SendGrew(h, from, peer, bytes, 0, 0);
        SendToEachFiling(Send(h, from, peer, bytes).0, from, bytes, peer + 1);
      }
    }
  }

  lemma BroadcastFiling(h: Hub, from: nat, bytes: Message)
    ensures KeepsFiling(h, Broadcast(h, from, bytes).0)
  {
    hide Enqueue, RelayTo, SendToEach, Fitting;
    if !h.star {
      SendToEachFiling(h, from, bytes, 0);
    } else {
      EnqueueFiling(h, from, 0, bytes, from, true);
      RelayFiling(h, 0, bytes, 1);
    }
  }

  // ---------------------------------------------------------------- one message out

  lemma FileHolds(h: Hub, from: nat, peer: nat, p: Pending, t: nat, o: nat)
    requires HoldsHanded(h, t, o) && Fits(h.star, from, peer, p)
    ensures HoldsHanded(File(h, from, peer, p), t, o)
  {
    FileLogs(h, from, peer, p);
    var g := File(h, from, peer, p);
    hide File, MessagesOf, BoxHolds, OneFiled;
    FileBox(h, g, from, peer, p, t, o);
    forall f: nat ensures NoneBy(g, f, t, o) {
      assert NoneBy(h, f, t, o);
      FileElsewhere(h, g, from, peer, p, f, t, o);
    }
  }

  lemma FileBox(h: Hub, g: Hub, from: nat, peer: nat, p: Pending, t: nat, o: nat)
    requires BoxHolds(h, t, o) && Fits(h.star, from, peer, p) && OneFiled(h, g, from, peer, p)
    ensures BoxHolds(g, t, o)
  {
    MessagesOne(Handed(h, Source(h.star, t, o), t), ItemOf(p), o);
    OfferStream(BoxOf(h, t, o), p.bytes);
    hide MessagesOf, Stream;
    assert HandedAs(h, t, o) + [] == HandedAs(h, t, o);
  }

  lemma FileElsewhere(h: Hub, g: Hub, from: nat, peer: nat, p: Pending, f: nat, t: nat, o: nat)
    requires NoneBy(h, f, t, o) && Fits(h.star, from, peer, p) && OneFiled(h, g, from, peer, p)
    ensures NoneBy(g, f, t, o)
  {
    MessagesOne(Handed(h, f, t), ItemOf(p), o);
    hide MessagesOf;
  }

  lemma FileFits(h: Hub, from: nat, peer: nat, p: Pending)
    requires Fitting(h)
    ensures Fitting(File(h, from, peer, p)) && File(h, from, peer, p).star == h.star
  {
    hide Offer, Fits;
    var g := File(h, from, peer, p);
    assert forall f: nat, t: nat :: InFlight(g, f, t) == InFlight(h, f, t);
  }

  lemma DeliverOneHolds(h: Hub, from: nat, peer: nat, p: Pending, t: nat, o: nat)
    requires HoldsHanded(h, t, o) && Fitting(h) && Fits(h.star, from, peer, p)
    ensures var g := DeliverOne(h, from, peer, p);
      HoldsHanded(g, t, o) && Fitting(g) && g.star == h.star
  {
    hide RelayTo, File, HoldsHanded, InFlight;
    var h2 := h;
    if p.everyone && peer == 0 {
      var h1 := h.(relayed := h.relayed + [CopyOf(p)]);
      RelayedFiling(h, p);
      KeptFiling(h, h1, t, o);
      RelayFiling(h1, p.origin, p.bytes, 1);
      h2 := RelayTo(h1, p.origin, p.bytes, 1);
      KeptFiling(h1, h2, t, o);
    }
    FileHolds(h2, from, peer, p, t, o);
    FileFits(h2, from, peer, p);
  }

  lemma RelayedFiling(h: Hub, p: Pending)
    ensures KeepsFiling(h, h.(relayed := h.relayed + [CopyOf(p)]))
  {
    hide Fits;
    var g := h.(relayed := h.relayed + [CopyOf(p)]);
    assert forall f: nat, t: nat :: InFlight(g, f, t) == InFlight(h, f, t);
  }

  lemma {:induction false} DeliverAllHolds(h: Hub, from: nat, peer: nat, batch: seq<Pending>, t: nat, o: nat)
    requires HoldsHanded(h, t, o) && Fitting(h) && forall p :: p in batch ==> Fits(h.star, from, peer, p)
    ensures var g := DeliverAll(h, from, peer, batch);
      HoldsHanded(g, t, o) && Fitting(g) && g.star == h.star
    decreases |batch|
  {
    hide DeliverOne, HoldsHanded, Fitting, Fits;
    if batch != [] {
      DeliverOneHolds(h, from, peer, batch[0], t, o);
      DeliverAllHolds(DeliverOne(h, from, peer, batch[0]), from, peer, batch[1..], t, o);
    }
  }

  lemma TakeFiling(h: Hub, from: nat, peer: nat, draw: Draw)
    requires Fitting(h)
    ensures var (g, batch) := TakeDue(h, from, peer, draw);
      KeepsFiling(h, g) && forall p :: p in batch ==> Fits(h.star, from, peer, p)
  {
    TakenMembers(h, from, peer, draw);
    TakeLogs(h, from, peer, draw);
    hide TakeDue, InFlight, Fits, Kept;
    var g := TakeDue(h, from, peer, draw).0;
    forall f: nat, t: nat, p | p in InFlight(g, f, t) ensures Fits(g.star, f, t, p) {
      TakeDueTakes(h, from, peer, draw, f, t);
      DueAndKept(InFlight(h, f, t), PollsOf(h, peer));
    }
  }

  lemma {:induction false} PumpPipesHolds(h: Hub, peer: nat, count: nat, draw: Draw, t: nat, o: nat)
    requires HoldsHanded(h, t, o) && Fitting(h)
    ensures var g := PumpPipes(h, peer, count, draw);
      HoldsHanded(g, t, o) && Fitting(g) && g.star == h.star
    decreases count
  {
    hide TakeDue, DeliverAll, HoldsHanded, Fitting, Fits;
    if count > 0 {
      PumpPipesHolds(h, peer, count - 1, draw, t, o);
      var h1 := PumpPipes(h, peer, count - 1, draw);
      if count - 1 != peer {
        var (h2, batch) := TakeDue(h1, count - 1, peer, draw);
        TakeFiling(h1, count - 1, peer, draw);
        KeptFiling(h1, h2, t, o);
        DeliverAllHolds(h2, count - 1, peer, batch, t, o);
      }
    }
  }

  // ---------------------------------------------------------------- every operation

  lemma PolledFiling(h: Hub, peer: nat)
    ensures KeepsFiling(h, Polled(h, peer))
  {
    hide Fits;
    assert forall f: nat, t: nat :: InFlight(Polled(h, peer), f, t) == InFlight(h, f, t);
  }

  lemma LoseFiling(h: Hub, peer: nat)
    ensures KeepsFiling(h, Lose(h, peer).0)
  {
    hide Fits, ClearPipes;
    var h1, g := h.(lost := h.lost + {peer}), Lose(h, peer).0;
    ClearPipesClear(h1, peer, h.peers, 0, 0);
    if Fitting(h) {
      forall f: nat, t: nat, p | p in InFlight(g, f, t) ensures Fits(g.star, f, t, p) {
        ClearPipesClear(h1, peer, h.peers, f, t);
        assert p in InFlight(h, f, t);
      }
    }
  }

  lemma ArmFiling(h: Hub, from: nat, to: nat, fault: Fault)
    ensures KeepsFiling(h, ArmFault(h, from, to, fault).0)
  {
    hide Fits;
    var g := ArmFault(h, from, to, fault).0;
    assert forall f: nat, t: nat :: InFlight(g, f, t) == InFlight(h, f, t);
  }

  lemma ReleaseFiling(h: Hub)
    ensures KeepsFiling(h, ReleaseHeld(h))
  {
    var g := ReleaseHeld(h);
    if Fitting(h) {
      forall f: nat, t: nat, p | p in InFlight(g, f, t) ensures Fits(g.star, f, t, p) {
        var i :| 0 <= i < |InFlight(g, f, t)| && InFlight(g, f, t)[i] == p;
        assert InFlight(h, f, t)[i] in InFlight(h, f, t);
      }
    }
  }

  lemma DrainHandedHolds(h: Hub, peer: nat, origin: nat, t: nat, o: nat)
    requires HoldsHanded(h, t, o) && Fitting(h)
    ensures var g := DrainBox(h, peer, origin);
      HoldsHanded(g, t, o) && Fitting(g) && g.star == h.star
  {
    hide Fits, HoldsHanded;
    var g := DrainBox(h, peer, origin);
    DrainKeeps(h, peer, origin, t, o);
    SameHolds(h, g, t, o);
    assert forall f: nat, t: nat :: InFlight(g, f, t) == InFlight(h, f, t);
  }

  lemma StepHandedHolds(h: Hub, op: Operation, draw: Draw, t: nat, o: nat)
    requires HoldsHanded(h, t, o) && Fitting(h)
    ensures HoldsHanded(Step(h, op, draw), t, o) && Fitting(Step(h, op, draw)) && Step(h, op, draw).star == h.star
  {
    hide Send, Broadcast, Lose, ReleaseHeld, ArmFault, DrainBox, PumpPipes, HoldsHanded, Fitting;
    match op
    case DoSend(from, to, bytes) =>
      SendFiling(h, from, to, bytes);
      KeptFiling(h, Send(h, from, to, bytes).0, t, o);
    case DoBroadcast(from, bytes) =>
      BroadcastFiling(h, from, bytes);
      KeptFiling(h, Broadcast(h, from, bytes).0, t, o);
    case DoPump(peer) =>
      PolledFiling(h, peer);
      KeptFiling(h, Polled(h, peer), t, o);
      PumpPipesHolds(Polled(h, peer), peer, h.peers, draw, t, o);
    case DoLose(peer) =>
      LoseFiling(h, peer);
      KeptFiling(h, Lose(h, peer).0, t, o);
    case DoArm(from, to, fault) =>
      ArmFiling(h, from, to, fault);
      KeptFiling(h, ArmFault(h, from, to, fault).0, t, o);
    case DoRelease =>
      ReleaseFiling(h);
      KeptFiling(h, ReleaseHeld(h), t, o);
    case DoDrain(peer, origin) => DrainHandedHolds(h, peer, origin, t, o);
  }

  lemma {:induction false} RunHandedHolds(h: Hub, ops: seq<Operation>, draw: Draw, t: nat, o: nat)
    requires HoldsHanded(h, t, o) && Fitting(h)
    ensures HoldsHanded(Run(h, ops, draw), t, o) && Fitting(Run(h, ops, draw)) && Run(h, ops, draw).star == h.star
    decreases |ops|
  {
    hide HoldsHanded, Fitting, Step;
    if ops != [] {
      StepHandedHolds(h, ops[0], draw, t, o);
      RunHandedHolds(Step(h, ops[0], draw), ops[1..], draw, t, o);
    }
  }

  /** After any run of any hub, whatever is armed, held, permuted or lost: what peer `t` has drained of `o`'s
      and still has waiting is a beginning of what it was handed as `o`'s, in the order it was handed over,
      and it is all of it exactly when that inbox has not overflowed. No other pipe hands it any. */
  lemma EveryInboxHoldsHanded(peers: nat, star: bool, latency: nat, reorder: bool, ops: seq<Operation>, draw: Draw,
                              t: nat, o: nat)
    ensures var h := Run(Initial(peers, star, latency, reorder), ops, draw);
      var (box, handed) := (BoxOf(h, t, o), MessagesOf(Handed(h, Source(star, t, o), t), o));
      && Stream(box) <= handed && (box.overflowed <==> Stream(box) != handed)
      && forall f: nat :: f != Source(star, t, o) ==> MessagesOf(Handed(h, f, t), o) == []
  {
    var h := Initial(peers, star, latency, reorder);
    assert BoxHolds(h, t, o) && Fitting(h) && forall f: nat :: NoneBy(h, f, t, o);
    hide Run, Stream, BoxOf, MessagesOf, Handed;
    RunHandedHolds(h, ops, draw, t, o);
    var g := Run(h, ops, draw);
    forall f: nat | f != Source(star, t, o) ensures MessagesOf(Handed(g, f, t), o) == [] {
      assert NoneBy(g, f, t, o);
    }
  }
}
