/** The one order a star's relay gives everybody: of everything the connectors did not send themselves, the
    relay's own broadcasts and those it forwards, any two have been handed the same from the start on. */
module Agreement {
  import opened Inboxes
  import opened Loopback
  import opened Latency
  import opened StarRelay
  import opened Survivors
  import opened Overflow

  /** Two sequences that grow together while both are live; one that is no longer stays behind. */
  predicate Level(a: seq<Item>, b: seq<Item>, aLive: bool, bLive: bool) {
    (a <= b || b <= a) && (aLive ==> b <= a) && (bLive ==> a <= b)
  }

  /** Of what neither of the two connectors made, the relay has emitted one and the same sequence to both, as
      far as each was there to be sent it. */
  ghost predicate Agree(h: Hub, q: nat, r: nat) {
    Level(Without(Sent(h, 0, q), {q, r}), Without(Sent(h, 0, r), {q, r}), q !in h.lost, r !in h.lost)
  }

  lemma SameAgree(h: Hub, g: Hub, q: nat, r: nat)
    requires Agree(h, q, r) && h.lost <= g.lost
    requires Sent(g, 0, q) == Sent(h, 0, q) && Sent(g, 0, r) == Sent(h, 0, r)
    ensures Agree(g, q, r)
  {
    hide Without;
  }

  lemma LevelGrows(a: seq<Item>, b: seq<Item>, aLive: bool, bLive: bool, x: Item)
    requires Level(a, b, aLive, bLive)
    ensures Level(if aLive then a + [x] else a, if bLive then b + [x] else b, aLive, bLive)
  {
    if aLive && bLive {
      assert a == b;
    } else {
      assert a <= a + [x] && b <= b + [x];
    }
  }

  /** One more message for everyone but its origin. */
  lemma RelayedAgree(h: Hub, g: Hub, q: nat, r: nat, x: Item)
    requires Agree(h, q, r) && g.lost == h.lost
    requires Sent(g, 0, q) == Relayed(h, q, x) && Sent(g, 0, r) == Relayed(h, r, x)
    ensures Agree(g, q, r)
  {
    RelayedWithout(h, q, x, {q, r});
    RelayedWithout(h, r, x, {q, r});
    hide Without, Relayed, Level;
    LevelGrows(Without(Sent(h, 0, q), {q, r}), Without(Sent(h, 0, r), {q, r}), q !in h.lost, r !in h.lost, x);
  }

  lemma RelayedWithout(h: Hub, q: nat, x: Item, excluded: set<nat>)
    requires q in excluded
    ensures var was := Without(Sent(h, 0, q), excluded);
      Without(Relayed(h, q, x), excluded) == if x.origin in excluded || q in h.lost then was else was + [x]
  {
    WithoutOne(Sent(h, 0, q), x, excluded);
    hide Without;
    var was := Without(Sent(h, 0, q), excluded);
    assert was + [] == was;
  }

  // ---------------------------------------------------------------- a poll

  lemma DeliverOneAgrees(h: Hub, from: nat, peer: nat, p: Pending, rest: seq<Pending>, q: nat, r: nat)
    requires Good(h, from, peer, [p] + rest) && peer !in h.lost
    requires Agree(h, q, r) && 0 < q < h.peers && 0 < r < h.peers
    ensures Agree(DeliverOne(h, from, peer, p), q, r)
  {
    var g := DeliverOne(h, from, peer, p);
    DeliverOneGood(h, from, peer, p, rest);
    if p.everyone && peer == 0 {
      FiledIffAccepted(h, from, p, rest);
      hide Good, DeliverOne, Agree, Relayed;
      RelayedAgree(h, g, q, r, CopyOf(p));
    } else {
      JustFiled(h, from, peer, p);
      hide Good, DeliverOne, Agree;
      SameAgree(h, g, q, r);
    }
  }

  lemma JustFiled(h: Hub, from: nat, peer: nat, p: Pending)
    requires !(p.everyone && peer == 0)
    ensures forall f: nat, t: nat :: Sent(DeliverOne(h, from, peer, p), f, t) == Sent(h, f, t)
  {
    hide RelayTo, Offer;
  }

  lemma {:induction false} DeliverAllAgrees(h: Hub, from: nat, peer: nat, batch: seq<Pending>, q: nat, r: nat)
    requires Good(h, from, peer, batch) && peer !in h.lost
    requires Agree(h, q, r) && 0 < q < h.peers && 0 < r < h.peers
    ensures Agree(DeliverAll(h, from, peer, batch), q, r)
    decreases |batch|
  {
    hide Good, DeliverOne, Agree;
    if batch != [] {
      assert batch == [batch[0]] + batch[1..];
      DeliverOneGood(h, from, peer, batch[0], batch[1..]);
      DeliverOneAgrees(h, from, peer, batch[0], batch[1..], q, r);
      DeliverAllAgrees(DeliverOne(h, from, peer, batch[0]), from, peer, batch[1..], q, r);
    }
  }

  lemma {:induction false} PumpPipesAgrees(h: Hub, peer: nat, count: nat, draw: Draw, q: nat, r: nat)
    requires Good(h, 0, 0, []) && peer !in h.lost
    requires Agree(h, q, r) && 0 < q < h.peers && 0 < r < h.peers
    ensures Agree(PumpPipes(h, peer, count, draw), q, r)
    decreases count
  {
    hide Good, TakeDue, DeliverAll, Agree;
    if count > 0 {
      PumpPipesAgrees(h, peer, count - 1, draw, q, r);
      PumpPipesGood(h, peer, count - 1, draw);
      var h1 := PumpPipes(h, peer, count - 1, draw);
      if count - 1 != peer {
        EmptyHand(h1, 0, 0, count - 1, peer);
        TakeGood(h1, count - 1, peer, draw);
        var (h2, batch) := TakeDue(h1, count - 1, peer, draw);
        TakeAgrees(h1, count - 1, peer, draw, q, r);
        DeliverAllAgrees(h2, count - 1, peer, batch, q, r);
      }
    }
  }

  lemma TakeAgrees(h: Hub, from: nat, peer: nat, draw: Draw, q: nat, r: nat)
    requires Agree(h, q, r)
    ensures Agree(TakeDue(h, from, peer, draw).0, q, r)
  {
    TakeLogs(h, from, peer, draw);
    hide TakeDue, Agree;
    SameAgree(h, TakeDue(h, from, peer, draw).0, q, r);
  }

  // ---------------------------------------------------------------- every operation

  lemma SendAgrees(h: Hub, from: nat, to: nat, bytes: Message, q: nat, r: nat)
    requires Agree(h, q, r) && (from == 0 ==> to != q && to != r)
    ensures Agree(Send(h, from, to, bytes).0, q, r)
  {
    hide Enqueue, Agree, AllMarked, AllFrom, Sent, Handed;
    var g := Send(h, from, to, bytes).0;
    EnqueueLogs(h, from, to, bytes, from, false, 0, q);
    EnqueueLogs(h, from, to, bytes, from, false, 0, r);
    SendGrew(h, from, to, bytes, 0, 0);
    SameAgree(h, g, q, r);
  }

  lemma BroadcastAgrees(h: Hub, from: nat, bytes: Message, q: nat, r: nat)
    requires Holds(h) && Agree(h, q, r) && 0 < q < h.peers && 0 < r < h.peers
    ensures Agree(Broadcast(h, from, bytes).0, q, r)
  {
    var g := Broadcast(h, from, bytes).0;
    if from >= h.peers || from in h.lost {
    } else if from == 0 {
      RelayLinks(h, 0, bytes, 1, 0, 0, []);
      hide Good, RelayTo, Agree, Relayed;
      RelayedAgree(h, g, q, r, Item(0, bytes, false));
    } else {
      hide Enqueue, Agree, AllMarked, AllFrom, Sent, Handed;
      EnqueueLogs(h, from, 0, bytes, from, true, 0, q);
      EnqueueLogs(h, from, 0, bytes, from, true, 0, r);
      BroadcastGrew(h, from, bytes, 0, 0);
      SameAgree(h, g, q, r);
    }
  }

  lemma PumpAgrees(h: Hub, peer: nat, draw: Draw, q: nat, r: nat)
    requires Holds(h) && Agree(h, q, r) && 0 < q < h.peers && 0 < r < h.peers
    ensures Agree(Pump(h, peer, draw), q, r)
  {
    SameAgree(h, Polled(h, peer), q, r);
    PolledHolds(h, peer);
    hide Good, Agree, PumpPipes;
    if peer !in h.lost {
      PumpPipesAgrees(Polled(h, peer), peer, h.peers, draw, q, r);
    }
  }

  lemma LoseAgrees(h: Hub, peer: nat, q: nat, r: nat)
    requires Agree(h, q, r)
    ensures Agree(Lose(h, peer).0, q, r)
  {
    ClearPipesClear(h.(lost := h.lost + {peer}), peer, h.peers, 0, 0);
    hide ClearPipes, Agree;
    SameAgree(h, Lose(h, peer).0, q, r);
  }

  lemma StepAgrees(h: Hub, op: Operation, draw: Draw, q: nat, r: nat)
    requires Holds(h) && Agree(h, q, r) && 0 < q < h.peers && 0 < r < h.peers
    requires !op.DoArm? && !SendsTo(op, 0, q) && !SendsTo(op, 0, r)
    ensures Agree(Step(h, op, draw), q, r)
  {
    hide Holds, Agree, Send, Broadcast, Pump, Lose;
    match op
    case DoSend(from, to, bytes) => SendAgrees(h, from, to, bytes, q, r);
    case DoBroadcast(from, bytes) => BroadcastAgrees(h, from, bytes, q, r);
    case DoPump(peer) => PumpAgrees(h, peer, draw, q, r);
    case DoLose(peer) => LoseAgrees(h, peer, q, r);
    case DoRelease => SameAgree(h, ReleaseHeld(h), q, r);
    case DoDrain(peer, origin) => SameAgree(h, DrainBox(h, peer, origin), q, r);
  }

  /** The relay never sends either of the two a message for it alone. */
  predicate NothingAlone(ops: seq<Operation>, q: nat, r: nat) {
    forall i :: 0 <= i < |ops| ==> !SendsTo(ops[i], 0, q) && !SendsTo(ops[i], 0, r)
  }

  lemma {:induction false} RunAgrees(h: Hub, ops: seq<Operation>, draw: Draw, q: nat, r: nat)
    requires Holds(h) && Agree(h, q, r) && 0 < q < h.peers && 0 < r < h.peers
    requires Faultless(ops, h.peers) && NothingAlone(ops, q, r)
    ensures Agree(Run(h, ops, draw), q, r)
    decreases |ops|
  {
    hide Holds, Agree, Step;
    if ops != [] {
      StepHolds(h, ops[0], draw);
      StepAgrees(h, ops[0], draw, q, r);
      RunAgrees(Step(h, ops[0], draw), ops[1..], draw, q, r);
    }
  }

  // ---------------------------------------------------------------- the promise

  /** Any two connectors, lost or not, have been handed third parties' messages in one and the same order; and
      unless the relay had something to say to one of them alone, its own messages in that order too. */
  lemma ConnectorsAgree(h: Hub, peers: nat, latency: nat, ops: seq<Operation>, draw: Draw, q: nat, r: nat)
    requires Reachable(h, peers, latency, ops, draw) && 0 < q < peers && 0 < r < peers
    ensures var (a, b) := (Without(Handed(h, 0, q), {0, q, r}), Without(Handed(h, 0, r), {0, q, r}));
      var all := Without(h.relayed, {0, q, r});
      a <= all && b <= all && (a <= b || b <= a)
    ensures NothingAlone(ops, q, r) ==>
      var (a, b) := (Without(Handed(h, 0, q), {q, r}), Without(Handed(h, 0, r), {q, r}));
      a <= b || b <= a
  {
    ThirdParty(h, peers, latency, ops, draw, q, {0, q, r});
    ThirdParty(h, peers, latency, ops, draw, r, {0, q, r});
    if NothingAlone(ops, q, r) {
      HandedIsPrefix(h, peers, latency, ops, draw, q);
      HandedIsPrefix(h, peers, latency, ops, draw, r);
      WithoutPrefix(Handed(h, 0, q), Sent(h, 0, q), {q, r});
      WithoutPrefix(Handed(h, 0, r), Sent(h, 0, r), {q, r});
      InitialHolds(peers, latency);
      hide Holds, Run, Without;
      RunAgrees(Loopback.Initial(peers, true, latency, false), ops, draw, q, r);
    }
  }
}
