/** What each call on the loopback does, read off the hub before and after: which pipe gains what, what every
    fault does to the one message it meets, who is refused and why, and whom a broadcast reaches. */
module HubLaws {
  import opened Inboxes
  import opened Loopback
  import opened Conservation
  import opened Latency
  import opened StarRelay
  import opened Survivors

  // ---------------------------------------------------------------- one message in

  ghost predicate SamePipe(h: Hub, g: Hub, f: nat, t: nat) {
    PipeOf(g, f, t) == PipeOf(h, f, t) && Sent(g, f, t) == Sent(h, f, t)
  }

  /** Everything about the hub but its pipes, what went into them, the numbering and the figures. */
  ghost predicate SameHub(h: Hub, g: Hub) {
    g == h.(pipes := g.pipes, sentLog := g.sentLog, nextOrder := g.nextOrder, stats := g.stats)
  }

  /** Only the lowest bit of the last byte is different. */
  predicate LastBitFlipped(a: Message, b: Message) {
    && a != [] && |b| == |a| && b[..|b| - 1] == a[..|a| - 1] && b[|b| - 1] != a[|a| - 1]
    && b[|b| - 1] & 0xFE == a[|a| - 1] & 0xFE
  }

  /** The message `c` is `bytes` as `fault`, if any, leaves it. */
  predicate Said(bytes: Message, armed: Armed, c: Pending) {
    && (if armed == Armed(Corrupt) && |bytes| > 16 then LastBitFlipped(bytes, c.bytes) else c.bytes == bytes)
    && c.held == (armed == Armed(Hold))
  }

  /** The pipe gains one message at its end, numbered and due as they come; the fault is spent. */
  ghost predicate GainsOne(h: Hub, g: Hub, from: nat, to: nat, bytes: Message, origin: nat, everyone: bool, order: nat) {
    exists c: Pending ::
      && InFlight(g, from, to) == InFlight(h, from, to) + [c] && Said(bytes, PipeOf(h, from, to).armed, c)
      && c.origin == origin && c.everyone == everyone && c.order == order
      && c.release == PollsOf(h, to) + h.latency
      && Sent(g, from, to) == Sent(h, from, to) + [Item(origin, c.bytes, everyone)]
      && PipeOf(g, from, to).armed == Unarmed
  }

  lemma AdmitDoes(h: Hub, from: nat, to: nat, p: Pending, stats: Stats)
    ensures var g := Admit(h, from, to, p, stats);
      && SameHub(h, g) && g.nextOrder == h.nextOrder + 1 && g.stats == stats
      && InFlight(g, from, to) == InFlight(h, from, to) + [p] && PipeOf(g, from, to).armed == Unarmed
      && Sent(g, from, to) == Sent(h, from, to) + [Item(p.origin, p.bytes, p.everyone)]
      && forall f: nat, t: nat :: (f, t) != (from, to) ==> SamePipe(h, g, f, t)
  {
  }

  lemma VanishDoes(h: Hub, from: nat, to: nat, stats: Stats)
    ensures var g := Vanish(h, from, to, stats);
      && SameHub(h, g) && g.nextOrder == h.nextOrder + 1 && g.stats == stats
      && InFlight(g, from, to) == InFlight(h, from, to) && PipeOf(g, from, to).armed == Unarmed
      && Sent(g, from, to) == Sent(h, from, to)
      && forall f: nat, t: nat :: (f, t) != (from, to) ==> SamePipe(h, g, f, t)
  {
  }

  lemma CorruptedLastBit(bytes: Message)
    ensures if |bytes| > 16 then LastBitFlipped(bytes, Corrupted(bytes)) else Corrupted(bytes) == bytes
  {
    if |bytes| > 16 {
      FlipsLowest(bytes[|bytes| - 1]);
    }
  }

  lemma FlipsLowest(b: bv8)
    ensures b ^ 1 != b && (b ^ 1) & 0xFE == b & 0xFE
  {
  }

  /** The figures after one message: one more sent, and the fault it met counted if it met one. */
  predicate CountsFault(a: Stats, b: Stats, armed: Armed, bytes: Message) {
    && b.sent == a.sent + 1 && b.delivered == a.delivered && b.refused == a.refused && b.reordered == a.reordered
    && b.dropped == a.dropped + (if armed == Armed(Drop) then 1 else 0)
    && b.held == a.held + (if armed == Armed(Hold) then 1 else 0)
    && b.corrupted == a.corrupted + (if armed == Armed(Corrupt) && |bytes| > 16 then 1 else 0)
  }

  /** The message that enters, when none is dropped. */
  function Entering(h: Hub, from: nat, to: nat, bytes: Message, origin: nat, everyone: bool): Pending {
    var armed := PipeOf(h, from, to).armed;
    Pending(if armed == Armed(Corrupt) then Corrupted(bytes) else bytes, PollsOf(h, to) + h.latency, h.nextOrder,
            armed == Armed(Hold), origin, everyone)
  }

  /** One message has met the pipe: dropped if a drop was armed, and else at its end, held or damaged as armed. */
  ghost predicate Meets(h: Hub, g: Hub, from: nat, to: nat, bytes: Message, origin: nat, everyone: bool, order: nat) {
    if PipeOf(h, from, to).armed == Armed(Drop)
    then PipeOf(g, from, to) == Pipe(InFlight(h, from, to), Unarmed) && Sent(g, from, to) == Sent(h, from, to)
    else GainsOne(h, g, from, to, bytes, origin, everyone, order)
  }

  /** A message put in flight meets its pipe and is counted; whatever was armed is spent, and no other pipe is
      touched. */
  lemma EnqueueDoes(h: Hub, from: nat, to: nat, bytes: Message, origin: nat, everyone: bool)
    ensures var g := Enqueue(h, from, to, bytes, origin, everyone);
      && SameHub(h, g) && g.nextOrder == h.nextOrder + 1
      && CountsFault(h.stats, g.stats, PipeOf(h, from, to).armed, bytes)
      && Meets(h, g, from, to, bytes, origin, everyone, h.nextOrder)
      && (forall f: nat, t: nat :: (f, t) != (from, to) ==> SamePipe(h, g, f, t))
  {
    CorruptedLastBit(bytes);
    hide Corrupted, Admit, Vanish, SamePipe, SameHub, LastBitFlipped;
    var g := Enqueue(h, from, to, bytes, origin, everyone);
    if PipeOf(h, from, to).armed == Armed(Drop) {
      VanishDoes(h, from, to, g.stats);
      DropVanishes(h, from, to, bytes, origin, everyone);
    } else {
      OtherwiseAdmits(h, from, to, bytes, origin, everyone);
      AdmitDoes(h, from, to, Entering(h, from, to, bytes, origin, everyone), g.stats);
    }
  }

  lemma DropVanishes(h: Hub, from: nat, to: nat, bytes: Message, origin: nat, everyone: bool)
    requires PipeOf(h, from, to).armed == Armed(Drop)
    ensures var g := Enqueue(h, from, to, bytes, origin, everyone);
      g == Vanish(h, from, to, g.stats) && CountsFault(h.stats, g.stats, Armed(Drop), bytes)
  {
    hide Corrupted, Admit;
  }

  lemma OtherwiseAdmits(h: Hub, from: nat, to: nat, bytes: Message, origin: nat, everyone: bool)
    requires PipeOf(h, from, to).armed != Armed(Drop)
    ensures var g := Enqueue(h, from, to, bytes, origin, everyone);
      && g == Admit(h, from, to, Entering(h, from, to, bytes, origin, everyone), g.stats)
      && CountsFault(h.stats, g.stats, PipeOf(h, from, to).armed, bytes)
  {
    hide Corrupted, Vanish, Admit, PollsOf, PipeOf;
    forall p, stats: Stats ensures Admit(h, from, to, p, stats).stats == stats {
      AdmitDoes(h, from, to, p, stats);
    }
  }

  // ---------------------------------------------------------------- sending

  /** A send is refused for exactly one of three reasons, in this order: no such peer; a message to oneself or,
      on a star, from one connector to another; a receiver that is gone. Otherwise it meets its pipe, unless
      its sender is gone, when nothing happens at all. */
  lemma SendDoes(h: Hub, from: nat, to: nat, bytes: Message)
    ensures var (g, status) := Send(h, from, to, bytes);
      var there := from < h.peers && to < h.peers;
      var joined := from != to && (h.star ==> from == 0 || to == 0);
      && (status == Failed(OutOfRange) <==> !there) && (status == Failed(InvalidArgument) <==> there && !joined)
      && (status == Failed(Unavailable) <==> there && joined && to in h.lost)
      && (status == Ok <==> there && joined && to !in h.lost)
      && (status != Ok || from in h.lost ==> g == h)
      && (status == Ok && from !in h.lost ==>
          && SameHub(h, g) && g.nextOrder == h.nextOrder + 1
          && CountsFault(h.stats, g.stats, PipeOf(h, from, to).armed, bytes)
          && Meets(h, g, from, to, bytes, from, false, h.nextOrder)
          && (forall f: nat, t: nat :: (f, t) != (from, to) ==> SamePipe(h, g, f, t)))
  {
    EnqueueDoes(h, from, to, bytes, from, false);
    hide Enqueue, SameHub, Meets, CountsFault, SamePipe;
  }

  /** The pipe from `from` to `to` has met one message, numbered `first` or later. */
  ghost predicate Reached(h: Hub, g: Hub, from: nat, to: nat, bytes: Message, origin: nat, first: nat) {
    exists order :: order >= first && Meets(h, g, from, to, bytes, origin, false, order)
  }

  /** Of the peers from `peer` on and up to `t`, none that is to be sent to is gone. */
  predicate NoneLost(h: Hub, from: nat, peer: nat, t: nat) {
    forall u: nat :: peer <= u <= t && u != from ==> u !in h.lost
  }

  lemma ReachedLater(h: Hub, g: Hub, k: Hub, from: nat, t: nat, bytes: Message, origin: nat)
    requires SameHub(h, g) && SamePipe(h, g, from, t) && h.nextOrder <= g.nextOrder
    requires Reached(g, k, from, t, bytes, origin, g.nextOrder)
    ensures Reached(h, k, from, t, bytes, origin, h.nextOrder)
  {
    var order :| order >= g.nextOrder && Meets(g, k, from, t, bytes, origin, false, order);
    MeetsSame(h, g, k, from, t, bytes, origin, order);
  }

  lemma MeetsSame(h: Hub, g: Hub, k: Hub, from: nat, t: nat, bytes: Message, origin: nat, order: nat)
    requires SameHub(h, g) && SamePipe(h, g, from, t) && Meets(g, k, from, t, bytes, origin, false, order)
    ensures Meets(h, k, from, t, bytes, origin, false, order)
  {
    hide Said;
    if PipeOf(h, from, t).armed != Armed(Drop) {
      var c: Pending :|
        && InFlight(k, from, t) == InFlight(g, from, t) + [c] && Said(bytes, PipeOf(g, from, t).armed, c)
        && c.origin == origin && c.everyone == false && c.order == order
        && c.release == PollsOf(g, t) + g.latency
        && Sent(k, from, t) == Sent(g, from, t) + [Item(origin, c.bytes, false)]
        && PipeOf(k, from, t).armed == Unarmed;
      assert PollsOf(g, t) == PollsOf(h, t);
    }
  }

  lemma SamePipeJoins(h: Hub, g: Hub, k: Hub, f: nat, t: nat)
    requires SamePipe(h, g, f, t) && SamePipe(g, k, f, t)
    ensures SamePipe(h, k, f, t)
  {
  }

  lemma ReachedThen(h: Hub, g: Hub, k: Hub, from: nat, t: nat, bytes: Message, origin: nat, first: nat)
    requires Reached(h, g, from, t, bytes, origin, first) && SamePipe(g, k, from, t)
    ensures Reached(h, k, from, t, bytes, origin, first)
  {
    var order :| order >= first && Meets(h, g, from, t, bytes, origin, false, order);
    hide Said;
    assert Meets(h, k, from, t, bytes, origin, false, order);
  }

  // ---------------------------------------------------------------- a mesh broadcast

  /** What a mesh broadcast does to one pipe, from `peer` on. */
  ghost predicate Spreads(h: Hub, g: Hub, from: nat, bytes: Message, peer: nat, f: nat, t: nat) {
    if f == from && t != from && peer <= t < h.peers && from !in h.lost && NoneLost(h, from, peer, t)
    then Reached(h, g, from, t, bytes, from, h.nextOrder) else SamePipe(h, g, f, t)
  }

  lemma {:induction false} SpreadDoes(h: Hub, from: nat, bytes: Message, peer: nat, f: nat, t: nat)
    requires !h.star && from < h.peers && peer <= h.peers
    ensures var (g, status) := SendToEach(h, from, bytes, peer);
      && SameHub(h, g) && h.nextOrder <= g.nextOrder && Spreads(h, g, from, bytes, peer, f, t)
      && (status == Ok || status == Failed(Unavailable))
      && (status == Ok <==> forall u: nat :: peer <= u < h.peers && u != from ==> u !in h.lost)
    decreases h.peers - peer
  {
    hide Send, SamePipe, Reached, Meets, CountsFault;
    SameItself(h, f, t);
    if peer < h.peers {
      if peer == from {
        SpreadDoes(h, from, bytes, peer + 1, f, t);
      } else {
        SendDoes(h, from, peer, bytes);
        var (h1, status) := Send(h, from, peer, bytes);
        if status == Ok {
          SpreadDoes(h1, from, bytes, peer + 1, f, t);
          SpreadJoins(h, h1, SendToEach(h1, from, bytes, peer + 1).0, from, bytes, peer, f, t);
        }
      }
    }
  }

  lemma SameItself(h: Hub, f: nat, t: nat)
    ensures SamePipe(h, h, f, t)
  {
  }

  lemma SpreadJoins(h: Hub, g: Hub, k: Hub, from: nat, bytes: Message, peer: nat, f: nat, t: nat)
    requires peer < h.peers && peer != from && peer !in h.lost && SameHub(h, g) && h.nextOrder <= g.nextOrder
    requires if from in h.lost then g == h
             else Meets(h, g, from, peer, bytes, from, false, h.nextOrder) &&
                  forall a: nat, b: nat :: (a, b) != (from, peer) ==> SamePipe(h, g, a, b)
    requires Spreads(g, k, from, bytes, peer + 1, f, t)
    ensures Spreads(h, k, from, bytes, peer, f, t)
  {
    hide SamePipe, Reached, Meets;
    assert NoneLost(h, from, peer, t) <==> NoneLost(h, from, peer + 1, t);
    assert NoneLost(g, from, peer + 1, t) <==> NoneLost(h, from, peer + 1, t);
    if from !in h.lost {
      if (f, t) == (from, peer) {
        MeetsReached(h, g, from, t, bytes, from);
        ReachedThen(h, g, k, from, t, bytes, from, h.nextOrder);
      } else if f == from && t != from && peer < t < h.peers && NoneLost(h, from, peer, t) {
        ReachedLater(h, g, k, from, t, bytes, from);
      } else {
        SamePipeJoins(h, g, k, f, t);
      }
    }
  }

  lemma MeetsReached(h: Hub, g: Hub, from: nat, t: nat, bytes: Message, origin: nat)
    requires Meets(h, g, from, t, bytes, origin, false, h.nextOrder)
    ensures Reached(h, g, from, t, bytes, origin, h.nextOrder)
  {
    hide Meets;
  }

  predicate Other(h: Hub, from: nat, t: nat) { t < h.peers && t != from }

  /** On a mesh, whom a broadcast gets to: the peers below the first of the others that is gone. */
  predicate GetsIt(h: Hub, from: nat, t: nat) {
    && from < h.peers && from !in h.lost && Other(h, from, t)
    && forall u: nat :: u <= t && Other(h, from, u) ==> u !in h.lost
  }

  /** On a mesh a peer's broadcast is one message to every other peer, one after the other, as far as the first
      that is gone: it answers Ok if and only if none is, and exactly the others below the first that is gone
      have met the message. No other pipe is touched. A sender that is gone sends nothing. */
  lemma MeshBroadcastDoes(h: Hub, from: nat, bytes: Message)
    requires !h.star && from < h.peers
    ensures var (g, status) := Broadcast(h, from, bytes);
      && SameHub(h, g) && (status == Ok || status == Failed(Unavailable))
      && (status == Ok <==> forall u: nat :: Other(h, from, u) ==> u !in h.lost)
      && (forall t: nat :: GetsIt(h, from, t) ==> Reached(h, g, from, t, bytes, from, h.nextOrder))
      && (forall f: nat, t: nat :: f != from || !GetsIt(h, from, t) ==> SamePipe(h, g, f, t))
  {
    var (g, status) := Broadcast(h, from, bytes);
    hide Send, SendToEach, SamePipe, Reached, SameHub;
    SpreadDoes(h, from, bytes, 0, 0, 0);
    assert (g, status) == SendToEach(h, from, bytes, 0);
    forall t: nat | GetsIt(h, from, t) ensures Reached(h, g, from, t, bytes, from, h.nextOrder) {
      SpreadDoes(h, from, bytes, 0, from, t);
      GetsItMeans(h, from, t);
    }
    forall f: nat, t: nat | f != from || !GetsIt(h, from, t) ensures SamePipe(h, g, f, t) {
      SpreadDoes(h, from, bytes, 0, f, t);
      GetsItMeans(h, from, t);
    }
  }

  lemma GetsItMeans(h: Hub, from: nat, t: nat)
    requires from < h.peers
    ensures GetsIt(h, from, t) <==> t != from && t < h.peers && from !in h.lost && NoneLost(h, from, 0, t)
  {
    if GetsIt(h, from, t) {
      forall u: nat | 0 <= u <= t && u != from ensures u !in h.lost {
        assert Other(h, from, u);
      }
    }
  }

  /** A broadcast in the name of a peer there is not is refused, as long as there is anyone to send to. */
  lemma NoSuchBroadcaster(h: Hub, from: nat, bytes: Message)
    requires from >= h.peers && (h.star || h.peers > 0)
    ensures Broadcast(h, from, bytes) == (h, Failed(OutOfRange))
  {
  }

  // ---------------------------------------------------------------- a star broadcast

  /** What the relay's emission does to one pipe, from connector `to` on. */
  ghost predicate Emits(h: Hub, g: Hub, origin: nat, bytes: Message, to: nat, f: nat, t: nat) {
    if f == 0 && to <= t < h.peers && t != origin && t !in h.lost
    then Reached(h, g, 0, t, bytes, origin, h.nextOrder) else SamePipe(h, g, f, t)
  }

  lemma {:induction false} EmissionDoes(h: Hub, origin: nat, bytes: Message, to: nat, f: nat, t: nat)
    ensures var g := RelayTo(h, origin, bytes, to);
      SameHub(h, g) && h.nextOrder <= g.nextOrder && Emits(h, g, origin, bytes, to, f, t)
    decreases h.peers - to
  {
    hide Enqueue, SamePipe, Reached, Meets, CountsFault;
    SameItself(h, f, t);
    if to < h.peers {
      if to == origin || to in h.lost {
        EmissionDoes(h, origin, bytes, to + 1, f, t);
      } else {
        EnqueueDoes(h, 0, to, bytes, origin, false);
        var h1 := Enqueue(h, 0, to, bytes, origin, false);
        EmissionDoes(h1, origin, bytes, to + 1, f, t);
        EmissionJoins(h, h1, RelayTo(h1, origin, bytes, to + 1), origin, bytes, to, f, t);
      }
    }
  }

  lemma EmissionJoins(h: Hub, g: Hub, k: Hub, origin: nat, bytes: Message, to: nat, f: nat, t: nat)
    requires to < h.peers && to != origin && to !in h.lost && SameHub(h, g) && h.nextOrder <= g.nextOrder
    requires Meets(h, g, 0, to, bytes, origin, false, h.nextOrder)
    requires forall a: nat, b: nat :: (a, b) != (0, to) ==> SamePipe(h, g, a, b)
    requires Emits(g, k, origin, bytes, to + 1, f, t)
    ensures Emits(h, k, origin, bytes, to, f, t)
  {
    hide SamePipe, Reached, Meets;
    if (f, t) == (0, to) {
      MeetsReached(h, g, 0, t, bytes, origin);
      ReachedThen(h, g, k, 0, t, bytes, origin, h.nextOrder);
    } else if f == 0 && to < t < h.peers && t != origin && t !in h.lost {
      ReachedLater(h, g, k, 0, t, bytes, origin);
    } else {
      SamePipeJoins(h, g, k, f, t);
    }
  }

  /** On a star the relay's own broadcast is one message to every connector that is not gone, and a connector's
      is one to the relay, marked for everyone. No other pipe is touched; a sender that is gone sends nothing. */
  lemma StarBroadcastDoes(h: Hub, from: nat, bytes: Message)
    requires h.star && from < h.peers
    ensures var (g, status) := Broadcast(h, from, bytes);
      && status == Ok && SameHub(h, g) && (from in h.lost ==> g == h)
      && (from == 0 && 0 !in h.lost ==>
            && (forall t: nat :: 0 < t < h.peers && t !in h.lost ==> Reached(h, g, 0, t, bytes, 0, h.nextOrder))
            && (forall f: nat, t: nat :: f != 0 || t == 0 || t >= h.peers || t in h.lost ==> SamePipe(h, g, f, t)))
      && (from != 0 && from !in h.lost ==>
            && Meets(h, g, from, 0, bytes, from, true, h.nextOrder)
            && (forall f: nat, t: nat :: (f, t) != (from, 0) ==> SamePipe(h, g, f, t)))
  {
    hide Enqueue, RelayTo, SamePipe, Reached, Meets, SameHub, CountsFault;
    if from in h.lost {
      SameHubItself(h);
    } else if from == 0 {
      var g := RelayTo(h, 0, bytes, 1);
      EmissionDoes(h, 0, bytes, 1, 0, 0);
      forall t: nat | 0 < t < h.peers && t !in h.lost ensures Reached(h, g, 0, t, bytes, 0, h.nextOrder) {
        EmissionDoes(h, 0, bytes, 1, 0, t);
      }
      forall f: nat, t: nat | f != 0 || t == 0 || t >= h.peers || t in h.lost ensures SamePipe(h, g, f, t) {
        EmissionDoes(h, 0, bytes, 1, f, t);
      }
    } else {
      EnqueueDoes(h, from, 0, bytes, from, true);
    }
  }

  lemma SameHubItself(h: Hub)
    ensures SameHub(h, h)
  {
  }

  // ---------------------------------------------------------------- a poll hands over

  lemma {:induction false} DeliverAllHands(h: Hub, from: nat, peer: nat, batch: seq<Pending>)
    ensures Handed(DeliverAll(h, from, peer, batch), from, peer) == Handed(h, from, peer) + Items(batch)
    decreases |batch|
  {
    hide DeliverOne, Handed, Items;
    ItemsFirst(batch);
    if batch == [] {
      assert Handed(h, from, peer) + [] == Handed(h, from, peer);
    } else {
      DeliverOneHands(h, from, peer, batch[0]);
      DeliverAllHands(DeliverOne(h, from, peer, batch[0]), from, peer, batch[1..]);
      var was, first, rest := Handed(h, from, peer), [ItemOf(batch[0])], Items(batch[1..]);
      assert was + first + rest == was + (first + rest);
    }
  }

  lemma ItemsFirst(s: seq<Pending>)
    ensures Items(s) == if s == [] then [] else [ItemOf(s[0])] + Items(s[1..])
  {
  }

  lemma DeliverOneHands(h: Hub, from: nat, peer: nat, p: Pending)
    ensures Handed(DeliverOne(h, from, peer, p), from, peer) == Handed(h, from, peer) + [ItemOf(p)]
  {
    hide RelayTo, Offer;
    RelayLogs(h.(relayed := h.relayed + [CopyOf(p)]), p.origin, p.bytes, 1, from, peer);
  }

  /** What is due, in the order it is handed over: as sent, or as the hub's draws have it. */
  function InTurn(due: seq<Pending>, reorder: bool, now: nat, draw: Draw): (batch: seq<Pending>)
    ensures multiset(batch) == multiset(due) && (!reorder ==> batch == due)
  {
    if reorder then Shuffle(due, |due|, now, draw).0 else due
  }

  /** What a poll hands over of one pipe: everything due, and nothing else; in the order it was sent when the
      hub does not reorder. */
  lemma {:induction false} PumpPipesHand(h: Hub, peer: nat, count: nat, draw: Draw, f: nat)
    requires f < count && f != peer
    ensures var g := PumpPipes(h, peer, count, draw);
      var due := Due(InFlight(h, f, peer), PollsOf(h, peer));
      Handed(g, f, peer) == Handed(h, f, peer) + Items(InTurn(due, h.reorder, PollsOf(h, peer), draw))
    decreases count
  {
    hide InTurn, TakeDue, DeliverAll, Due, Kept, InFlight, Handed, PollsOf;
    var h1, from := PumpPipes(h, peer, count - 1, draw), count - 1;
    PumpPipesTake(h, peer, count - 1, draw, f, peer);
    PumpPipesLogsStill(h, peer, count - 1, draw, f);
    SamePolls(h, h1, peer);
    if from == peer {
      PumpPipesHand(h, peer, count - 1, draw, f);
    } else {
      var (h2, batch) := TakeDue(h1, from, peer, draw);
      TakeLogs(h1, from, peer, draw);
      KeepsHanded(h1, h2, f, peer);
      if from == f {
        BatchIsDue(h1, from, peer, draw);
        DeliverAllHands(h2, from, peer, batch);
      } else {
        PumpPipesHand(h, peer, count - 1, draw, f);
        DeliverAllLogs(h2, from, peer, batch, f, peer);
      }
    }
  }

  lemma SamePolls(h: Hub, g: Hub, peer: nat)
    requires g.polls == h.polls
    ensures PollsOf(g, peer) == PollsOf(h, peer)
  {
  }

  lemma KeepsHanded(h: Hub, g: Hub, f: nat, t: nat)
    requires g.handedLog == h.handedLog
    ensures Handed(g, f, t) == Handed(h, f, t)
  {
  }

  lemma BatchIsDue(h: Hub, from: nat, peer: nat, draw: Draw)
    ensures var batch, due := TakeDue(h, from, peer, draw).1, Due(InFlight(h, from, peer), PollsOf(h, peer));
      batch == InTurn(due, h.reorder, PollsOf(h, peer), draw)
  {
    hide Due, Kept, Shuffle;
    var due := Due(InFlight(h, from, peer), PollsOf(h, peer));
    if |due| <= 1 {
      NoTurns(due, |due|, PollsOf(h, peer), draw);
    }
  }

  /** Pipes not yet come to have handed over nothing, and the hub's settings stay. */
  lemma {:induction false} PumpPipesLogsStill(h: Hub, peer: nat, count: nat, draw: Draw, f: nat)
    ensures var g := PumpPipes(h, peer, count, draw);
      g.reorder == h.reorder && (f >= count ==> Handed(g, f, peer) == Handed(h, f, peer))
    decreases count
  {
    hide TakeDue, DeliverAll, Handed;
    if count > 0 {
      PumpPipesLogsStill(h, peer, count - 1, draw, f);
      var h1 := PumpPipes(h, peer, count - 1, draw);
      if count - 1 != peer {
        var (h2, batch) := TakeDue(h1, count - 1, peer, draw);
        TakeLogs(h1, count - 1, peer, draw);
        KeepsHanded(h1, h2, f, peer);
        DeliverAllLogs(h2, count - 1, peer, batch, f, peer);
        DeliverAllReorder(h2, count - 1, peer, batch);
      }
    }
  }

  lemma {:induction false} DeliverAllReorder(h: Hub, from: nat, peer: nat, batch: seq<Pending>)
    ensures DeliverAll(h, from, peer, batch).reorder == h.reorder
    decreases |batch|
  {
    hide DeliverOne;
    if batch != [] {
      EmissionDoes(h.(relayed := h.relayed + [CopyOf(batch[0])]), batch[0].origin, batch[0].bytes, 1, 0, 0);
      DeliverOneReorder(h, from, peer, batch[0]);
      DeliverAllReorder(DeliverOne(h, from, peer, batch[0]), from, peer, batch[1..]);
    }
  }

  lemma DeliverOneReorder(h: Hub, from: nat, peer: nat, p: Pending)
    requires SameHub(h.(relayed := h.relayed + [CopyOf(p)]), RelayTo(h.(relayed := h.relayed + [CopyOf(p)]), p.origin, p.bytes, 1))
    ensures DeliverOne(h, from, peer, p).reorder == h.reorder
  {
    hide RelayTo, Offer;
  }

  /** A live peer's poll counts one and hands over, of every pipe to it, exactly what is due, in the order sent
      when the hub does not reorder. What is held or due later stays where it was. A lost peer's only counts. */
  lemma PumpDoes(h: Hub, peer: nat, draw: Draw, f: nat)
    requires f < h.peers && f != peer
    ensures var g := Pump(h, peer, draw);
      && PollsOf(g, peer) == PollsOf(h, peer) + 1 && (forall q: nat :: q != peer ==> PollsOf(g, q) == PollsOf(h, q))
      && (peer in h.lost ==> g == h.(polls := g.polls))
      && (peer !in h.lost ==>
            (forall p :: p in InFlight(g, f, peer) <==>
               p in InFlight(h, f, peer) && (p.held || p.release > PollsOf(h, peer))))
      && (peer !in h.lost ==> HandsDue(h, g, peer, f))
  {
    forall q: nat ensures PollsOf(Pump(h, peer, draw), q) == PollsOf(h, q) + (if q == peer then 1 else 0) {
      PumpPolls(h, peer, draw, q);
    }
    hide Pump, Handed, InFlight, PollsOf, HandsDue;
    if peer !in h.lost {
      PumpLeaves(h, peer, draw, f);
      PumpHandsDue(h, peer, draw, f);
    } else {
      LostPump(h, peer, draw);
    }
  }

  lemma LostPump(h: Hub, peer: nat, draw: Draw)
    requires peer in h.lost
    ensures var g := Pump(h, peer, draw); g == h.(polls := g.polls)
  {
  }

  lemma PumpPolls(h: Hub, peer: nat, draw: Draw, q: nat)
    ensures PollsOf(Pump(h, peer, draw), q) == PollsOf(h, q) + (if q == peer then 1 else 0)
  {
    PolledMoves(h, peer, 0, q);
    PumpPipesTake(Polled(h, peer), peer, h.peers, draw, 0, 0);
    hide PumpPipes, Polled, Grew, PollsOf;
    if peer !in h.lost {
      SamePolls(Polled(h, peer), Pump(h, peer, draw), q);
    }
  }

  lemma PumpLeaves(h: Hub, peer: nat, draw: Draw, f: nat)
    requires f < h.peers && f != peer && peer !in h.lost
    ensures var g := Pump(h, peer, draw);
      forall p :: p in InFlight(g, f, peer) <==> p in InFlight(h, f, peer) && (p.held || p.release > PollsOf(h, peer))
  {
    PumpMoves(h, peer, draw, f, peer);
    DueAndKept(InFlight(h, f, peer), PollsOf(h, peer) + 1);
    hide Pump, InFlight, PollsOf, Kept, Due, Grew;
  }

  lemma PumpHandsDue(h: Hub, peer: nat, draw: Draw, f: nat)
    requires f < h.peers && f != peer && peer !in h.lost
    ensures HandsDue(h, Pump(h, peer, draw), peer, f)
  {
    var h1, g := Polled(h, peer), Pump(h, peer, draw);
    assert g == PumpPipes(h1, peer, h.peers, draw) && h1.reorder == h.reorder;
    PolledMoves(h, peer, f, peer);
    KeepsHanded(h, h1, f, peer);
    hide Pump, PumpPipes, Polled, Due, Kept, InFlight, Handed, PollsOf, Grew, Items, InTurn;
    PumpPipesHand(h1, peer, h.peers, draw, f);
    var due := Due(InFlight(h1, f, peer), PollsOf(h1, peer));
    BatchOfDue(h, g, peer, f, InTurn(due, h.reorder, PollsOf(h1, peer), draw));
  }

  /** Of what was in the pipe, the batch is just what is due at the next poll, in the order sent if that is
      not permuted. */
  ghost predicate DueBatch(batch: seq<Pending>, s: seq<Pending>, polls: nat, reorder: bool) {
    && (forall p :: p in batch <==> p in s && !p.held && p.release <= polls)
    && (!reorder ==> batch == Due(s, polls + 1))
  }

  ghost predicate HandsDue(h: Hub, g: Hub, peer: nat, f: nat) {
    exists batch ::
      && DueBatch(batch, InFlight(h, f, peer), PollsOf(h, peer), h.reorder)
      && Handed(g, f, peer) == Handed(h, f, peer) + Items(batch)
  }

  lemma BatchOfDue(h: Hub, g: Hub, peer: nat, f: nat, batch: seq<Pending>)
    requires Handed(g, f, peer) == Handed(h, f, peer) + Items(batch)
    requires var due := Due(InFlight(h, f, peer), PollsOf(h, peer) + 1);
      multiset(batch) == multiset(due) && (h.reorder || batch == due)
    ensures HandsDue(h, g, peer, f)
  {
    hide Due, InFlight, Handed, PollsOf, Items, DueBatch;
    DueBatchIs(batch, InFlight(h, f, peer), PollsOf(h, peer), h.reorder);
  }

  lemma DueBatchIs(batch: seq<Pending>, s: seq<Pending>, polls: nat, reorder: bool)
    requires multiset(batch) == multiset(Due(s, polls + 1)) && (reorder || batch == Due(s, polls + 1))
    ensures DueBatch(batch, s, polls, reorder)
  {
    hide Due, Kept;
    DueAndKept(s, polls + 1);
    SameMembers(batch, Due(s, polls + 1));
    forall p ensures p in batch <==> p in s && !p.held && p.release <= polls {
      assert p in batch <==> p in Due(s, polls + 1);
      assert IsDue(p, polls + 1) <==> !p.held && p.release <= polls;
    }
  }

  lemma SameMembers(a: seq<Pending>, b: seq<Pending>)
    requires multiset(a) == multiset(b)
    ensures forall p :: p in a <==> p in b
  {
    forall p ensures p in a <==> p in b {
      assert p in a <==> p in multiset(a);
      assert p in b <==> p in multiset(b);
    }
  }

  // ---------------------------------------------------------------- faults, losses and the rest

  /** Arming sets the pipe's fault and touches nothing else; there must be such a pipe. */
  lemma ArmDoes(h: Hub, from: nat, to: nat, fault: Fault)
    ensures var (g, status) := ArmFault(h, from, to, fault);
      && status == (if from < h.peers && to < h.peers then Ok else Failed(OutOfRange)) && (status != Ok ==> g == h)
      && (status == Ok ==> g == h.(pipes := g.pipes) && PipeOf(g, from, to) == Pipe(InFlight(h, from, to), Armed(fault)))
      && (forall f: nat, t: nat :: (f, t) != (from, to) ==> PipeOf(g, f, t) == PipeOf(h, f, t))
  {
  }

  /** Losing a peer marks it and empties every pipe to and from it, whatever was held or armed on them, and
      touches no other pipe, no inbox and no figure. */
  lemma LoseDoes(h: Hub, peer: nat)
    ensures var (g, status) := Lose(h, peer);
      && status == (if peer < h.peers then Ok else Failed(OutOfRange)) && (status != Ok ==> g == h)
      && (status == Ok ==> g == h.(lost := h.lost + {peer}, pipes := g.pipes, discarded := g.discarded))
      && (status == Ok ==> forall f: nat, t: nat :: f < h.peers && t < h.peers && f != t ==>
            InFlight(g, f, t) == if f == peer || t == peer then [] else InFlight(h, f, t))
      && (forall f: nat, t: nat :: PipeOf(g, f, t).armed == PipeOf(h, f, t).armed)
  {
    var h1, g := h.(lost := h.lost + {peer}), Lose(h, peer).0;
    ClearPipesClear(h1, peer, h.peers, 0, 0);
    hide ClearPipes;
    if peer < h.peers {
      forall f: nat, t: nat ensures PipeOf(g, f, t).armed == PipeOf(h, f, t).armed {
        ClearPipesClear(h1, peer, h.peers, f, t);
      }
      forall f: nat, t: nat | f < h.peers && t < h.peers && f != t
        ensures InFlight(g, f, t) == if f == peer || t == peer then [] else InFlight(h, f, t)
      {
        ClearPipesClear(h1, peer, h.peers, f, t);
      }
    }
  }

  /** Releasing clears every held mark and changes nothing else: the order, the contents and when each is due. */
  lemma ReleaseDoes(h: Hub)
    ensures var g := ReleaseHeld(h);
      && g == h.(pipes := g.pipes)
      && (forall f: nat, t: nat :: PipeOf(g, f, t).armed == PipeOf(h, f, t).armed)
      && (forall f: nat, t: nat :: |InFlight(g, f, t)| == |InFlight(h, f, t)|)
      && (forall f: nat, t: nat, i :: 0 <= i < |InFlight(h, f, t)| ==> InFlight(g, f, t)[i] == InFlight(h, f, t)[i].(held := false))
  {
  }

  /** A held message waits for the release, however long: until it, or the loss of an end of its pipe, it is
      where it was put, and it is handed over in its receiver's next poll that finds it due after that. */
  lemma {:induction false} HeldWaits(h: Hub, ops: seq<Operation>, draw: Draw, f: nat, t: nat, p: Pending)
    requires p in InFlight(h, f, t) && p.held && f < h.peers && t < h.peers && f != t
    requires forall i :: 0 <= i < |ops| ==> !ops[i].DoRelease? && !Loses(ops[i], f, t) && Sensible(ops[i], h.peers)
    ensures p in InFlight(Run(h, ops, draw), f, t)
    decreases |ops|
  {
    if ops != [] {
      StepMoves(h, ops[0], draw, f, t);
      var g := Step(h, ops[0], draw);
      HeldStays(h, g, f, t, p);
      hide Step;
      HeldWaits(g, ops[1..], draw, f, t, p);
    }
  }

  lemma HeldStays(h: Hub, g: Hub, f: nat, t: nat, p: Pending)
    requires p in InFlight(h, f, t) && p.held
    requires Grew(h, g, f, t) || InFlight(g, f, t) == Kept(InFlight(h, f, t), PollsOf(g, t))
    ensures p in InFlight(g, f, t)
  {
    if Grew(h, g, f, t) {
      GrewMembers(h, g, f, t);
    } else {
      DueAndKept(InFlight(h, f, t), PollsOf(g, t));
    }
  }

  /** And once released it goes like any other. */
  lemma ReleasedGoes(h: Hub, f: nat, t: nat, p: Pending, draw: Draw)
    requires p in InFlight(h, f, t) && f < h.peers && t < h.peers && f != t && t !in h.lost
    requires p.release <= PollsOf(h, t)
    ensures var g := ReleaseHeld(h);
      p.(held := false) in InFlight(g, f, t) && p.(held := false) !in InFlight(Pump(g, t, draw), f, t)
  {
    var g := ReleaseHeld(h);
    ReleaseDoes(h);
    var i :| 0 <= i < |InFlight(h, f, t)| && InFlight(h, f, t)[i] == p;
    assert InFlight(g, f, t)[i] == p.(held := false);
    PumpDoes(g, t, draw, f);
  }

  /** Draining hands over what waits in one inbox, and nothing else is different. */
  lemma DrainDoes(h: Hub, peer: nat, origin: nat)
    ensures var g := DrainBox(h, peer, origin);
      var (was, now) := (BoxOf(h, peer, origin), BoxOf(g, peer, origin));
      && g == h.(boxes := g.boxes) && now.pending == [] && now.drained == was.drained + was.pending
      && now.overflowed == was.overflowed
      && (forall p: nat, o: nat :: (p, o) != (peer, origin) ==> BoxOf(g, p, o) == BoxOf(h, p, o))
  {
  }

  // ---------------------------------------------------------------- a broadcast gets there

  lemma ReachedTagged(h: Hub, g: Hub, from: nat, to: nat, bytes: Message) returns (c: Pending)
    requires Reached(h, g, from, to, bytes, from, h.nextOrder) && PipeOf(h, from, to).armed == Unarmed
    requires Below(h, from, to) && Grew(h, g, from, to)
    ensures c in InFlight(g, from, to) && Tagged(g, from, to, c) && c.bytes == bytes && c.origin == from
    ensures c.release == PollsOf(h, to) + h.latency
  {
    var order :| order >= h.nextOrder && Meets(h, g, from, to, bytes, from, false, order);
    c :| && InFlight(g, from, to) == InFlight(h, from, to) + [c] && Said(bytes, PipeOf(h, from, to).armed, c)
         && c.origin == from && c.everyone == false && c.order == order
         && c.release == PollsOf(h, to) + h.latency
         && Sent(g, from, to) == Sent(h, from, to) + [Item(from, c.bytes, false)]
         && PipeOf(g, from, to).armed == Unarmed;
    hide InFlight, PollsOf, Sent, PipeOf, Meets, Reached, Tagged, Below, Grew;
    assert !c.held;
    NewestTagged(h, g, from, to, c);
  }

  lemma NewestTagged(h: Hub, g: Hub, from: nat, to: nat, c: Pending)
    requires Below(h, from, to) && Grew(h, g, from, to) && !c.held && c.order >= h.nextOrder
    requires InFlight(g, from, to) == InFlight(h, from, to) + [c]
    ensures c in InFlight(g, from, to) && Tagged(g, from, to, c)
  {
    hide InFlight;
    assert InFlight(g, from, to)[|InFlight(h, from, to)|] == c;
  }

  /** A mesh broadcast gets to each of the others it was sent to, on exactly that one's (latency + 1)-th poll
      after: in flight until then, and handed over in that poll. */
  lemma MeshBroadcastArrives(h: Hub, from: nat, to: nat, bytes: Message, ops: seq<Operation>, draw: Draw)
    requires !h.star && GetsIt(h, from, to) && Below(h, from, to) && PipeOf(h, from, to).armed == Unarmed
    requires forall i :: 0 <= i < |ops| ==> !Loses(ops[i], from, to) && Sensible(ops[i], h.peers)
    requires Pumps(ops, to) == h.latency
    ensures var h1 := Run(Broadcast(h, from, bytes).0, ops, draw);
      var g := Pump(h1, to, draw);
      exists c: Pending ::
        && c.bytes == bytes && c.origin == from && c in InFlight(h1, from, to) && c !in InFlight(g, from, to)
        && exists batch :: Handed(g, from, to) == Handed(h1, from, to) + Items(batch) && c in batch
  {
    var h0 := Broadcast(h, from, bytes).0;
    MeshBroadcastDoes(h, from, bytes);
    BroadcastGrew(h, from, bytes, from, to);
    var c := ReachedTagged(h, h0, from, to, bytes);
    assert to < h.peers && from < h.peers && from != to && to !in h.lost;
    hide Reached, Meets, Tagged, Broadcast, InFlight, PollsOf, Handed, Run, Items;
    RunFollows(h0, ops, draw, from, to, c);
    LeavesThen(Run(h0, ops, draw), from, to, c, draw);
  }

  /** What is due at a poll is gone from the pipe after it, and among what was handed over. */
  lemma LeavesThen(h: Hub, from: nat, to: nat, c: Pending, draw: Draw)
    requires c in InFlight(h, from, to) && !c.held && c.release <= PollsOf(h, to)
    requires from < h.peers && from != to && to !in h.lost
    ensures var g := Pump(h, to, draw);
      && c !in InFlight(g, from, to)
      && exists batch :: Handed(g, from, to) == Handed(h, from, to) + Items(batch) && c in batch
  {
    PumpDoes(h, to, draw, from);
    hide Pump, InFlight, PollsOf, Handed, Items;
    var batch :| DueBatch(batch, InFlight(h, from, to), PollsOf(h, to), h.reorder)
      && Handed(Pump(h, to, draw), from, to) == Handed(h, from, to) + Items(batch);
    assert c in batch;
  }

  // ---------------------------------------------------------------- any order at all

  function Exchange<T>(s: seq<T>, i: nat, j: nat): (r: seq<T>)
    requires i < |s| && j < |s|
    ensures |r| == |s| && multiset(r) == multiset(s)
  {
    s[i := s[j]][j := s[i]]
  }

  /** One turn of the shuffle. */
  lemma ShuffleTurns(batch: seq<Pending>, i: nat, now: nat, draw: Draw)
    requires 1 < i <= |batch|
    ensures var j := draw(now, |batch|, i) % i;
      && 0 <= j < i
      && Shuffle(batch, i, now, draw).0 == Shuffle(Exchange(batch, i - 1, j), i - 1, now, draw).0
      && Shuffle(batch, i, now, draw).1
         == Shuffle(Exchange(batch, i - 1, j), i - 1, now, draw).1 + (if j == i - 1 then 0 else 1)
  {
    if draw(now, |batch|, i) % i == i - 1 {
      assert Exchange(batch, i - 1, i - 1) == batch;
    }
  }

  /** The same messages, and in place from `i` on. */
  ghost predicate SettledFrom<T>(s: seq<T>, i: nat, target: seq<T>) {
    && i <= |s| == |target| && multiset(s) == multiset(target)
    && forall k :: i <= k < |s| ==> s[k] == target[k]
  }

  lemma RestIsTheSame<T>(s: seq<T>, i: nat, target: seq<T>)
    requires SettledFrom(s, i, target)
    ensures multiset(s[..i]) == multiset(target[..i])
  {
    assert s == s[..i] + s[i..] && target == target[..i] + target[i..];
    assert s[i..] == target[i..];
    assert multiset(s) == multiset(s[..i]) + multiset(s[i..]);
    assert multiset(target) == multiset(target[..i]) + multiset(target[i..]);
    Cancels(multiset(s[..i]), multiset(target[..i]), multiset(s[i..]));
  }

  lemma Cancels<T>(a: multiset<T>, b: multiset<T>, c: multiset<T>)
    requires a + c == b + c
    ensures a == b
  {
    assert (a + c) - c == a && (b + c) - c == b;
  }

  lemma AllSettled<T>(s: seq<T>, i: nat, target: seq<T>)
    requires SettledFrom(s, i, target) && i <= 1
    ensures s == target
  {
    if i == 1 {
      RestIsTheSame(s, i, target);
      assert s[..1] == [s[0]] && target[..1] == [target[0]];
      assert s[0] in multiset(target[..1]);
    }
  }

  lemma Settles<T>(s: seq<T>, i: nat, target: seq<T>) returns (j: nat)
    requires SettledFrom(s, i, target) && 1 < i
    ensures j < i && SettledFrom(Exchange(s, i - 1, j), i - 1, target)
  {
    RestIsTheSame(s, i, target);
    assert target[i - 1] == target[..i][i - 1];
    assert target[i - 1] in multiset(s[..i]);
    j :| 0 <= j < i && s[..i][j] == target[i - 1];
  }

  function Then(d: Draw, i: nat, j: nat): Draw {
    (now: nat, size: nat, c: nat) => if c == i then j else d(now, size, c)
  }

  /** Only the draws for the places still to come matter. */
  lemma {:induction false} LaterDraws(batch: seq<Pending>, i: nat, now: nat, d: Draw, above: nat, j: nat)
    requires i < above && i <= |batch|
    ensures Shuffle(batch, i, now, Then(d, above, j)) == Shuffle(batch, i, now, d)
    decreases i
  {
    hide Shuffle, Exchange;
    var e := Then(d, above, j);
    if i > 1 {
      ShuffleTurns(batch, i, now, d);
      ShuffleTurns(batch, i, now, e);
      var c := d(now, |batch|, i) % i;
      assert e(now, |batch|, i) % i == c;
      LaterDraws(Exchange(batch, i - 1, c), i - 1, now, d, above, j);
    } else {
      NoTurns(batch, i, now, d);
      NoTurns(batch, i, now, e);
    }
  }

  lemma NoTurns(batch: seq<Pending>, i: nat, now: nat, draw: Draw)
    requires i <= 1 && i <= |batch|
    ensures Shuffle(batch, i, now, draw) == (batch, 0)
  {
  }

  /** Where the shuffle has not come yet it may still put anything that is there. */
  lemma {:induction false} ShuffleReaches(batch: seq<Pending>, i: nat, now: nat, target: seq<Pending>) returns (draw: Draw)
    requires SettledFrom(batch, i, target)
    ensures Shuffle(batch, i, now, draw).0 == target
    decreases i
  {
    if i <= 1 {
      hide Shuffle;
      draw := (a, b, c) => 0;
      AllSettled(batch, i, target);
      NoTurns(batch, i, now, draw);
    } else {
      hide Shuffle, SettledFrom, Exchange, Then;
      LongEnough(batch, i, target);
      var j := Settles(batch, i, target);
      var rest := ShuffleReaches(Exchange(batch, i - 1, j), i - 1, now, target);
      draw := Then(rest, i, j);
      FirstTurn(batch, i, j, now, rest);
    }
  }

  lemma LongEnough<T>(s: seq<T>, i: nat, target: seq<T>)
    requires SettledFrom(s, i, target)
    ensures i <= |s|
  {
  }

  lemma FirstTurn(batch: seq<Pending>, i: nat, j: nat, now: nat, rest: Draw)
    requires 1 < i <= |batch| && j < i
    ensures Shuffle(batch, i, now, Then(rest, i, j)).0 == Shuffle(Exchange(batch, i - 1, j), i - 1, now, rest).0
  {
    hide Shuffle, Exchange, Then;
    DrawsThis(rest, i, j, now, |batch|);
    LaterDraws(Exchange(batch, i - 1, j), i - 1, now, rest, i, j);
    ShuffleTurns(batch, i, now, Then(rest, i, j));
  }

  lemma DrawsThis(rest: Draw, i: nat, j: nat, now: nat, size: nat)
    requires j < i
    ensures Then(rest, i, j)(now, size, i) % i == j
  {
  }

  /** A hub that reorders can hand over what is due in any order whatever. */
  lemma AnyOrder(batch: seq<Pending>, target: seq<Pending>, now: nat)
    requires multiset(target) == multiset(batch)
    ensures exists draw :: Shuffle(batch, |batch|, now, draw).0 == target
  {
    assert |target| == |multiset(target)| && |batch| == |multiset(batch)|;
    var draw := ShuffleReaches(batch, |batch|, now, target);
  }

  /** So whatever is due of a pipe, some draws make a hub that reorders hand it over in any given order. */
  lemma AnyOrderHanded(h: Hub, peer: nat, f: nat, target: seq<Pending>)
    requires h.reorder && f < h.peers && f != peer && peer !in h.lost
    requires multiset(target) == multiset(Due(InFlight(h, f, peer), PollsOf(h, peer) + 1))
    ensures exists draw :: Handed(Pump(h, peer, draw), f, peer) == Handed(h, f, peer) + Items(target)
  {
    var due, now := Due(InFlight(h, f, peer), PollsOf(h, peer) + 1), PollsOf(h, peer) + 1;
    AnyOrder(due, target, now);
    var draw :| Shuffle(due, |due|, now, draw).0 == target;
    assert InTurn(due, true, now, draw) == target;
    var h1 := Polled(h, peer);
    assert Pump(h, peer, draw) == PumpPipes(h1, peer, h.peers, draw) && h1.reorder;
    PolledMoves(h, peer, f, peer);
    KeepsHanded(h, h1, f, peer);
    hide Pump, PumpPipes, Polled, Due, InFlight, Handed, PollsOf, Grew, Items, InTurn, Shuffle;
    PumpPipesHand(h1, peer, h.peers, draw, f);
  }

  /** The reordered figure counts the exchanges: fewer than there are messages, and none exactly when every
      draw leaves its place alone, which leaves the batch as it was. */
  lemma {:induction false} ExchangesCounted(batch: seq<Pending>, i: nat, now: nat, draw: Draw)
    requires i <= |batch|
    ensures var (shuffled, swaps) := Shuffle(batch, i, now, draw);
      (i > 0 ==> swaps < i) && (swaps == 0 ==> shuffled == batch)
      && (swaps == 0 <==> forall c: nat :: 2 <= c <= i ==> draw(now, |batch|, c) % c == c - 1)
    decreases i
  {
    hide Shuffle, Exchange;
    if i > 1 {
      var j := draw(now, |batch|, i) % i;
      ShuffleTurns(batch, i, now, draw);
      ExchangesCounted(Exchange(batch, i - 1, j), i - 1, now, draw);
      if j == i - 1 {
        SameExchanged(batch, j);
      }
    } else {
      NoTurns(batch, i, now, draw);
    }
  }

  lemma SameExchanged<T>(s: seq<T>, i: nat)
    requires i < |s|
    ensures Exchange(s, i, i) == s
  {
  }
}
