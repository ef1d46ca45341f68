/** What each pipe owes and what the counters count, under every fault, hold, permutation and topology: what
    came out of a pipe with what is still in it is what went in, unless an end was lost; and the hub's
    figures for what was delivered and refused are those of the inboxes. */
module Accounting {
  import opened Inboxes
  import opened Loopback
  import opened Conservation
  import opened Latency
  import opened StarRelay

  ghost function ItemSet(s: seq<Pending>): multiset<Item> { multiset(Items(s)) }

  ghost predicate Balances(out: multiset<Item>, hand: multiset<Item>, left: multiset<Item>, sent: multiset<Item>,
                           whole: bool) {
    out + hand + left <= sent && (whole ==> out + hand + left == sent)
  }

  /** Of what went into the pipe, what came out, what is in hand and what is in flight are all different
      messages, and are all of it while both ends are there. */
  ghost predicate Accounted(h: Hub, f: nat, t: nat, hand: multiset<Item>) {
    Balances(multiset(Handed(h, f, t)), hand, ItemSet(InFlight(h, f, t)), multiset(Sent(h, f, t)),
             f !in h.lost && t !in h.lost)
  }

  /** One operation may change a pipe, but not what is owed on it nor who is there. */
  ghost predicate KeepsAccounts(h: Hub, g: Hub, f: nat, t: nat) {
    g.lost == h.lost && g.peers == h.peers && forall hand :: Accounted(h, f, t, hand) ==> Accounted(g, f, t, hand)
  }

  lemma ItemsJoin(a: seq<Pending>, b: seq<Pending>)
    ensures Items(a + b) == Items(a) + Items(b)
  {
  }

  lemma SetsJoin(a: seq<Pending>, b: seq<Pending>)
    ensures ItemSet(a + b) == ItemSet(a) + ItemSet(b)
  {
    ItemsJoin(a, b);
  }

  lemma SetOfOne(p: Pending)
    ensures ItemSet([p]) == multiset{ItemOf(p)}
  {
    assert Items([p]) == [ItemOf(p)];
  }

  lemma AdmitAccounts(h: Hub, from: nat, to: nat, p: Pending, stats: Stats, f: nat, t: nat)
    ensures KeepsAccounts(h, Admit(h, from, to, p, stats), f, t)
  {
    hide ItemSet, Balances;
    var g := Admit(h, from, to, p, stats);
    if (f, t) == (from, to) {
      AdmitGains(h, from, to, p, stats);
      forall hand | Accounted(h, f, t, hand) ensures Accounted(g, f, t, hand) {
        EntersOne(multiset(Handed(h, f, t)), hand, ItemSet(InFlight(h, f, t)), multiset(Sent(h, f, t)),
                f !in h.lost && t !in h.lost, ItemOf(p));
      }
    }
  }

  lemma AdmitGains(h: Hub, from: nat, to: nat, p: Pending, stats: Stats)
    ensures var g := Admit(h, from, to, p, stats);
      && Handed(g, from, to) == Handed(h, from, to)
      && ItemSet(InFlight(g, from, to)) == ItemSet(InFlight(h, from, to)) + multiset{ItemOf(p)}
      && multiset(Sent(g, from, to)) == multiset(Sent(h, from, to)) + multiset{ItemOf(p)}
  {
    SetsJoin(InFlight(h, from, to), [p]);
    SetOfOne(p);
    hide ItemSet;
  }

  lemma EntersOne(out: multiset<Item>, hand: multiset<Item>, left: multiset<Item>, sent: multiset<Item>, whole: bool,
                x: Item)
    requires Balances(out, hand, left, sent, whole)
    ensures Balances(out, hand, left + multiset{x}, sent + multiset{x}, whole)
  {
    assert out + hand + (left + multiset{x}) == out + hand + left + multiset{x};
  }

  lemma LeavesHand(out: multiset<Item>, hand: multiset<Item>, left: multiset<Item>, sent: multiset<Item>, whole: bool,
                 x: Item)
    requires Balances(out, multiset{x} + hand, left, sent, whole)
    ensures Balances(out + multiset{x}, hand, left, sent, whole)
  {
    assert out + multiset{x} + hand == out + (multiset{x} + hand);
  }

  lemma VanishAccounts(h: Hub, from: nat, to: nat, stats: Stats, f: nat, t: nat)
    ensures KeepsAccounts(h, Vanish(h, from, to, stats), f, t)
  {
  }

  lemma EnqueueAccounts(h: Hub, from: nat, to: nat, bytes: Message, origin: nat, everyone: bool, f: nat, t: nat)
    ensures KeepsAccounts(h, Enqueue(h, from, to, bytes, origin, everyone), f, t)
  {
    hide Corrupted, Admit, Vanish, KeepsAccounts, PipeOf, PollsOf;
    forall p, stats ensures KeepsAccounts(h, Admit(h, from, to, p, stats), f, t) {
      AdmitAccounts(h, from, to, p, stats, f, t);
    }
    forall stats ensures KeepsAccounts(h, Vanish(h, from, to, stats), f, t) {
      VanishAccounts(h, from, to, stats, f, t);
    }
  }

  lemma {:induction false} RelayAccounts(h: Hub, origin: nat, bytes: Message, to: nat, f: nat, t: nat)
    ensures KeepsAccounts(h, RelayTo(h, origin, bytes, to), f, t)
    decreases h.peers - to
  {
    hide Enqueue, Accounted;
    if to < h.peers {
      if to == origin || to in h.lost {
        RelayAccounts(h, origin, bytes, to + 1, f, t);
      } else {
        EnqueueAccounts(h, 0, to, bytes, origin, false, f, t);
        RelayAccounts(Enqueue(h, 0, to, bytes, origin, false), origin, bytes, to + 1, f, t);
      }
    }
  }

  lemma SendAccounts(h: Hub, from: nat, to: nat, bytes: Message, f: nat, t: nat)
    ensures KeepsAccounts(h, Send(h, from, to, bytes).0, f, t)
  {
    hide Enqueue, Accounted;
    EnqueueAccounts(h, from, to, bytes, from, false, f, t);
  }

  lemma {:induction false} SendToEachAccounts(h: Hub, from: nat, bytes: Message, peer: nat, f: nat, t: nat)
    ensures KeepsAccounts(h, SendToEach(h, from, bytes, peer).0, f, t)
    decreases h.peers - peer
  {
    hide Send, Accounted;
    if peer < h.peers {
      if peer == from {
        SendToEachAccounts(h, from, bytes, peer + 1, f, t);
      } else {
        SendAccounts(h, from, peer, bytes, f, t);
        SendToEachAccounts(Send(h, from, peer, bytes).0, from, bytes, peer + 1, f, t);
      }
    }
  }

  lemma BroadcastAccounts(h: Hub, from: nat, bytes: Message, f: nat, t: nat)
    ensures KeepsAccounts(h, Broadcast(h, from, bytes).0, f, t)
  {
    hide Enqueue, RelayTo, SendToEach, Accounted;
    SendToEachAccounts(h, from, bytes, 0, f, t);
    EnqueueAccounts(h, from, 0, bytes, from, true, f, t);
    RelayAccounts(h, 0, bytes, 1, f, t);
  }

  // ---------------------------------------------------------------- a poll

  /** What is in hand on pipe (f, t) when `batch` was taken out of pipe (from, peer). */
  ghost function InHand(from: nat, peer: nat, batch: seq<Pending>, f: nat, t: nat): multiset<Item> {
    if (f, t) == (from, peer) then ItemSet(batch) else multiset{}
  }

  lemma FileAccounts(h: Hub, from: nat, peer: nat, p: Pending, rest: seq<Pending>, f: nat, t: nat)
    requires Accounted(h, f, t, InHand(from, peer, [p] + rest, f, t))
    ensures var g := File(h, from, peer, p);
      Accounted(g, f, t, InHand(from, peer, rest, f, t)) && g.lost == h.lost && g.peers == h.peers
  {
    hide Offer, Balances, ItemSet;
    SetsJoin([p], rest);
    SetOfOne(p);
    if (f, t) == (from, peer) {
      LeavesHand(multiset(Handed(h, f, t)), ItemSet(rest), ItemSet(InFlight(h, f, t)), multiset(Sent(h, f, t)),
               f !in h.lost && t !in h.lost, ItemOf(p));
    }
  }

  lemma DeliverOneAccounts(h: Hub, from: nat, peer: nat, p: Pending, rest: seq<Pending>, f: nat, t: nat)
    requires Accounted(h, f, t, InHand(from, peer, [p] + rest, f, t))
    ensures var g := DeliverOne(h, from, peer, p);
      Accounted(g, f, t, InHand(from, peer, rest, f, t)) && g.lost == h.lost && g.peers == h.peers
  {
    var h1 := h.(relayed := h.relayed + [CopyOf(p)]);
    RelayAccounts(h1, p.origin, p.bytes, 1, f, t);
    var h2 := if p.everyone && peer == 0 then RelayTo(h1, p.origin, p.bytes, 1) else h;
    assert Accounted(h1, f, t, InHand(from, peer, [p] + rest, f, t));
    hide RelayTo, File, Accounted, InHand;
    FileAccounts(h2, from, peer, p, rest, f, t);
  }

  lemma {:induction false} DeliverAllAccounts(h: Hub, from: nat, peer: nat, batch: seq<Pending>, f: nat, t: nat)
    requires Accounted(h, f, t, InHand(from, peer, batch, f, t))
    ensures var g := DeliverAll(h, from, peer, batch);
      Accounted(g, f, t, multiset{}) && g.lost == h.lost && g.peers == h.peers
    decreases |batch|
  {
    hide DeliverOne, Accounted;
    if batch != [] {
      assert batch == [batch[0]] + batch[1..];
      DeliverOneAccounts(h, from, peer, batch[0], batch[1..], f, t);
      DeliverAllAccounts(DeliverOne(h, from, peer, batch[0]), from, peer, batch[1..], f, t);
    }
  }

  lemma {:induction false} SetPermuted(a: seq<Pending>, b: seq<Pending>)
    requires multiset(a) == multiset(b)
    ensures ItemSet(a) == ItemSet(b)
    decreases |a|
  {
    hide ItemSet;
    if a == [] {
      assert |multiset(b)| == |b|;
      assert b == [];
    } else {
      var x, rest := a[0], a[1..];
      var i := Found(a, b);
      var others := b[..i] + b[i + 1..];
      TakenOut(b, i);
      assert a == [x] + rest;
      assert multiset(rest) == multiset(a) - multiset{x} && multiset(others) == multiset(b) - multiset{x};
      SetPermuted(rest, others);
      SetsJoin([x], rest);
    }
  }

  lemma Found(a: seq<Pending>, b: seq<Pending>) returns (i: nat)
    requires multiset(a) == multiset(b) && a != []
    ensures i < |b| && b[i] == a[0]
  {
    assert a[0] in multiset(a);
    i :| 0 <= i < |b| && b[i] == a[0];
  }

  lemma TakenOut(b: seq<Pending>, i: nat)
    requires i < |b|
    ensures multiset(b) == multiset{b[i]} + multiset(b[..i] + b[i + 1..])
    ensures ItemSet(b) == ItemSet([b[i]]) + ItemSet(b[..i] + b[i + 1..])
  {
    hide ItemSet;
    assert b == b[..i] + [b[i]] + b[i + 1..];
    SetsJoin(b[..i] + [b[i]], b[i + 1..]);
    SetsJoin(b[..i], [b[i]]);
    SetsJoin(b[..i], b[i + 1..]);
  }

  lemma {:induction false} SplitItems(s: seq<Pending>, now: nat)
    ensures ItemSet(Due(s, now)) + ItemSet(Kept(s, now)) == ItemSet(s)
  {
    if s != [] {
      SplitItems(s[1..], now);
      assert s == [s[0]] + s[1..];
      SetsJoin([s[0]], s[1..]);
      SetsJoin([s[0]], Due(s[1..], now));
      SetsJoin([s[0]], Kept(s[1..], now));
      hide ItemSet;
      assert [] + Due(s[1..], now) == Due(s[1..], now) && [] + Kept(s[1..], now) == Kept(s[1..], now);
    }
  }

  lemma TakeAccounts(h: Hub, from: nat, peer: nat, draw: Draw, f: nat, t: nat)
    requires Accounted(h, f, t, multiset{})
    ensures var (g, batch) := TakeDue(h, from, peer, draw);
      Accounted(g, f, t, InHand(from, peer, batch, f, t)) && g.lost == h.lost && g.peers == h.peers
  {
    var (g, batch) := TakeDue(h, from, peer, draw);
    TakenSets(h, from, peer, draw);
    TakenElsewhere(h, from, peer, draw, f, t);
    hide TakeDue, ItemSet, InFlight;
    if (f, t) == (from, peer) {
      MovedToHand(multiset(Handed(h, f, t)), ItemSet(batch), ItemSet(InFlight(g, f, t)), multiset(Sent(h, f, t)),
                  f !in h.lost && t !in h.lost);
    }
  }

  lemma MovedToHand(out: multiset<Item>, hand: multiset<Item>, left: multiset<Item>, sent: multiset<Item>, whole: bool)
    requires Balances(out, multiset{}, hand + left, sent, whole)
    ensures Balances(out, hand, left, sent, whole)
  {
    assert out + multiset{} + (hand + left) == out + hand + left;
  }

  lemma TakenSets(h: Hub, from: nat, peer: nat, draw: Draw)
    ensures var (g, batch) := TakeDue(h, from, peer, draw);
      ItemSet(InFlight(h, from, peer)) == ItemSet(batch) + ItemSet(InFlight(g, from, peer))
  {
    hide ItemSet, Due, Kept, Shuffle;
    var s, now := InFlight(h, from, peer), PollsOf(h, peer);
    var (g, batch) := TakeDue(h, from, peer, draw);
    assert multiset(batch) == multiset(Due(s, now));
    SetPermuted(batch, Due(s, now));
    SplitItems(s, now);
  }

  lemma TakenElsewhere(h: Hub, from: nat, peer: nat, draw: Draw, f: nat, t: nat)
    ensures var g := TakeDue(h, from, peer, draw).0;
      && g == h.(pipes := g.pipes, stats := g.stats)
      && ((f, t) != (from, peer) ==> InFlight(g, f, t) == InFlight(h, f, t))
  {
    hide Due, Kept, Shuffle;
  }

  lemma {:induction false} PumpPipesAccounts(h: Hub, peer: nat, count: nat, draw: Draw, f: nat, t: nat)
    requires Accounted(h, f, t, multiset{})
    ensures var g := PumpPipes(h, peer, count, draw);
      Accounted(g, f, t, multiset{}) && g.lost == h.lost && g.peers == h.peers
    decreases count
  {
    hide TakeDue, DeliverAll, Accounted, InHand;
    if count > 0 {
      PumpPipesAccounts(h, peer, count - 1, draw, f, t);
      var h1 := PumpPipes(h, peer, count - 1, draw);
      if count - 1 != peer {
        TakeAccounts(h1, count - 1, peer, draw, f, t);
        var (h2, batch) := TakeDue(h1, count - 1, peer, draw);
        DeliverAllAccounts(h2, count - 1, peer, batch, f, t);
      }
    }
  }

  // ---------------------------------------------------------------- every operation

  lemma LoseAccounts(h: Hub, peer: nat, f: nat, t: nat)
    requires Accounted(h, f, t, multiset{})
    ensures Accounted(Lose(h, peer).0, f, t, multiset{})
  {
    var h1 := h.(lost := h.lost + {peer});
    ClearPipesClear(h1, peer, h.peers, f, t);
    hide ClearPipes;
    assert Items([]) == [];
  }

  lemma ReleaseAccounts(h: Hub, f: nat, t: nat)
    requires Accounted(h, f, t, multiset{})
    ensures Accounted(ReleaseHeld(h), f, t, multiset{})
  {
    assert Items(InFlight(ReleaseHeld(h), f, t)) == Items(InFlight(h, f, t));
  }

  lemma StepAccounts(h: Hub, op: Operation, draw: Draw, f: nat, t: nat)
    requires Accounted(h, f, t, multiset{})
    ensures Accounted(Step(h, op, draw), f, t, multiset{})
  {
    hide Send, Broadcast, Lose, ReleaseHeld, PumpPipes, ItemSet, Balances;
    match op
    case DoSend(from, to, bytes) => SendAccounts(h, from, to, bytes, f, t);
    case DoBroadcast(from, bytes) => BroadcastAccounts(h, from, bytes, f, t);
    case DoPump(peer) => PumpPipesAccounts(Polled(h, peer), peer, h.peers, draw, f, t);
    case DoLose(peer) => LoseAccounts(h, peer, f, t);
    case DoArm(from, to, fault) =>
    case DoRelease => ReleaseAccounts(h, f, t);
    case DoDrain(peer, origin) =>
  }

  lemma {:induction false} RunAccounts(h: Hub, ops: seq<Operation>, draw: Draw, f: nat, t: nat)
    requires Accounted(h, f, t, multiset{})
    ensures Accounted(Run(h, ops, draw), f, t, multiset{})
    decreases |ops|
  {
    hide Step, Accounted;
    if ops != [] {
      StepAccounts(h, ops[0], draw, f, t);
      RunAccounts(Step(h, ops[0], draw), ops[1..], draw, f, t);
    }
  }

  /** After any run, on any pipe: nothing has come out that did not go in, nothing twice, and nothing is
      missing unless one of the pipe's ends was lost. */
  lemma EveryPipeAccounted(peers: nat, star: bool, latency: nat, reorder: bool, ops: seq<Operation>, draw: Draw,
                           f: nat, t: nat)
    ensures var h := Run(Initial(peers, star, latency, reorder), ops, draw);
      var out, left := multiset(Handed(h, f, t)), multiset(Items(InFlight(h, f, t)));
      && out + left <= multiset(Sent(h, f, t))
      && (f !in h.lost && t !in h.lost ==> out + left == multiset(Sent(h, f, t)))
  {
    var h := Initial(peers, star, latency, reorder);
    assert Items([]) == [] && Accounted(h, f, t, multiset{});
    hide Run;
    RunAccounts(h, ops, draw, f, t);
  }

  // ---------------------------------------------------------------- the counters

  /** An inbox's own count of what it took, or of what it refused. */
  function Figure(box: Inbox, refusals: bool): nat { if refusals then box.refused else box.accepted }

  function RowFigure(h: Hub, refusals: bool, peer: nat, count: nat): nat {
    if count == 0 then 0 else RowFigure(h, refusals, peer, count - 1) + Figure(BoxOf(h, peer, count - 1), refusals)
  }

  /** The counts of all inboxes of the first `rows` peers. */
  function Figures(h: Hub, refusals: bool, rows: nat): nat {
    if rows == 0 then 0 else Figures(h, refusals, rows - 1) + RowFigure(h, refusals, rows - 1, h.peers)
  }

  ghost predicate Tallied(h: Hub) {
    h.stats.delivered == Figures(h, false, h.peers) && h.stats.refused == Figures(h, true, h.peers)
  }

  /** Every message in flight is some peer's. */
  ghost predicate Named(h: Hub) {
    forall f: nat, t: nat, p :: p in InFlight(h, f, t) ==> p.origin < h.peers
  }

  ghost predicate KeepsFigures(h: Hub, g: Hub) {
    && g.boxes == h.boxes && g.peers == h.peers
    && g.stats.delivered == h.stats.delivered && g.stats.refused == h.stats.refused && (Named(h) ==> Named(g))
  }

  lemma {:induction false} SameFigures(h: Hub, g: Hub, refusals: bool, rows: nat)
    requires g.boxes == h.boxes && g.peers == h.peers
    ensures Figures(g, refusals, rows) == Figures(h, refusals, rows)
    decreases rows
  {
    if rows > 0 {
      SameFigures(h, g, refusals, rows - 1);
      RowFigureChanges(h, g, refusals, rows, 0, rows - 1, h.peers);
    }
  }

  ghost predicate OnlyBoxDiffers(h: Hub, g: Hub, peer: nat, origin: nat) {
    g.peers == h.peers && forall a: nat, o: nat :: (a, o) != (peer, origin) ==> BoxOf(g, a, o) == BoxOf(h, a, o)
  }

  lemma {:induction false} RowFigureChanges(h: Hub, g: Hub, refusals: bool, peer: nat, origin: nat, row: nat, count: nat)
    requires OnlyBoxDiffers(h, g, peer, origin)
    ensures RowFigure(g, refusals, row, count) - RowFigure(h, refusals, row, count)
      == (if row == peer && origin < count
          then Figure(BoxOf(g, peer, origin), refusals) - Figure(BoxOf(h, peer, origin), refusals) else 0)
    decreases count
  {
    if count > 0 {
      RowFigureChanges(h, g, refusals, peer, origin, row, count - 1);
    }
  }

  lemma {:induction false} FiguresChange(h: Hub, g: Hub, refusals: bool, peer: nat, origin: nat, rows: nat)
    requires OnlyBoxDiffers(h, g, peer, origin) && origin < h.peers
    ensures Figures(g, refusals, rows) - Figures(h, refusals, rows)
      == (if peer < rows
          then Figure(BoxOf(g, peer, origin), refusals) - Figure(BoxOf(h, peer, origin), refusals) else 0)
    decreases rows
  {
    if rows > 0 {
      FiguresChange(h, g, refusals, peer, origin, rows - 1);
      RowFigureChanges(h, g, refusals, peer, origin, rows - 1, h.peers);
    }
  }

  lemma KeptTally(h: Hub, g: Hub)
    requires Tallied(h) && Named(h) && KeepsFigures(h, g)
    ensures Tallied(g) && Named(g)
  {
    SameFigures(h, g, false, h.peers);
    SameFigures(h, g, true, h.peers);
  }

  lemma AdmitFigures(h: Hub, from: nat, to: nat, p: Pending, stats: Stats)
    requires p.origin < h.peers && stats.delivered == h.stats.delivered && stats.refused == h.stats.refused
    ensures KeepsFigures(h, Admit(h, from, to, p, stats))
  {
    var g := Admit(h, from, to, p, stats);
    if Named(h) {
      forall f: nat, t: nat, q | q in InFlight(g, f, t) ensures q.origin < h.peers {
        assert q == p || q in InFlight(h, f, t);
      }
    }
  }

  lemma VanishFigures(h: Hub, from: nat, to: nat, stats: Stats)
    requires stats.delivered == h.stats.delivered && stats.refused == h.stats.refused
    ensures KeepsFigures(h, Vanish(h, from, to, stats))
  {
    var g := Vanish(h, from, to, stats);
    assert forall f: nat, t: nat :: InFlight(g, f, t) == InFlight(h, f, t);
  }

  lemma EnqueueFigures(h: Hub, from: nat, to: nat, bytes: Message, origin: nat, everyone: bool)
    requires origin < h.peers
    ensures KeepsFigures(h, Enqueue(h, from, to, bytes, origin, everyone))
  {
    hide Corrupted, Admit, Vanish, KeepsFigures, PipeOf, PollsOf;
    forall p: Pending, stats: Stats |
      p.origin == origin && stats.delivered == h.stats.delivered && stats.refused == h.stats.refused
      ensures KeepsFigures(h, Admit(h, from, to, p, stats))
    {
      AdmitFigures(h, from, to, p, stats);
    }
    forall stats: Stats | stats.delivered == h.stats.delivered && stats.refused == h.stats.refused
      ensures KeepsFigures(h, Vanish(h, from, to, stats))
    {
      VanishFigures(h, from, to, stats);
    }
  }

  lemma {:induction false} RelayFigures(h: Hub, origin: nat, bytes: Message, to: nat)
    requires origin < h.peers
    ensures KeepsFigures(h, RelayTo(h, origin, bytes, to))
    decreases h.peers - to
  {
    hide Enqueue, Named;
    if to < h.peers {
      if to == origin || to in h.lost {
        RelayFigures(h, origin, bytes, to + 1);
      } else {
        EnqueueFigures(h, 0, to, bytes, origin, false);
        RelayFigures(Enqueue(h, 0, to, bytes, origin, false), origin, bytes, to + 1);
      }
    }
  }

  lemma SendFigures(h: Hub, from: nat, to: nat, bytes: Message)
    ensures KeepsFigures(h, Send(h, from, to, bytes).0)
  {
    hide Enqueue, Named;
    if from < h.peers {
      EnqueueFigures(h, from, to, bytes, from, false);
    }
  }

  lemma {:induction false} SendToEachFigures(h: Hub, from: nat, bytes: Message, peer: nat)
    ensures KeepsFigures(h, SendToEach(h, from, bytes, peer).0)
    decreases h.peers - peer
  {
    hide Send, Named;
    if peer < h.peers {
      if peer == from {
        SendToEachFigures(h, from, bytes, peer + 1);
      } else {
        SendFigures(h, from, peer, bytes);
        SendToEachFigures(Send(h, from, peer, bytes).0, from, bytes, peer + 1);
      }
    }
  }

  lemma BroadcastFigures(h: Hub, from: nat, bytes: Message)
    ensures KeepsFigures(h, Broadcast(h, from, bytes).0)
  {
    hide Enqueue, RelayTo, SendToEach, Named;
    SendToEachFigures(h, from, bytes, 0);
    if from < h.peers {
      EnqueueFigures(h, from, 0, bytes, from, true);
      RelayFigures(h, 0, bytes, 1);
    }
  }

  lemma FileTallies(h: Hub, from: nat, peer: nat, p: Pending)
    requires Tallied(h) && Named(h) && peer < h.peers && p.origin < h.peers
    ensures var g := File(h, from, peer, p);
      Tallied(g) && Named(g) && g.peers == h.peers
  {
    hide Figures;
    var g := File(h, from, peer, p);
    FiguresChange(h, g, false, peer, p.origin, h.peers);
    FiguresChange(h, g, true, peer, p.origin, h.peers);
    assert forall f: nat, t: nat :: InFlight(g, f, t) == InFlight(h, f, t);
  }

  lemma DeliverOneTallies(h: Hub, from: nat, peer: nat, p: Pending)
    requires Tallied(h) && Named(h) && peer < h.peers && p.origin < h.peers
    ensures var g := DeliverOne(h, from, peer, p);
      Tallied(g) && Named(g) && g.peers == h.peers
  {
    hide RelayTo, File, Tallied;
    var h2 := h;
    if p.everyone && peer == 0 {
      var h1 := h.(relayed := h.relayed + [CopyOf(p)]);
      assert forall f: nat, t: nat :: InFlight(h1, f, t) == InFlight(h, f, t);
      KeptTally(h, h1);
      RelayFigures(h1, p.origin, p.bytes, 1);
      h2 := RelayTo(h1, p.origin, p.bytes, 1);
      KeptTally(h1, h2);
    }
    FileTallies(h2, from, peer, p);
  }

  lemma {:induction false} DeliverAllTallies(h: Hub, from: nat, peer: nat, batch: seq<Pending>)
    requires Tallied(h) && Named(h) && peer < h.peers && forall p :: p in batch ==> p.origin < h.peers
    ensures var g := DeliverAll(h, from, peer, batch);
      Tallied(g) && Named(g) && g.peers == h.peers
    decreases |batch|
  {
    hide DeliverOne, Tallied, Named;
    if batch != [] {
      DeliverOneTallies(h, from, peer, batch[0]);
      DeliverAllTallies(DeliverOne(h, from, peer, batch[0]), from, peer, batch[1..]);
    }
  }

  lemma LeftMembers(h: Hub, from: nat, peer: nat, draw: Draw, f: nat, t: nat)
    ensures forall p :: p in InFlight(TakeDue(h, from, peer, draw).0, f, t) ==> p in InFlight(h, f, t)
  {
    TakeDueTakes(h, from, peer, draw, f, t);
    DueAndKept(InFlight(h, f, t), PollsOf(h, peer));
    hide TakeDue, Due, Kept, InFlight;
  }

  lemma TakeTallies(h: Hub, from: nat, peer: nat, draw: Draw)
    requires Named(h)
    ensures var (g, batch) := TakeDue(h, from, peer, draw);
      KeepsFigures(h, g) && forall p :: p in batch ==> p.origin < h.peers
  {
    TakenMembers(h, from, peer, draw);
    TakenKeeps(h, from, peer, draw);
    var g := TakeDue(h, from, peer, draw).0;
    hide TakeDue, InFlight;
    forall f: nat, t: nat, p | p in InFlight(g, f, t) ensures p.origin < h.peers {
      LeftMembers(h, from, peer, draw, f, t);
    }
  }

  lemma TakenKeeps(h: Hub, from: nat, peer: nat, draw: Draw)
    ensures var g := TakeDue(h, from, peer, draw).0;
      && g.boxes == h.boxes && g.peers == h.peers
      && g.stats.delivered == h.stats.delivered && g.stats.refused == h.stats.refused
  {
    hide Due, Kept, Shuffle;
  }

  lemma {:induction false} PumpPipesTallies(h: Hub, peer: nat, count: nat, draw: Draw)
    requires Tallied(h) && Named(h) && peer < h.peers
    ensures var g := PumpPipes(h, peer, count, draw);
      Tallied(g) && Named(g) && g.peers == h.peers
    decreases count
  {
    hide TakeDue, DeliverAll, Tallied, Named;
    if count > 0 {
      PumpPipesTallies(h, peer, count - 1, draw);
      var h1 := PumpPipes(h, peer, count - 1, draw);
      if count - 1 != peer {
        TakeTallies(h1, count - 1, peer, draw);
        var (h2, batch) := TakeDue(h1, count - 1, peer, draw);
        KeptTally(h1, h2);
        DeliverAllTallies(h2, count - 1, peer, batch);
      }
    }
  }

  lemma LoseFigures(h: Hub, peer: nat)
    ensures KeepsFigures(h, Lose(h, peer).0)
  {
    var h1, g := h.(lost := h.lost + {peer}), Lose(h, peer).0;
    ClearPipesClear(h1, peer, h.peers, 0, 0);
    if Named(h) && peer < h.peers {
      forall f: nat, t: nat, p | p in InFlight(g, f, t) ensures p.origin < h.peers {
        ClearPipesClear(h1, peer, h.peers, f, t);
        assert p in InFlight(h, f, t);
      }
    }
  }

  lemma ReleaseFigures(h: Hub)
    ensures KeepsFigures(h, ReleaseHeld(h))
  {
    var g := ReleaseHeld(h);
    if Named(h) {
      forall f: nat, t: nat, p | p in InFlight(g, f, t) ensures p.origin < h.peers {
        var i :| 0 <= i < |InFlight(g, f, t)| && InFlight(g, f, t)[i] == p;
        assert InFlight(h, f, t)[i] in InFlight(h, f, t);
      }
    }
  }

  lemma ArmFigures(h: Hub, from: nat, to: nat, fault: Fault)
    ensures KeepsFigures(h, ArmFault(h, from, to, fault).0)
  {
    var g := ArmFault(h, from, to, fault).0;
    assert forall f: nat, t: nat :: InFlight(g, f, t) == InFlight(h, f, t);
  }

  lemma DrainTallies(h: Hub, peer: nat, origin: nat)
    requires Tallied(h) && Named(h) && peer < h.peers && origin < h.peers
    ensures var g := DrainBox(h, peer, origin);
      Tallied(g) && Named(g) && g.peers == h.peers
  {
    hide Figures;
    var g := DrainBox(h, peer, origin);
    FiguresChange(h, g, false, peer, origin, h.peers);
    FiguresChange(h, g, true, peer, origin, h.peers);
    assert forall f: nat, t: nat :: InFlight(g, f, t) == InFlight(h, f, t);
  }

  lemma StepTallies(h: Hub, op: Operation, draw: Draw)
    requires Tallied(h) && Named(h) && Sensible(op, h.peers)
    ensures var g := Step(h, op, draw);
      Tallied(g) && Named(g) && g.peers == h.peers
  {
    hide Send, Broadcast, Lose, ReleaseHeld, ArmFault, DrainBox, PumpPipes, Tallied, Named;
    match op
    case DoSend(from, to, bytes) =>
      SendFigures(h, from, to, bytes);
      KeptTally(h, Send(h, from, to, bytes).0);
    case DoBroadcast(from, bytes) =>
      BroadcastFigures(h, from, bytes);
      KeptTally(h, Broadcast(h, from, bytes).0);
    case DoPump(peer) =>
      PolledFigures(h, peer);
      KeptTally(h, Polled(h, peer));
      PumpPipesTallies(Polled(h, peer), peer, h.peers, draw);
    case DoLose(peer) =>
      LoseFigures(h, peer);
      KeptTally(h, Lose(h, peer).0);
    case DoArm(from, to, fault) =>
      ArmFigures(h, from, to, fault);
      KeptTally(h, ArmFault(h, from, to, fault).0);
    case DoRelease =>
      ReleaseFigures(h);
      KeptTally(h, ReleaseHeld(h));
    case DoDrain(peer, origin) => DrainTallies(h, peer, origin);
  }

  lemma PolledFigures(h: Hub, peer: nat)
    ensures KeepsFigures(h, Polled(h, peer))
  {
    assert forall f: nat, t: nat :: InFlight(Polled(h, peer), f, t) == InFlight(h, f, t);
  }

  lemma {:induction false} RunTallies(h: Hub, ops: seq<Operation>, draw: Draw)
    requires Tallied(h) && Named(h) && forall i :: 0 <= i < |ops| ==> Sensible(ops[i], h.peers)
    ensures Tallied(Run(h, ops, draw)) && Run(h, ops, draw).peers == h.peers
    decreases |ops|
  {
    hide Step, Tallied, Named;
    if ops != [] {
      StepTallies(h, ops[0], draw);
      RunTallies(Step(h, ops[0], draw), ops[1..], draw);
    }
  }

  lemma {:induction false} NoFigures(h: Hub, refusals: bool, rows: nat)
    requires h.boxes == map[]
    ensures Figures(h, refusals, rows) == 0
    decreases rows
  {
    if rows > 0 {
      NoFigures(h, refusals, rows - 1);
      NoRowFigure(h, refusals, rows - 1, h.peers);
    }
  }

  lemma {:induction false} NoRowFigure(h: Hub, refusals: bool, peer: nat, count: nat)
    requires h.boxes == map[]
    ensures RowFigure(h, refusals, peer, count) == 0
    decreases count
  {
    if count > 0 {
      NoRowFigure(h, refusals, peer, count - 1);
    }
  }

  /** After any run the hub's figures are the sums of the inboxes' own: each message delivered was taken by one
      inbox, each refused by one. */
  lemma CountersAgree(peers: nat, star: bool, latency: nat, reorder: bool, ops: seq<Operation>, draw: Draw)
    requires forall i :: 0 <= i < |ops| ==> Sensible(ops[i], peers)
    ensures var h := Run(Initial(peers, star, latency, reorder), ops, draw);
      h.stats.delivered == Figures(h, false, peers) && h.stats.refused == Figures(h, true, peers)
  {
    var h := Initial(peers, star, latency, reorder);
    NoFigures(h, false, peers);
    NoFigures(h, true, peers);
    hide Run;
    RunTallies(h, ops, draw);
  }
}
