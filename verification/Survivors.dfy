/** What a star's survivors end up holding: once each has pumped often enough, all hold the same sequence
    from any one peer, lost or not, and it is what peer zero was handed from that peer for everyone. */
module Survivors {
  import opened Inboxes
  import opened Loopback
  import opened Conservation
  import opened Latency
  import opened StarRelay

  // ---------------------------------------------------------------- the logs only grow

  ghost predicate LogsGrow(h: Hub, g: Hub, f: nat, t: nat) {
    Sent(h, f, t) <= Sent(g, f, t) && Handed(h, f, t) <= Handed(g, f, t)
  }

  ghost predicate AllMarked(log: seq<Item>) {
    forall x :: x in log ==> x.everyone
  }

  ghost predicate AllFrom(log: seq<Item>, p: nat) {
    forall x :: x in log ==> x.origin == p
  }

  /** `h` and `g` differ in what one pipe was given, if at all, and not in what any handed over. */
  ghost predicate OnlySent(h: Hub, g: Hub, from: nat, to: nat, origin: nat, everyone: bool, f: nat, t: nat) {
    && LogsGrow(h, g, f, t) && g.handedLog == h.handedLog && g.peers == h.peers && g.star == h.star
    && ((f, t) != (from, to) ==> Sent(g, f, t) == Sent(h, f, t))
    && (everyone && AllMarked(Sent(h, f, t)) ==> AllMarked(Sent(g, f, t)))
    && (origin == f && AllFrom(Sent(h, f, t), f) ==> AllFrom(Sent(g, f, t), f))
  }

  lemma AdmitLogs(h: Hub, from: nat, to: nat, p: Pending, stats: Stats, f: nat, t: nat)
    ensures OnlySent(h, Admit(h, from, to, p, stats), from, to, p.origin, p.everyone, f, t)
  {
  }

  lemma VanishLogs(h: Hub, from: nat, to: nat, stats: Stats, origin: nat, everyone: bool, f: nat, t: nat)
    ensures OnlySent(h, Vanish(h, from, to, stats), from, to, origin, everyone, f, t)
  {
  }

  lemma EnqueueLogs(h: Hub, from: nat, to: nat, bytes: Message, origin: nat, everyone: bool, f: nat, t: nat)
    ensures OnlySent(h, Enqueue(h, from, to, bytes, origin, everyone), from, to, origin, everyone, f, t)
  {
    hide Corrupted, Admit, Vanish, OnlySent, PipeOf, PollsOf;
    forall p: Pending, stats | p.everyone == everyone && p.origin == origin
      ensures OnlySent(h, Admit(h, from, to, p, stats), from, to, origin, everyone, f, t)
    {
      AdmitLogs(h, from, to, p, stats, f, t);
    }
    forall stats ensures OnlySent(h, Vanish(h, from, to, stats), from, to, origin, everyone, f, t) {
      VanishLogs(h, from, to, stats, origin, everyone, f, t);
    }
  }

  lemma {:induction false} RelayLogs(h: Hub, origin: nat, bytes: Message, to: nat, f: nat, t: nat)
    ensures var g := RelayTo(h, origin, bytes, to);
      && LogsGrow(h, g, f, t) && g.handedLog == h.handedLog && g.peers == h.peers && g.star == h.star
      && (f != 0 ==> Sent(g, f, t) == Sent(h, f, t))
    decreases h.peers - to
  {
    hide Enqueue, Sent, Handed, AllMarked, AllFrom;
    if to < h.peers {
      if to == origin || to in h.lost {
        RelayLogs(h, origin, bytes, to + 1, f, t);
      } else {
        EnqueueLogs(h, 0, to, bytes, origin, false, f, t);
        RelayLogs(Enqueue(h, 0, to, bytes, origin, false), origin, bytes, to + 1, f, t);
      }
    }
  }

  /** A message handed to a connector goes nowhere else. */
  ghost predicate Handing(h: Hub, g: Hub, peer: nat, f: nat, t: nat) {
    && LogsGrow(h, g, f, t) && g.peers == h.peers && g.star == h.star
    && (f != 0 ==> Sent(g, f, t) == Sent(h, f, t)) && (peer != 0 ==> g.sentLog == h.sentLog)
    && (t != peer ==> Handed(g, f, t) == Handed(h, f, t))
  }

  lemma DeliverOneLogs(h: Hub, from: nat, peer: nat, p: Pending, f: nat, t: nat)
    ensures var g := DeliverOne(h, from, peer, p);
      Handing(h, g, peer, f, t) && ((f, t) != (from, peer) ==> Handed(g, f, t) == Handed(h, f, t))
  {
    hide RelayTo, Offer;
    RelayLogs(h.(relayed := h.relayed + [CopyOf(p)]), p.origin, p.bytes, 1, f, t);
  }

  lemma {:induction false} DeliverAllLogs(h: Hub, from: nat, peer: nat, batch: seq<Pending>, f: nat, t: nat)
    ensures var g := DeliverAll(h, from, peer, batch);
      Handing(h, g, peer, f, t) && ((f, t) != (from, peer) ==> Handed(g, f, t) == Handed(h, f, t))
    decreases |batch|
  {
    hide DeliverOne, Sent, Handed;
    if batch != [] {
      DeliverOneLogs(h, from, peer, batch[0], f, t);
      DeliverAllLogs(DeliverOne(h, from, peer, batch[0]), from, peer, batch[1..], f, t);
    }
  }

  lemma TakeLogs(h: Hub, from: nat, peer: nat, draw: Draw)
    ensures var g := TakeDue(h, from, peer, draw).0;
      g == h.(pipes := g.pipes, stats := g.stats)
  {
    hide Due, Kept, Shuffle;
  }

  lemma {:induction false} PumpPipesLogs(h: Hub, peer: nat, count: nat, draw: Draw, f: nat, t: nat)
    ensures Handing(h, PumpPipes(h, peer, count, draw), peer, f, t)
    decreases count
  {
    hide TakeDue, DeliverAll;
    if count > 0 {
      PumpPipesLogs(h, peer, count - 1, draw, f, t);
      var h1 := PumpPipes(h, peer, count - 1, draw);
      if count - 1 != peer {
        TakeLogs(h1, count - 1, peer, draw);
        var (h2, batch) := TakeDue(h1, count - 1, peer, draw);
        DeliverAllLogs(h2, count - 1, peer, batch, f, t);
      }
    }
  }

  lemma PumpLogs(h: Hub, peer: nat, draw: Draw, f: nat, t: nat)
    ensures Handing(h, Pump(h, peer, draw), peer, f, t)
  {
    PumpPipesLogs(Polled(h, peer), peer, h.peers, draw, f, t);
    hide PumpPipes;
  }

  lemma BroadcastLogs(h: Hub, from: nat, bytes: Message, f: nat, t: nat)
    requires h.star
    ensures var g := Broadcast(h, from, bytes).0;
      && LogsGrow(h, g, f, t) && g.peers == h.peers && g.star
      && (f != 0 && AllMarked(Sent(h, f, t)) ==> AllMarked(Sent(g, f, t)))
      && (f != 0 && AllFrom(Sent(h, f, t), f) ==> AllFrom(Sent(g, f, t), f))
  {
    hide Enqueue, RelayTo, Sent, Handed, AllMarked, AllFrom;
    EnqueueLogs(h, from, 0, bytes, from, true, f, t);
    RelayLogs(h, 0, bytes, 1, f, t);
  }

  /** What `f` sends to `t` alone, if it ever does, is the only thing not marked on a connector's pipe. */
  lemma StepLogs(h: Hub, op: Operation, draw: Draw, f: nat, t: nat)
    requires h.star
    ensures var g := Step(h, op, draw);
      && LogsGrow(h, g, f, t) && g.peers == h.peers && g.star
      && (f != 0 && !SendsTo(op, f, t) && AllMarked(Sent(h, f, t)) ==> AllMarked(Sent(g, f, t)))
      && (f != 0 && AllFrom(Sent(h, f, t), f) ==> AllFrom(Sent(g, f, t), f))
  {
    hide Enqueue, Broadcast, Pump, ClearPipes, AllMarked, AllFrom;
    match op
    case DoSend(from, to, bytes) => EnqueueLogs(h, from, to, bytes, from, false, f, t);
    case DoBroadcast(from, bytes) => BroadcastLogs(h, from, bytes, f, t);
    case DoPump(peer) => PumpLogs(h, peer, draw, f, t);
    case DoLose(peer) => ClearPipesClear(h.(lost := h.lost + {peer}), peer, h.peers, f, t);
    case DoArm(from, to, fault) =>
    case DoRelease =>
    case DoDrain(peer, origin) =>
  }

  predicate SendsTo(op: Operation, f: nat, t: nat) { op.DoSend? && op.from == f && op.to == t }

  lemma {:induction false} RunLogs(h: Hub, ops: seq<Operation>, draw: Draw, f: nat, t: nat)
    requires h.star
    ensures var g := Run(h, ops, draw);
      && LogsGrow(h, g, f, t) && g.peers == h.peers && g.star
      && (f != 0 && (forall i :: 0 <= i < |ops| ==> !SendsTo(ops[i], f, t)) && AllMarked(Sent(h, f, t)) ==>
          AllMarked(Sent(g, f, t)))
      && (f != 0 && AllFrom(Sent(h, f, t), f) ==> AllFrom(Sent(g, f, t), f))
    decreases |ops|
  {
    hide Step, Sent, Handed, AllMarked, AllFrom;
    if ops != [] {
      StepLogs(h, ops[0], draw, f, t);
      RunLogs(Step(h, ops[0], draw), ops[1..], draw, f, t);
    }
  }

  // ---------------------------------------------------------------- runs joined

  lemma {:induction false} RunJoins(h: Hub, a: seq<Operation>, b: seq<Operation>, draw: Draw)
    ensures Run(h, a + b, draw) == Run(Run(h, a, draw), b, draw)
    decreases |a|
  {
    if a == [] {
      assert a + b == b;
    } else {
      assert (a + b)[0] == a[0] && (a + b)[1..] == a[1..] + b;
      hide Step;
      RunJoins(Step(h, a[0], draw), a[1..], b, draw);
    }
  }

  // ---------------------------------------------------------------- pumping hands over what was sent

  /** `s` follows `before` messages already handed over; of the first `n` in all, those in it are due
      before poll `limit`. */
  ghost predicate Prompt(s: seq<Pending>, before: nat, n: nat, limit: nat) {
    forall i :: 0 <= i < |s| && before + i < n ==> s[i].release < limit
  }

  /** Of the first `n` messages to `q`, those still in the pipe are due within `k` polls. */
  ghost predicate DueBy(h: Hub, q: nat, n: nat, k: nat) {
    Prompt(InFlight(h, 0, q), |Handed(h, 0, q)|, n, PollsOf(h, q) + k)
  }

  /** `rest` is the end of `s`, and due no earlier than poll `now`. */
  ghost predicate Remains(s: seq<Pending>, rest: seq<Pending>, now: nat) {
    |rest| <= |s| && forall i :: 0 <= i < |rest| ==> rest[i] == s[|s| - |rest| + i] && rest[i].release >= now
  }

  ghost predicate Caught(h: Hub, q: nat, n: nat) { n <= |Handed(h, 0, q)| }

  ghost predicate Live(h: Hub, q: nat) {
    Holds(h) && 0 !in h.lost && q !in h.lost && 0 < q < h.peers
  }

  lemma LiveStar(h: Hub, q: nat)
    requires Live(h, q)
    ensures h.star
  {
  }

  lemma LivePipe(h: Hub, q: nat)
    requires Live(h, q)
    ensures Handed(h, 0, q) + Items(InFlight(h, 0, q)) == Sent(h, 0, q)
    ensures Settled(InFlight(h, 0, q), PollsOf(h, q) + h.latency)
  {
    EveryPipe(h, 0, 0);
    assert PipeInOrder(h, 0, q, []);
    assert Handed(h, 0, q) + Items([]) == Handed(h, 0, q);
  }

  lemma LiveCount(h: Hub, q: nat)
    requires Live(h, q)
    ensures |Handed(h, 0, q)| + |InFlight(h, 0, q)| == |Sent(h, 0, q)|
    ensures Settled(InFlight(h, 0, q), PollsOf(h, q) + h.latency)
  {
    LivePipe(h, q);
    hide Live, Settled, Sent, InFlight, Handed, PollsOf;
    assert |Handed(h, 0, q) + Items(InFlight(h, 0, q))| == |Handed(h, 0, q)| + |InFlight(h, 0, q)|;
  }

  lemma StepLive(h: Hub, op: Operation, draw: Draw, q: nat)
    requires Live(h, q) && !op.DoArm? && Sensible(op, h.peers) && !Loses(op, 0, q)
    ensures Live(Step(h, op, draw), q)
  {
    StepHolds(h, op, draw);
    StepMoves(h, op, draw, 0, q);
    StepMoves(h, op, draw, q, 0);
    hide Step, Holds, Grew, Kept;
  }

  /** A poll by `q` hands over a front part of its pipe and leaves what is due later. */
  lemma PumpHands(h: Hub, q: nat, draw: Draw)
    requires Live(h, q)
    ensures var (g, s) := (Pump(h, q, draw), InFlight(h, 0, q));
      && PollsOf(g, q) == PollsOf(h, q) + 1 && Remains(s, InFlight(g, 0, q), PollsOf(g, q))
      && |Handed(g, 0, q)| + |InFlight(g, 0, q)| == |Sent(h, 0, q)| == |Handed(h, 0, q)| + |s|
  {
    hide *;
    PumpKeeps(h, q, draw);
    LiveCount(h, q);
    LiveCount(Pump(h, q, draw), q);
  }

  lemma PumpKeeps(h: Hub, q: nat, draw: Draw)
    requires Live(h, q)
    ensures var (g, s) := (Pump(h, q, draw), InFlight(h, 0, q));
      && Live(g, q) && PollsOf(g, q) == PollsOf(h, q) + 1 && Sent(g, 0, q) == Sent(h, 0, q)
      && Remains(s, InFlight(g, 0, q), PollsOf(g, q))
  {
    hide Pump, Kept, Holds, Handed, Remains, Settled;
    var g := Pump(h, q, draw);
    assert g == Step(h, DoPump(q), draw);
    StepLive(h, DoPump(q), draw, q);
    PumpMoves(h, q, draw, 0, q);
    PumpLogs(h, q, draw, 0, q);
    LiveCount(h, q);
    KeptIsRest(InFlight(h, 0, q), PollsOf(h, q) + h.latency, PollsOf(g, q));
  }

  lemma KeptIsRest(s: seq<Pending>, bound: nat, now: nat)
    requires Settled(s, bound)
    ensures Remains(s, Kept(s, now), now)
  {
    hide Due, Kept, Settled;
    SettledSplits(s, bound, now);
    KeptLater(s, bound, now);
    var due, rest := Due(s, now), Kept(s, now);
    forall i | 0 <= i < |rest| ensures rest[i] == s[|s| - |rest| + i] {
      assert (due + rest)[|due| + i] == rest[i];
    }
  }

  lemma KeptLater(s: seq<Pending>, bound: nat, now: nat)
    requires Settled(Kept(s, now), bound)
    ensures forall i :: 0 <= i < |Kept(s, now)| ==> Kept(s, now)[i].release >= now
  {
    hide Kept;
    KeptNotDue(s, now);
  }

  lemma {:induction false} KeptNotDue(s: seq<Pending>, now: nat)
    ensures forall i :: 0 <= i < |Kept(s, now)| ==> !IsDue(Kept(s, now)[i], now)
  {
    if s != [] {
      KeptNotDue(s[1..], now);
    }
  }

  lemma PumpDue(h: Hub, q: nat, draw: Draw, n: nat, k: nat)
    requires Live(h, q) && DueBy(h, q, n, k) && n <= |Sent(h, 0, q)| && k > 0
    ensures var g := Pump(h, q, draw);
      if k == 1 then Caught(g, q, n) else DueBy(g, q, n, k - 1)
  {
    hide *;
    var g := Pump(h, q, draw);
    PumpHands(h, q, draw);
    DueByMeans(h, q, n, k);
    DueByMeans(g, q, n, k - 1);
    CaughtMeans(g, q, n);
    RemainsPrompt(InFlight(h, 0, q), InFlight(g, 0, q), |Handed(h, 0, q)|, n, PollsOf(h, q), k);
  }

  lemma DueByMeans(h: Hub, q: nat, n: nat, k: nat)
    ensures DueBy(h, q, n, k) <==> Prompt(InFlight(h, 0, q), |Handed(h, 0, q)|, n, PollsOf(h, q) + k)
  {
  }

  lemma CaughtMeans(h: Hub, q: nat, n: nat)
    ensures Caught(h, q, n) <==> n <= |Handed(h, 0, q)|
  {
  }

  lemma RemainsPrompt(s: seq<Pending>, rest: seq<Pending>, before: nat, n: nat, was: nat, k: nat)
    requires Remains(s, rest, was + 1) && Prompt(s, before, n, was + k) && n <= before + |s| && k > 0
    ensures var handed := before + |s| - |rest|;
      if k == 1 then n <= handed else Prompt(rest, handed, n, was + k)
  {
    if k > 1 {
      forall i | 0 <= i < |rest| && before + |s| - |rest| + i < n ensures rest[i].release < was + k {
        assert rest[i] == s[|s| - |rest| + i];
      }
    } else if rest != [] {
      assert rest[0] == s[|s| - |rest|];
    }
  }

  /** Whatever else happens, what is in the pipe stays in front of what comes after it. */
  lemma GrewPrompt(h: Hub, g: Hub, q: nat, n: nat, k: nat)
    requires Grew(h, g, 0, q) || InFlight(g, 0, q) == Released(InFlight(h, 0, q))
    requires DueBy(h, q, n, k) && PollsOf(g, q) == PollsOf(h, q) && |Handed(h, 0, q)| <= |Handed(g, 0, q)|
    requires n <= |Handed(h, 0, q)| + |InFlight(h, 0, q)|
    ensures DueBy(g, q, n, k)
  {
    var a, b := InFlight(h, 0, q), InFlight(g, 0, q);
    forall i | 0 <= i < |b| && |Handed(g, 0, q)| + i < n ensures b[i].release < PollsOf(g, q) + k {
      assert b[..|a|][i] == b[i];
      assert a[i].release < PollsOf(h, q) + k;
    }
  }

  ghost predicate Awaiting(h: Hub, q: nat, n: nat, k: nat) {
    Live(h, q) && n <= |Sent(h, 0, q)| && k > 0 && (Caught(h, q, n) || DueBy(h, q, n, k))
  }

  lemma StepDue(h: Hub, op: Operation, draw: Draw, q: nat, n: nat, k: nat)
    requires Awaiting(h, q, n, k) && !op.DoArm? && Sensible(op, h.peers) && !Loses(op, 0, q)
    ensures var g := Step(h, op, draw);
      && Live(g, q) && n <= |Sent(g, 0, q)| && g.peers == h.peers
      && (if op != DoPump(q) then Caught(g, q, n) || DueBy(g, q, n, k)
          else Caught(g, q, n) || (k > 1 && DueBy(g, q, n, k - 1)))
  {
    hide Step, Pump, DueBy, Holds, Settled, Grew, InFlight, AllMarked, AllFrom;
    var g := Step(h, op, draw);
    StepLive(h, op, draw, q);
    LiveStar(h, q);
    StepLogs(h, op, draw, 0, q);
    if !Caught(h, q, n) {
      LiveCount(h, q);
      if op == DoPump(q) {
        PumpStep(h, q, draw);
        PumpDue(h, q, draw, n, k);
      } else {
        StepMoves(h, op, draw, 0, q);
        GrewPrompt(h, g, q, n, k);
      }
    }
  }

  lemma PumpStep(h: Hub, peer: nat, draw: Draw)
    ensures Step(h, DoPump(peer), draw) == Pump(h, peer, draw)
  {
  }

  predicate Continues(ops: seq<Operation>, peers: nat, q: nat) {
    forall i :: 0 <= i < |ops| ==> !ops[i].DoArm? && Sensible(ops[i], peers) && !Loses(ops[i], 0, q)
  }

  lemma StillCaught(h: Hub, g: Hub, q: nat, n: nat)
    requires Caught(h, q, n) && LogsGrow(h, g, 0, q)
    ensures Caught(g, q, n)
  {
  }

  lemma {:induction false} RunDue(h: Hub, ops: seq<Operation>, draw: Draw, q: nat, n: nat, k: nat)
    requires Awaiting(h, q, n, k) && Continues(ops, h.peers, q)
    ensures var g := Run(h, ops, draw);
      && Live(g, q) && g.peers == h.peers && n <= |Sent(g, 0, q)|
      && (Caught(g, q, n) || (Pumps(ops, q) < k && DueBy(g, q, n, k - Pumps(ops, q))))
    decreases |ops|
  {
    hide Step, Live, DueBy, Caught, Sent;
    if ops != [] {
      StepDue(h, ops[0], draw, q, n, k);
      var g, rest := Step(h, ops[0], draw), ops[1..];
      if Caught(g, q, n) {
        RunDue(g, rest, draw, q, n, k);
        LiveStar(g, q);
        RunLogs(g, rest, draw, 0, q);
        StillCaught(g, Run(g, rest, draw), q, n);
      } else {
        RunDue(g, rest, draw, q, n, if ops[0] == DoPump(q) then k - 1 else k);
      }
    }
  }

  /** More polls than the latency, with any traffic and other losses in between, and a connector has been
      handed all that the relay had emitted to it before them. */
  lemma CatchesUp(h: Hub, ops: seq<Operation>, draw: Draw, q: nat)
    requires Live(h, q) && Continues(ops, h.peers, q) && Pumps(ops, q) > h.latency
    ensures var g := Run(h, ops, draw);
      Live(g, q) && g.peers == h.peers && Sent(h, 0, q) <= Handed(g, 0, q) <= Sent(g, 0, q)
  {
    hide *;
    LiveStar(h, q);
    AwaitingAll(h, q);
    RunDue(h, ops, draw, q, |Sent(h, 0, q)|, h.latency + 1);
    RunLogs(h, ops, draw, 0, q);
    Overtaken(h, Run(h, ops, draw), q);
  }

  lemma AwaitingAll(h: Hub, q: nat)
    requires Live(h, q)
    ensures Awaiting(h, q, |Sent(h, 0, q)|, h.latency + 1)
  {
    hide Live, Sent, InFlight, PollsOf, Handed;
    LiveCount(h, q);
  }

  lemma Overtaken(h: Hub, g: Hub, q: nat)
    requires LogsGrow(h, g, 0, q) && Live(g, q) && Caught(g, q, |Sent(h, 0, q)|)
    ensures Sent(h, 0, q) <= Handed(g, 0, q) <= Sent(g, 0, q)
  {
    LivePipe(g, q);
    hide Live, Sent, InFlight;
  }

  // ---------------------------------------------------------------- once the relay is left alone

  /** Only connectors poll and anyone drains: the relay is handed nothing more and emits nothing more. */
  predicate Quiet(ops: seq<Operation>, peers: nat) {
    forall i :: 0 <= i < |ops| ==> (ops[i].DoDrain? || (ops[i].DoPump? && ops[i].peer != 0)) && Sensible(ops[i], peers)
  }

  lemma {:induction false} RunQuiet(h: Hub, ops: seq<Operation>, draw: Draw, f: nat, t: nat)
    requires Quiet(ops, h.peers)
    ensures var g := Run(h, ops, draw);
      Sent(g, f, t) == Sent(h, f, t) && Handed(g, f, 0) == Handed(h, f, 0)
    decreases |ops|
  {
    hide Pump;
    if ops != [] {
      if ops[0].DoPump? {
        PumpLogs(h, ops[0].peer, draw, f, 0);
      }
      var g := Step(h, ops[0], draw);
      assert g.sentLog == h.sentLog && Handed(g, f, 0) == Handed(h, f, 0) && g.peers == h.peers;
      hide Step, Handed;
      RunQuiet(g, ops[1..], draw, f, t);
    }
  }

  /** More polls than the latency empty a connector's pipe once the relay is left alone. */
  lemma PumpingEmpties(h: Hub, ops: seq<Operation>, draw: Draw, q: nat)
    requires Live(h, q) && Quiet(ops, h.peers) && Pumps(ops, q) > h.latency
    ensures InFlight(Run(h, ops, draw), 0, q) == []
  {
    CatchesUp(h, ops, draw, q);
    RunQuiet(h, ops, draw, 0, q);
    hide Live, Run, Sent, Handed, InFlight;
    LiveCount(Run(h, ops, draw), q);
  }

  // ---------------------------------------------------------------- once a peer is lost

  lemma {:induction false} PumpPipesSilent(h: Hub, peer: nat, count: nat, draw: Draw, f: nat)
    requires InFlight(h, f, peer) == []
    ensures Handed(PumpPipes(h, peer, count, draw), f, peer) == Handed(h, f, peer)
    decreases count
  {
    hide TakeDue, DeliverAll, InFlight, Handed;
    if count > 0 {
      PumpPipesSilent(h, peer, count - 1, draw, f);
      PumpPipesTake(h, peer, count - 1, draw, f, peer);
      var h1, from := PumpPipes(h, peer, count - 1, draw), count - 1;
      if from != peer {
        var (h2, batch) := TakeDue(h1, from, peer, draw);
        TakeKeepsHanded(h1, from, peer, draw, f);
        DeliverAllLogs(h2, from, peer, batch, f, peer);
      }
    }
  }

  lemma TakeKeepsHanded(h: Hub, from: nat, peer: nat, draw: Draw, f: nat)
    requires InFlight(h, f, peer) == []
    ensures var (g, batch) := TakeDue(h, from, peer, draw);
      Handed(g, f, peer) == Handed(h, f, peer) && (from == f ==> DeliverAll(g, from, peer, batch) == g)
  {
    TakeLogs(h, from, peer, draw);
    hide Shuffle;
  }

  /** Losses are for good. */
  lemma StepLost(h: Hub, op: Operation, draw: Draw)
    ensures h.lost <= Step(h, op, draw).lost
  {
    hide Send, Broadcast, PumpPipes, ClearPipes, ReleaseHeld;
    match op
    case DoSend(from, to, bytes) => SendGrew(h, from, to, bytes, 0, 0);
    case DoBroadcast(from, bytes) => BroadcastGrew(h, from, bytes, 0, 0);
    case DoPump(peer) => PumpPipesTake(Polled(h, peer), peer, h.peers, draw, 0, 0);
    case DoLose(peer) => ClearPipesClear(h.(lost := h.lost + {peer}), peer, h.peers, 0, 0);
    case DoArm(from, to, fault) =>
    case DoRelease => ReleaseKeepsLost(h);
    case DoDrain(peer, origin) =>
  }

  lemma ReleaseKeepsLost(h: Hub)
    ensures ReleaseHeld(h) == h.(pipes := ReleaseHeld(h).pipes)
  {
  }

  /** A lost peer's pipe to the relay is empty, so the relay is handed nothing more of it. */
  lemma StepSilent(h: Hub, op: Operation, draw: Draw, p: nat)
    requires Holds(h) && 0 < p && p in h.lost
    ensures Handed(Step(h, op, draw), p, 0) == Handed(h, p, 0)
  {
    hide *;
    LostPipe(h, p);
    if op.DoPump? {
      PumpStep(h, op.peer, draw);
      PumpSilent(h, op.peer, draw, p);
    } else {
      OnlyPumpsHand(h, op, draw);
      SameHanded(h, Step(h, op, draw), p);
    }
  }

  lemma OnlyPumpsHand(h: Hub, op: Operation, draw: Draw)
    requires h.star && !op.DoPump?
    ensures Step(h, op, draw).handedLog == h.handedLog
  {
    hide Broadcast, Send, Lose, ReleaseHeld, BoxOf, PipeOf;
    match op
    case DoSend(from, to, bytes) => SendHands(h, from, to, bytes);
    case DoBroadcast(from, bytes) => BroadcastHands(h, from, bytes);
    case DoLose(peer) => LoseHands(h, peer);
    case DoArm(from, to, fault) =>
    case DoRelease => ReleaseKeepsLost(h);
    case DoDrain(peer, origin) =>
  }

  lemma SameHanded(h: Hub, g: Hub, p: nat)
    requires g.handedLog == h.handedLog
    ensures Handed(g, p, 0) == Handed(h, p, 0)
  {
  }

  lemma SendHands(h: Hub, from: nat, to: nat, bytes: Message)
    ensures Send(h, from, to, bytes).0.handedLog == h.handedLog
  {
    hide Enqueue, Sent, Handed, AllMarked, AllFrom;
    EnqueueLogs(h, from, to, bytes, from, false, 0, 0);
  }

  lemma BroadcastHands(h: Hub, from: nat, bytes: Message)
    requires h.star
    ensures Broadcast(h, from, bytes).0.handedLog == h.handedLog
  {
    hide Enqueue, RelayTo, Sent, Handed, AllMarked, AllFrom;
    EnqueueLogs(h, from, 0, bytes, from, true, 0, 0);
    RelayLogs(h, 0, bytes, 1, 0, 0);
  }

  lemma LoseHands(h: Hub, peer: nat)
    ensures Lose(h, peer).0.handedLog == h.handedLog
  {
    ClearPipesClear(h.(lost := h.lost + {peer}), peer, h.peers, 0, 0);
    hide ClearPipes;
  }

  lemma LostPipe(h: Hub, p: nat)
    requires Holds(h) && p in h.lost
    ensures InFlight(h, p, 0) == [] && h.star
  {
    EveryPipe(h, 0, 0);
    assert PipeInOrder(h, p, 0, []);
  }

  lemma PumpSilent(h: Hub, peer: nat, draw: Draw, p: nat)
    requires InFlight(h, p, 0) == []
    ensures Handed(Pump(h, peer, draw), p, 0) == Handed(h, p, 0)
  {
    PumpLogs(h, peer, draw, p, 0);
    PolledMoves(h, peer, p, 0);
    hide PumpPipes, InFlight;
    if peer == 0 {
      PumpPipesSilent(Polled(h, 0), 0, h.peers, draw, p);
    }
  }

  lemma {:induction false} RunSilent(h: Hub, ops: seq<Operation>, draw: Draw, p: nat)
    requires Holds(h) && 0 < p && p in h.lost && Faultless(ops, h.peers)
    ensures Handed(Run(h, ops, draw), p, 0) == Handed(h, p, 0)
    decreases |ops|
  {
    hide Holds, Step, Handed;
    if ops != [] {
      StepHolds(h, ops[0], draw);
      StepLost(h, ops[0], draw);
      StepSilent(h, ops[0], draw, p);
      RunSilent(Step(h, ops[0], draw), ops[1..], draw, p);
    }
  }

  // ---------------------------------------------------------------- one peer's messages

  /** What the relay took in from `p` for everyone: all of `p`'s broadcasts that it was handed. */
  function TakenFrom(h: Hub, p: nat): seq<Message> { BroadcastsOf(Handed(h, p, 0), p) }

  /** Of another's messages the relay has emitted to a live connector exactly what it took in for everyone,
      none left out, and to a lost one the beginning of that. */
  lemma EmittedIsTaken(h: Hub, p: nat, q: nat)
    requires Holds(h) && 0 < p && 0 < q < h.peers && p != q
    ensures var emitted := MessagesOf(Sent(h, 0, q), p);
      emitted <= TakenFrom(h, p) && (q !in h.lost ==> emitted == TakenFrom(h, p))
  {
    hide PlainStar, Calm, Labelled, InOrder, Filed, Without, MessagesOf, BroadcastsOf;
    assert ForwardedTo(h, q) && MessagesOf(h.relayed, p) == TakenFrom(h, p);
    MessagesWithout(Sent(h, 0, q), {0}, p);
    MessagesWithout(h.relayed, {q}, p);
    MessagesPrefix(Without(Sent(h, 0, q), {0}), Without(h.relayed, {q}), p);
  }

  /** At every moment a connector, lost or not, holds of another a beginning of what the relay took in. */
  lemma HoldsTaken(h: Hub, p: nat, q: nat)
    requires Holds(h) && 0 < p && 0 < q < h.peers && p != q
    ensures var stream, handed := Stream(BoxOf(h, q, p)), MessagesOf(Handed(h, 0, q), p);
      && stream <= handed <= TakenFrom(h, p) && (BoxOf(h, q, p).overflowed <==> stream != handed)
    ensures q !in h.lost && 0 !in h.lost && InFlight(h, 0, q) == [] && !BoxOf(h, q, p).overflowed ==>
      Stream(BoxOf(h, q, p)) == TakenFrom(h, p)
  {
    EmittedIsTaken(h, p, q);
    EveryPipe(h, 0, 0);
    assert PipeInOrder(h, 0, q, []) && FiledIn(h, q, p);
    hide Holds, TakenFrom, MessagesOf, Stream, BoxOf, Sent;
    assert Handed(h, 0, q) + Items([]) == Handed(h, 0, q);
    MessagesPrefix(Handed(h, 0, q), Sent(h, 0, q), p);
  }

  lemma {:induction false} AllMarkedSame(log: seq<Item>, p: nat)
    requires AllMarked(log)
    ensures BroadcastsOf(log, p) == MessagesOf(log, p)
    decreases |log|
  {
    if log != [] {
      assert log[|log| - 1] in log;
      AllMarkedSame(log[..|log| - 1], p);
    }
  }

  // ---------------------------------------------------------------- whole runs

  /** `h` is reached from the start by `ops` and `g` from there by `more`, in which `q` outlives the
      latency; up to `h` and after it there may be any traffic and any other losses. */
  ghost predicate Outlives(h: Hub, g: Hub, peers: nat, latency: nat, ops: seq<Operation>, more: seq<Operation>,
                           draw: Draw, q: nat) {
    && Reachable(h, peers, latency, ops, draw) && g == Run(h, more, draw)
    && 0 < q < peers && 0 !in h.lost && q !in h.lost && Continues(more, peers, q) && Pumps(more, q) > latency
  }

  lemma OutlivesLive(h: Hub, g: Hub, peers: nat, latency: nat, ops: seq<Operation>, more: seq<Operation>,
                     draw: Draw, q: nat)
    requires Outlives(h, g, peers, latency, ops, more, draw, q)
    ensures Live(h, q) && Live(g, q) && h.peers == g.peers == peers && h.latency == latency
    ensures Sent(h, 0, q) <= Handed(g, 0, q) <= Sent(g, 0, q)
  {
    ReachableHolds(h, peers, latency, ops, draw);
    hide Holds, Run;
    RunKeepsBelow(Loopback.Initial(peers, true, latency, false), ops, draw, 0, 1);
    CatchesUp(h, more, draw, q);
  }

  /** A survivor that has polled more often than the latency holds every broadcast of `p` the relay had
      taken in by then, and nothing of `p`'s that the relay has not taken in for everyone. */
  lemma HoldsWhatWasTaken(h: Hub, g: Hub, peers: nat, latency: nat, ops: seq<Operation>, more: seq<Operation>,
                          draw: Draw, p: nat, q: nat)
    requires Outlives(h, g, peers, latency, ops, more, draw, q) && 0 < p < peers && p != q
    ensures Stream(BoxOf(g, q, p)) <= TakenFrom(g, p)
    ensures !BoxOf(g, q, p).overflowed ==> TakenFrom(h, p) <= Stream(BoxOf(g, q, p))
  {
    OutlivesLive(h, g, peers, latency, ops, more, draw, q);
    hide Holds, Outlives, TakenFrom, MessagesOf, Stream, BoxOf, Sent, Handed;
    EmittedIsTaken(h, p, q);
    HoldsTaken(g, p, q);
    MessagesPrefix(Sent(h, 0, q), Handed(g, 0, q), p);
  }

  /** The relay is handed nothing more of `p`'s: it is lost, whatever the others go on to do, or else the
      relay is left alone. */
  predicate Over(h: Hub, p: nat, more: seq<Operation>, peers: nat) {
    p in h.lost || Quiet(more, peers)
  }

  /** Once `p` is lost and every survivor has polled more often than the latency, all survivors hold one and
      the same sequence from `p`: everything of `p`'s that peer zero was handed for everyone. Meanwhile there
      may be any traffic and any other losses. When `p` sent peer zero nothing else, it is exactly what peer
      zero filed of `p`. The same goes for a peer that is not lost once the relay is left alone. */
  lemma SurvivorsHoldTheSame(h: Hub, g: Hub, peers: nat, latency: nat, ops: seq<Operation>, more: seq<Operation>,
                             draw: Draw, p: nat, q: nat, r: nat)
    requires 0 < p < peers && p != q && p != r && Over(h, p, more, peers)
    requires Outlives(h, g, peers, latency, ops, more, draw, q) && Outlives(h, g, peers, latency, ops, more, draw, r)
    ensures TakenFrom(g, p) == TakenFrom(h, p)
    ensures !BoxOf(g, q, p).overflowed ==> Stream(BoxOf(g, q, p)) == TakenFrom(h, p)
    ensures !BoxOf(g, q, p).overflowed && !BoxOf(g, r, p).overflowed ==>
      Stream(BoxOf(g, q, p)) == Stream(BoxOf(g, r, p))
    ensures !BoxOf(g, q, p).overflowed && !BoxOf(g, 0, p).overflowed && OnlyBroadcasts(ops, p) ==>
      Stream(BoxOf(g, q, p)) == Stream(BoxOf(g, 0, p))
  {
    hide *;
    HandedNoMore(h, g, peers, latency, ops, more, draw, p, q);
    SameTaken(h, g, p);
    HoldsWhatWasTaken(h, g, peers, latency, ops, more, draw, p, q);
    HoldsWhatWasTaken(h, g, peers, latency, ops, more, draw, p, r);
    if OnlyBroadcasts(ops, p) {
      RelayFiledThem(h, g, peers, latency, ops, more, draw, p, q);
    }
  }

  lemma SameTaken(h: Hub, g: Hub, p: nat)
    requires Handed(g, p, 0) == Handed(h, p, 0)
    ensures TakenFrom(g, p) == TakenFrom(h, p)
  {
  }

  lemma HandedNoMore(h: Hub, g: Hub, peers: nat, latency: nat, ops: seq<Operation>, more: seq<Operation>,
                     draw: Draw, p: nat, q: nat)
    requires Outlives(h, g, peers, latency, ops, more, draw, q) && 0 < p && Over(h, p, more, peers)
    ensures Handed(g, p, 0) == Handed(h, p, 0)
  {
    hide Holds, Run, Handed, InFlight, Sent, PollsOf;
    OutlivesLive(h, g, peers, latency, ops, more, draw, q);
    if p in h.lost {
      RunSilent(h, more, draw, p);
    } else {
      RunQuiet(h, more, draw, p, 0);
    }
  }

  lemma RelayFiledThem(h: Hub, g: Hub, peers: nat, latency: nat, ops: seq<Operation>, more: seq<Operation>,
                       draw: Draw, p: nat, q: nat)
    requires Outlives(h, g, peers, latency, ops, more, draw, q) && 0 < p < peers && Over(h, p, more, peers)
    requires OnlyBroadcasts(ops, p)
    ensures !BoxOf(g, 0, p).overflowed ==> Stream(BoxOf(g, 0, p)) == TakenFrom(g, p)
  {
    hide BroadcastsOf, MessagesOf, Stream, BoxOf, PlainStar, Calm, Labelled, InOrder, Forwards, TookIn, Over;
    OutlivesLive(h, g, peers, latency, ops, more, draw, q);
    OnlyBroadcastsTaken(h, peers, latency, ops, draw, p);
    HandedNoMore(h, g, peers, latency, ops, more, draw, p, q);
    assert FiledIn(g, 0, p);
  }

  predicate OnlyBroadcasts(ops: seq<Operation>, p: nat) {
    forall i :: 0 <= i < |ops| ==> !SendsTo(ops[i], p, 0)
  }

  /** When `p` only broadcasts, the relay takes in for everyone all it is handed by `p`. */
  lemma OnlyBroadcastsTaken(h: Hub, peers: nat, latency: nat, ops: seq<Operation>, draw: Draw, p: nat)
    requires Reachable(h, peers, latency, ops, draw) && 0 < p && OnlyBroadcasts(ops, p)
    ensures TakenFrom(h, p) == MessagesOf(Handed(h, p, 0), p)
  {
    ReachableHolds(h, peers, latency, ops, draw);
    hide BroadcastsOf, MessagesOf;
    EveryPipe(h, 0, 0);
    assert PipeInOrder(h, p, 0, []);
    hide Holds, Run;
    RunLogs(Loopback.Initial(peers, true, latency, false), ops, draw, p, 0);
    assert Handed(h, p, 0) + Items([]) == Handed(h, p, 0);
    assert Handed(h, p, 0) <= Sent(h, p, 0);
    AllMarkedSame(Handed(h, p, 0), p);
  }
}
