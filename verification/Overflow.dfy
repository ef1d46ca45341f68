/** The loopback's relay passes a broadcast on before it knows whether its own inbox takes it. This says
    exactly when a connector can come to hold what the relay has not filed, and gives a run in which one
    does. */
module Overflow {
  import opened Inboxes
  import opened Loopback
  import opened Conservation
  import opened Latency
  import opened StarRelay
  import opened Survivors

  /** Peer zero files a broadcast if and only if its inbox accepts it; whether it does or not, it sends it to
      every live connector but the broadcast's origin. */
  lemma FiledIffAccepted(h: Hub, from: nat, p: Pending, rest: seq<Pending>)
    requires Good(h, from, 0, [p] + rest) && 0 !in h.lost && p.everyone
    ensures var (g, accepted) := (DeliverOne(h, from, 0, p), Accepts(BoxOf(h, 0, from), p.bytes));
      && p.origin == from
      && Stream(BoxOf(g, 0, from)) == Stream(BoxOf(h, 0, from)) + (if accepted then [p.bytes] else [])
      && (BoxOf(g, 0, from).overflowed <==> !accepted)
      && (forall q: nat :: 0 < q < h.peers ==> Sent(g, 0, q) == Relayed(h, q, CopyOf(p)))
  {
    hide RelayTo, Forwards, TookIn, Filed, Relayed;
    assert p in [p] + rest && LabelOk(h.peers, from, 0, p);
    var h1 := h.(relayed := h.relayed + [CopyOf(p)]);
    SameLinks(h, h1, from, 0, [p] + rest);
    hide Good, InOrder, Calm, Labelled, PlainStar;
    RelayLinks(h1, from, p.bytes, 1, from, 0, [p] + rest);
    SameRelayed(h, h1, CopyOf(p));
    FileLogs(RelayTo(h1, from, p.bytes, 1), from, 0, p);
    OfferStream(BoxOf(h, 0, from), p.bytes);
  }

  // ---------------------------------------------------------------- over whole runs

  lemma {:induction false} MessagesOfAll(log: seq<Item>, p: nat)
    requires AllFrom(log, p)
    ensures |MessagesOf(log, p)| == |log| && forall i :: 0 <= i < |log| ==> MessagesOf(log, p)[i] == log[i].bytes
    decreases |log|
  {
    if log != [] {
      assert log[|log| - 1] in log;
      MessagesOfAll(log[..|log| - 1], p);
    }
  }

  lemma {:induction false} UnmarkedAfter(log: seq<Item>, p: nat, k: nat)
    requires AllFrom(log, p) && k <= |log|
    ensures BroadcastsOf(log[..k], p) <= BroadcastsOf(log, p)
    ensures BroadcastsOf(log[..k], p) == BroadcastsOf(log, p) <==> forall i :: k <= i < |log| ==> !log[i].everyone
    decreases |log|
  {
    if k == |log| {
      assert log[..k] == log;
    } else {
      var rest, x := log[..|log| - 1], log[|log| - 1];
      assert rest[..k] == log[..k] && x in log && log == rest + [x];
      UnmarkedAfter(rest, p, k);
      BroadcastsOne(rest, x, p);
    }
  }

  /** Every broadcast of `p` passed on so far is one peer zero has filed. */
  ghost predicate AllFiled(h: Hub, p: nat) {
    forall i :: |Stream(BoxOf(h, 0, p))| <= i < |Handed(h, p, 0)| ==> !Handed(h, p, 0)[i].everyone
  }

  lemma FiledIsFront(h: Hub, p: nat)
    requires Filed(h) && AllFrom(Handed(h, p, 0), p)
    ensures var (filed, handed) := (Stream(BoxOf(h, 0, p)), Handed(h, p, 0));
      && |filed| <= |handed| && (BoxOf(h, 0, p).overflowed <==> |filed| < |handed|)
      && forall i :: 0 <= i < |filed| ==> filed[i] == handed[i].bytes
  {
    assert FiledIn(h, 0, p);
    hide MessagesOf, Filed, Stream, BoxOf, Handed, AllFrom;
    MessagesOfAll(Handed(h, p, 0), p);
  }

  lemma ReachableFrom(h: Hub, peers: nat, latency: nat, ops: seq<Operation>, draw: Draw, p: nat)
    requires Reachable(h, peers, latency, ops, draw) && 0 < p
    ensures AllFrom(Handed(h, p, 0), p)
  {
    hide Run, Holds;
    HandedSent(h, peers, latency, ops, draw, p);
    RunLogs(Loopback.Initial(peers, true, latency, false), ops, draw, p, 0);
  }

  lemma HandedSent(h: Hub, peers: nat, latency: nat, ops: seq<Operation>, draw: Draw, p: nat)
    requires Reachable(h, peers, latency, ops, draw)
    ensures Handed(h, p, 0) <= Sent(h, p, 0)
  {
    ReachableHolds(h, peers, latency, ops, draw);
    EveryPipe(h, 0, 0);
    assert PipeInOrder(h, p, 0, []);
    assert Handed(h, p, 0) + Items([]) == Handed(h, p, 0);
  }

  /** In every reachable state: peer zero has filed a beginning of what it was handed by `p`, all of it unless
      its inbox overflowed; every live connector has been sent every broadcast in it; and every one of those
      is filed if and only if nothing marked for everyone comes after what was filed. */
  lemma UnfiledIff(h: Hub, peers: nat, latency: nat, ops: seq<Operation>, draw: Draw, p: nat)
    requires Reachable(h, peers, latency, ops, draw) && 0 < p < peers
    ensures var (box, handed) := (BoxOf(h, 0, p), Handed(h, p, 0));
      var filed := |Stream(box)|;
      && filed <= |handed| && (box.overflowed <==> filed < |handed|)
      && (forall i :: 0 <= i < filed ==> Stream(box)[i] == handed[i].bytes)
      && (forall q: nat :: 0 < q < peers && q != p && q !in h.lost ==> MessagesOf(Sent(h, 0, q), p) == TakenFrom(h, p))
      && (BroadcastsOf(handed[..filed], p) == TakenFrom(h, p) <==> AllFiled(h, p))
  {
    hide Reachable, MessagesOf, BroadcastsOf;
    ReachableHolds(h, peers, latency, ops, draw);
    ReachableFrom(h, peers, latency, ops, draw, p);
    FiledIsFront(h, p);
    UnmarkedAfter(Handed(h, p, 0), p, |Stream(BoxOf(h, 0, p))|);
    hide Holds, TakenFrom;
    forall q: nat | 0 < q < peers && q != p && q !in h.lost ensures MessagesOf(Sent(h, 0, q), p) == TakenFrom(h, p) {
      EmittedIsTaken(h, p, q);
    }
  }

  /** The guard that decides it: as long as every broadcast passed on has been filed, the next one to reach
      peer zero leaves it so if and only if the inbox accepts it. */
  lemma StaysFiledIff(h: Hub, from: nat, p: Pending, rest: seq<Pending>)
    requires Good(h, from, 0, [p] + rest) && 0 !in h.lost && p.everyone
    requires AllFrom(Handed(h, from, 0), from) && AllFiled(h, from)
    ensures AllFiled(DeliverOne(h, from, 0, p), from) <==> Accepts(BoxOf(h, 0, from), p.bytes)
  {
    FiledIffAccepted(h, from, p, rest);
    FiledIsFront(h, from);
    HandedOne(h, from, p);
    hide Good, DeliverOne, Stream, BoxOf, Handed;
    var g := DeliverOne(h, from, 0, p);
    assert Handed(g, from, 0)[|Handed(h, from, 0)|] == ItemOf(p);
  }

  lemma HandedOne(h: Hub, from: nat, p: Pending)
    ensures Handed(DeliverOne(h, from, 0, p), from, 0) == Handed(h, from, 0) + [ItemOf(p)]
  {
    hide RelayTo, Offer;
    RelayLogs(h.(relayed := h.relayed + [CopyOf(p)]), p.origin, p.bytes, 1, from, 0);
  }

  // ---------------------------------------------------------------- a run in which it happens

  /** Three peers, none lost, nothing in flight on the pipes between peer two and the others but, perhaps,
      what the relay has sent it. */
  ghost predicate ThreePeers(h: Hub, toTwo: seq<Pending>) {
    && h.peers == 3 && h.star && !h.reorder && h.latency == 0 && h.lost == {}
    && PipeOf(h, 0, 2) == Pipe(toTwo, Unarmed) && InFlight(h, 2, 0) == [] && InFlight(h, 1, 2) == []
    && BoxOf(h, 2, 1) == EMPTY && PollsOf(h, 2) == 0
  }

  /** The relay is handed a message too long for its inbox and then a broadcast. */
  lemma HandsBoth(h: Hub, long: Pending, short: Pending)
    requires ThreePeers(h, []) && BoxOf(h, 0, 1) == EMPTY
    requires |long.bytes| > MAX_BYTES && long.origin == 1 && !long.everyone
    requires short.bytes == [] && short.origin == 1 && short.everyone
    ensures var g := DeliverAll(h, 1, 0, [long, short]);
      ThreePeers(g, [Pending([], 0, h.nextOrder, false, 1, false)]) && Stream(BoxOf(g, 0, 1)) == []
  {
    var a := DeliverOne(h, 1, 0, long);
    assert ThreePeers(a, []) && BoxOf(a, 0, 1).overflowed && Stream(BoxOf(a, 0, 1)) == [] && a.nextOrder == h.nextOrder;
    PassesOn(a, short);
    hide DeliverOne, ThreePeers, Stream;
    assert [long, short][1..] == [short] && [short][1..] == [];
    var g := DeliverOne(a, 1, 0, short);
    assert DeliverAll(h, 1, 0, [long, short]) == DeliverAll(a, 1, 0, [short]) == DeliverAll(g, 1, 0, []);
  }

  lemma PassesOn(h: Hub, short: Pending)
    requires ThreePeers(h, []) && BoxOf(h, 0, 1).overflowed
    requires short.bytes == [] && short.origin == 1 && short.everyone
    ensures var g := DeliverOne(h, 1, 0, short);
      && ThreePeers(g, [Pending([], 0, h.nextOrder, false, 1, false)])
      && Stream(BoxOf(g, 0, 1)) == Stream(BoxOf(h, 0, 1))
  {
    var b := h.(relayed := h.relayed + [CopyOf(short)]);
    var c := Enqueue(b, 0, 2, [], 1, false);
    assert RelayTo(b, 1, [], 1) == RelayTo(b, 1, [], 2) == RelayTo(c, 1, [], 3) == c;
    assert ThreePeers(c, [Pending([], 0, h.nextOrder, false, 1, false)]) && BoxOf(c, 0, 1) == BoxOf(h, 0, 1);
    hide Enqueue;
    assert DeliverOne(h, 1, 0, short) == File(c, 1, 0, short);
  }

  /** Peer two polls and is handed the broadcast. */
  lemma TwoPolls(h: Hub, copy: Pending, draw: Draw)
    requires ThreePeers(h, [copy]) && copy.bytes == [] && copy.origin == 1 && !copy.held && copy.release == 0
    ensures var g := Pump(h, 2, draw);
      Stream(BoxOf(g, 2, 1)) == [[]] && BoxOf(g, 0, 1) == BoxOf(h, 0, 1)
  {
    var a := Polled(h, 2);
    var (b, batch) := TakeDue(a, 0, 2, draw);
    assert [copy][1..] == [];
    assert Due([copy], 1) == [copy] && Due([], 1) == [] && Kept([], 1) == [];
    assert batch == [copy];
    var c := DeliverOne(b, 0, 2, copy);
    assert DeliverAll(b, 0, 2, [copy]) == DeliverAll(c, 0, 2, []) == c;
    assert InFlight(c, 1, 2) == [] && Stream(BoxOf(c, 2, 1)) == [[]];
    var d := PumpPipe(c, 1, 2, draw);
    assert d == c.(pipes := d.pipes);
    assert PumpPipes(a, 2, 0, draw) == a;
    assert PumpPipes(a, 2, 1, draw) == c;
    assert PumpPipes(a, 2, 2, draw) == d;
    assert PumpPipes(a, 2, 3, draw) == d;
  }

  /** Peer zero polls with both messages in the pipe from peer one. */
  lemma RelayPolls(h: Hub, long: Pending, short: Pending, draw: Draw)
    requires ThreePeers(h, []) && BoxOf(h, 0, 1) == EMPTY && InFlight(h, 1, 0) == [long, short] && PollsOf(h, 0) == 0
    requires |long.bytes| > MAX_BYTES && long.origin == 1 && !long.everyone && !long.held && long.release == 0
    requires short.bytes == [] && short.origin == 1 && short.everyone && !short.held && short.release == 0
    ensures var g := Pump(h, 0, draw);
      ThreePeers(g, [Pending([], 0, h.nextOrder, false, 1, false)]) && Stream(BoxOf(g, 0, 1)) == []
  {
    var a := Polled(h, 0);
    var (b, batch) := TakeDue(a, 1, 0, draw);
    BothDue(long, short);
    assert batch == [long, short];
    assert ThreePeers(b, []) && b.nextOrder == h.nextOrder && BoxOf(b, 0, 1) == EMPTY;
    HandsBoth(b, long, short);
    hide DeliverOne, TakeDue, Stream;
    var c := DeliverAll(b, 1, 0, batch);
    assert PumpPipes(a, 0, 0, draw) == a;
    assert PumpPipes(a, 0, 1, draw) == a;
    assert PumpPipes(a, 0, 2, draw) == c;
    NothingDue(c, 2, 0, draw);
    assert PumpPipes(a, 0, 3, draw) == PumpPipe(c, 2, 0, draw);
  }

  lemma NothingDue(h: Hub, from: nat, peer: nat, draw: Draw)
    requires InFlight(h, from, peer) == []
    ensures var g := PumpPipe(h, from, peer, draw);
      g == h.(pipes := g.pipes) && forall f: nat, t: nat :: PipeOf(g, f, t) == PipeOf(h, f, t)
  {
  }

  lemma BothDue(long: Pending, short: Pending)
    requires !long.held && long.release == 0 && !short.held && short.release == 0
    ensures Due([long, short], 1) == [long, short] && Kept([long, short], 1) == []
  {
    assert [long, short][1..] == [short] && [short][1..] == [];
    assert Due([short], 1) == [short] + Due([], 1) && Kept([short], 1) == [] + Kept([], 1);
  }

  /** Peer one sends peer zero a message too long for its inbox and then broadcasts; peer zero files neither,
      and peer two files the broadcast. */
  lemma ReachesUnfiled(long: Message, draw: Draw)
    requires |long| > MAX_BYTES
    ensures var ops := [DoSend(1, 0, long), DoBroadcast(1, []), DoPump(0), DoPump(2)];
      var h := Run(Loopback.Initial(3, true, 0, false), ops, draw);
      && Reachable(h, 3, 0, ops, draw) && Stream(BoxOf(h, 0, 1)) == [] && Stream(BoxOf(h, 2, 1)) == [[]]
  {
    var h0 := Loopback.Initial(3, true, 0, false);
    BothSent(long, draw);
    hide Step, Run, Loopback.Initial, Stream, ThreePeers, Pump;
    var h2 := Step(Step(h0, DoSend(1, 0, long), draw), DoBroadcast(1, []), draw);
    var first, second := Pending(long, 0, 0, false, 1, false), Pending([], 0, 1, false, 1, true);
    RelayPolls(h2, first, second, draw);
    TwoPolls(Pump(h2, 0, draw), Pending([], 0, h2.nextOrder, false, 1, false), draw);
    PumpStep(h2, 0, draw);
    PumpStep(Pump(h2, 0, draw), 2, draw);
    RunFour(h0, DoSend(1, 0, long), DoBroadcast(1, []), DoPump(0), DoPump(2), draw);
  }

  lemma BothSent(long: Message, draw: Draw)
    ensures var h := Step(Step(Loopback.Initial(3, true, 0, false), DoSend(1, 0, long), draw), DoBroadcast(1, []), draw);
      && ThreePeers(h, []) && BoxOf(h, 0, 1) == EMPTY && PollsOf(h, 0) == 0
      && InFlight(h, 1, 0) == [Pending(long, 0, 0, false, 1, false), Pending([], 0, 1, false, 1, true)]
  {
    var h0 := Loopback.Initial(3, true, 0, false);
    var h1 := Enqueue(h0, 1, 0, long, 1, false);
    var first, second := Pending(long, 0, 0, false, 1, false), Pending([], 0, 1, false, 1, true);
    assert Step(h0, DoSend(1, 0, long), draw) == h1 && InFlight(h1, 1, 0) == [] + [first];
    var h2 := Enqueue(h1, 1, 0, [], 1, true);
    assert Step(h1, DoBroadcast(1, []), draw) == h2 && InFlight(h2, 1, 0) == [first] + [second];
  }

  lemma RunFour(h: Hub, a: Operation, b: Operation, c: Operation, d: Operation, draw: Draw)
    ensures Run(h, [a, b, c, d], draw) == Step(Step(Step(Step(h, a, draw), b, draw), c, draw), d, draw)
  {
    hide Step;
    RunJoins(h, [a, b], [c, d], draw);
    assert [a, b] + [c, d] == [a, b, c, d];
    RunPair(h, a, b, draw);
    RunPair(Run(h, [a, b], draw), c, d, draw);
  }

  lemma RunPair(h: Hub, a: Operation, b: Operation, draw: Draw)
    ensures Run(h, [a, b], draw) == Step(Step(h, a, draw), b, draw)
  {
    hide Step;
    assert [a, b][1..] == [b] && [b][1..] == [];
    assert Run(Step(h, a, draw), [b], draw) == Run(Step(Step(h, a, draw), b, draw), [], draw);
  }
}
