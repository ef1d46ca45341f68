/** When the listener's own inbox refuses a broadcast, it is passed on all the same. This says exactly when a
    connector can come to hold what the listener has not filed, and gives a run in which one does. */
module SocketOverflow {
  import opened Inboxes
  import opened Bytes
  import opened SocketHubs
  import opened SocketStar

  /** A running listener files a connector's packet if and only if the inbox accepts it; whether it does or
      not, a packet for everyone goes to every other open connection that can be given it. */
  lemma FiledIffAccepted(l: Hub, p: nat, packet: Packet, jams: Jams)
    requires Sized(l, |l.linked|) && l.local == 0 && 1 <= p < |l.linked| && !l.ended
    requires packet.header == [p, TO_EVERYONE]
    ensures var g, accepted := TakeOne(l, p, packet, jams), Accepts(l.boxes[p], packet.body);
      && Stream(g.boxes[p]) == Stream(l.boxes[p]) + (if accepted then [packet.body] else [])
      && (!accepted ==> g.ended && g.boxes[p].overflowed)
      && (jams == map[] ==> (g.ended <==> !accepted))
      && (jams == map[] ==>
          (forall c :: 0 <= c < |l.linked| ==> g.sent[c] == With(l.sent[c], p, packet.body, Goes(l, p, c, |l.linked|))))
  {
    ListenerTakesOne(l, p, packet, jams);
    OfferFiles(l.boxes[p], packet.body);
    var g := TakeOne(l, p, packet, jams);
    hide TakeOne;
    if jams == map[] {
      forall c | 0 <= c < |l.linked| ensures g.sent[c] == With(l.sent[c], p, packet.body, Goes(l, p, c, |l.linked|)) {
        assert GivenOne(l, g, p, packet, c, jams);
      }
    }
  }

  lemma {:induction false} BodiesPrefix(log: seq<Packet>, k: nat)
    requires k <= |log|
    ensures Bodies(log[..k]) == Bodies(log)[..k]
    decreases |log|
  {
    if k == |log| {
      assert log[..k] == log;
    } else {
      assert log[..|log| - 1][..k] == log[..k];
      BodiesPrefix(log[..|log| - 1], k);
    }
  }

  /** In every reachable state the listener has filed a beginning of what it took from `p`. Some broadcast it
      took, and so may have passed on, is missing from that if and only if its inbox for `p` overflowed on a
      message marked for everyone. */
  lemma UnfiledIff(w: World, n: nat, dropsPeers: bool, limit: nat, ops: seq<Operation>, p: nat)
    requires Reached(w, n, dropsPeers, limit, ops) && 1 <= p < |w|
    ensures WellSized(w)
    ensures var (box, took) := (w[0].boxes[p], w[0].took[p]);
      && |Stream(box)| <= |took| && Stream(box) == Bodies(took[..|Stream(box)|]) && (box.overflowed ==> took != [])
      && (Broadcasts(took[..|Stream(box)|]) != Broadcasts(took)
          <==> box.overflowed && took[|took| - 1].header == [p, TO_EVERYONE])
  {
    hide Reached, Bodies, Stream, Broadcasts, DownLink, Passed;
    ReachedGood(w, n, dropsPeers, limit, ops);
    var box, took := w[0].boxes[p], w[0].took[p];
    assert UpLink(w[0], w[p], p);
    hide UpLink, Good;
    BodiesPrefix(took, |Stream(box)|);
    assert took[..|took|] == took;
    if box.overflowed {
      var last := took[|took| - 1];
      assert took == took[..|took| - 1] + [last];
      LogOne(took[..|took| - 1], last, p);
    }
  }

  // ---------------------------------------------------------------- a run in which it happens

  const EMPTY_UP := Packet([1, TO_RECEIVER], [])

  /** Three processes after connector one has sent the listener `k` empty messages, each one taken in. */
  function Fed(k: nat, dropsPeers: bool, limit: nat): World {
    [Fuller(k, dropsPeers, limit), Sender(k, dropsPeers, limit), Started(2, 3, dropsPeers, limit)]
  }

  function Fuller(k: nat, dropsPeers: bool, limit: nat): Hub {
    var l := Started(0, 3, dropsPeers, limit);
    l.(boxes := l.boxes[1 := Inbox(seq(k, _ => []), 0, false, k, 0, [])], taken := l.taken[1 := k],
       took := l.took[1 := seq(k, _ => EMPTY_UP)])
  }

  function Sender(k: nat, dropsPeers: bool, limit: nat): Hub {
    var c := Started(1, 3, dropsPeers, limit);
    c.(sent := c.sent[0 := seq(k, _ => EMPTY_UP)])
  }

  function Feeding(k: nat): seq<Operation> {
    if k == 0 then [] else [SendOp(1, 0, [], map[]), ReceiveOp(0, 1, map[])] + Feeding(k - 1)
  }

  lemma FeedOne(k: nat, dropsPeers: bool, limit: nat)
    requires k < MAX_MESSAGES
    ensures WellSized(Fed(k, dropsPeers, limit))
    ensures var w := Step(Fed(k, dropsPeers, limit), SendOp(1, 0, [], map[]));
      Step(w, ReceiveOp(0, 1, map[])) == Fed(k + 1, dropsPeers, limit)
  {
    var l, c, w := Fuller(k, dropsPeers, limit), Sender(k, dropsPeers, limit), Fed(k, dropsPeers, limit);
    assert seq(k, _ => EMPTY_UP) + [EMPTY_UP] == seq(k + 1, _ => EMPTY_UP);
    var none: seq<Message> := seq(k, _ => []);
    assert none + [[]] == seq(k + 1, _ => []);
    assert Send(c, 1, 0, [], map[]) == (Sender(k + 1, dropsPeers, limit), Sent) by {
      assert c.sent[0 := seq(k + 1, _ => EMPTY_UP)] == Sender(k + 1, dropsPeers, limit).sent;
    }
    var w1 := w[1 := Sender(k + 1, dropsPeers, limit)];
    assert Step(w, SendOp(1, 0, [], map[])) == w1;
    assert Waiting(w1, 0, 1) && w1[1].sent[0][k] == EMPTY_UP;
    var g, next := TakeOne(l, 1, EMPTY_UP, map[]), Fuller(k + 1, dropsPeers, limit);
    assert g.boxes == next.boxes;
    assert g.taken == next.taken;
    assert g.took == next.took;
    assert g == next;
    assert w1[0 := g] == Fed(k + 1, dropsPeers, limit);
  }

  lemma {:induction false} FeedMany(k: nat, more: nat, rest: seq<Operation>, dropsPeers: bool, limit: nat)
    requires k + more <= MAX_MESSAGES
    ensures WellSized(Fed(k, dropsPeers, limit)) && WellSized(Fed(k + more, dropsPeers, limit))
    ensures Run(Fed(k, dropsPeers, limit), Feeding(more) + rest) == Run(Fed(k + more, dropsPeers, limit), rest)
    decreases more
  {
    hide Step, Run, WellSized, Fed;
    FedSized(k, dropsPeers, limit);
    if more == 0 {
      assert Feeding(0) + rest == rest;
    } else {
      var ops := Feeding(more) + rest;
      assert ops == [SendOp(1, 0, [], map[]), ReceiveOp(0, 1, map[])] + (Feeding(more - 1) + rest);
      hide Feeding;
      FeedOne(k, dropsPeers, limit);
      RunTwo(Fed(k, dropsPeers, limit), SendOp(1, 0, [], map[]), ReceiveOp(0, 1, map[]), Feeding(more - 1) + rest);
      FeedMany(k + 1, more - 1, rest, dropsPeers, limit);
    }
  }

  lemma FedSized(k: nat, dropsPeers: bool, limit: nat)
    ensures WellSized(Fed(k, dropsPeers, limit))
  {
  }

  lemma RunTwo(w: World, a: Operation, b: Operation, rest: seq<Operation>)
    requires WellSized(w)
    ensures Run(w, [a, b] + rest) == Run(Step(Step(w, a), b), rest)
  {
    hide Step, WellSized;
    var ops := [a, b] + rest;
    assert ops[1..][0] == b && ops[1..][1..] == rest;
    assert Run(w, ops) == Run(Step(w, a), ops[1..]);
  }

  const MARKED := Packet([1, TO_EVERYONE], [])

  /** The listener takes a broadcast its full inbox refuses, and passes it on. */
  lemma FullPassesOn(dropsPeers: bool, limit: nat)
    ensures var l, g := Fuller(MAX_MESSAGES, dropsPeers, limit), TakeOne(Fuller(MAX_MESSAGES, dropsPeers, limit), 1, MARKED, map[]);
      && Sized(g, 3) && g.sent[2] == [EMPTY_UP] && g.boxes[1].overflowed && Stream(g.boxes[1]) == Stream(l.boxes[1])
      && g.took[1] == l.took[1] + [MARKED]
  {
    var l := Fuller(MAX_MESSAGES, dropsPeers, limit);
    ListenerTakesOne(l, 1, MARKED, map[]);
    OfferFiles(l.boxes[1], MARKED.body);
    var g := TakeOne(l, 1, MARKED, map[]);
    hide TakeOne;
    assert GivenOne(l, g, 1, MARKED, 2, map[]) && Goes(l, 1, 2, 3);
    assert l.sent[2] + [EMPTY_UP] == [EMPTY_UP];
  }

  /** Connector one fills the listener's inbox for it and broadcasts; the listener refuses the broadcast and
      connector two files it. */
  lemma ReachesUnfiled(dropsPeers: bool, limit: nat)
    ensures var ops := Feeding(MAX_MESSAGES)
        + [BroadcastOp(1, [], map[]), ReceiveOp(0, 1, map[]), ReceiveOp(2, 0, map[])];
      var w := Run(Session(3, dropsPeers, limit), ops);
      && Reached(w, 3, dropsPeers, limit, ops) && |w| == 3 && WellSized(w)
      && Stream(w[0].boxes[1]) == seq(MAX_MESSAGES, _ => []) && w[0].boxes[1].overflowed
      && |w[0].took[1]| == MAX_MESSAGES + 1 && Broadcasts(w[0].took[1][..MAX_MESSAGES]) == [] && Stream(w[2].boxes[1]) == [[]]
  {
    hide Step, Run, Feeding, Fed, Session, Stream, Broadcasts;
    var rest := [BroadcastOp(1, [], map[]), ReceiveOp(0, 1, map[]), ReceiveOp(2, 0, map[])];
    StartsEmpty(dropsPeers, limit);
    FeedMany(0, MAX_MESSAGES, rest, dropsPeers, limit);
    LastThree(dropsPeers, limit);
  }

  lemma StartsEmpty(dropsPeers: bool, limit: nat)
    ensures Session(3, dropsPeers, limit) == Fed(0, dropsPeers, limit)
  {
    var l, c := Started(0, 3, dropsPeers, limit), Started(1, 3, dropsPeers, limit);
    assert l.boxes[1 := EMPTY] == l.boxes && l.taken[1 := 0] == l.taken && l.took[1 := []] == l.took;
    assert c.sent[0 := []] == c.sent;
    var none: seq<Message>, sent: seq<Packet> := seq(0, _ => []), seq(0, _ => EMPTY_UP);
    assert none == [] && sent == [];
    assert Fuller(0, dropsPeers, limit) == l && Sender(0, dropsPeers, limit) == c;
  }

  lemma LastThree(dropsPeers: bool, limit: nat)
    ensures WellSized(Fed(MAX_MESSAGES, dropsPeers, limit))
    ensures var w := Run(Fed(MAX_MESSAGES, dropsPeers, limit),
                         [BroadcastOp(1, [], map[]), ReceiveOp(0, 1, map[]), ReceiveOp(2, 0, map[])]);
      && |w| == 3 && WellSized(w)
      && Stream(w[0].boxes[1]) == seq(MAX_MESSAGES, _ => []) && w[0].boxes[1].overflowed
      && |w[0].took[1]| == MAX_MESSAGES + 1 && Broadcasts(w[0].took[1][..MAX_MESSAGES]) == [] && Stream(w[2].boxes[1]) == [[]]
  {
    var w, l, c := Fed(MAX_MESSAGES, dropsPeers, limit), Fuller(MAX_MESSAGES, dropsPeers, limit),
                   Sender(MAX_MESSAGES, dropsPeers, limit);
    var o1, o2, o3 := BroadcastOp(1, [], map[]), ReceiveOp(0, 1, map[]), ReceiveOp(2, 0, map[]);
    var g, h := TakeOne(l, 1, MARKED, map[]), TakeOne(w[2], 0, EMPTY_UP, map[]);
    var spoke := SendPacket(c, 0, 1, TO_EVERYONE, []);
    FullPassesOn(dropsPeers, limit);
    hide TakeOne;
    assert Step(w, o1) == w[1 := spoke];
    assert Step(w[1 := spoke], o2) == w[1 := spoke][0 := g];
    assert Step(w[1 := spoke][0 := g], o3) == w[1 := spoke][0 := g][2 := h];
    assert [o1, o2, o3] == [o1, o2] + [o3] && [o3][1..] == [];
    RunTwo(w, o1, o2, [o3]);
    assert Stream(h.boxes[1]) == [[]] by { FilesOne(dropsPeers, limit); }
    NoBroadcasts(l.took[1]);
    assert Stream(l.boxes[1]) == seq(MAX_MESSAGES, _ => []);
    assert g.took[1][..MAX_MESSAGES] == l.took[1];
  }

  lemma FilesOne(dropsPeers: bool, limit: nat)
    ensures Stream(TakeOne(Started(2, 3, dropsPeers, limit), 0, EMPTY_UP, map[]).boxes[1]) == [[]]
  {
  }

  lemma {:induction false} NoBroadcasts(log: seq<Packet>)
    requires forall k :: 0 <= k < |log| ==> log[k].header == [1, TO_RECEIVER]
    ensures Broadcasts(log) == []
    decreases |log|
  {
    if log != [] {
      NoBroadcasts(log[..|log| - 1]);
    }
  }
}
