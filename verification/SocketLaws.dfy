/** What ends a socket hub and what does not, as it was configured, in every reachable state; and what each
    call puts on the wire, read off the hub before and after. */
module SocketLaws {
  import opened Inboxes
  import opened Bytes
  import opened SocketHubs
  import opened SocketStar

  // ---------------------------------------------------------------- losses, as configured

  /** Whether a connection between process `k` and process `c` is made at the start. */
  predicate Joined(k: nat, c: nat) { if k == 0 then c > 0 else c == 0 }

  /** The listener of a session that drops peers carries on without them. */
  predicate CarriesOn(k: nat, drops: bool) { k == 0 && drops }

  /** Process `k`'s end of a session of `n`: a connection is open exactly if it was made and has not been
      closed, none is closed twice, and what a closed one does is as configured. */
  ghost predicate AsConfigured(h: Hub, k: nat, n: nat, drops: bool, limit: nat) {
    && Sized(h, n) && h.local == k && h.dropsPeers == drops && h.limit == limit
    && (h.ended <==> h.reason != Running)
    && (forall c :: 0 <= c < n ==> (h.linked[c] <==> Joined(k, c) && c !in h.closed))
    && (forall i, j :: 0 <= i < j < |h.closed| ==> h.closed[i] != h.closed[j])
    && (forall c :: c in h.closed ==> c < n && Joined(k, c))
    && (forall c :: 0 <= c < n ==> (h.lost[c] <==> CarriesOn(k, drops) && c in h.closed))
    && (CarriesOn(k, drops) ==> !h.reason.Disconnected? && !h.reason.Silent?)
    && (!CarriesOn(k, drops) && h.closed != [] ==> h.ended)
  }

  /** Nothing about who is there has changed but, perhaps, that the hub has ended for another reason. */
  ghost predicate SameLinks(h: Hub, g: Hub) {
    && Sized(g, |h.linked|) && g.local == h.local && g.dropsPeers == h.dropsPeers && g.limit == h.limit
    && g.linked == h.linked && g.lost == h.lost && g.closed == h.closed
    && ((g.ended == h.ended && g.reason == h.reason)
        || (g.ended && !h.ended && g.reason != Running && !g.reason.Disconnected? && !g.reason.Silent?))
  }

  lemma SameLinksKeep(h: Hub, g: Hub, k: nat, n: nat, drops: bool, limit: nat)
    requires AsConfigured(h, k, n, drops, limit) && SameLinks(h, g)
    ensures AsConfigured(g, k, n, drops, limit)
  {
  }

  lemma StartedKeeps(k: nat, n: nat, drops: bool, limit: nat)
    requires k < n
    ensures AsConfigured(Started(k, n, drops, limit), k, n, drops, limit)
  {
  }

  lemma ForwardSameLinks(h: Hub, from: nat, message: Message, jams: Jams, count: nat)
    requires Sized(h, |h.linked|) && count <= |h.linked|
    ensures SameLinks(h, Forward(h, from, message, jams, count).0)
    decreases count
  {
    if count > 1 {
      ForwardSameLinks(h, from, message, jams, count - 1);
    }
  }

  lemma TakeSameLinks(h: Hub, from: nat, packet: Packet, jams: Jams)
    requires Sized(h, |h.linked|) && from < |h.linked|
    ensures SameLinks(h, TakeOne(h, from, packet, jams))
  {
    var t := h.(taken := h.taken[from := h.taken[from] + 1]);
    if !h.ended && |packet.header| >= 2 && h.local == 0 && packet.header[0] as nat == from && packet.header[1] <= TO_EVERYONE {
      var filed := Deliver(t.(took := t.took[from := t.took[from] + [packet]]), from, packet.body);
      ForwardSameLinks(filed, from, packet.body, jams, |h.linked|);
      hide Forward, Offer;
    }
  }

  lemma GoneConfigured(h: Hub, peer: nat, k: nat, n: nat, drops: bool, limit: nat)
    requires AsConfigured(h, k, n, drops, limit) && peer < n && h.linked[peer]
    ensures AsConfigured(Gone(h, peer), k, n, drops, limit)
  {
  }

  lemma SilenceConfigured(h: Hub, peer: nat, k: nat, n: nat, drops: bool, limit: nat)
    requires AsConfigured(h, k, n, drops, limit) && peer < n
    ensures AsConfigured(Silence(h, peer), k, n, drops, limit)
  {
  }

  ghost predicate AllConfigured(w: World, n: nat, drops: bool, limit: nat) {
    |w| == n && 2 <= n <= MAX_PEERS && forall k :: 0 <= k < n ==> AsConfigured(w[k], k, n, drops, limit)
  }

  lemma ConfiguredIsSized(w: World, n: nat, drops: bool, limit: nat)
    requires AllConfigured(w, n, drops, limit)
    ensures WellSized(w)
  {
  }

  lemma OneConfigured(w: World, at: nat, g: Hub, n: nat, drops: bool, limit: nat)
    requires AllConfigured(w, n, drops, limit) && at < n && AsConfigured(g, at, n, drops, limit)
    ensures AllConfigured(w[at := g], n, drops, limit)
  {
    hide AsConfigured;
  }

  lemma SpreadSameLinks(h: Hub, from: nat, message: Message, jams: Jams)
    requires Sized(h, |h.linked|)
    ensures SameLinks(h, Broadcast(h, from, message, jams).0)
  {
    hide Spread;
  }

  lemma SendSameLinks(h: Hub, from: nat, to: nat, message: Message, jams: Jams)
    requires Sized(h, |h.linked|)
    ensures SameLinks(h, Send(h, from, to, message, jams).0)
  {
  }

  lemma StepConfigured(w: World, op: Operation, n: nat, drops: bool, limit: nat)
    requires AllConfigured(w, n, drops, limit)
    ensures WellSized(w) && AllConfigured(Step(w, op), n, drops, limit)
  {
    ConfiguredIsSized(w, n, drops, limit);
    if op.at < n {
      var h := w[op.at];
      assert AsConfigured(h, op.at, n, drops, limit);
      hide AsConfigured, AllConfigured, Send, Broadcast, TakeOne, Gone, Silence, SameLinks;
      match op
      case SendOp(at, to, message, jams) =>
        SendSameLinks(h, at, to, message, jams);
        StillConfigured(w, at, Send(h, at, to, message, jams).0, n, drops, limit);
      case BroadcastOp(at, message, jams) =>
        SpreadSameLinks(h, at, message, jams);
        StillConfigured(w, at, Broadcast(h, at, message, jams).0, n, drops, limit);
      case ReceiveOp(at, from, jams) =>
        if Waiting(w, at, from) {
          var packet := w[from].sent[at][h.taken[from]];
          TakeSameLinks(h, from, packet, jams);
          StillConfigured(w, at, TakeOne(h, from, packet, jams), n, drops, limit);
        }
      case GoneOp(at, peer) =>
        if peer < n && h.linked[peer] {
          GoneConfigured(h, peer, at, n, drops, limit);
          OneConfigured(w, at, Gone(h, peer), n, drops, limit);
        }
      case SilenceOp(at, peer) =>
        if peer < n {
          SilenceConfigured(h, peer, at, n, drops, limit);
          OneConfigured(w, at, Silence(h, peer), n, drops, limit);
        }
      case DrainOp(at, origin) =>
        if origin < n {
          DrainSameLinks(h, origin);
          StillConfigured(w, at, DrainFrom(h, origin), n, drops, limit);
        }
    }
  }

  lemma StillConfigured(w: World, at: nat, g: Hub, n: nat, drops: bool, limit: nat)
    requires AllConfigured(w, n, drops, limit) && at < n && Sized(w[at], |w[at].linked|) && SameLinks(w[at], g)
    ensures AllConfigured(w[at := g], n, drops, limit)
  {
    SameLinksKeep(w[at], g, at, n, drops, limit);
    hide AsConfigured, SameLinks;
    OneConfigured(w, at, g, n, drops, limit);
  }

  lemma DrainSameLinks(h: Hub, origin: nat)
    requires Sized(h, |h.linked|) && origin < |h.linked|
    ensures SameLinks(h, DrainFrom(h, origin))
  {
  }

  lemma {:induction false} RunConfigured(w: World, ops: seq<Operation>, n: nat, drops: bool, limit: nat)
    requires AllConfigured(w, n, drops, limit)
    ensures WellSized(w) && AllConfigured(Run(w, ops), n, drops, limit)
    decreases |ops|
  {
    ConfiguredIsSized(w, n, drops, limit);
    hide Step, AllConfigured;
    if ops != [] {
      StepConfigured(w, ops[0], n, drops, limit);
      RunConfigured(Step(w, ops[0]), ops[1..], n, drops, limit);
    }
  }

  lemma ReachedConfigured(w: World, n: nat, drops: bool, limit: nat, ops: seq<Operation>)
    requires Reached(w, n, drops, limit, ops)
    ensures WellSized(w) && AllConfigured(w, n, drops, limit)
  {
    forall k | 0 <= k < n ensures AsConfigured(Session(n, drops, limit)[k], k, n, drops, limit) {
      StartedKeeps(k, n, drops, limit);
    }
    hide Run, AsConfigured;
    RunConfigured(Session(n, drops, limit), ops, n, drops, limit);
    ConfiguredIsSized(w, n, drops, limit);
  }

  /** In every reachable state: a session that does not drop peers never marks one lost, and its listener runs
      on only while every connection is open. One that does never ends the listener over a connection closed
      or silent; the connections it has lost are exactly those closed, and all others are open. A connector
      that has lost the listener has ended. A hub has a reason exactly when it has ended. */
  lemma EndsAsConfigured(w: World, n: nat, drops: bool, limit: nat, ops: seq<Operation>)
    requires Reached(w, n, drops, limit, ops)
    ensures |w| == n && WellSized(w)
    ensures !drops ==> forall k, c :: 0 <= k < n && 0 <= c < n ==> !w[k].lost[c]
    ensures !drops && !w[0].ended ==> forall c :: 1 <= c < n ==> w[0].linked[c]
    ensures drops ==> !w[0].reason.Disconnected? && !w[0].reason.Silent?
    ensures drops ==> forall c :: 1 <= c < n ==> (w[0].lost[c] <==> c in w[0].closed) && (w[0].linked[c] <==> !w[0].lost[c])
    ensures forall c :: 1 <= c < n && !w[c].linked[0] ==> w[c].ended
    ensures forall k :: 0 <= k < n ==> (w[k].ended <==> w[k].reason != Running)
  {
    ReachedConfigured(w, n, drops, limit, ops);
    assert AsConfigured(w[0], 0, n, drops, limit);
    forall c | 1 <= c < n && !w[c].linked[0] ensures w[c].ended {
      assert AsConfigured(w[c], c, n, drops, limit);
    }
    forall k, c | 0 <= k < n && 0 <= c < n && !drops ensures !w[k].lost[c] {
      assert AsConfigured(w[k], k, n, drops, limit);
    }
    forall k | 0 <= k < n ensures w[k].ended <==> w[k].reason != Running {
      assert AsConfigured(w[k], k, n, drops, limit);
    }
  }

  // ---------------------------------------------------------------- one report

  /** A connection reported closed is shut and noted. A running hub that carries on without the peer marks it
      lost; any other ends there and then, saying who; one that had ended keeps its first reason. */
  lemma GoneDoes(h: Hub, peer: nat)
    requires Sized(h, |h.linked|) && peer < |h.linked|
    ensures var g, without := Gone(h, peer), h.dropsPeers && h.local == 0 && peer != 0;
      && g == h.(linked := h.linked[peer := false], closed := h.closed + [peer], lost := g.lost,
                 ended := g.ended, reason := g.reason)
      && g.lost == (if without then h.lost[peer := true] else h.lost)
      && (without || h.ended ==> g.ended == h.ended && g.reason == h.reason)
      && (!without && !h.ended ==> g.ended && g.reason == Disconnected(peer))
  {
  }

  /** Silence past the deadline counts only for an open connection of a running hub: lost and shut where the
      hub carries on without the peer, and otherwise the end of it. */
  lemma SilenceDoes(h: Hub, peer: nat)
    requires Sized(h, |h.linked|) && peer < |h.linked|
    ensures var g, without := Silence(h, peer), h.dropsPeers && h.local == 0 && peer != 0;
      && (h.ended || !h.linked[peer] ==> g == h)
      && (!h.ended && h.linked[peer] && without ==>
            g == h.(linked := h.linked[peer := false], lost := h.lost[peer := true], closed := h.closed + [peer]))
      && (!h.ended && h.linked[peer] && !without ==> g == h.(ended := true, reason := Silent(peer)))
  {
  }

  // ---------------------------------------------------------------- what goes on the wire

  /** One packet more for `to`, and nothing else. */
  predicate Queued(h: Hub, g: Hub, to: nat, packet: Packet)
    requires to < |h.sent|
  {
    g == h.(sent := g.sent) && g.sent == h.sent[to := h.sent[to] + [packet]]
  }

  /** A send answers with the first of its reasons to refuse, in this order: it is not in this process's name;
      there is no such other peer; it is from one connector to another; the hub has ended; the message is too
      long; the peer is not there; the packet is not queued. Otherwise the receiver gets one packet. */
  lemma SendDoes(h: Hub, from: nat, to: nat, message: Message, jams: Jams)
    requires Sized(h, |h.linked|) && h.local < 256
    ensures var (g, answer) := Send(h, from, to, message, jams);
      var own, peer, joined := from == h.local, to < |h.linked| && to != h.local, h.local == 0 || to == 0;
      var running, fits := !h.ended, |message| <= h.limit;
      && (answer == InvalidArgument <==> !own || (peer && !joined))
      && (answer == OutOfRange <==> own && (!peer || (joined && running && !fits)))
      && (answer == Sent <==> own && peer && joined && running && fits && h.linked[to] && to !in jams)
      && (answer == Exhausted <==>
            own && peer && joined && running && fits && h.linked[to] && to in jams && jams[to] == NotAllocated)
      && (if answer == Sent then Queued(h, g, to, Packet([from as Byte, 0], message)) else g == h)
  {
  }

  /** A connector's broadcast is one packet to the listener, marked for everyone; it is refused as a send is. */
  lemma ConnectorBroadcastDoes(h: Hub, from: nat, message: Message, jams: Jams)
    requires Sized(h, |h.linked|) && 0 < h.local < 256
    ensures var (g, answer) := Broadcast(h, from, message, jams);
      && (answer == InvalidArgument <==> from != h.local)
      && (answer == OutOfRange <==> from == h.local && !h.ended && |message| > h.limit)
      && (answer == Sent <==> from == h.local && !h.ended && |message| <= h.limit && h.linked[0] && 0 !in jams)
      && (if answer == Sent then Queued(h, g, 0, Packet([from as Byte, 1], message)) else g == h)
  {
  }

  /** So just what a connector broadcasts is what its log has for everyone. */
  lemma BroadcastIsLogged(w: World, n: nat, drops: bool, limit: nat, ops: seq<Operation>, c: nat, message: Message, jams: Jams)
    requires Reached(w, n, drops, limit, ops) && WellSized(w) && 1 <= c < |w|
    ensures var (g, answer) := Broadcast(w[c], c, message, jams);
      Broadcasts(g.sent[0]) == Broadcasts(w[c].sent[0]) + (if answer == Sent then [message] else [])
    ensures forall to: nat :: Broadcasts(Send(w[c], c, to, message, jams).0.sent[0]) == Broadcasts(w[c].sent[0])
  {
    hide Reached;
    var h := w[c];
    ConnectorBroadcastDoes(h, c, message, jams);
    LogOne(h.sent[0], Packet([c as Byte, 1], message), c);
    LogOne(h.sent[0], Packet([c as Byte, 0], message), c);
    hide Broadcasts, Broadcast, From, Bodies;
    assert Broadcasts(h.sent[0]) + [] == Broadcasts(h.sent[0]);
    forall to: nat ensures Broadcasts(Send(h, c, to, message, jams).0.sent[0]) == Broadcasts(h.sent[0]) {
      SendDoes(h, c, to, message, jams);
    }
  }

  /** Of the connectors below `count`, all that are not lost have an open connection and their packet queued. */
  predicate Clear(h: Hub, jams: Jams, count: nat)
    requires Sized(h, |h.linked|) && count <= |h.linked|
  {
    forall u: nat :: 1 <= u < count && !h.lost[u] ==> h.linked[u] && u !in jams
  }

  /** Whom the listener's own broadcast gets to: the connectors not lost, up to the first of them whose
      connection is closed or whose packet is not queued. */
  predicate GetsPacket(h: Hub, jams: Jams, c: nat)
    requires Sized(h, |h.linked|)
  {
    1 <= c < |h.linked| && !h.lost[c] && Clear(h, jams, c + 1)
  }

  lemma ClearNext(h: Hub, jams: Jams, count: nat)
    requires Sized(h, |h.linked|) && 1 <= count < |h.linked|
    ensures Clear(h, jams, count + 1) <==> Clear(h, jams, count) && (h.lost[count] || (h.linked[count] && count !in jams))
  {
  }

  lemma {:induction false} SpreadReaches(h: Hub, message: Message, jams: Jams, count: nat, c: nat)
    requires Sized(h, |h.linked|) && count <= |h.linked| && c < |h.linked|
    ensures var (g, answer) := Spread(h, message, jams, count);
      && g == h.(sent := g.sent) && |g.sent| == |h.sent| && (answer == Sent <==> Clear(h, jams, count))
      && g.sent[c] == h.sent[c] + (if c < count && GetsPacket(h, jams, c) then [Packet([0, 0], message)] else [])
    decreases count
  {
    assert h.sent[c] + [] == h.sent[c];
    if count > 1 {
      SpreadReaches(h, message, jams, count - 1, c);
      ClearNext(h, jams, count - 1);
      LastOne(h, message, jams, count, c);
      hide Clear, Spread;
    }
  }

  /** The last peer of the loop, and the others left as they were. */
  lemma LastOne(h: Hub, message: Message, jams: Jams, count: nat, c: nat)
    requires Sized(h, |h.linked|) && 1 < count <= |h.linked| && c < |h.linked|
    ensures var (before, was) := Spread(h, message, jams, count - 1);
      var (g, answer) := Spread(h, message, jams, count);
      var last := count - 1;
      var goes := c == last && was == Sent && !h.lost[last] && h.linked[last] && last !in jams;
      && |before.sent| == |g.sent| == |h.sent|
      && g.sent[c] == (if goes then before.sent[c] + [Packet([0, 0], message)] else before.sent[c])
      && (answer == Sent <==> was == Sent && (h.lost[last] || (h.linked[last] && last !in jams)))
  {
  }

  /** The listener's broadcast is one packet to each connector not lost, one after the other: it answers Sent
      if and only if all of them get it, and otherwise those before the first that cannot have got it. */
  lemma ListenerBroadcastDoes(h: Hub, message: Message, jams: Jams)
    requires Sized(h, |h.linked|) && h.local == 0
    ensures var (g, answer) := Broadcast(h, 0, message, jams);
      && (h.ended ==> g == h && answer == Unavailable)
      && (!h.ended && |message| > h.limit ==> g == h && answer == OutOfRange)
      && (!h.ended && |message| <= h.limit ==>
            && (answer == Sent <==> Clear(h, jams, |h.linked|))
            && (forall c: nat :: c < |h.linked| ==>
                  g.sent[c] == h.sent[c] + (if GetsPacket(h, jams, c) then [Packet([0, 0], message)] else [])))
  {
    hide Spread, GetsPacket, Clear;
    SpreadReaches(h, message, jams, |h.linked|, 0);
    var (g, answer) := Broadcast(h, 0, message, jams);
    if !h.ended && |message| <= h.limit {
      forall c: nat | c < |h.linked|
        ensures g.sent[c] == h.sent[c] + (if GetsPacket(h, jams, c) then [Packet([0, 0], message)] else [])
      {
        SpreadReaches(h, message, jams, |h.linked|, c);
      }
    }
  }

  // ---------------------------------------------------------------- what comes off it

  /** A packet this process cannot file: too short, or framed as from someone it cannot be from. */
  predicate Misframed(h: Hub, from: nat, packet: Packet) {
    || |packet.header| < 2
    || (h.local != 0 && (packet.header[0] as nat >= |h.linked| || packet.header[0] as nat == h.local || packet.header[1] != 0))
    || (h.local == 0 && (packet.header[0] as nat != from || packet.header[1] > 1))
  }

  /** A hub that has ended reads nothing. A misframed packet ends it and is not filed. Any other is offered to
      the inbox of the origin it names and to no other; if that inbox refuses it, this ends the hub too. A
      connector sends nothing on, and neither does the listener unless the packet is for everyone. */
  lemma ReceiveDoes(h: Hub, from: nat, packet: Packet, jams: Jams)
    requires Sized(h, |h.linked|) && from < |h.linked|
    ensures var g := Receive(h, from, packet, jams);
      && (h.ended ==> g == h)
      && (!h.ended && Misframed(h, from, packet) ==> g == h.(ended := true, reason := Framing))
      && (!h.ended && !Misframed(h, from, packet) ==>
            var origin: nat, body := packet.header[0], packet.body;
            && Sized(g, |h.linked|) && SameLinks(h, g)
            && Stream(g.boxes[origin]) == Stream(h.boxes[origin]) + (if Accepts(h.boxes[origin], body) then [body] else [])
            && (forall o: nat :: o < |h.linked| && o != origin ==> g.boxes[o] == h.boxes[o])
            && (!Accepts(h.boxes[origin], body) ==> g.ended && g.reason == Overrun(origin))
            && (h.local != 0 || packet.header[1] == 0 ==>
                  g.sent == h.sent && (Accepts(h.boxes[origin], body) ==> !g.ended)))
  {
    if !h.ended && !Misframed(h, from, packet) {
      var origin: nat := packet.header[0];
      OfferFiles(h.boxes[origin], packet.body);
      if h.local == 0 && packet.header[1] == 1 {
        var filed := Deliver(h.(took := h.took[from := h.took[from] + [packet]]), from, packet.body);
        ForwardSameLinks(filed, from, packet.body, jams, |h.linked|);
        ForwardReasons(filed, from, packet.body, jams, |h.linked|);
        hide Forward;
      }
    }
  }

  lemma ForwardReasons(h: Hub, from: nat, message: Message, jams: Jams, count: nat)
    requires Sized(h, |h.linked|) && count <= |h.linked|
    ensures var g := Forward(h, from, message, jams, count).0;
      h.ended ==> g.ended && g.reason == h.reason
    decreases count
  {
    if count > 1 {
      ForwardReasons(h, from, message, jams, count - 1);
    }
  }

  /** Draining hands over what waits in one inbox, and nothing else is different. */
  lemma DrainDoes(h: Hub, origin: nat)
    requires origin < |h.boxes|
    ensures var g := DrainFrom(h, origin);
      && g == h.(boxes := g.boxes) && g.boxes == h.boxes[origin := g.boxes[origin]]
      && g.boxes[origin].pending == [] && g.boxes[origin].drained == h.boxes[origin].drained + h.boxes[origin].pending
      && g.boxes[origin].overflowed == h.boxes[origin].overflowed
  {
  }
}
