/** A star of socket hubs, every process's events in any order: no hub ever ends over framing, and what a
    connector holds of another's broadcasts is a prefix of what that other broadcast and the listener
    filed. */
module SocketStar {
  import opened Inboxes
  import opened Bytes
  import opened SocketHubs

  /** Every process of the session, the listener first. */
  type World = seq<Hub>

  datatype Operation =
    | SendOp(at: nat, to: nat, message: Message, jams: Jams) | BroadcastOp(at: nat, message: Message, jams: Jams)
    | ReceiveOp(at: nat, from: nat, jams: Jams) | GoneOp(at: nat, peer: nat) | SilenceOp(at: nat, peer: nat)
    | DrainOp(at: nat, origin: nat)

  predicate WellSized(w: World) {
    2 <= |w| <= MAX_PEERS && forall k :: 0 <= k < |w| ==> Sized(w[k], |w|) && w[k].local == k
  }

  /** A packet from `from` is waiting for an open connection of `at`. */
  predicate Waiting(w: World, at: nat, from: nat)
    requires WellSized(w)
  {
    at < |w| && from < |w| && w[at].linked[from] && w[at].taken[from] < |w[from].sent[at]|
  }

  function TakeOne(h: Hub, from: nat, packet: Packet, jams: Jams): (g: Hub)
    requires Sized(h, |h.linked|) && from < |h.linked|
    ensures Sized(g, |h.linked|) && g.local == h.local
  {
    Receive(h.(taken := h.taken[from := h.taken[from] + 1]), from, packet, jams)
  }

  /** One event; a report about a connection already closed, or a packet that is not there, is no event. */
  function Step(w: World, op: Operation): (next: World)
    requires WellSized(w)
    ensures WellSized(next)
  {
    match op
    case SendOp(at, to, message, jams) => if at < |w| then w[at := Send(w[at], at, to, message, jams).0] else w
    case BroadcastOp(at, message, jams) => if at < |w| then w[at := Broadcast(w[at], at, message, jams).0] else w
    case ReceiveOp(at, from, jams) =>
      if Waiting(w, at, from) then w[at := TakeOne(w[at], from, w[from].sent[at][w[at].taken[from]], jams)] else w
    case GoneOp(at, peer) =>
      if at < |w| && peer < |w| && w[at].linked[peer] then w[at := Gone(w[at], peer)] else w
    case SilenceOp(at, peer) => if at < |w| && peer < |w| then w[at := Silence(w[at], peer)] else w
    case DrainOp(at, origin) => if at < |w| && origin < |w| then w[at := DrainFrom(w[at], origin)] else w
  }

  function Session(n: nat, dropsPeers: bool, limit: nat): (w: World)
    requires 2 <= n <= MAX_PEERS
    ensures WellSized(w)
  {
    seq(n, k requires 0 <= k < n => Started(k, n, dropsPeers, limit))
  }

  // ---------------------------------------------------------------- reading the logs

  function Bodies(log: seq<Packet>): (m: seq<Message>)
    ensures |m| == |log|
  {
    if log == [] then [] else Bodies(log[..|log| - 1]) + [log[|log| - 1].body]
  }

  /** The messages framed as from one origin. */
  function From(log: seq<Packet>, origin: nat): seq<Message> {
    if log == [] then []
    else
      var p := log[|log| - 1];
      From(log[..|log| - 1], origin) + (if |p.header| == 2 && p.header[0] == origin then [p.body] else [])
  }

  /** The messages marked for everyone. */
  function Broadcasts(log: seq<Packet>): seq<Message> {
    if log == [] then []
    else
      var p := log[|log| - 1];
      Broadcasts(log[..|log| - 1]) + (if |p.header| == 2 && p.header[1] == TO_EVERYONE then [p.body] else [])
  }

  lemma LogOne(log: seq<Packet>, p: Packet, origin: nat)
    ensures Bodies(log + [p]) == Bodies(log) + [p.body]
    ensures From(log + [p], origin)
         == From(log, origin) + (if |p.header| == 2 && p.header[0] == origin then [p.body] else [])
    ensures Broadcasts(log + [p])
         == Broadcasts(log) + (if |p.header| == 2 && p.header[1] == TO_EVERYONE then [p.body] else [])
  {
    assert (log + [p])[..|log|] == log;
  }

  lemma {:induction false} PrefixOfLog(a: seq<Packet>, b: seq<Packet>, origin: nat)
    requires a <= b
    ensures From(a, origin) <= From(b, origin) && Broadcasts(a) <= Broadcasts(b)
    decreases |b|
  {
    if a != b {
      var c := b[..|b| - 1];
      assert b == c + [b[|b| - 1]];
      PrefixOfLog(a, c, origin);
      LogOne(c, b[|b| - 1], origin);
    }
  }

  // ---------------------------------------------------------------- the invariant

  /** A connector speaks only for itself. */
  predicate FramedUp(log: seq<Packet>, from: nat) {
    forall k :: 0 <= k < |log| ==> |log[k].header| == 2 && log[k].header[0] == from && log[k].header[1] <= TO_EVERYONE
  }

  /** The listener names an origin the receiver can file. */
  predicate FramedDown(log: seq<Packet>, to: nat, n: nat) {
    forall k :: 0 <= k < |log|
      ==> |log[k].header| == 2 && log[k].header[0] < n && log[k].header[0] != to && log[k].header[1] == TO_RECEIVER
  }

  /** An inbox holds what was filed; all of it unless it overflowed, when the last one was refused. */
  predicate Files(box: Inbox, filed: seq<Message>) {
    if box.overflowed then |filed| == |Stream(box)| + 1 && Stream(box) <= filed else Stream(box) == filed
  }

  /** What connector `c` sent, as far as the listener `l` has taken it in. */
  predicate UpLink(l: Hub, h: Hub, c: nat)
    requires c < |l.taken| && c < |l.took| && c < |l.boxes| && c < |l.linked| && c < |l.lost| && h.sent != []
  {
    && FramedUp(h.sent[0], c) && l.taken[c] <= |h.sent[0]|
    && l.took[c] <= h.sent[0][..l.taken[c]] && (!l.ended ==> l.took[c] == h.sent[0][..l.taken[c]])
    && Files(l.boxes[c], Bodies(l.took[c])) && (l.boxes[c].overflowed ==> l.ended)
    && (l.linked[c] || l.lost[c] || l.ended)
  }

  /** What the listener sent connector `c`, as far as `h` there has filed it. */
  predicate DownLink(sent: seq<Packet>, h: Hub, c: nat, n: nat)
    requires h.taken != [] && |h.boxes| == n
  {
    && FramedDown(sent, c, n) && h.taken[0] <= |sent|
    && forall o: nat :: o < n ==> FiledFrom(h.boxes[o], sent[..h.taken[0]], o, h.ended)
  }

  predicate FiledFrom(box: Inbox, taken: seq<Packet>, origin: nat, ended: bool) {
    && Stream(box) <= From(taken, origin)
    && (!ended ==> !box.overflowed && Stream(box) == From(taken, origin))
  }

  /** What the listener passed on to `c` of what it took from `p`: all of the broadcasts, unless it has
      ended or has left `c` behind. */
  predicate Passed(l: Hub, p: nat, c: nat)
    requires p < |l.took| && c < |l.sent| && c < |l.linked|
  {
    && From(l.sent[c], p) <= Broadcasts(l.took[p])
    && (l.linked[c] && !l.ended ==> From(l.sent[c], p) == Broadcasts(l.took[p]))
  }

  ghost predicate Good(w: World) {
    && WellSized(w)
    && (forall k :: 0 <= k < |w| ==> w[k].reason != Framing)
    && (forall c :: 1 <= c < |w| ==> UpLink(w[0], w[c], c) && DownLink(w[0].sent[c], w[c], c, |w|))
    && (forall p, c :: 1 <= p < |w| && 1 <= c < |w| && p != c ==> Passed(w[0], p, c))
    && (forall c, k :: 1 <= c < |w| && 1 <= k < |w| ==> !w[c].linked[k]) && !w[0].linked[0]
  }

  // ---------------------------------------------------------------- one connector's event

  /** An event at connector `c` keeps the rest if it keeps its own two links. */
  lemma ConnectorKeeps(w: World, c: nat, h: Hub)
    requires Good(w) && 1 <= c < |w| && Sized(h, |w|) && h.local == c && h.reason != Framing
    requires UpLink(w[0], h, c) && DownLink(w[0].sent[c], h, c, |w|)
    requires forall k :: 1 <= k < |w| ==> !h.linked[k]
    ensures Good(w[c := h])
  {
    hide UpLink, DownLink, Passed, Sized;
  }

  lemma ConnectorSends(w: World, c: nat, scope: Byte, message: Message)
    requires Good(w) && 1 <= c < |w| && scope <= TO_EVERYONE
    ensures Good(w[c := SendPacket(w[c], 0, c, scope, message)])
  {
    hide DownLink, Passed, Files, Bodies;
    var h := SendPacket(w[c], 0, c, scope, message);
    assert UpLink(w[0], w[c], c) && DownLink(w[0].sent[c], w[c], c, |w|);
    assert w[c].sent[0] <= h.sent[0];
    assert h.sent[0][..w[0].taken[c]] == w[c].sent[0][..w[0].taken[c]];
    assert DownLink(w[0].sent[c], h, c, |w|) by { SameDown(w[0].sent[c], w[c], h, c, |w|); }
    hide UpLink;
    ConnectorKeeps(w, c, h);
  }

  lemma SameDown(sent: seq<Packet>, h: Hub, g: Hub, c: nat, n: nat)
    requires h.taken != [] && |h.boxes| == n && DownLink(sent, h, c, n)
    requires g.taken == h.taken && g.boxes == h.boxes && (h.ended ==> g.ended)
    ensures DownLink(sent, g, c, n)
  {
    hide FramedDown;
    forall o: nat | o < n ensures FiledFrom(g.boxes[o], sent[..g.taken[0]], o, g.ended) {
      assert FiledFrom(h.boxes[o], sent[..h.taken[0]], o, h.ended);
    }
  }

  lemma SameUp(l: Hub, h: Hub, g: Hub, c: nat)
    requires c < |l.taken| && c < |l.took| && c < |l.boxes| && c < |l.linked| && c < |l.lost| && h.sent != []
    requires UpLink(l, h, c) && g.sent == h.sent
    ensures UpLink(l, g, c)
  {
  }

  /** What a connector takes from the listener it can always file. */
  lemma ConnectorTakes(w: World, c: nat, jams: Jams)
    requires Good(w) && 1 <= c < |w| && Waiting(w, c, 0)
    ensures Good(w[c := TakeOne(w[c], 0, w[0].sent[c][w[c].taken[0]], jams)])
  {
    var sent, h := w[0].sent[c], w[c];
    var packet := sent[h.taken[0]];
    var g := TakeOne(h, 0, packet, jams);
    assert DownLink(sent, h, c, |w|) && UpLink(w[0], h, c);
    assert sent[..h.taken[0] + 1] == sent[..h.taken[0]] + [packet];
    hide UpLink, Passed;
    forall o: nat | o < |w| ensures FiledFrom(g.boxes[o], sent[..g.taken[0]], o, g.ended) {
      assert FiledFrom(h.boxes[o], sent[..h.taken[0]], o, h.ended);
      TakesOne(h, packet, jams, sent[..h.taken[0]], o);
    }
    SameUp(w[0], h, g, c);
    ConnectorKeeps(w, c, g);
  }

  lemma TakesOne(h: Hub, packet: Packet, jams: Jams, before: seq<Packet>, o: nat)
    requires Sized(h, |h.linked|) && h.local != 0 && o < |h.linked|
    requires |packet.header| == 2 && packet.header[0] < |h.linked| && packet.header[0] != h.local
    requires packet.header[1] == TO_RECEIVER && FiledFrom(h.boxes[o], before, o, h.ended)
    ensures FiledFrom(TakeOne(h, 0, packet, jams).boxes[o], before + [packet], o, TakeOne(h, 0, packet, jams).ended)
  {
    LogOne(before, packet, o);
    OfferFiles(h.boxes[packet.header[0]], packet.body);
  }

  /** Offering a message files it, or overflows and files nothing more. */
  lemma OfferFiles(box: Inbox, message: Message)
    ensures var (after, ok) := Offer(box, message);
      && Stream(after) == (if ok then Stream(box) + [message] else Stream(box)) && ok == !after.overflowed
  {
    assert box.drained + (box.pending + [message]) == box.drained + box.pending + [message];
  }

  lemma ConnectorDrains(w: World, c: nat, origin: nat)
    requires Good(w) && 1 <= c < |w| && origin < |w|
    ensures Good(w[c := DrainFrom(w[c], origin)])
  {
    var h := DrainFrom(w[c], origin);
    assert DownLink(w[0].sent[c], w[c], c, |w|) && UpLink(w[0], w[c], c);
    forall o: nat | o < |w| ensures FiledFrom(h.boxes[o], w[0].sent[c][..h.taken[0]], o, h.ended) {
      assert FiledFrom(w[c].boxes[o], w[0].sent[c][..w[c].taken[0]], o, w[c].ended);
    }
    hide UpLink, Passed;
    SameUp(w[0], w[c], h, c);
    ConnectorKeeps(w, c, h);
  }

  lemma ConnectorStops(w: World, c: nat, h: Hub)
    requires Good(w) && 1 <= c < |w|
    requires h == w[c].(linked := h.linked, closed := h.closed, ended := true, reason := h.reason)
    requires |h.linked| == |w| && h.reason != Framing && forall k :: 1 <= k < |w| ==> !h.linked[k]
    ensures Good(w[c := h])
  {
    assert DownLink(w[0].sent[c], w[c], c, |w|) && UpLink(w[0], w[c], c);
    SameUp(w[0], w[c], h, c);
    SameDown(w[0].sent[c], w[c], h, c, |w|);
    hide UpLink, DownLink, Passed;
    ConnectorKeeps(w, c, h);
  }

  // ---------------------------------------------------------------- the listener's events

  ghost predicate LinksGood(w: World, l: Hub)
    requires WellSized(w) && Sized(l, |w|)
  {
    && (forall c :: 1 <= c < |w| ==> UpLink(l, w[c], c) && DownLink(l.sent[c], w[c], c, |w|))
    && (forall p, c :: 1 <= p < |w| && 1 <= c < |w| && p != c ==> Passed(l, p, c))
  }

  lemma ListenerKeeps(w: World, l: Hub)
    requires Good(w) && Sized(l, |w|) && l.local == 0 && l.reason != Framing && !l.linked[0] && LinksGood(w, l)
    ensures Good(w[0 := l])
  {
    hide UpLink, DownLink, Passed, Sized;
  }

  /** More packets on the wire change nothing that has been taken off it. */
  lemma DownGrows(sent: seq<Packet>, more: seq<Packet>, h: Hub, c: nat, n: nat)
    requires h.taken != [] && |h.boxes| == n && DownLink(sent, h, c, n) && FramedDown(more, c, n)
    ensures DownLink(sent + more, h, c, n)
  {
    assert (sent + more)[..h.taken[0]] == sent[..h.taken[0]];
  }

  /** `g` is `l` with at most one more packet, from `origin`, on the way to `c`. */
  predicate Grew(l: Hub, g: Hub, c: nat, origin: nat, message: Message)
    requires c < |l.sent| == |g.sent|
  {
    g.sent[c] == l.sent[c] || g.sent[c] == l.sent[c] + [Packet([origin % 256, TO_RECEIVER], message)]
  }

  lemma GrewDown(w: World, l: Hub, g: Hub, c: nat, origin: nat, message: Message)
    requires WellSized(w) && 1 <= c < |w| && Sized(l, |w|) && Sized(g, |w|) && origin < |w| && origin != c
    requires DownLink(l.sent[c], w[c], c, |w|) && Grew(l, g, c, origin, message)
    ensures DownLink(g.sent[c], w[c], c, |w|)
    ensures forall p: nat :: p != origin ==> From(g.sent[c], p) == From(l.sent[c], p)
  {
    hide From, FiledFrom;
    var more := [Packet([origin % 256, TO_RECEIVER], message)];
    DownGrows(l.sent[c], more, w[c], c, |w|);
    hide DownLink;
    forall p: nat | p != origin ensures From(g.sent[c], p) == From(l.sent[c], p) {
      LogOne(l.sent[c], more[0], p);
    }
  }

  /** The listener says something of its own, to some of its connectors. */
  lemma ListenerSays(w: World, l: Hub, message: Message)
    requires Good(w) && l == w[0].(sent := l.sent) && |l.sent| == |w|
    requires forall c :: 1 <= c < |w| ==> Grew(w[0], l, c, 0, message)
    ensures Good(w[0 := l])
  {
    hide UpLink, DownLink, From, Broadcasts, Grew;
    forall c | 1 <= c < |w| ensures UpLink(l, w[c], c) && DownLink(l.sent[c], w[c], c, |w|) {
      GrewDown(w, w[0], l, c, 0, message);
      SameTaking(w[0], l, w[c], c);
    }
    forall p, c | 1 <= p < |w| && 1 <= c < |w| && p != c ensures Passed(l, p, c) {
      assert Passed(w[0], p, c);
      GrewDown(w, w[0], l, c, 0, message);
    }
    ListenerKeeps(w, l);
  }

  /** The listener's side of a connector's uplink does not depend on what it sends. */
  lemma SameTaking(l: Hub, g: Hub, h: Hub, c: nat)
    requires c < |l.taken| && c < |l.took| && c < |l.boxes| && c < |l.linked| && c < |l.lost| && h.sent != []
    requires UpLink(l, h, c) && g.taken == l.taken && g.took == l.took && g.boxes == l.boxes
    requires |g.linked| == |l.linked| && |g.lost| == |l.lost| && (l.ended ==> g.ended)
    requires (g.linked[c] == l.linked[c] && g.lost[c] == l.lost[c]) || g.lost[c] || g.ended
    ensures UpLink(g, h, c)
  {
    hide FramedUp, Files;
  }

  lemma {:induction false} SpreadGrows(h: Hub, message: Message, jams: Jams, count: nat)
    requires Sized(h, |h.linked|) && count <= |h.linked|
    ensures forall c :: 0 <= c < |h.linked| ==> Grew(h, Spread(h, message, jams, count).0, c, 0, message)
    ensures forall c :: count <= c < |h.linked| ==> Spread(h, message, jams, count).0.sent[c] == h.sent[c]
    decreases count
  {
    if count > 1 {
      SpreadGrows(h, message, jams, count - 1);
      var before, g := Spread(h, message, jams, count - 1).0, Spread(h, message, jams, count).0;
      forall c | 0 <= c < |h.linked| ensures Grew(h, g, c, 0, message) {
        assert Grew(h, before, c, 0, message);
      }
    }
  }

  /** The log of packets to `c`, with the message from `origin` added when it goes to `c` too. */
  function With(sent: seq<Packet>, origin: nat, message: Message, goes: bool): seq<Packet> {
    if goes then sent + [Packet([origin % 256, TO_RECEIVER], message)] else sent
  }

  /** Of the peers below `count`, those the forwarded message is for. */
  predicate Goes(h: Hub, from: nat, c: nat, count: nat)
    requires c < |h.linked|
  {
    1 <= c < count && c != from && h.linked[c]
  }

  /** `c` is sent the message if it is to have it, or, where not every copy is queued, perhaps not. */
  predicate Given(h: Hub, g: Hub, from: nat, message: Message, c: nat, goes: bool, whole: bool)
    requires c < |h.sent| == |g.sent|
  {
    && (g.sent[c] == h.sent[c] || (goes && g.sent[c] == With(h.sent[c], from, message, true)))
    && (whole ==> g.sent[c] == With(h.sent[c], from, message, goes))
  }

  /** Each open connection gets the forwarded message once, at the end of what it was sent before; if one of
      them cannot be given it, that ends the listener. */
  lemma {:induction false} ForwardGrows(h: Hub, from: nat, message: Message, jams: Jams, count: nat)
    requires Sized(h, |h.linked|) && count <= |h.linked|
    ensures var (g, going) := Forward(h, from, message, jams, count);
      && (if going then g.ended == h.ended && g.reason == h.reason else g.ended)
      && (g.reason == Framing ==> h.reason == Framing) && (jams == map[] ==> going)
      && forall c :: 0 <= c < |h.linked| ==> Given(h, g, from, message, c, Goes(h, from, c, count), going)
    decreases count
  {
    if count > 1 {
      ForwardGrows(h, from, message, jams, count - 1);
      var (before, was) := Forward(h, from, message, jams, count - 1);
      var (g, going) := Forward(h, from, message, jams, count);
      forall c | 0 <= c < |h.linked|
        ensures Given(h, g, from, message, c, Goes(h, from, c, count), going)
      {
        assert Given(h, before, from, message, c, Goes(h, from, c, count - 1), was);
      }
    }
  }

  /** What the listener becomes when it takes a packet it can file. */
  lemma ListenerTakesOne(l: Hub, p: nat, packet: Packet, jams: Jams)
    requires Sized(l, |l.linked|) && l.local == 0 && 1 <= p < |l.linked|
    requires |packet.header| == 2 && packet.header[0] == p && packet.header[1] <= TO_EVERYONE
    ensures var g := TakeOne(l, p, packet, jams);
      && Sized(g, |l.linked|) && g.local == 0 && g.linked == l.linked && g.lost == l.lost
      && g.taken == l.taken[p := l.taken[p] + 1] && (l.ended ==> g.ended)
      && g.took == (if l.ended then l.took else l.took[p := l.took[p] + [packet]])
      && g.boxes == (if l.ended then l.boxes else l.boxes[p := Offer(l.boxes[p], packet.body).0])
      && (!l.ended && !Offer(l.boxes[p], packet.body).1 ==> g.ended)
      && (!l.ended && g.ended && jams == map[] ==> !Offer(l.boxes[p], packet.body).1)
      && (g.reason == Framing ==> l.reason == Framing)
      && forall c :: 0 <= c < |l.linked| ==> GivenOne(l, g, p, packet, c, jams)
  {
    if !l.ended && packet.header[1] == TO_EVERYONE {
      var t := l.(taken := l.taken[p := l.taken[p] + 1]);
      var filed := Deliver(t.(took := t.took[p := t.took[p] + [packet]]), p, packet.body);
      ForwardGrows(filed, p, packet.body, jams, |l.linked|);
      var g := TakeOne(l, p, packet, jams);
      var going := Forward(filed, p, packet.body, jams, |l.linked|).1;
      forall c | 0 <= c < |l.linked| ensures GivenOne(l, g, p, packet, c, jams) {
        assert Given(filed, g, p, packet.body, c, Goes(filed, p, c, |l.linked|), going);
      }
    }
  }

  /** A packet for everyone goes to every other open connection; only failing to queue a copy, which ends
      the listener, keeps one from it. */
  predicate GivenOne(l: Hub, g: Hub, p: nat, packet: Packet, c: nat, jams: Jams)
    requires c < |l.sent| == |g.sent| && c < |l.linked| && |packet.header| == 2
  {
    var goes := !l.ended && packet.header[1] == TO_EVERYONE && Goes(l, p, c, |l.linked|);
    Given(l, g, p, packet.body, c, goes, jams == map[] || !g.ended)
  }

  lemma TookOne(l: Hub, g: Hub, h: Hub, p: nat, packet: Packet, jams: Jams)
    requires Sized(l, |l.linked|) && l.local == 0 && 1 <= p < |l.linked| && h.sent != []
    requires UpLink(l, h, p) && l.taken[p] < |h.sent[0]| && packet == h.sent[0][l.taken[p]]
    requires g == TakeOne(l, p, packet, jams)
    ensures Sized(g, |l.linked|) && UpLink(g, h, p)
  {
    ListenerTakesOne(l, p, packet, jams);
    assert h.sent[0][..l.taken[p] + 1] == h.sent[0][..l.taken[p]] + [packet];
    LogOne(l.took[p], packet, 0);
    OfferFiles(l.boxes[p], packet.body);
  }

  lemma PassedOne(l: Hub, g: Hub, p: nat, packet: Packet, jams: Jams, q: nat, c: nat)
    requires Sized(l, |l.linked|) && l.local == 0 && 1 <= p < |l.linked| <= MAX_PEERS && !l.ended
    requires |packet.header| == 2 && packet.header[0] == p && packet.header[1] <= TO_EVERYONE
    requires 1 <= q < |l.linked| && 1 <= c < |l.linked| && q != c && Passed(l, q, c)
    requires g == TakeOne(l, p, packet, jams)
    ensures Sized(g, |l.linked|) && Passed(g, q, c)
  {
    hide TakeOne, From, Broadcasts;
    ListenerTakesOne(l, p, packet, jams);
    LogOne(l.took[p], packet, 0);
    LogOne(l.sent[c], Packet([p % 256, TO_RECEIVER], packet.body), q);
    assert GivenOne(l, g, p, packet, c, jams);
  }

  /** What a connector sends the listener can always file, and passes on in the same step. */
  lemma ListenerTakes(w: World, p: nat, jams: Jams)
    requires Good(w) && 1 <= p < |w| && Waiting(w, 0, p)
    ensures Good(w[0 := TakeOne(w[0], p, w[p].sent[0][w[0].taken[p]], jams)])
  {
    var l, packet := w[0], w[p].sent[0][w[0].taken[p]];
    var g := TakeOne(l, p, packet, jams);
    assert UpLink(l, w[p], p);
    TookOne(l, g, w[p], p, packet, jams);
    ListenerTakesOne(l, p, packet, jams);
    hide TakeOne, DownLink, From, Broadcasts, Passed, UpLink, GivenOne;
    forall c | 1 <= c < |w| ensures UpLink(g, w[c], c) && DownLink(g.sent[c], w[c], c, |w|) {
      assert UpLink(l, w[c], c) && DownLink(l.sent[c], w[c], c, |w|);
      GivenGrew(l, g, p, packet, c, jams);
      if c != p {
        OtherUp(l, g, w[c], c);
        GrewDown(w, l, g, c, p, packet.body);
      }
    }
    forall q, c | 1 <= q < |w| && 1 <= c < |w| && q != c ensures Passed(g, q, c) {
      assert Passed(l, q, c);
      if l.ended {
        SamePassed(l, g, q, c);
      } else {
        PassedOne(l, g, p, packet, jams, q, c);
      }
    }
    ListenerKeeps(w, g);
  }

  lemma GivenGrew(l: Hub, g: Hub, p: nat, packet: Packet, c: nat, jams: Jams)
    requires c < |l.sent| == |g.sent| && c < |l.linked| && |packet.header| == 2
    requires GivenOne(l, g, p, packet, c, jams)
    ensures Grew(l, g, c, p, packet.body) && (c == p || l.ended ==> g.sent[c] == l.sent[c])
  {
  }

  lemma SamePassed(l: Hub, g: Hub, q: nat, c: nat)
    requires q < |l.took| == |g.took| && c < |l.sent| == |g.sent| && c < |l.linked| == |g.linked|
    requires Passed(l, q, c) && g.took[q] == l.took[q] && g.sent[c] == l.sent[c]
    requires (g.linked[c] ==> l.linked[c]) && (l.ended ==> g.ended)
    ensures Passed(g, q, c)
  {
  }

  lemma OtherUp(l: Hub, g: Hub, h: Hub, c: nat)
    requires c < |l.taken| && c < |l.took| && c < |l.boxes| && c < |l.linked| && c < |l.lost| && h.sent != []
    requires |g.taken| == |l.taken| && |g.took| == |l.took| && |g.boxes| == |l.boxes| && |g.linked| == |l.linked|
    requires |g.lost| == |l.lost| && UpLink(l, h, c) && g.taken[c] == l.taken[c] && g.took[c] == l.took[c]
    requires g.boxes[c] == l.boxes[c] && g.linked[c] == l.linked[c] && g.lost[c] == l.lost[c] && (l.ended ==> g.ended)
    ensures UpLink(g, h, c)
  {
    hide FramedUp, Files;
  }

  /** The listener drops a connection, or stops. */
  lemma ListenerDrops(w: World, l: Hub)
    requires Good(w)
    requires l == w[0].(linked := l.linked, lost := l.lost, closed := l.closed, ended := l.ended, reason := l.reason)
    requires Sized(l, |w|) && l.reason != Framing && !l.linked[0] && (w[0].ended ==> l.ended)
    requires forall c :: 1 <= c < |w| ==> (l.linked[c] ==> w[0].linked[c])
    requires forall c :: 1 <= c < |w| ==> (l.linked[c] == w[0].linked[c] && l.lost[c] == w[0].lost[c]) || l.lost[c] || l.ended
    ensures Good(w[0 := l])
  {
    hide UpLink, DownLink, Passed;
    forall c | 1 <= c < |w| ensures UpLink(l, w[c], c) && DownLink(l.sent[c], w[c], c, |w|) {
      SameTaking(w[0], l, w[c], c);
    }
    forall p, c | 1 <= p < |w| && 1 <= c < |w| && p != c ensures Passed(l, p, c) {
      SamePassed(w[0], l, p, c);
    }
    ListenerKeeps(w, l);
  }

  lemma ListenerDrains(w: World, origin: nat)
    requires Good(w) && origin < |w|
    ensures Good(w[0 := DrainFrom(w[0], origin)])
  {
    var l := DrainFrom(w[0], origin);
    hide DownLink, Passed;
    forall c | 1 <= c < |w| ensures UpLink(l, w[c], c) && DownLink(l.sent[c], w[c], c, |w|) {
      assert UpLink(w[0], w[c], c);
    }
    forall p, c | 1 <= p < |w| && 1 <= c < |w| && p != c ensures Passed(l, p, c) {
      SamePassed(w[0], l, p, c);
    }
    ListenerKeeps(w, l);
  }

  // ---------------------------------------------------------------- every event

  lemma SendKeeps(w: World, at: nat, to: nat, message: Message, jams: Jams)
    requires Good(w) && at < |w|
    ensures Good(w[at := Send(w[at], at, to, message, jams).0])
  {
    var g := Send(w[at], at, to, message, jams).0;
    if g == w[at] {
      assert w[at := g] == w;
    } else if at == 0 {
      hide Good;
      assert forall c :: 1 <= c < |w| ==> Grew(w[0], g, c, 0, message);
      ListenerSays(w, g, message);
    } else {
      hide Good;
      ConnectorSends(w, at, TO_RECEIVER, message);
    }
  }

  lemma BroadcastKeeps(w: World, at: nat, message: Message, jams: Jams)
    requires Good(w) && at < |w|
    ensures Good(w[at := Broadcast(w[at], at, message, jams).0])
  {
    var g := Broadcast(w[at], at, message, jams).0;
    if g == w[at] {
      assert w[at := g] == w;
    } else if at == 0 {
      SpreadGrows(w[0], message, jams, |w|);
      hide Good;
      ListenerSays(w, g, message);
    } else {
      hide Good;
      ConnectorSends(w, at, TO_EVERYONE, message);
    }
  }

  lemma GoneKeeps(w: World, at: nat, peer: nat)
    requires Good(w) && at < |w| && peer < |w|
    ensures Good(w[at := Gone(w[at], peer)])
  {
    var g := Gone(w[at], peer);
    if at == 0 {
      ListenerDrops(w, g);
    } else {
      ConnectorStops(w, at, g);
    }
  }

  lemma SilenceKeeps(w: World, at: nat, peer: nat)
    requires Good(w) && at < |w| && peer < |w|
    ensures Good(w[at := Silence(w[at], peer)])
  {
    var g := Silence(w[at], peer);
    if g == w[at] {
      assert w[at := g] == w;
    } else if at == 0 {
      ListenerDrops(w, g);
    } else {
      ConnectorStops(w, at, g);
    }
  }

  lemma StepKeeps(w: World, op: Operation)
    requires Good(w)
    ensures Good(Step(w, op))
  {
    GoodIsSized(w);
    hide Good, Send, Broadcast, Gone, Silence, TakeOne, DrainFrom;
    match op
    case SendOp(at, to, message, jams) => if at < |w| { SendKeeps(w, at, to, message, jams); }
    case BroadcastOp(at, message, jams) => if at < |w| { BroadcastKeeps(w, at, message, jams); }
    case ReceiveOp(at, from, jams) =>
      if Waiting(w, at, from) {
        if at == 0 { ListenerTakes(w, from, jams); } else { ConnectorTakes(w, at, jams); }
      }
    case GoneOp(at, peer) => if at < |w| && peer < |w| && w[at].linked[peer] { GoneKeeps(w, at, peer); }
    case SilenceOp(at, peer) => if at < |w| && peer < |w| { SilenceKeeps(w, at, peer); }
    case DrainOp(at, origin) =>
      if at < |w| && origin < |w| {
        if at == 0 { ListenerDrains(w, origin); } else { ConnectorDrains(w, at, origin); }
      }
  }

  // ---------------------------------------------------------------- every run

  lemma SessionGood(n: nat, dropsPeers: bool, limit: nat)
    requires 2 <= n <= MAX_PEERS
    ensures Good(Session(n, dropsPeers, limit))
  {
  }

  function Run(w: World, ops: seq<Operation>): World
    requires WellSized(w)
    decreases |ops|
  {
    if ops == [] then w
    else
      Run(Step(w, ops[0]), ops[1..])
  }

  lemma {:induction false} RunKeeps(w: World, ops: seq<Operation>)
    requires Good(w)
    ensures Good(Run(w, ops))
    decreases |ops|
  {
    hide Good;
    if ops != [] {
      assert WellSized(w) by { GoodIsSized(w); }
      StepKeeps(w, ops[0]);
      RunKeeps(Step(w, ops[0]), ops[1..]);
    }
  }

  lemma GoodIsSized(w: World)
    requires Good(w)
    ensures WellSized(w)
  {
  }

  /** A state some run of a session leads to. */
  ghost predicate Reached(w: World, n: nat, dropsPeers: bool, limit: nat, ops: seq<Operation>) {
    2 <= n <= MAX_PEERS && w == Run(Session(n, dropsPeers, limit), ops)
  }

  lemma ReachedGood(w: World, n: nat, dropsPeers: bool, limit: nat, ops: seq<Operation>)
    requires Reached(w, n, dropsPeers, limit, ops)
    ensures Good(w)
  {
    hide Good;
    SessionGood(n, dropsPeers, limit);
    RunKeeps(Session(n, dropsPeers, limit), ops);
  }

  /** No reachable state ends a hub over the way a packet was framed. */
  lemma NeverEndsOverFraming(w: World, n: nat, dropsPeers: bool, limit: nat, ops: seq<Operation>, k: nat)
    requires Reached(w, n, dropsPeers, limit, ops) && k < |w|
    ensures w[k].reason != Framing
  {
    ReachedGood(w, n, dropsPeers, limit, ops);
  }

  /** What connector `c` holds from `p` is a prefix of the broadcasts the listener took from `p`, which are a
      prefix of those `p` made; and unless its inbox overflowed, the listener filed all it took. */
  lemma HoldsAPrefix(w: World, n: nat, dropsPeers: bool, limit: nat, ops: seq<Operation>, p: nat, c: nat)
    requires Reached(w, n, dropsPeers, limit, ops) && 1 <= p < |w| && 1 <= c < |w| && p != c
    ensures WellSized(w) && Stream(w[c].boxes[p]) <= Broadcasts(w[0].took[p]) <= Broadcasts(w[p].sent[0])
    ensures Files(w[0].boxes[p], Bodies(w[0].took[p]))
  {
    ReachedGood(w, n, dropsPeers, limit, ops);
    assert Passed(w[0], p, c) && UpLink(w[0], w[p], p) && DownLink(w[0].sent[c], w[c], c, |w|);
    var sent := w[0].sent[c];
    assert FiledFrom(w[c].boxes[p], sent[..w[c].taken[0]], p, w[c].ended);
    PrefixOfLog(sent[..w[c].taken[0]], sent, p);
    PrefixOfLog(w[0].took[p], w[p].sent[0], p);
  }

  /** And once nothing is left on the wire, between hubs still running and joined, it holds every one. */
  lemma HoldsThemAll(w: World, n: nat, dropsPeers: bool, limit: nat, ops: seq<Operation>, p: nat, c: nat)
    requires Reached(w, n, dropsPeers, limit, ops) && 1 <= p < |w| && 1 <= c < |w| && p != c && WellSized(w)
    requires !w[0].ended && !w[c].ended && w[0].linked[c]
    requires w[0].taken[p] == |w[p].sent[0]| && w[c].taken[0] == |w[0].sent[c]|
    ensures Stream(w[c].boxes[p]) == Broadcasts(w[p].sent[0])
  {
    ReachedGood(w, n, dropsPeers, limit, ops);
    assert Passed(w[0], p, c) && UpLink(w[0], w[p], p) && DownLink(w[0].sent[c], w[c], c, |w|);
    assert w[0].sent[c][..w[c].taken[0]] == w[0].sent[c] && w[p].sent[0][..w[0].taken[p]] == w[p].sent[0];
    assert FiledFrom(w[c].boxes[p], w[0].sent[c], p, w[c].ended);
  }

  /** So any two connectors hold, of a third one's broadcasts, one a prefix of the other. */
  lemma ConnectorsAgree(w: World, n: nat, dropsPeers: bool, limit: nat, ops: seq<Operation>, p: nat, c: nat, d: nat)
    requires Reached(w, n, dropsPeers, limit, ops) && 1 <= p < |w| && 1 <= c < |w| && 1 <= d < |w| && p != c && p != d
    ensures WellSized(w)
    ensures Stream(w[c].boxes[p]) <= Stream(w[d].boxes[p]) || Stream(w[d].boxes[p]) <= Stream(w[c].boxes[p])
  {
    hide Reached, Stream, Broadcasts, WellSized;
    HoldsAPrefix(w, n, dropsPeers, limit, ops, p, c);
    HoldsAPrefix(w, n, dropsPeers, limit, ops, p, d);
  }

  /** A running listener's broadcast, within the limit, is never stopped half way by a closed connection:
      when every packet is queued, every connector not given up on gets it, and it fails exactly when one
      of those packets is not. */
  lemma ListenerBroadcastIsWhole(w: World, n: nat, dropsPeers: bool, limit: nat, ops: seq<Operation>,
                                 message: Message, jams: Jams)
    requires Reached(w, n, dropsPeers, limit, ops) && WellSized(w) && !w[0].ended && |message| <= w[0].limit
    ensures var (l, answer) := Broadcast(w[0], 0, message, jams);
      && (answer == Sent <==> forall c :: 1 <= c < |w| && c in jams ==> w[0].lost[c])
      && (answer == Sent ==>
          (forall c :: 1 <= c < |w| ==> l.sent[c] == With(w[0].sent[c], 0, message, !w[0].lost[c])))
  {
    ReachedGood(w, n, dropsPeers, limit, ops);
    forall c | 1 <= c < |w| ensures w[0].linked[c] || w[0].lost[c] {
      assert UpLink(w[0], w[c], c);
    }
    SpreadIsWhole(w[0], message, jams, |w|);
  }

  lemma {:induction false} SpreadIsWhole(h: Hub, message: Message, jams: Jams, count: nat)
    requires Sized(h, |h.linked|) && count <= |h.linked|
    requires forall c :: 1 <= c < |h.linked| ==> h.linked[c] || h.lost[c]
    ensures var (g, answer) := Spread(h, message, jams, count);
      && (answer == Sent <==> forall c :: 1 <= c < count && c in jams ==> h.lost[c])
      && (answer == Sent ==>
          (forall c :: 0 <= c < |h.linked| ==>
             g.sent[c] == With(h.sent[c], 0, message, 1 <= c < count && !h.lost[c])))
    decreases count
  {
    if count > 1 {
      SpreadIsWhole(h, message, jams, count - 1);
    }
  }
}
