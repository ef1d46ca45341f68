/** The socket transport's hub: what each call does to one process's end of a star, the wire between ends
    being reliable and ordered. Packets are logged for good; a receiver keeps its place in the log. */
module SocketHubs {
  import opened Inboxes
  import opened Bytes

  const MAX_PEERS: nat := 16
  const TO_RECEIVER: Byte := 0
  const TO_EVERYONE: Byte := 1

  /** Up to two bytes of framing, then the message. */
  datatype Packet = Packet(header: seq<Byte>, body: Message)

  datatype Reason =
    | Running | Framing | Overrun(peer: nat) | Disconnected(peer: nat) | Silent(peer: nat)
    | NotForwarded(from: nat, to: nat)

  datatype Answer = Sent | InvalidArgument | OutOfRange | Unavailable | Exhausted

  /** Why a packet was not queued; of the peers a call has something for, those it fails for. */
  datatype Jam = NotAllocated | NotQueued
  type Jams = map<nat, Jam>

  /** `linked` says whose connection is open. `sent`, `taken` and `took` are logs: every packet queued for
      each peer, how many packets from each peer have come in, and those a listener accepted. */
  datatype Hub = Hub(
    local: nat, dropsPeers: bool, limit: nat, linked: seq<bool>, lost: seq<bool>, boxes: seq<Inbox>,
    ended: bool, reason: Reason, closed: seq<nat>,
    sent: seq<seq<Packet>>, taken: seq<nat>, took: seq<seq<Packet>>)

  predicate Sized(h: Hub, n: nat) {
    && |h.linked| == n && |h.lost| == n && |h.boxes| == n && |h.sent| == n && |h.taken| == n && |h.took| == n
    && h.local < n
  }

  /** The hub as it stands when the indices have been announced. */
  function Started(local: nat, n: nat, dropsPeers: bool, limit: nat): (h: Hub)
    requires local < n
    ensures Sized(h, n)
  {
    Hub(local, dropsPeers, limit, seq(n, k => if local == 0 then k > 0 else k == 0), seq(n, _ => false),
        seq(n, _ => EMPTY), false, Running, [], seq(n, _ => []), seq(n, _ => 0), seq(n, _ => []))
  }

  // ---------------------------------------------------------------- sending

  function SendPacket(h: Hub, to: nat, origin: nat, scope: Byte, message: Message): Hub
    requires to < |h.sent|
  {
    h.(sent := h.sent[to := h.sent[to] + [Packet([origin % 256, scope], message)]])
  }

  function TryPacket(h: Hub, to: nat, origin: nat, scope: Byte, message: Message, jams: Jams): (r: (Hub, Answer))
    requires Sized(h, |h.linked|) && to < |h.linked|
    ensures Sized(r.0, |h.linked|) && r.0 == h.(sent := r.0.sent)
  {
    if to in jams then (h, if jams[to].NotAllocated? then Exhausted else Unavailable)
    else (SendPacket(h, to, origin, scope, message), Sent)
  }

  function Send(h: Hub, from: nat, to: nat, message: Message, jams: Jams): (r: (Hub, Answer))
    requires Sized(h, |h.linked|)
    ensures Sized(r.0, |h.linked|) && r.0.local == h.local
  {
    if from != h.local then (h, InvalidArgument)
    else if to >= |h.linked| || to == h.local then (h, OutOfRange)
    else if h.local != 0 && to != 0 then (h, InvalidArgument)
    else if h.ended then (h, Unavailable)
    else if |message| > h.limit then (h, OutOfRange)
    else if !h.linked[to] then (h, Unavailable)
    else TryPacket(h, to, h.local, TO_RECEIVER, message, jams)
  }

  /** The listener's own broadcast, to the peers below `count`, as far as the first it fails for. */
  function Spread(h: Hub, message: Message, jams: Jams, count: nat): (r: (Hub, Answer))
    requires Sized(h, |h.linked|) && count <= |h.linked|
    ensures Sized(r.0, |h.linked|) && r.0 == h.(sent := r.0.sent)
    decreases count
  {
    if count <= 1 then (h, Sent)
    else
      var (g, so) := Spread(h, message, jams, count - 1);
      if so != Sent then (g, so)
      else if h.lost[count - 1] then (g, Sent)
      else if !h.linked[count - 1] then (g, Unavailable)
      else TryPacket(g, count - 1, 0, TO_RECEIVER, message, jams)
  }

  function Broadcast(h: Hub, from: nat, message: Message, jams: Jams): (r: (Hub, Answer))
    requires Sized(h, |h.linked|)
    ensures Sized(r.0, |h.linked|) && r.0.local == h.local
  {
    if from != h.local then (h, InvalidArgument)
    else if h.ended then (h, Unavailable)
    else if |message| > h.limit then (h, OutOfRange)
    else if h.local != 0 then
      if !h.linked[0] then (h, Unavailable) else TryPacket(h, 0, h.local, TO_EVERYONE, message, jams)
    else Spread(h, message, jams, |h.linked|)
  }

  // ---------------------------------------------------------------- receiving

  function End(h: Hub, reason: Reason): Hub {
    if h.ended then h else h.(ended := true, reason := reason)
  }

  function Deliver(h: Hub, origin: nat, message: Message): Hub
    requires origin < |h.boxes|
  {
    var (box, ok) := Offer(h.boxes[origin], message);
    var g := h.(boxes := h.boxes[origin := box]);
    if ok then g else End(g, Overrun(origin))
  }

  /** The listener passes a connector's message on, to the peers below `count`; failing for one ends it. */
  function Forward(h: Hub, from: nat, message: Message, jams: Jams, count: nat): (r: (Hub, bool))
    requires Sized(h, |h.linked|) && count <= |h.linked|
    ensures Sized(r.0, |h.linked|) && r.0 == h.(sent := r.0.sent, ended := r.0.ended, reason := r.0.reason)
  {
    if count <= 1 then (h, true)
    else
      var (g, going) := Forward(h, from, message, jams, count - 1);
      if !going || count - 1 == from || !h.linked[count - 1] then (g, going)
      else
        var (next, so) := TryPacket(g, count - 1, from, TO_RECEIVER, message, jams);
        if so == Sent then (next, true) else (End(next, NotForwarded(from, count - 1)), false)
  }

  function Receive(h: Hub, from: nat, packet: Packet, jams: Jams): (g: Hub)
    requires Sized(h, |h.linked|) && from < |h.linked|
    ensures Sized(g, |h.linked|) && g.local == h.local
  {
    if h.ended then h
    else if |packet.header| < 2 then End(h, Framing)
    else
      var origin: nat, scope: nat := packet.header[0], packet.header[1];
      if h.local != 0 then
        if origin >= |h.linked| || origin == h.local || scope != TO_RECEIVER then End(h, Framing)
        else Deliver(h, origin, packet.body)
      else if origin != from || scope > TO_EVERYONE then End(h, Framing)
      else
        var filed := Deliver(h.(took := h.took[from := h.took[from] + [packet]]), from, packet.body);
        if scope != TO_EVERYONE then filed else Forward(filed, from, packet.body, jams, |h.linked|).0
  }

  // ---------------------------------------------------------------- losing

  predicate KeepsGoing(h: Hub, peer: nat) { h.dropsPeers && h.local == 0 && peer != 0 }

  function Lose(h: Hub, peer: nat): (g: Hub)
    requires Sized(h, |h.linked|) && peer < |h.linked|
    ensures Sized(g, |h.linked|) && g.local == h.local
  {
    h.(lost := h.lost[peer := true], closed := h.closed + [peer], linked := h.linked[peer := false])
  }

  /** The transport reports a connection closed. */
  function Gone(h: Hub, peer: nat): (g: Hub)
    requires Sized(h, |h.linked|) && peer < |h.linked|
    ensures Sized(g, |h.linked|) && g.local == h.local
  {
    var apart := h.(linked := h.linked[peer := false]);
    if KeepsGoing(h, peer) then Lose(apart, peer)
    else End(apart.(closed := apart.closed + [peer]), Disconnected(peer))
  }

  /** A connection has been silent past its deadline. */
  function Silence(h: Hub, peer: nat): (g: Hub)
    requires Sized(h, |h.linked|) && peer < |h.linked|
    ensures Sized(g, |h.linked|) && g.local == h.local
  {
    if h.ended || !h.linked[peer] then h
    else if KeepsGoing(h, peer) then Lose(h, peer)
    else End(h, Silent(peer))
  }

  function DrainFrom(h: Hub, origin: nat): Hub
    requires origin < |h.boxes|
  {
    h.(boxes := h.boxes[origin := Drain(h.boxes[origin])])
  }

  // ---------------------------------------------------------------- the index message

  const MARKER: seq<Byte> := [65, 88]

  datatype Assigned = Refused | Assigned(index: nat, count: nat)

  /** The place a process has been given, and out of how many. */
  function IndexMessage(index: nat, count: nat): seq<Byte> {
    MARKER + [index % 256, index / 256 % 256, count % 256, count / 256 % 256]
  }

  function ReadIndexMessage(b: seq<Byte>): Assigned {
    if |b| != 6 || b[..2] != MARKER then Refused
    else
      var index, count := U16(b, 2), U16(b, 4);
      if count < 2 || count > MAX_PEERS || index == 0 || index >= count then Refused else Assigned(index, count)
  }

  /** Every place in every allowed session is read back as announced; nothing else is read at all. */
  lemma IndexMessageInverts(index: nat, count: nat)
    requires index < 0x1_0000 && count < 0x1_0000
    ensures ReadIndexMessage(IndexMessage(index, count))
         == if 2 <= count <= 16 && 0 < index < count then Assigned(index, count) else Refused
    ensures IndexMessage(index, count) == [0x41, 0x58] + Le16(index) + Le16(count)
  {
    var b := IndexMessage(index, count);
    assert b[..2] == MARKER && b[2..4] == Le16(index) && b[4..6] == Le16(count);
    U16At(b, 2, index);
    U16At(b, 4, count);
  }

  lemma OnlyIndexMessagesRead(b: seq<Byte>)
    requires ReadIndexMessage(b).Assigned?
    ensures b == IndexMessage(ReadIndexMessage(b).index, ReadIndexMessage(b).count)
  {
    var low: nat, high: nat := b[2], b[3];
    var low': nat, high': nat := b[4], b[5];
    assert (low + 256 * high) % 256 == low && (low' + 256 * high') % 256 == low';
    assert b == b[..2] + [b[2], b[3], b[4], b[5]];
  }
}
