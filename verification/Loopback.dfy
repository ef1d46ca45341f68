/** Several peers in one process: per-pair pipes that delay, reorder, drop, corrupt and hold, and on a
    star a relay that files and forwards. What each operation does, as functions of the hub's state. */
module Loopback {
  import opened Inboxes

  datatype Fault = Drop | Corrupt | Hold
  datatype Armed = Unarmed | Armed(fault: Fault)
  datatype Error = OutOfRange | InvalidArgument | Unavailable
  datatype Status = Ok | Failed(error: Error)

  datatype Pending = Pending(
    bytes: Message, release: nat, order: nat, held: bool, origin: nat, everyone: bool)

  datatype Pipe = Pipe(inFlight: seq<Pending>, armed: Armed)

  datatype Stats = Stats(
    sent: nat, delivered: nat, dropped: nat, corrupted: nat, held: nat, reordered: nat, refused: nat)

  /** A message as the logs record it: whose it is, what it says and whether it is marked for everyone. */
  datatype Item = Item(origin: nat, bytes: Message, everyone: bool)

  type Pair = (nat, nat)

  /** The hub, with three logs no code reads: what entered each pipe, what came out of it, and what the
      relay took in for everyone; and a count of what losing peers discarded. */
  datatype Hub = Hub(
    peers: nat, star: bool, latency: nat, reorder: bool,
    pipes: map<Pair, Pipe>, boxes: map<Pair, Inbox>, polls: map<nat, nat>, lost: set<nat>,
    nextOrder: nat, stats: Stats,
    sentLog: map<Pair, seq<Item>>, handedLog: map<Pair, seq<Item>>, relayed: seq<Item>, discarded: nat)

  function Get<K, V>(m: map<K, V>, k: K, default: V): V { if k in m then m[k] else default }

  function PipeOf(h: Hub, from: nat, to: nat): Pipe { Get(h.pipes, (from, to), Pipe([], Unarmed)) }
  function InFlight(h: Hub, from: nat, to: nat): seq<Pending> { PipeOf(h, from, to).inFlight }
  function BoxOf(h: Hub, peer: nat, origin: nat): Inbox { Get(h.boxes, (peer, origin), EMPTY) }
  function PollsOf(h: Hub, peer: nat): nat { Get(h.polls, peer, 0) }
  function Sent(h: Hub, from: nat, to: nat): seq<Item> { Get(h.sentLog, (from, to), []) }
  function Handed(h: Hub, from: nat, to: nat): seq<Item> { Get(h.handedLog, (from, to), []) }

  function ItemOf(p: Pending): Item { Item(p.origin, p.bytes, p.everyone) }

  /** A message as the relay passes it on. */
  function CopyOf(p: Pending): Item { Item(p.origin, p.bytes, false) }

  function Items(s: seq<Pending>): (r: seq<Item>)
    ensures |r| == |s| && forall i :: 0 <= i < |s| ==> r[i] == ItemOf(s[i])
  {
    seq(|s|, i requires 0 <= i < |s| => ItemOf(s[i]))
  }

  // ---------------------------------------------------------------- one message in

  const CORRUPTION_FLOOR: nat := 16

  /** A damaged message has the low bit of its last byte flipped, past the header or not at all. */
  function Corrupted(bytes: Message): Message {
    if |bytes| > CORRUPTION_FLOOR then bytes[|bytes| - 1 := bytes[|bytes| - 1] ^ 1] else bytes
  }

  function Enqueue(h: Hub, from: nat, to: nat, bytes: Message, origin: nat, everyone: bool): Hub {
    var pipe := PipeOf(h, from, to);
    var entry := Pending(bytes, PollsOf(h, to) + h.latency, h.nextOrder, false, origin, everyone);
    var stats := h.stats.(sent := h.stats.sent + 1);
    if pipe.armed.Unarmed? then Admit(h, from, to, entry, stats)
    else match pipe.armed.fault
      case Drop => Vanish(h, from, to, stats.(dropped := stats.dropped + 1))
      case Corrupt =>
        var damaged := if |bytes| > CORRUPTION_FLOOR then 1 else 0;
        Admit(h, from, to, entry.(bytes := Corrupted(bytes)), stats.(corrupted := stats.corrupted + damaged))
      case Hold => Admit(h, from, to, entry.(held := true), stats.(held := stats.held + 1))
  }

  /** Put a message in flight. Whatever fault was armed on the pipe has had its one shot. */
  function Admit(h: Hub, from: nat, to: nat, p: Pending, stats: Stats): Hub {
    h.(pipes := h.pipes[(from, to) := Pipe(InFlight(h, from, to) + [p], Unarmed)], stats := stats,
       nextOrder := h.nextOrder + 1, sentLog := h.sentLog[(from, to) := Sent(h, from, to) + [ItemOf(p)]])
  }

  function Vanish(h: Hub, from: nat, to: nat, stats: Stats): Hub {
    h.(pipes := h.pipes[(from, to) := Pipe(InFlight(h, from, to), Unarmed)], stats := stats,
       nextOrder := h.nextOrder + 1)
  }

  function Send(h: Hub, from: nat, to: nat, bytes: Message): (Hub, Status) {
    if from >= h.peers || to >= h.peers then (h, Failed(OutOfRange))
    else if from == to then (h, Failed(InvalidArgument))
    else if h.star && from != 0 && to != 0 then (h, Failed(InvalidArgument))
    else if to in h.lost then (h, Failed(Unavailable))
    else if from in h.lost then (h, Ok)
    else (Enqueue(h, from, to, bytes, from, false), Ok)
  }

  function Broadcast(h: Hub, from: nat, bytes: Message): (Hub, Status) {
    if !h.star then SendToEach(h, from, bytes, 0)
    else if from >= h.peers then (h, Failed(OutOfRange))
    else if from in h.lost then (h, Ok)
    else if from != 0 then (Enqueue(h, from, 0, bytes, from, true), Ok)
    else (RelayTo(h, 0, bytes, 1), Ok)
  }

  function SendToEach(h: Hub, from: nat, bytes: Message, peer: nat): (Hub, Status)
    decreases h.peers - peer
  {
    if peer >= h.peers then (h, Ok)
    else if peer == from then SendToEach(h, from, bytes, peer + 1)
    else
      var (h1, status) := Send(h, from, peer, bytes);
      if !status.Ok? then (h1, status) else SendToEach(h1, from, bytes, peer + 1)
  }

  /** Peer zero puts one message in flight to every live connector from `to` on but its origin. */
  function RelayTo(h: Hub, origin: nat, bytes: Message, to: nat): Hub
    decreases h.peers - to
  {
    if to >= h.peers then h
    else if to == origin || to in h.lost then RelayTo(h, origin, bytes, to + 1)
    else RelayTo(Enqueue(h, 0, to, bytes, origin, false), origin, bytes, to + 1)
  }

  // ---------------------------------------------------------------- one poll

  /** The random stream's answer for a poll: where position `i - 1` of a batch of `size` is swapped to. */
  type Draw = (nat, nat, nat) -> nat

  function IsDue(p: Pending, now: nat): bool { !p.held && p.release < now }

  function Due(s: seq<Pending>, now: nat): seq<Pending> {
    if s == [] then [] else (if IsDue(s[0], now) then [s[0]] else []) + Due(s[1..], now)
  }

  function Kept(s: seq<Pending>, now: nat): seq<Pending> {
    if s == [] then [] else (if IsDue(s[0], now) then [] else [s[0]]) + Kept(s[1..], now)
  }

  /** The batch shuffled, and how many swaps moved something. */
  function Shuffle(batch: seq<Pending>, i: nat, now: nat, draw: Draw): (r: (seq<Pending>, nat))
    requires i <= |batch|
    ensures multiset(r.0) == multiset(batch)
    decreases i
  {
    if i <= 1 then (batch, 0)
    else
      var j := draw(now, |batch|, i) % i;
      if j == i - 1 then Shuffle(batch, i - 1, now, draw)
      else
        var (shuffled, swaps) := Shuffle(batch[i - 1 := batch[j]][j := batch[i - 1]], i - 1, now, draw);
        (shuffled, swaps + 1)
  }

  /** What this poll removes from one pipe, and the order it goes to the inboxes in. */
  function TakeDue(h: Hub, from: nat, peer: nat, draw: Draw): (Hub, seq<Pending>) {
    var now := PollsOf(h, peer);
    var pipe := PipeOf(h, from, peer);
    var due := Due(pipe.inFlight, now);
    var h1 := h.(pipes := h.pipes[(from, peer) := pipe.(inFlight := Kept(pipe.inFlight, now))]);
    if h.reorder && |due| > 1 then
      var (batch, swaps) := Shuffle(due, |due|, now, draw);
      (h1.(stats := h1.stats.(reordered := h1.stats.reordered + swaps)), batch)
    else (h1, due)
  }

  /** Forward first when the relay holds a broadcast, then file; the forwarding does not wait to hear
      whether the filing is accepted. */
  function DeliverOne(h: Hub, from: nat, peer: nat, p: Pending): Hub {
    var h1 := if p.everyone && peer == 0
              then RelayTo(h.(relayed := h.relayed + [CopyOf(p)]), p.origin, p.bytes, 1) else h;
    File(h1, from, peer, p)
  }

  function File(h: Hub, from: nat, peer: nat, p: Pending): Hub {
    var (box, ok) := Offer(BoxOf(h, peer, p.origin), p.bytes);
    h.(boxes := h.boxes[(peer, p.origin) := box],
       stats := if ok then h.stats.(delivered := h.stats.delivered + 1)
                else h.stats.(refused := h.stats.refused + 1),
       handedLog := h.handedLog[(from, peer) := Handed(h, from, peer) + [ItemOf(p)]])
  }

  function DeliverAll(h: Hub, from: nat, peer: nat, batch: seq<Pending>): Hub
    decreases |batch|
  {
    if batch == [] then h else DeliverAll(DeliverOne(h, from, peer, batch[0]), from, peer, batch[1..])
  }

  function PumpPipe(h: Hub, from: nat, peer: nat, draw: Draw): Hub {
    var (h1, batch) := TakeDue(h, from, peer, draw);
    DeliverAll(h1, from, peer, batch)
  }

  function PumpPipes(h: Hub, peer: nat, count: nat, draw: Draw): Hub {
    if count == 0 then h
    else
      var h1 := PumpPipes(h, peer, count - 1, draw);
      if count - 1 == peer then h1 else PumpPipe(h1, count - 1, peer, draw)
  }

  function Polled(h: Hub, peer: nat): Hub { h.(polls := h.polls[peer := PollsOf(h, peer) + 1]) }

  /** The receiver's clock is its own count of polls, and runs on even when the peer is lost. */
  function Pump(h: Hub, peer: nat, draw: Draw): Hub {
    var h1 := Polled(h, peer);
    if peer in h.lost then h1 else PumpPipes(h1, peer, h.peers, draw)
  }

  // ---------------------------------------------------------------- faults and losses

  function Lose(h: Hub, peer: nat): (Hub, Status) {
    if peer >= h.peers then (h, Failed(OutOfRange))
    else (ClearPipes(h.(lost := h.lost + {peer}), peer, h.peers), Ok)
  }

  function ClearPipes(h: Hub, peer: nat, count: nat): Hub {
    if count == 0 then h
    else
      var h1 := ClearPipes(h, peer, count - 1);
      var other := count - 1;
      if other == peer then h1 else ClearPipe(ClearPipe(h1, peer, other), other, peer)
  }

  function ClearPipe(h: Hub, from: nat, to: nat): Hub {
    h.(pipes := h.pipes[(from, to) := PipeOf(h, from, to).(inFlight := [])],
       discarded := h.discarded + |InFlight(h, from, to)|)
  }

  function ArmFault(h: Hub, from: nat, to: nat, fault: Fault): (Hub, Status) {
    if from >= h.peers || to >= h.peers then (h, Failed(OutOfRange))
    else (h.(pipes := h.pipes[(from, to) := PipeOf(h, from, to).(armed := Armed(fault))]), Ok)
  }

  function Released(s: seq<Pending>): (r: seq<Pending>)
    ensures |r| == |s| && forall i :: 0 <= i < |s| ==> r[i] == s[i].(held := false)
  {
    seq(|s|, i requires 0 <= i < |s| => s[i].(held := false))
  }

  function ReleaseHeld(h: Hub): Hub {
    h.(pipes := map k | k in h.pipes :: h.pipes[k].(inFlight := Released(h.pipes[k].inFlight)))
  }

  function DrainBox(h: Hub, peer: nat, origin: nat): Hub {
    h.(boxes := h.boxes[(peer, origin) := Drain(BoxOf(h, peer, origin))])
  }

  function Initial(peers: nat, star: bool, latency: nat, reorder: bool): Hub {
    Hub(peers, star, latency, reorder, map[], map[], map[], {}, 0, Stats(0, 0, 0, 0, 0, 0, 0),
        map[], map[], [], 0)
  }

  // ---------------------------------------------------------------- runs

  datatype Operation =
    | DoSend(from: nat, to: nat, bytes: Message)
    | DoBroadcast(from: nat, bytes: Message)
    | DoPump(peer: nat)
    | DoLose(peer: nat)
    | DoArm(from: nat, to: nat, fault: Fault)
    | DoRelease
    | DoDrain(peer: nat, origin: nat)

  /** Pumping and draining name a peer there is: the source asserts it. */
  predicate Sensible(op: Operation, peers: nat) {
    (op.DoPump? ==> op.peer < peers) && (op.DoDrain? ==> op.peer < peers && op.origin < peers)
  }

  function Step(h: Hub, op: Operation, draw: Draw): Hub {
    match op
    case DoSend(from, to, bytes) => Send(h, from, to, bytes).0
    case DoBroadcast(from, bytes) => Broadcast(h, from, bytes).0
    case DoPump(peer) => Pump(h, peer, draw)
    case DoLose(peer) => Lose(h, peer).0
    case DoArm(from, to, fault) => ArmFault(h, from, to, fault).0
    case DoRelease => ReleaseHeld(h)
    case DoDrain(peer, origin) => DrainBox(h, peer, origin)
  }

  function Run(h: Hub, ops: seq<Operation>, draw: Draw): Hub
    decreases |ops|
  {
    if ops == [] then h else Run(Step(h, ops[0], draw), ops[1..], draw)
  }
}
