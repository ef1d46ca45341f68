/** The socket hub as it runs, its fields updated in place. What it queues for a peer stays in `sent`; the
    counts of what has come in and the listener's log are ghost. */
module EnetHubs {
  import opened Inboxes
  import opened Bytes
  import S = SocketHubs

  class EnetHub {
    const local: nat
    const dropsPeers: bool
    const limit: nat
    var linked: seq<bool>
    var lost: seq<bool>
    var boxes: seq<Inbox>
    var ended: bool
    var reason: S.Reason
    var closed: seq<nat>
    var sent: seq<seq<S.Packet>>
    ghost var taken: seq<nat>
    ghost var took: seq<seq<S.Packet>>

    ghost function State(): S.Hub
      reads this
    {
      S.Hub(local, dropsPeers, limit, linked, lost, boxes, ended, reason, closed, sent, taken, took)
    }

    ghost predicate Valid()
      reads this
    {
      S.Sized(State(), |linked|)
    }

    constructor (local: nat, count: nat, dropsPeers: bool, limit: nat)
      requires local < count
      ensures Valid() && State() == S.Started(local, count, dropsPeers, limit)
    {
      this.local, this.dropsPeers, this.limit := local, dropsPeers, limit;
      linked := seq(count, k => if local == 0 then k > 0 else k == 0);
      lost, boxes := seq(count, _ => false), seq(count, _ => EMPTY);
      ended, reason, closed := false, S.Running, [];
      sent := seq(count, _ => []);
      taken, took := seq(count, _ => 0), seq(count, _ => []);
    }

    method SendPacket(to: nat, origin: nat, scope: Byte, message: Message)
      requires Valid() && to < |linked|
      modifies `sent
      ensures Valid() && State() == S.SendPacket(old(State()), to, origin, scope, message)
    {
      sent := sent[to := sent[to] + [S.Packet([origin % 256, scope], message)]];
    }

    /** The packet joins the log unless the transport fails, and then the answer says how. */
    method TryPacket(to: nat, origin: nat, scope: Byte, message: Message, jams: S.Jams) returns (answer: S.Answer)
      requires Valid() && to < |linked|
      modifies `sent
      ensures Valid() && (State(), answer) == S.TryPacket(old(State()), to, origin, scope, message, jams)
    {
      if to in jams {
        return if jams[to].NotAllocated? then S.Exhausted else S.Unavailable;
      }
      SendPacket(to, origin, scope, message);
      return S.Sent;
    }

    method Send(from: nat, to: nat, message: Message, jams: S.Jams) returns (answer: S.Answer)
      requires Valid()
      modifies `sent
      ensures Valid() && (State(), answer) == S.Send(old(State()), from, to, message, jams)
    {
      if from != local {
        return S.InvalidArgument;
      }
      if to >= |linked| || to == local {
        return S.OutOfRange;
      }
      if local != 0 && to != 0 {
        return S.InvalidArgument;
      }
      if ended {
        return S.Unavailable;
      }
      if |message| > limit {
        return S.OutOfRange;
      }
      if !linked[to] {
        return S.Unavailable;
      }
      answer := TryPacket(to, local, S.TO_RECEIVER, message, jams);
    }

    method Broadcast(from: nat, message: Message, jams: S.Jams) returns (answer: S.Answer)
      requires Valid()
      modifies `sent
      ensures Valid() && (State(), answer) == S.Broadcast(old(State()), from, message, jams)
    {
      hide S.TryPacket;
      if from != local {
        return S.InvalidArgument;
      }
      if ended {
        return S.Unavailable;
      }
      if |message| > limit {
        return S.OutOfRange;
      }
      if local != 0 {
        if !linked[0] {
          return S.Unavailable;
        }
        answer := TryPacket(0, local, S.TO_EVERYONE, message, jams);
        return;
      }
      for to: nat := 1 to |linked|
        invariant Valid() && (State(), S.Sent) == S.Spread(old(State()), message, jams, to)
      {
        if !lost[to] {
          if !linked[to] {
            StopsShort(old(State()), message, jams, to + 1, |linked|);
            return S.Unavailable;
          }
          answer := TryPacket(to, 0, S.TO_RECEIVER, message, jams);
          if answer != S.Sent {
            StopsShort(old(State()), message, jams, to + 1, |linked|);
            return;
          }
        }
      }
      return S.Sent;
    }

    method End(why: S.Reason)
      modifies `ended, `reason
      ensures State() == S.End(old(State()), why)
    {
      if !ended {
        ended, reason := true, why;
      }
    }

    /** A refusal is fatal to the whole hub, not just to the sender. */
    method Deliver(origin: nat, message: Message)
      requires Valid() && origin < |linked|
      modifies `boxes, `ended, `reason
      ensures Valid() && State() == S.Deliver(old(State()), origin, message)
    {
      var (box, ok) := Offer(boxes[origin], message);
      boxes := boxes[origin := box];
      if !ok {
        End(S.Overrun(origin));
      }
    }

    /** Framing first; after that a packet always reaches an inbox, and some go on to others. */
    method Receive(from: nat, packet: S.Packet, jams: S.Jams)
      requires Valid() && from < |linked|
      modifies this
      ensures Valid() && State() == S.Receive(old(State()), from, packet, jams)
    {
      hide Offer;
      if ended {
        return;
      }
      if |packet.header| < 2 {
        End(S.Framing);
        return;
      }
      var origin: nat, scope: nat := packet.header[0], packet.header[1];
      if local != 0 {
        if origin >= |linked| || origin == local || scope != S.TO_RECEIVER {
          End(S.Framing);
          return;
        }
        Deliver(origin, packet.body);
        return;
      }
      if origin != from || scope > S.TO_EVERYONE {
        End(S.Framing);
        return;
      }
      took := took[from := took[from] + [packet]];
      Deliver(from, packet.body);
      if scope != S.TO_EVERYONE {
        return;
      }
      Forward(from, packet.body, jams);
    }

    method Forward(from: nat, message: Message, jams: S.Jams)
      requires Valid() && from < |linked|
      modifies `sent, `ended, `reason
      ensures Valid() && State() == S.Forward(old(State()), from, message, jams, |linked|).0
    {
      hide S.TryPacket;
      for to: nat := 1 to |linked|
        invariant Valid() && |linked| == |old(linked)|
        invariant (State(), true) == S.Forward(old(State()), from, message, jams, to)
      {
        if to != from && linked[to] {
          var answer := TryPacket(to, from, S.TO_RECEIVER, message, jams);
          if answer != S.Sent {
            ForwardStops(old(State()), from, message, jams, to + 1, |linked|);
            End(S.NotForwarded(from, to));
            return;
          }
        }
      }
    }

    method Lose(peer: nat)
      requires Valid() && peer < |linked|
      modifies `lost, `closed, `linked
      ensures Valid() && State() == S.Lose(old(State()), peer)
    {
      lost := lost[peer := true];
      closed := closed + [peer];
      if linked[peer] {
        linked := linked[peer := false];
      }
      assert linked == old(linked)[peer := false];
    }

    /** The transport says a connection has closed. */
    method OnDisconnect(gone: nat)
      requires Valid() && gone < |linked|
      modifies this
      ensures Valid() && State() == S.Gone(old(State()), gone)
    {
      linked := linked[gone := false];
      if dropsPeers && local == 0 && gone != 0 {
        Lose(gone);
        return;
      }
      closed := closed + [gone];
      End(S.Disconnected(gone));
    }

    /** One peer's deadline has passed. */
    method OnSilence(peer: nat)
      requires Valid() && peer < |linked|
      modifies this
      ensures Valid() && State() == S.Silence(old(State()), peer)
    {
      if ended || !linked[peer] {
        return;
      }
      if dropsPeers && local == 0 && peer != 0 {
        Lose(peer);
      } else {
        End(S.Silent(peer));
      }
    }
  }

  lemma {:induction false} StopsShort(h: S.Hub, message: Message, jams: S.Jams, stop: nat, count: nat)
    requires S.Sized(h, |h.linked|) && stop <= count <= |h.linked|
    requires S.Spread(h, message, jams, stop).1 != S.Sent
    ensures S.Spread(h, message, jams, count) == S.Spread(h, message, jams, stop)
    decreases count
  {
    if stop < count {
      StopsShort(h, message, jams, stop, count - 1);
    }
  }

  lemma {:induction false} ForwardStops(h: S.Hub, from: nat, message: Message, jams: S.Jams, stop: nat, count: nat)
    requires S.Sized(h, |h.linked|) && stop <= count <= |h.linked|
    requires !S.Forward(h, from, message, jams, stop).1
    ensures S.Forward(h, from, message, jams, count) == S.Forward(h, from, message, jams, stop)
    decreases count
  {
    if stop < count {
      ForwardStops(h, from, message, jams, stop, count - 1);
    }
  }
}
