/** The in-memory hub as it runs: fields updated in place, one loop per loop of the original. The logs
    are ghost; everything else is what the hub holds. */
module LoopbackHubs {
  import opened Inboxes
  import L = Loopback

  class LoopbackHub {
    const peers: nat
    const star: bool
    const latency: nat
    const reorder: bool
    var pipes: map<L.Pair, L.Pipe>
    var boxes: map<L.Pair, Inbox>
    var polls: map<nat, nat>
    var lost: set<nat>
    var nextOrder: nat
    var stats: L.Stats
    ghost var sentLog: map<L.Pair, seq<L.Item>>
    ghost var handedLog: map<L.Pair, seq<L.Item>>
    ghost var relayed: seq<L.Item>
    ghost var discarded: nat

    ghost function State(): L.Hub
      reads this
    {
      L.Hub(peers, star, latency, reorder, pipes, boxes, polls, lost, nextOrder, stats,
            sentLog, handedLog, relayed, discarded)
    }

    constructor (peers: nat, star: bool, latency: nat, reorder: bool)
      ensures State() == L.Initial(peers, star, latency, reorder)
    {
      this.peers, this.star, this.latency, this.reorder := peers, star, latency, reorder;
      pipes, boxes, polls, lost := map[], map[], map[], {};
      nextOrder, stats := 0, L.Stats(0, 0, 0, 0, 0, 0, 0);
      sentLog, handedLog, relayed, discarded := map[], map[], [], 0;
    }

    method Enqueue(from: nat, to: nat, bytes: Message, origin: nat, everyone: bool)
      modifies this
      ensures State() == L.Enqueue(old(State()), from, to, bytes, origin, everyone)
    {
      hide L.Admit, L.Vanish, L.Corrupted;
      var pipe := L.Get(pipes, (from, to), L.Pipe([], L.Unarmed));
      var entry := L.Pending(bytes, L.Get(polls, to, 0) + latency, nextOrder, false, origin, everyone);
      var counted := stats.(sent := stats.sent + 1);
      if pipe.armed.Unarmed? {
        Admit(from, to, entry, counted);
        return;
      }
      match pipe.armed.fault {
        case Drop =>
          Vanish(from, to, counted.(dropped := counted.dropped + 1));
        case Corrupt =>
          if |bytes| > L.CORRUPTION_FLOOR {
            counted := counted.(corrupted := counted.corrupted + 1);
          }
          Admit(from, to, entry.(bytes := L.Corrupted(bytes)), counted);
        case Hold =>
          Admit(from, to, entry.(held := true), counted.(held := counted.held + 1));
      }
    }

    method Admit(from: nat, to: nat, p: L.Pending, counted: L.Stats)
      modifies this
      ensures State() == L.Admit(old(State()), from, to, p, counted)
    {
      var pipe := L.Get(pipes, (from, to), L.Pipe([], L.Unarmed));
      pipes := pipes[(from, to) := L.Pipe(pipe.inFlight + [p], L.Unarmed)];
      stats, nextOrder := counted, nextOrder + 1;
      sentLog := sentLog[(from, to) := L.Get(sentLog, (from, to), []) + [L.ItemOf(p)]];
    }

    method Vanish(from: nat, to: nat, counted: L.Stats)
      modifies this
      ensures State() == L.Vanish(old(State()), from, to, counted)
    {
      var pipe := L.Get(pipes, (from, to), L.Pipe([], L.Unarmed));
      pipes := pipes[(from, to) := L.Pipe(pipe.inFlight, L.Unarmed)];
      stats, nextOrder := counted, nextOrder + 1;
    }

    method Send(from: nat, to: nat, bytes: Message) returns (status: L.Status)
      modifies this
      ensures (State(), status) == L.Send(old(State()), from, to, bytes)
    {
      hide L.Enqueue;
      if from >= peers || to >= peers {
        return L.Failed(L.OutOfRange);
      }
      if from == to || (star && from != 0 && to != 0) {
        return L.Failed(L.InvalidArgument);
      }
      if to in lost {
        return L.Failed(L.Unavailable);
      }
      if from !in lost {
        Enqueue(from, to, bytes, from, false);
      }
      status := L.Ok;
    }

    method Broadcast(from: nat, bytes: Message) returns (status: L.Status)
      modifies this
      ensures (State(), status) == L.Broadcast(old(State()), from, bytes)
    {
      hide L.Enqueue, L.RelayTo, L.SendToEach;
      if !star {
        status := SendToEach(from, bytes);
        return;
      }
      if from >= peers {
        return L.Failed(L.OutOfRange);
      }
      status := L.Ok;
      if from in lost {
        return;
      }
      if from != 0 {
        Enqueue(from, 0, bytes, from, true);
      } else {
        Relay(0, bytes);
      }
    }

    method SendToEach(from: nat, bytes: Message) returns (status: L.Status)
      modifies this
      ensures (State(), status) == L.SendToEach(old(State()), from, bytes, 0)
    {
      hide L.Send;
      status := L.Ok;
      var peer := 0;
      while peer < peers
        invariant L.SendToEach(State(), from, bytes, peer) == L.SendToEach(old(State()), from, bytes, 0)
      {
        if peer != from {
          status := Send(from, peer, bytes);
          if !status.Ok? {
            return;
          }
        }
        peer := peer + 1;
      }
      status := L.Ok;
    }

    /** Peer zero to every live connector but the message's origin. */
    method Relay(origin: nat, bytes: Message)
      modifies this
      ensures State() == L.RelayTo(old(State()), origin, bytes, 1)
    {
      hide L.Enqueue;
      var to := 1;
      while to < peers
        invariant L.RelayTo(State(), origin, bytes, to) == L.RelayTo(old(State()), origin, bytes, 1)
      {
        if to != origin && to !in lost {
          Enqueue(0, to, bytes, origin, false);
        }
        to := to + 1;
      }
    }

    method Pump(peer: nat, draw: L.Draw)
      modifies this
      ensures State() == L.Pump(old(State()), peer, draw)
    {
      polls := polls[peer := L.Get(polls, peer, 0) + 1];
      if peer in lost {
        return;
      }
      PumpPipes(peer, draw);
    }

    method PumpPipes(peer: nat, draw: L.Draw)
      modifies this
      ensures State() == L.PumpPipes(old(State()), peer, peers, draw)
    {
      hide L.PumpPipe;
      var from := 0;
      while from < peers
        invariant from <= peers && State() == L.PumpPipes(old(State()), peer, from, draw)
      {
        if from != peer {
          PumpPipe(from, peer, draw);
        }
        from := from + 1;
      }
    }

    method PumpPipe(from: nat, peer: nat, draw: L.Draw)
      modifies this
      ensures State() == L.PumpPipe(old(State()), from, peer, draw)
    {
      hide L.TakeDue, L.DeliverOne;
      var batch := TakeDue(from, peer, draw);
      ghost var h := State();
      var i := 0;
      while i < |batch|
        invariant i <= |batch| && L.DeliverAll(State(), from, peer, batch[i..]) == L.DeliverAll(h, from, peer, batch)
      {
        assert batch[i..][1..] == batch[i + 1..];
        Deliver(from, peer, batch[i]);
        i := i + 1;
      }
    }

    /** One pass divides the pipe, and a shuffle, if there is one, sees the whole batch. */
    method TakeDue(from: nat, peer: nat, draw: L.Draw) returns (batch: seq<L.Pending>)
      modifies this
      ensures (State(), batch) == L.TakeDue(old(State()), from, peer, draw)
    {
      hide L.Due, L.Kept, L.Shuffle;
      var now := L.Get(polls, peer, 0);
      var pipe := L.Get(pipes, (from, peer), L.Pipe([], L.Unarmed));
      var kept;
      batch, kept := Split(pipe.inFlight, now);
      pipes := pipes[(from, peer) := pipe.(inFlight := kept)];
      if reorder && |batch| > 1 {
        var swaps;
        batch, swaps := Shuffle(batch, now, draw);
        stats := stats.(reordered := stats.reordered + swaps);
      }
    }

    static method Split(s: seq<L.Pending>, now: nat) returns (due: seq<L.Pending>, kept: seq<L.Pending>)
      ensures due == L.Due(s, now) && kept == L.Kept(s, now)
    {
      due, kept := [], [];
      var i := 0;
      while i < |s|
        invariant i <= |s|
        invariant due + L.Due(s[i..], now) == L.Due(s, now)
        invariant kept + L.Kept(s[i..], now) == L.Kept(s, now)
      {
        assert s[i..][1..] == s[i + 1..];
        if L.IsDue(s[i], now) {
          due := due + [s[i]];
        } else {
          kept := kept + [s[i]];
        }
        i := i + 1;
      }
    }

    static method Shuffle(batch: seq<L.Pending>, now: nat, draw: L.Draw)
        returns (shuffled: seq<L.Pending>, swaps: nat)
      ensures (shuffled, swaps) == L.Shuffle(batch, |batch|, now, draw)
    {
      hide L.Shuffle;
      shuffled, swaps := batch, 0;
      var i: nat := |batch|;
      ghost var whole := L.Shuffle(batch, |batch|, now, draw);
      while i > 1
        invariant i <= |batch| == |shuffled|
        invariant L.Shuffle(shuffled, i, now, draw).0 == whole.0
        invariant swaps + L.Shuffle(shuffled, i, now, draw).1 == whole.1
      {
        var moved;
        shuffled, moved := SwapOnce(shuffled, i, now, draw);
        swaps := swaps + moved;
        i := i - 1;
      }
      ShuffleDone(shuffled, i, now, draw);
    }

    static method SwapOnce(s: seq<L.Pending>, i: nat, now: nat, draw: L.Draw)
        returns (swapped: seq<L.Pending>, moved: nat)
      requires 1 < i <= |s|
      ensures |swapped| == |s|
      ensures L.Shuffle(s, i, now, draw).0 == L.Shuffle(swapped, i - 1, now, draw).0
      ensures L.Shuffle(s, i, now, draw).1 == L.Shuffle(swapped, i - 1, now, draw).1 + moved
    {
      ShuffleStep(s, i, now, draw);
      hide L.Shuffle;
      var j := draw(now, |s|, i) % i;
      if j != i - 1 {
        swapped, moved := s[i - 1 := s[j]][j := s[i - 1]], 1;
      } else {
        swapped, moved := s, 0;
      }
    }

    /** The copies for others go out first; the inbox's answer comes too late to stop them. */
    method Deliver(from: nat, peer: nat, p: L.Pending)
      modifies this
      ensures State() == L.DeliverOne(old(State()), from, peer, p)
    {
      hide L.RelayTo, Offer;
      if p.everyone && peer == 0 {
        relayed := relayed + [L.CopyOf(p)];
        Relay(p.origin, p.bytes);
      }
      var (box, ok) := Offer(L.Get(boxes, (peer, p.origin), EMPTY), p.bytes);
      boxes := boxes[(peer, p.origin) := box];
      stats := if ok then stats.(delivered := stats.delivered + 1) else stats.(refused := stats.refused + 1);
      handedLog := handedLog[(from, peer) := L.Get(handedLog, (from, peer), []) + [L.ItemOf(p)]];
    }

    method Lose(peer: nat) returns (status: L.Status)
      modifies this
      ensures (State(), status) == L.Lose(old(State()), peer)
    {
      if peer >= peers {
        return L.Failed(L.OutOfRange);
      }
      lost := lost + {peer};
      hide L.ClearPipe;
      ghost var h := State();
      var other := 0;
      while other < peers
        invariant other <= peers && State() == L.ClearPipes(h, peer, other)
      {
        if other != peer {
          Clear(peer, other);
          Clear(other, peer);
        }
        other := other + 1;
      }
      status := L.Ok;
    }

    method Clear(from: nat, to: nat)
      modifies this
      ensures State() == L.ClearPipe(old(State()), from, to)
    {
      var pipe := L.Get(pipes, (from, to), L.Pipe([], L.Unarmed));
      pipes := pipes[(from, to) := pipe.(inFlight := [])];
      discarded := discarded + |pipe.inFlight|;
    }

    method ArmFault(from: nat, to: nat, fault: L.Fault) returns (status: L.Status)
      modifies this
      ensures (State(), status) == L.ArmFault(old(State()), from, to, fault)
    {
      if from >= peers || to >= peers {
        return L.Failed(L.OutOfRange);
      }
      var pipe := L.Get(pipes, (from, to), L.Pipe([], L.Unarmed));
      pipes := pipes[(from, to) := pipe.(armed := L.Armed(fault))];
      status := L.Ok;
    }

    method ReleaseHeld()
      modifies this
      ensures State() == L.ReleaseHeld(old(State()))
    {
      pipes := map k | k in pipes :: pipes[k].(inFlight := L.Released(pipes[k].inFlight));
    }
  }

  lemma ShuffleStep(s: seq<L.Pending>, i: nat, now: nat, draw: L.Draw)
    requires 1 < i <= |s|
    ensures var j := draw(now, |s|, i) % i;
      && j < i
      && (j == i - 1 ==> L.Shuffle(s, i, now, draw) == L.Shuffle(s, i - 1, now, draw))
      && (j != i - 1 ==> var (rest, more) := L.Shuffle(s[i - 1 := s[j]][j := s[i - 1]], i - 1, now, draw);
            L.Shuffle(s, i, now, draw) == (rest, more + 1))
  {
  }

  lemma ShuffleDone(s: seq<L.Pending>, i: nat, now: nat, draw: L.Draw)
    requires i <= 1 && i <= |s|
    ensures L.Shuffle(s, i, now, draw) == (s, 0)
  {
  }
}
