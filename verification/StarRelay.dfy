/** The relay's promise on a star: what a connector is handed is a prefix of what the relay emitted to
    it, every forwarded message is one the relay took in itself, and survivors of a loss agree. Stated for
    links that neither reorder nor inject faults; latency, losses and interleaving are arbitrary. */
module StarRelay {
  import opened Inboxes
  import opened Loopback
  import opened Latency
  import opened Conservation

  // ---------------------------------------------------------------- selecting from a log

  /** The messages of a log whose origin is not excluded. */
  function Without(log: seq<Item>, excluded: set<nat>): seq<Item> {
    if log == [] then [] else
      Without(log[..|log| - 1], excluded) + (if log[|log| - 1].origin in excluded then [] else [log[|log| - 1]])
  }

  /** What one origin's messages in a log say. */
  function MessagesOf(log: seq<Item>, origin: nat): seq<Message> {
    if log == [] then [] else
      MessagesOf(log[..|log| - 1], origin) + (if log[|log| - 1].origin == origin then [log[|log| - 1].bytes] else [])
  }

  /** What one origin's messages for everyone in a log say. */
  function BroadcastsOf(log: seq<Item>, origin: nat): seq<Message> {
    if log == [] then [] else
      var x := log[|log| - 1];
      BroadcastsOf(log[..|log| - 1], origin) + (if x.origin == origin && x.everyone then [x.bytes] else [])
  }

  lemma WithoutOne(log: seq<Item>, x: Item, excluded: set<nat>)
    ensures Without(log + [x], excluded) == Without(log, excluded) + (if x.origin in excluded then [] else [x])
  {
    assert (log + [x])[..|log|] == log;
  }

  lemma MessagesOne(log: seq<Item>, x: Item, origin: nat)
    ensures MessagesOf(log + [x], origin)
      == MessagesOf(log, origin) + (if x.origin == origin then [x.bytes] else [])
  {
    assert (log + [x])[..|log|] == log;
  }

  lemma BroadcastsOne(log: seq<Item>, x: Item, origin: nat)
    ensures BroadcastsOf(log + [x], origin)
      == BroadcastsOf(log, origin) + (if x.origin == origin && x.everyone then [x.bytes] else [])
  {
    assert (log + [x])[..|log|] == log;
  }

  lemma {:induction false} WithoutPrefix(a: seq<Item>, b: seq<Item>, excluded: set<nat>)
    requires a <= b
    ensures Without(a, excluded) <= Without(b, excluded)
    decreases |b|
  {
    if a == b {
    } else {
      var c := b[..|b| - 1];
      assert b == c + [b[|b| - 1]];
      WithoutPrefix(a, c, excluded);
      WithoutOne(c, b[|b| - 1], excluded);
    }
  }

  lemma {:induction false} MessagesPrefix(a: seq<Item>, b: seq<Item>, origin: nat)
    requires a <= b
    ensures MessagesOf(a, origin) <= MessagesOf(b, origin)
    decreases |b|
  {
    if a == b {
    } else {
      var c := b[..|b| - 1];
      assert b == c + [b[|b| - 1]];
      MessagesPrefix(a, c, origin);
      MessagesOne(c, b[|b| - 1], origin);
    }
  }

  lemma {:induction false} WithoutTwice(log: seq<Item>, a: set<nat>, b: set<nat>)
    ensures Without(Without(log, a), b) == Without(log, a + b)
    decreases |log|
  {
    if log != [] {
      var rest, x := log[..|log| - 1], log[|log| - 1];
      WithoutTwice(rest, a, b);
      assert Without(rest, a) + [] == Without(rest, a) && Without(rest, a + b) + [] == Without(rest, a + b);
      if x.origin !in a {
        WithoutOne(Without(rest, a), x, b);
      }
    }
  }

  lemma {:induction false} MessagesWithout(log: seq<Item>, excluded: set<nat>, origin: nat)
    requires origin !in excluded
    ensures MessagesOf(Without(log, excluded), origin) == MessagesOf(log, origin)
    decreases |log|
  {
    if log != [] {
      var rest, x := log[..|log| - 1], log[|log| - 1];
      MessagesWithout(rest, excluded, origin);
      assert Without(rest, excluded) + [] == Without(rest, excluded);
      assert MessagesOf(rest, origin) + [] == MessagesOf(rest, origin);
      if x.origin !in excluded {
        MessagesOne(Without(rest, excluded), x, origin);
      }
    }
  }

  // ---------------------------------------------------------------- the invariant

  ghost predicate PlainStar(h: Hub) {
    h.star && !h.reorder && h.peers >= 2 && forall f: nat, t: nat :: PipeOf(h, f, t).armed.Unarmed?
  }

  /** Nothing held, and due in the order sent. */
  ghost predicate Settled(s: seq<Pending>, bound: nat) {
    && (forall i :: 0 <= i < |s| ==> !s[i].held && s[i].release <= bound)
    && (forall i, j :: 0 <= i < j < |s| ==> s[i].release <= s[j].release)
  }

  ghost predicate Calm(h: Hub) {
    forall f: nat, t: nat :: Settled(InFlight(h, f, t), PollsOf(h, t) + h.latency)
  }

  /** Connectors reach only the relay, in their own name; the relay never returns a message to its origin. */
  predicate LabelOk(peers: nat, f: nat, t: nat, p: Pending) {
    f < peers && t < peers &&
    if t == 0 then f != 0 && p.origin == f else f == 0 && !p.everyone && p.origin != t
  }

  ghost predicate Labelled(h: Hub) {
    forall f: nat, t: nat, p :: p in InFlight(h, f, t) ==> LabelOk(h.peers, f, t, p)
  }

  /** Out of each pipe, in order, what went in; `hand` is the batch just taken from pipe (hf, ht). */
  ghost predicate InOrder(h: Hub, hf: nat, ht: nat, hand: seq<Pending>) {
    forall f: nat, t: nat :: PipeInOrder(h, f, t, if (f, t) == (hf, ht) then hand else [])
  }

  ghost predicate PipeInOrder(h: Hub, f: nat, t: nat, hand: seq<Pending>) {
    var out := Handed(h, f, t) + Items(hand);
    out <= Sent(h, f, t) && (f in h.lost ==> InFlight(h, f, t) == []) &&
    (f !in h.lost && t !in h.lost ==> out + Items(InFlight(h, f, t)) == Sent(h, f, t))
  }

  /** The relay has emitted to each connector exactly the broadcasts it took in from others. */
  ghost predicate Forwards(h: Hub) {
    forall q: nat :: 0 < q < h.peers ==> ForwardedTo(h, q)
  }

  /** What it took in for others is exactly what it was handed for everyone, in that order. */
  ghost predicate TookIn(h: Hub) {
    && (forall x :: x in h.relayed ==> x.origin != 0)
    && forall q: nat :: MessagesOf(h.relayed, q) == BroadcastsOf(Handed(h, q, 0), q)
  }

  ghost predicate ForwardedTo(h: Hub, q: nat) {
    var emitted, others := Without(Sent(h, 0, q), {0}), Without(h.relayed, {q});
    emitted <= others && (q !in h.lost ==> emitted == others)
  }

  /** What was handed to `peer` that can be `origin`'s. */
  function HandedFrom(h: Hub, peer: nat, origin: nat): seq<Item> {
    if peer == 0 then Handed(h, origin, 0) else Handed(h, 0, peer)
  }

  ghost predicate Filed(h: Hub) {
    forall peer: nat, origin: nat :: FiledIn(h, peer, origin)
  }

  ghost predicate FiledIn(h: Hub, peer: nat, origin: nat) {
    var stream, handed := Stream(BoxOf(h, peer, origin)), MessagesOf(HandedFrom(h, peer, origin), origin);
    stream <= handed && (BoxOf(h, peer, origin).overflowed <==> stream != handed)
  }

  ghost predicate Good(h: Hub, hf: nat, ht: nat, hand: seq<Pending>) {
    && PlainStar(h) && Calm(h) && Labelled(h) && InOrder(h, hf, ht, hand)
    && Forwards(h) && TookIn(h) && Filed(h)
    && (forall p :: p in hand ==> LabelOk(h.peers, hf, ht, p))
  }

  // ---------------------------------------------------------------- one message in

  ghost predicate Links(h: Hub, hf: nat, ht: nat, hand: seq<Pending>) {
    PlainStar(h) && Calm(h) && Labelled(h) && InOrder(h, hf, ht, hand)
  }

  ghost predicate SameSides(h: Hub, g: Hub) {
    && g.handedLog == h.handedLog && g.boxes == h.boxes && g.relayed == h.relayed
    && g.lost == h.lost && g.peers == h.peers && g.polls == h.polls && g.latency == h.latency
  }

  /** The message as it goes in flight. */
  function Entry(h: Hub, to: nat, bytes: Message, origin: nat, everyone: bool): Pending {
    Pending(bytes, PollsOf(h, to) + h.latency, h.nextOrder, false, origin, everyone)
  }

  /** Between `h` and `g` one pipe gained one message at its end. */
  ghost predicate Gained(h: Hub, g: Hub, from: nat, to: nat, p: Pending) {
    && SameSides(h, g)
    && InFlight(g, from, to) == InFlight(h, from, to) + [p] && Sent(g, from, to) == Sent(h, from, to) + [ItemOf(p)]
    && (forall f: nat, t: nat :: (f, t) != (from, to) ==> InFlight(g, f, t) == InFlight(h, f, t))
    && (forall f: nat, t: nat :: (f, t) != (from, to) ==> Sent(g, f, t) == Sent(h, f, t))
  }

  lemma EnqueueGains(h: Hub, from: nat, to: nat, bytes: Message, origin: nat, everyone: bool)
    requires PlainStar(h)
    ensures var g := Enqueue(h, from, to, bytes, origin, everyone);
      PlainStar(g) && Gained(h, g, from, to, Entry(h, to, bytes, origin, everyone))
  {
    hide Corrupted, Vanish;
    assert PipeOf(h, from, to).armed.Unarmed?;
    var stats := h.stats.(sent := h.stats.sent + 1);
    var g := Admit(h, from, to, Entry(h, to, bytes, origin, everyone), stats);
    assert g == Enqueue(h, from, to, bytes, origin, everyone);
    hide Enqueue;
    forall f: nat, t: nat ensures PipeOf(g, f, t).armed.Unarmed? {
      assert PipeOf(h, f, t).armed.Unarmed?;
    }
  }

  lemma GainedCalm(h: Hub, g: Hub, from: nat, to: nat, p: Pending)
    requires Calm(h) && Gained(h, g, from, to, p) && !p.held && p.release == PollsOf(h, to) + h.latency
    ensures Calm(g)
  {
    forall f: nat, t: nat ensures Settled(InFlight(g, f, t), PollsOf(g, t) + g.latency) {
      assert Settled(InFlight(h, f, t), PollsOf(h, t) + h.latency);
    }
  }

  lemma GainedLabelled(h: Hub, g: Hub, from: nat, to: nat, p: Pending)
    requires Labelled(h) && Gained(h, g, from, to, p) && LabelOk(h.peers, from, to, p)
    ensures Labelled(g)
  {
    forall f: nat, t: nat, q | q in InFlight(g, f, t) ensures LabelOk(h.peers, f, t, q) {
      assert q in InFlight(h, f, t) || (q == p && (f, t) == (from, to));
    }
  }

  lemma GainedInOrder(h: Hub, g: Hub, from: nat, to: nat, p: Pending, hf: nat, ht: nat, hand: seq<Pending>)
    requires InOrder(h, hf, ht, hand) && Gained(h, g, from, to, p) && from !in h.lost
    ensures InOrder(g, hf, ht, hand)
  {
    forall f: nat, t: nat ensures PipeInOrder(g, f, t, if (f, t) == (hf, ht) then hand else []) {
      var held := if (f, t) == (hf, ht) then hand else [];
      assert PipeInOrder(h, f, t, held);
      if (f, t) == (from, to) {
        PipeGained(h, g, f, t, held, p);
      } else {
        PipeKept(h, g, f, t, held);
      }
    }
  }

  lemma PipeGained(h: Hub, g: Hub, f: nat, t: nat, hand: seq<Pending>, p: Pending)
    requires PipeInOrder(h, f, t, hand) && f !in h.lost && g.lost == h.lost && Handed(g, f, t) == Handed(h, f, t)
    requires Sent(g, f, t) == Sent(h, f, t) + [ItemOf(p)] && InFlight(g, f, t) == InFlight(h, f, t) + [p]
    ensures PipeInOrder(g, f, t, hand)
  {
    assert Items(InFlight(h, f, t) + [p]) == Items(InFlight(h, f, t)) + [ItemOf(p)];
    var out := Handed(h, f, t) + Items(hand);
    assert out + (Items(InFlight(h, f, t)) + [ItemOf(p)]) == out + Items(InFlight(h, f, t)) + [ItemOf(p)];
  }

  lemma EnqueueLinks(h: Hub, from: nat, to: nat, bytes: Message, origin: nat, everyone: bool,
                     hf: nat, ht: nat, hand: seq<Pending>)
    requires Links(h, hf, ht, hand) && from !in h.lost
    requires LabelOk(h.peers, from, to, Entry(h, to, bytes, origin, everyone))
    ensures var g := Enqueue(h, from, to, bytes, origin, everyone);
      Links(g, hf, ht, hand) && Gained(h, g, from, to, Entry(h, to, bytes, origin, everyone))
  {
    var g := Enqueue(h, from, to, bytes, origin, everyone);
    var p := Entry(h, to, bytes, origin, everyone);
    EnqueueGains(h, from, to, bytes, origin, everyone);
    hide Enqueue, PlainStar, Gained;
    GainedCalm(h, g, from, to, p);
    GainedLabelled(h, g, from, to, p);
    GainedInOrder(h, g, from, to, p, hf, ht, hand);
  }

  /** What the relay has emitted to a connector once a message for everyone else has been forwarded. */
  function Relayed(h: Hub, q: nat, x: Item): seq<Item> {
    if q == x.origin || q in h.lost then Sent(h, 0, q) else Sent(h, 0, q) + [x]
  }

  /** Forwarding emits one message to every live connector but its origin. */
  lemma {:induction false} RelayLinks(h: Hub, origin: nat, bytes: Message, to: nat,
                                      hf: nat, ht: nat, hand: seq<Pending>)
    requires Links(h, hf, ht, hand) && to >= 1 && 0 !in h.lost
    ensures var g := RelayTo(h, origin, bytes, to);
      && Links(g, hf, ht, hand) && SameSides(h, g)
      && (forall f: nat, t: nat :: f != 0 || t < to ==> Sent(g, f, t) == Sent(h, f, t))
      && (forall q: nat :: to <= q < h.peers ==> Sent(g, 0, q) == Relayed(h, q, Item(origin, bytes, false)))
    decreases h.peers - to
  {
    hide Links, Enqueue;
    if to < h.peers {
      if to == origin || to in h.lost {
        RelayLinks(h, origin, bytes, to + 1, hf, ht, hand);
      } else {
        EnqueueLinks(h, 0, to, bytes, origin, false, hf, ht, hand);
        RelayLinks(Enqueue(h, 0, to, bytes, origin, false), origin, bytes, to + 1, hf, ht, hand);
      }
    }
  }

  // ---------------------------------------------------------------- one message out

  lemma {:induction false} SettledSplits(s: seq<Pending>, bound: nat, now: nat)
    requires Settled(s, bound)
    ensures Due(s, now) + Kept(s, now) == s && Settled(Kept(s, now), bound)
    decreases |s|
  {
    if s != [] {
      if IsDue(s[0], now) {
        assert Settled(s[1..], bound);
        hide Settled;
        SettledSplits(s[1..], bound, now);
        FirstDue(s, now);
      } else {
        NoneDue(s, now);
      }
    }
  }

  lemma FirstDue(s: seq<Pending>, now: nat)
    requires s != [] && IsDue(s[0], now) && Due(s[1..], now) + Kept(s[1..], now) == s[1..]
    ensures Due(s, now) + Kept(s, now) == s && Kept(s, now) == Kept(s[1..], now)
  {
    var due, kept := Due(s[1..], now), Kept(s[1..], now);
    assert [s[0]] + due + kept == [s[0]] + (due + kept);
    assert [] + kept == kept;
  }

  lemma {:induction false} NoneDue(s: seq<Pending>, now: nat)
    requires forall i :: 0 <= i < |s| ==> !IsDue(s[i], now)
    ensures Due(s, now) == [] && Kept(s, now) == s
  {
    if s != [] {
      NoneDue(s[1..], now);
    }
  }

  lemma TakeGood(h: Hub, from: nat, peer: nat, draw: Draw)
    requires Good(h, from, peer, []) && peer !in h.lost
    ensures var (g, batch) := TakeDue(h, from, peer, draw);
      Good(g, from, peer, batch) && SameSides(h, g)
  {
    TakePlain(h, from, peer, draw);
    var (g, batch) := TakeDue(h, from, peer, draw);
    hide TakeDue, PlainStar;
    TakenSplits(h, g, from, peer, batch);
    hide Calm;
    TakenLabelled(h, g, from, peer, batch);
    TakenInOrder(h, g, from, peer, batch);
    hide InOrder, Labelled, SameSides, Forwards, TookIn, Filed;
    SidesKeepFiles(h, g);
  }

  lemma TakenSplits(h: Hub, g: Hub, from: nat, to: nat, batch: seq<Pending>)
    requires Calm(h) && TakenBy(h, g, from, to, batch)
    ensures Calm(g) && Taken(h, g, from, to, batch)
  {
    hide Due, Kept, Settled;
    forall f: nat, t: nat ensures Settled(InFlight(g, f, t), PollsOf(g, t) + g.latency) {
      assert Settled(InFlight(h, f, t), PollsOf(h, t) + h.latency);
      SettledSplits(InFlight(h, f, t), PollsOf(h, t) + h.latency, PollsOf(h, to));
    }
    assert Settled(InFlight(h, from, to), PollsOf(h, to) + h.latency);
    SettledSplits(InFlight(h, from, to), PollsOf(h, to) + h.latency, PollsOf(h, to));
  }

  ghost predicate TakenBy(h: Hub, g: Hub, from: nat, to: nat, batch: seq<Pending>) {
    && SameSides(h, g) && g.sentLog == h.sentLog
    && batch == Due(InFlight(h, from, to), PollsOf(h, to))
    && InFlight(g, from, to) == Kept(InFlight(h, from, to), PollsOf(h, to))
    && forall f: nat, t: nat :: (f, t) != (from, to) ==> InFlight(g, f, t) == InFlight(h, f, t)
  }

  /** Between `h` and `g` one pipe lost the messages at its front. */
  ghost predicate Taken(h: Hub, g: Hub, from: nat, to: nat, batch: seq<Pending>) {
    && SameSides(h, g) && g.sentLog == h.sentLog
    && InFlight(h, from, to) == batch + InFlight(g, from, to)
    && forall f: nat, t: nat :: (f, t) != (from, to) ==> InFlight(g, f, t) == InFlight(h, f, t)
  }

  lemma TakenLabelled(h: Hub, g: Hub, from: nat, to: nat, batch: seq<Pending>)
    requires Labelled(h) && Taken(h, g, from, to, batch)
    ensures Labelled(g) && forall p :: p in batch ==> LabelOk(h.peers, from, to, p)
  {
    forall f: nat, t: nat, p | p in InFlight(g, f, t) ensures LabelOk(h.peers, f, t, p) {
      assert p in InFlight(h, f, t);
    }
    forall p | p in batch ensures LabelOk(h.peers, from, to, p) {
      assert p in InFlight(h, from, to);
    }
  }

  lemma TakenInOrder(h: Hub, g: Hub, from: nat, to: nat, batch: seq<Pending>)
    requires InOrder(h, from, to, []) && Taken(h, g, from, to, batch) && to !in h.lost
    ensures InOrder(g, from, to, batch)
  {
    EveryPipe(h, from, to);
    hide InOrder;
    forall f: nat, t: nat ensures PipeInOrder(g, f, t, if (f, t) == (from, to) then batch else []) {
      if (f, t) == (from, to) {
        PipeTaken(h, g, f, t, batch);
      } else {
        PipeKept(h, g, f, t, []);
      }
    }
  }

  lemma PipeTaken(h: Hub, g: Hub, f: nat, t: nat, batch: seq<Pending>)
    requires PipeInOrder(h, f, t, []) && t !in h.lost && g.lost == h.lost && Sent(g, f, t) == Sent(h, f, t)
    requires Handed(g, f, t) == Handed(h, f, t) && InFlight(h, f, t) == batch + InFlight(g, f, t)
    ensures PipeInOrder(g, f, t, batch)
  {
    var rest := InFlight(g, f, t);
    assert Items(batch + rest) == Items(batch) + Items(rest);
    assert Handed(h, f, t) + Items([]) == Handed(h, f, t);
    assert Handed(h, f, t) + (Items(batch) + Items(rest)) == Handed(h, f, t) + Items(batch) + Items(rest);
    if f in h.lost {
      assert batch + rest == [] && Handed(h, f, t) + Items(batch) == Handed(h, f, t);
    }
  }

  lemma TakePlain(h: Hub, from: nat, peer: nat, draw: Draw)
    requires PlainStar(h)
    ensures var (g, batch) := TakeDue(h, from, peer, draw);
      PlainStar(g) && SameSides(h, g) && TakenBy(h, g, from, peer, batch)
  {
    hide Due, Kept, Shuffle;
    var (g, batch) := TakeDue(h, from, peer, draw);
    forall f: nat, t: nat ensures PipeOf(g, f, t).armed.Unarmed? {
      assert PipeOf(h, f, t).armed.Unarmed?;
    }
  }

  lemma SidesKeepFiles(h: Hub, g: Hub)
    requires SameSides(h, g) && Forwards(h) && TookIn(h) && Filed(h) && g.sentLog == h.sentLog
    ensures Forwards(g) && TookIn(g) && Filed(g)
  {
    hide Without, MessagesOf;
    forall q: nat | 0 < q < g.peers ensures ForwardedTo(g, q) {
      assert ForwardedTo(h, q);
    }
    forall peer: nat, origin: nat ensures FiledIn(g, peer, origin) {
      assert FiledIn(h, peer, origin);
    }
  }

  // ---------------------------------------------------------------- filing and forwarding

  lemma FileGood(h: Hub, g: Hub, from: nat, peer: nat, p: Pending, rest: seq<Pending>)
    requires Links(h, from, peer, [p] + rest) && Filed(h) && LabelOk(h.peers, from, peer, p)
    requires OneFiled(h, g, from, peer, p)
    ensures Links(g, from, peer, rest) && Filed(g)
  {
    FiledInOrder(h, g, from, peer, p, rest);
    hide InOrder;
    SamePipes(h, g);
    hide PlainStar, Calm, Labelled, LabelOk;
    forall a: nat, o: nat ensures FiledIn(g, a, o) {
      assert FiledIn(h, a, o);
      FiledOne(h, g, from, peer, p, a, o);
    }
  }

  lemma SamePipes(h: Hub, g: Hub)
    requires PlainStar(h) && Calm(h) && Labelled(h)
    requires g.pipes == h.pipes && g.polls == h.polls && g.peers == h.peers && g.latency == h.latency
    requires g.star == h.star && g.reorder == h.reorder
    ensures PlainStar(g) && Calm(g) && Labelled(g)
  {
    hide Settled, LabelOk;
    forall f: nat, t: nat ensures PipeOf(g, f, t).armed.Unarmed? && Settled(InFlight(g, f, t), PollsOf(g, t) + g.latency) {
      assert PipeOf(h, f, t).armed.Unarmed? && Settled(InFlight(h, f, t), PollsOf(h, t) + h.latency);
    }
    forall f: nat, t: nat, p | p in InFlight(g, f, t) ensures LabelOk(h.peers, f, t, p) {
      assert p in InFlight(h, f, t);
    }
  }

  ghost predicate OneFiled(h: Hub, g: Hub, from: nat, peer: nat, p: Pending) {
    && g.pipes == h.pipes && g.sentLog == h.sentLog && g.polls == h.polls && g.lost == h.lost
    && g.peers == h.peers && g.latency == h.latency && g.star == h.star && g.reorder == h.reorder
    && g.relayed == h.relayed
    && (forall f: nat, t: nat ::
          Handed(g, f, t) == if (f, t) == (from, peer) then Handed(h, f, t) + [ItemOf(p)] else Handed(h, f, t))
    && (forall a: nat, o: nat ::
          BoxOf(g, a, o) == if (a, o) == (peer, p.origin) then Offer(BoxOf(h, a, o), p.bytes).0 else BoxOf(h, a, o))
  }

  lemma FileLogs(h: Hub, from: nat, peer: nat, p: Pending)
    ensures OneFiled(h, File(h, from, peer, p), from, peer, p)
  {
    hide Offer;
  }

  lemma FiledInOrder(h: Hub, g: Hub, from: nat, peer: nat, p: Pending, rest: seq<Pending>)
    requires InOrder(h, from, peer, [p] + rest) && OneFiled(h, g, from, peer, p)
    ensures InOrder(g, from, peer, rest)
  {
    forall f: nat, t: nat ensures PipeInOrder(g, f, t, if (f, t) == (from, peer) then rest else []) {
      assert PipeInOrder(h, f, t, if (f, t) == (from, peer) then [p] + rest else []);
      if (f, t) == (from, peer) {
        PipeFiled(h, g, f, t, p, rest);
      } else {
        PipeKept(h, g, f, t, []);
      }
    }
  }

  lemma PipeFiled(h: Hub, g: Hub, f: nat, t: nat, p: Pending, rest: seq<Pending>)
    requires PipeInOrder(h, f, t, [p] + rest) && Handed(g, f, t) == Handed(h, f, t) + [ItemOf(p)]
    requires g.lost == h.lost && Sent(g, f, t) == Sent(h, f, t) && InFlight(g, f, t) == InFlight(h, f, t)
    ensures PipeInOrder(g, f, t, rest)
  {
    assert Items([p] + rest) == [ItemOf(p)] + Items(rest);
    assert Handed(h, f, t) + [ItemOf(p)] + Items(rest) == Handed(h, f, t) + Items([p] + rest);
  }

  lemma PipeKept(h: Hub, g: Hub, f: nat, t: nat, hand: seq<Pending>)
    requires PipeInOrder(h, f, t, hand) && Handed(g, f, t) == Handed(h, f, t)
    requires g.lost == h.lost && Sent(g, f, t) == Sent(h, f, t) && InFlight(g, f, t) == InFlight(h, f, t)
    ensures PipeInOrder(g, f, t, hand)
  {
  }

  lemma FiledOne(h: Hub, g: Hub, from: nat, peer: nat, p: Pending, a: nat, o: nat)
    requires FiledIn(h, a, o) && OneFiled(h, g, from, peer, p) && LabelOk(h.peers, from, peer, p)
    ensures FiledIn(g, a, o)
  {
    var was := HandedFrom(h, a, o);
    var now := HandedFrom(g, a, o);
    MessagesOne(was, ItemOf(p), o);
    hide MessagesOf;
    var here := if a == 0 then (o, 0) == (from, peer) else (0, a) == (from, peer);
    assert now == if here then was + [ItemOf(p)] else was;
    assert (a, o) == (peer, p.origin) ==> here;
    assert here && o == p.origin ==> (a, o) == (peer, p.origin);
    assert MessagesOf(was, o) + [] == MessagesOf(was, o);
    OfferStream(BoxOf(h, a, o), p.bytes);
  }

  lemma OfferStream(box: Inbox, m: Message)
    ensures var (after, ok) := Offer(box, m);
      && Stream(after) == (if ok then Stream(box) + [m] else Stream(box))
      && ok == !after.overflowed && (box.overflowed ==> !ok)
  {
  }

  lemma SameLinks(h: Hub, g: Hub, hf: nat, ht: nat, hand: seq<Pending>)
    requires Links(h, hf, ht, hand) && g == h.(relayed := g.relayed, boxes := g.boxes)
    ensures Links(g, hf, ht, hand)
  {
    SamePipes(h, g);
    hide PlainStar, Calm, Labelled;
    forall f: nat, t: nat ensures PipeInOrder(g, f, t, if (f, t) == (hf, ht) then hand else []) {
      assert PipeInOrder(h, f, t, if (f, t) == (hf, ht) then hand else []);
      PipeKept(h, g, f, t, if (f, t) == (hf, ht) then hand else []);
    }
  }

  lemma SameFiled(h: Hub, g: Hub)
    requires Filed(h) && g.handedLog == h.handedLog && g.boxes == h.boxes
    ensures Filed(g)
  {
    hide MessagesOf;
    forall a: nat, o: nat ensures FiledIn(g, a, o) {
      assert FiledIn(h, a, o);
    }
  }

  lemma RelayForwards(h: Hub, g: Hub, x: Item)
    requires Forwards(h) && x.origin != 0 && g.relayed == h.relayed + [x] && g.lost == h.lost && g.peers == h.peers
    requires forall q: nat :: 0 < q < h.peers ==> Sent(g, 0, q) == Relayed(h, q, x)
    ensures Forwards(g)
  {
    hide Without, Relayed;
    forall q: nat | 0 < q < g.peers ensures ForwardedTo(g, q) {
      assert Sent(g, 0, q) == Relayed(h, q, x);
      RelayForwardsTo(h, g, q, x);
    }
  }

  lemma RelayForwardsTo(h: Hub, g: Hub, q: nat, x: Item)
    requires ForwardedTo(h, q) && x.origin != 0 && g.relayed == h.relayed + [x] && g.lost == h.lost
    requires Sent(g, 0, q) == Relayed(h, q, x)
    ensures ForwardedTo(g, q)
  {
    WithoutOne(h.relayed, x, {q});
    WithoutOne(Sent(h, 0, q), x, {0});
    hide Without;
    assert Without(h.relayed, {q}) + [] == Without(h.relayed, {q});
  }

  lemma SameForwards(h: Hub, g: Hub)
    requires Forwards(h) && g.sentLog == h.sentLog && g.relayed == h.relayed && g.lost == h.lost && g.peers == h.peers
    ensures Forwards(g)
  {
    hide Without;
    forall q: nat | 0 < q < g.peers ensures ForwardedTo(g, q) {
      assert ForwardedTo(h, q);
    }
  }

  lemma FileTookIn(h: Hub, g: Hub, from: nat, peer: nat, p: Pending)
    requires OneFiled(h, g, from, peer, p)
    requires TakingIn(h, from, peer, p)
    ensures TookIn(g)
  {
    hide MessagesOf, BroadcastsOf;
    forall q: nat ensures MessagesOf(g.relayed, q) == BroadcastsOf(Handed(g, q, 0), q) {
      assert Handed(g, q, 0) == WithHand(h, from, peer, p, q);
    }
  }

  /** What peer zero has been handed by `q`, the message about to be filed counted as filed. */
  ghost function WithHand(h: Hub, from: nat, peer: nat, p: Pending, q: nat): seq<Item> {
    if (from, peer) == (q, 0) then Handed(h, q, 0) + [ItemOf(p)] else Handed(h, q, 0)
  }

  /** As `TookIn`, with the message about to be filed counted as filed. */
  ghost predicate TakingIn(h: Hub, from: nat, peer: nat, p: Pending) {
    && (forall x :: x in h.relayed ==> x.origin != 0)
    && forall q: nat :: MessagesOf(h.relayed, q) == BroadcastsOf(WithHand(h, from, peer, p, q), q)
  }

  lemma ForwardTookIn(h: Hub, g: Hub, from: nat, peer: nat, p: Pending)
    requires TookIn(h) && g.handedLog == h.handedLog && LabelOk(h.peers, from, peer, p)
    requires g.relayed == if p.everyone && peer == 0 then h.relayed + [CopyOf(p)] else h.relayed
    ensures TakingIn(g, from, peer, p)
  {
    assert p.everyone && peer == 0 ==> p.origin != 0;
    hide MessagesOf, BroadcastsOf, WithHand, LabelOk;
    forall q: nat ensures MessagesOf(g.relayed, q) == BroadcastsOf(WithHand(g, from, peer, p, q), q) {
      ForwardTookInFrom(h, g, from, peer, p, q);
    }
  }

  lemma ForwardTookInFrom(h: Hub, g: Hub, from: nat, peer: nat, p: Pending, q: nat)
    requires MessagesOf(h.relayed, q) == BroadcastsOf(Handed(h, q, 0), q)
    requires g.handedLog == h.handedLog && LabelOk(h.peers, from, peer, p)
    requires g.relayed == if p.everyone && peer == 0 then h.relayed + [CopyOf(p)] else h.relayed
    ensures MessagesOf(g.relayed, q) == BroadcastsOf(WithHand(g, from, peer, p, q), q)
  {
    StillTaken(h.relayed, Handed(h, q, 0), p, q);
    hide MessagesOf, BroadcastsOf;
    assert Handed(g, q, 0) == Handed(h, q, 0);
  }

  lemma StillTaken(relayed: seq<Item>, handed: seq<Item>, p: Pending, q: nat)
    requires MessagesOf(relayed, q) == BroadcastsOf(handed, q)
    ensures p.everyone ==>
      MessagesOf(relayed + [CopyOf(p)], q) == BroadcastsOf(if p.origin == q then handed + [ItemOf(p)] else handed, q)
    ensures !p.everyone ==> BroadcastsOf(handed + [ItemOf(p)], q) == BroadcastsOf(handed, q)
  {
    MessagesOne(relayed, CopyOf(p), q);
    BroadcastsOne(handed, ItemOf(p), q);
    hide MessagesOf, BroadcastsOf;
    var taken := MessagesOf(relayed, q);
    assert taken + [] == taken;
  }

  /** The relay's forwarding of one message, before it files it. */
  function Forward(h: Hub, peer: nat, p: Pending): Hub {
    if p.everyone && peer == 0 then RelayTo(h.(relayed := h.relayed + [CopyOf(p)]), p.origin, p.bytes, 1) else h
  }

  lemma ForwardGood(h: Hub, from: nat, peer: nat, p: Pending, hand: seq<Pending>)
    requires Links(h, from, peer, hand) && Forwards(h) && Filed(h) && LabelOk(h.peers, from, peer, p) && peer !in h.lost
    ensures var g := Forward(h, peer, p);
      && Links(g, from, peer, hand) && Forwards(g) && Filed(g)
      && g.handedLog == h.handedLog && g.lost == h.lost && g.peers == h.peers && g.polls == h.polls
      && g.relayed == (if p.everyone && peer == 0 then h.relayed + [CopyOf(p)] else h.relayed)
  {
    if p.everyone && peer == 0 {
      var x := CopyOf(p);
      var h1 := h.(relayed := h.relayed + [x]);
      SameLinks(h, h1, from, peer, hand);
      hide Links, Forwards, Filed, RelayTo, Relayed;
      RelayLinks(h1, p.origin, p.bytes, 1, from, peer, hand);
      var g := RelayTo(h1, p.origin, p.bytes, 1);
      SameRelayed(h, h1, x);
      RelayForwards(h, g, x);
      SameFiled(h, g);
    }
  }

  lemma SameRelayed(h: Hub, g: Hub, x: Item)
    requires g.sentLog == h.sentLog && g.lost == h.lost
    ensures forall q: nat :: Relayed(g, q, x) == Relayed(h, q, x)
  {
  }

  lemma DeliverOneGood(h: Hub, from: nat, peer: nat, p: Pending, rest: seq<Pending>)
    requires Good(h, from, peer, [p] + rest) && peer !in h.lost
    ensures var g := DeliverOne(h, from, peer, p);
      Good(g, from, peer, rest) && g.lost == h.lost && g.peers == h.peers && g.polls == h.polls
  {
    assert p in [p] + rest && forall q :: q in rest ==> q in [p] + rest;
    assert LabelOk(h.peers, from, peer, p);
    ForwardGood(h, from, peer, p, [p] + rest);
    var h2 := Forward(h, peer, p);
    var g := File(h2, from, peer, p);
    assert g == DeliverOne(h, from, peer, p);
    FileLogs(h2, from, peer, p);
    ForwardTookIn(h, h2, from, peer, p);
    hide TookIn;
    hide DeliverOne, File, Forward, InOrder, PlainStar, Calm, Labelled, Forwards, Filed, LabelOk;
    FileTookIn(h2, g, from, peer, p);
    hide TakingIn;
    FileGood(h2, g, from, peer, p, rest);
    SameForwards(h2, g);
  }

  lemma {:induction false} DeliverAllGood(h: Hub, from: nat, peer: nat, batch: seq<Pending>)
    requires Good(h, from, peer, batch) && peer !in h.lost
    ensures var g := DeliverAll(h, from, peer, batch);
      Good(g, from, peer, []) && g.lost == h.lost && g.peers == h.peers && g.polls == h.polls
    decreases |batch|
  {
    hide Good, DeliverOne;
    if batch != [] {
      assert batch == [batch[0]] + batch[1..];
      DeliverOneGood(h, from, peer, batch[0], batch[1..]);
      DeliverAllGood(DeliverOne(h, from, peer, batch[0]), from, peer, batch[1..]);
    }
  }

  /** With nothing in hand it does not matter which pipe it would be from. */
  lemma EmptyHand(h: Hub, hf: nat, ht: nat, f: nat, t: nat)
    requires Good(h, hf, ht, [])
    ensures Good(h, f, t, [])
  {
    EveryPipe(h, hf, ht);
    hide PlainStar, Calm, Labelled, Forwards, TookIn, Filed;
    EveryPipeInOrder(h, f, t);
    hide InOrder;
  }

  lemma EveryPipe(h: Hub, hf: nat, ht: nat)
    requires InOrder(h, hf, ht, [])
    ensures forall a: nat, b: nat :: PipeInOrder(h, a, b, [])
  {
    hide PipeInOrder;
    forall a: nat, b: nat ensures PipeInOrder(h, a, b, []) {
      var hand: seq<Pending> := if (a, b) == (hf, ht) then [] else [];
      assert hand == [] && PipeInOrder(h, a, b, hand);
    }
  }

  lemma EveryPipeInOrder(h: Hub, hf: nat, ht: nat)
    requires forall a: nat, b: nat :: PipeInOrder(h, a, b, [])
    ensures InOrder(h, hf, ht, [])
  {
    hide PipeInOrder;
    forall a: nat, b: nat ensures PipeInOrder(h, a, b, if (a, b) == (hf, ht) then [] else []) {
      var hand: seq<Pending> := if (a, b) == (hf, ht) then [] else [];
      assert hand == [] && PipeInOrder(h, a, b, hand);
    }
  }

  lemma {:induction false} PumpPipesGood(h: Hub, peer: nat, count: nat, draw: Draw)
    requires Good(h, 0, 0, []) && peer !in h.lost
    ensures var g := PumpPipes(h, peer, count, draw);
      Good(g, 0, 0, []) && g.lost == h.lost && g.peers == h.peers
    decreases count
  {
    hide Good, TakeDue, DeliverAll;
    if count > 0 {
      PumpPipesGood(h, peer, count - 1, draw);
      var h1 := PumpPipes(h, peer, count - 1, draw);
      if count - 1 != peer {
        EmptyHand(h1, 0, 0, count - 1, peer);
        TakeGood(h1, count - 1, peer, draw);
        var (h2, batch) := TakeDue(h1, count - 1, peer, draw);
        DeliverAllGood(h2, count - 1, peer, batch);
        EmptyHand(DeliverAll(h2, count - 1, peer, batch), count - 1, peer, 0, 0);
      }
    }
  }

  // ---------------------------------------------------------------- every operation

  ghost predicate Holds(h: Hub) { Good(h, 0, 0, []) }

  lemma PolledHolds(h: Hub, peer: nat)
    requires Holds(h)
    ensures Holds(Polled(h, peer))
  {
    var g := Polled(h, peer);
    assert Calm(g) by {
      forall f: nat, t: nat ensures Settled(InFlight(g, f, t), PollsOf(g, t) + g.latency) {
        assert Settled(InFlight(h, f, t), PollsOf(h, t) + h.latency);
      }
    }
    hide Calm, Settled;
    SidesHold(h, g);
  }

  /** What is left once the clocks are set aside. */
  lemma SidesHold(h: Hub, g: Hub)
    requires Holds(h) && Calm(g) && g == h.(polls := g.polls)
    ensures Holds(g)
  {
    hide Calm;
    SameFiled(h, g);
    SameForwards(h, g);
    hide Filed, Forwards, LabelOk;
    forall f: nat, t: nat ensures PipeOf(g, f, t).armed.Unarmed? {
      assert PipeOf(h, f, t).armed.Unarmed?;
    }
    EveryPipe(h, 0, 0);
    forall f: nat, t: nat ensures PipeInOrder(g, f, t, []) {
      PipeKept(h, g, f, t, []);
    }
    hide PipeInOrder;
    EveryPipeInOrder(g, 0, 0);
    forall f: nat, t: nat, p | p in InFlight(g, f, t) ensures LabelOk(g.peers, f, t, p) {
      assert p in InFlight(h, f, t);
    }
  }

  lemma PumpHolds(h: Hub, peer: nat, draw: Draw)
    requires Holds(h)
    ensures Holds(Pump(h, peer, draw)) && Pump(h, peer, draw).peers == h.peers
  {
    PolledHolds(h, peer);
    hide Good, PumpPipes;
    if peer !in h.lost {
      PumpPipesGood(Polled(h, peer), peer, h.peers, draw);
    }
  }

  lemma EnqueueHolds(h: Hub, from: nat, to: nat, bytes: Message, everyone: bool)
    requires Holds(h) && from !in h.lost && LabelOk(h.peers, from, to, Entry(h, to, bytes, from, everyone))
    ensures var g := Enqueue(h, from, to, bytes, from, everyone);
      Holds(g) && g.peers == h.peers
  {
    EnqueueLinks(h, from, to, bytes, from, everyone, 0, 0, []);
    var g := Enqueue(h, from, to, bytes, from, everyone);
    hide Enqueue, InOrder, PlainStar, Calm, Labelled;
    SameFiled(h, g);
    OwnForwards(h, g, Item(from, bytes, everyone), from, to);
  }

  /** A message of the relay's own, or one to the relay, is not a forwarded one. */
  lemma OwnForwards(h: Hub, g: Hub, x: Item, from: nat, to: nat)
    requires Forwards(h) && g.relayed == h.relayed && g.lost == h.lost && g.peers == h.peers
    requires forall q: nat :: Sent(g, 0, q) == Sent(h, 0, q) || (x.origin == 0 && Sent(g, 0, q) == Sent(h, 0, q) + [x])
    ensures Forwards(g)
  {
    forall q: nat | 0 < q < g.peers ensures ForwardedTo(g, q) {
      assert ForwardedTo(h, q);
      WithoutOne(Sent(h, 0, q), x, {0});
      hide Without;
      assert Without(Sent(h, 0, q), {0}) + [] == Without(Sent(h, 0, q), {0});
    }
  }

  lemma BroadcastHolds(h: Hub, from: nat, bytes: Message)
    requires Holds(h)
    ensures Holds(Broadcast(h, from, bytes).0) && Broadcast(h, from, bytes).0.peers == h.peers
  {
    if from < h.peers && from !in h.lost {
      if from != 0 {
        EnqueueHolds(h, from, 0, bytes, true);
      } else {
        RelayLinks(h, 0, bytes, 1, 0, 0, []);
        var g := RelayTo(h, 0, bytes, 1);
        hide RelayTo, InOrder, PlainStar, Calm, Labelled;
        SameFiled(h, g);
        RelayOwn(h, g, Item(0, bytes, false));
      }
    }
  }

  lemma RelayOwn(h: Hub, g: Hub, x: Item)
    requires Forwards(h) && g.relayed == h.relayed && g.lost == h.lost && g.peers == h.peers && x.origin == 0
    requires forall q: nat :: 1 <= q < h.peers ==> Sent(g, 0, q) == Relayed(h, q, x)
    ensures Forwards(g)
  {
    hide Without, Relayed;
    forall q: nat | 0 < q < g.peers ensures ForwardedTo(g, q) {
      assert Sent(g, 0, q) == Relayed(h, q, x);
      RelayOwnTo(h, g, q, x);
    }
  }

  lemma RelayOwnTo(h: Hub, g: Hub, q: nat, x: Item)
    requires ForwardedTo(h, q) && g.relayed == h.relayed && g.lost == h.lost && x.origin == 0
    requires Sent(g, 0, q) == Relayed(h, q, x)
    ensures ForwardedTo(g, q)
  {
    WithoutOne(Sent(h, 0, q), x, {0});
    hide Without;
    assert Without(Sent(h, 0, q), {0}) + [] == Without(Sent(h, 0, q), {0});
  }

  // ---------------------------------------------------------------- losing a peer

  lemma {:induction false} ClearPipesClear(h: Hub, peer: nat, count: nat, f: nat, t: nat)
    ensures var g := ClearPipes(h, peer, count);
      && PipeOf(g, f, t).armed == PipeOf(h, f, t).armed
      && g == h.(pipes := g.pipes, discarded := g.discarded)
      && InFlight(g, f, t) == if (f == peer && t < count && t != peer) || (t == peer && f < count && f != peer)
                              then [] else InFlight(h, f, t)
    decreases count
  {
    hide ClearPipe, PipeOf, InFlight;
    if count > 0 {
      ClearPipesClear(h, peer, count - 1, f, t);
      var h1, other := ClearPipes(h, peer, count - 1), count - 1;
      if other != peer {
        ClearPipeClears(h1, peer, other, f, t);
        ClearPipeClears(ClearPipe(h1, peer, other), other, peer, f, t);
      }
    }
  }

  lemma ClearPipeClears(h: Hub, from: nat, to: nat, f: nat, t: nat)
    ensures var g := ClearPipe(h, from, to);
      && PipeOf(g, f, t).armed == PipeOf(h, f, t).armed
      && g == h.(pipes := g.pipes, discarded := g.discarded)
      && InFlight(g, f, t) == if (f, t) == (from, to) then [] else InFlight(h, f, t)
  {
  }

  lemma LoseHolds(h: Hub, peer: nat)
    requires Holds(h)
    ensures Holds(Lose(h, peer).0) && Lose(h, peer).0.peers == h.peers
  {
    if peer < h.peers {
      var h1 := h.(lost := h.lost + {peer});
      var g := Lose(h, peer).0;
      ClearPipesClear(h1, peer, h.peers, 0, 0);
      forall f: nat, t: nat
        ensures PipeOf(g, f, t).armed == PipeOf(h, f, t).armed
        ensures InFlight(g, f, t) == if f == peer || t == peer then [] else InFlight(h, f, t)
      {
        ClearPipesClear(h1, peer, h.peers, f, t);
        AbsentPipe(h, f, t);
      }
      hide Lose, Holds;
      Cleared(h, g, peer);
    }
  }

  /** Only pipes between the relay and a connector ever hold anything. */
  lemma AbsentPipe(h: Hub, f: nat, t: nat)
    requires Labelled(h)
    ensures f >= h.peers || t >= h.peers || f == t ==> InFlight(h, f, t) == []
  {
    HeadIsIn(InFlight(h, f, t));
  }

  lemma HeadIsIn(s: seq<Pending>)
    ensures s == [] || s[0] in s
  {
  }

  lemma Cleared(h: Hub, g: Hub, peer: nat)
    requires Holds(h) && g == h.(lost := h.lost + {peer}, pipes := g.pipes, discarded := g.discarded)
    requires forall f: nat, t: nat :: PipeOf(g, f, t).armed == PipeOf(h, f, t).armed
    requires forall f: nat, t: nat ::
      InFlight(g, f, t) == if f == peer || t == peer then [] else InFlight(h, f, t)
    ensures Holds(g)
  {
    hide Filed, Forwards, Labelled, Calm, PlainStar;
    SameFiled(h, g);
    ClearedForwards(h, g, peer);
    ClearedPipes(h, g, peer);
    EveryPipe(h, 0, 0);
    hide InOrder;
    forall f: nat, t: nat ensures PipeInOrder(g, f, t, []) {
      ClearedPipe(h, g, peer, f, t);
    }
    hide PipeInOrder;
    EveryPipeInOrder(g, 0, 0);
  }

  lemma ClearedPipe(h: Hub, g: Hub, peer: nat, f: nat, t: nat)
    requires PipeInOrder(h, f, t, []) && g.lost == h.lost + {peer}
    requires g.sentLog == h.sentLog && g.handedLog == h.handedLog
    requires InFlight(g, f, t) == if f == peer || t == peer then [] else InFlight(h, f, t)
    ensures PipeInOrder(g, f, t, [])
  {
  }

  lemma ClearedForwards(h: Hub, g: Hub, peer: nat)
    requires Forwards(h) && g.relayed == h.relayed && g.sentLog == h.sentLog && g.peers == h.peers && h.lost <= g.lost
    ensures Forwards(g)
  {
    hide Without;
    forall q: nat | 0 < q < g.peers ensures ForwardedTo(g, q) {
      assert ForwardedTo(h, q);
    }
  }

  lemma ClearedPipes(h: Hub, g: Hub, peer: nat)
    requires PlainStar(h) && Calm(h) && Labelled(h)
    requires g == h.(lost := h.lost + {peer}, pipes := g.pipes, discarded := g.discarded)
    requires forall f: nat, t: nat :: PipeOf(g, f, t).armed == PipeOf(h, f, t).armed
    requires forall f: nat, t: nat ::
      InFlight(g, f, t) == if f == peer || t == peer then [] else InFlight(h, f, t)
    ensures PlainStar(g) && Calm(g) && Labelled(g)
  {
    hide LabelOk;
    forall f: nat, t: nat ensures PipeOf(g, f, t).armed.Unarmed? {
      assert PipeOf(h, f, t).armed.Unarmed?;
    }
    forall f: nat, t: nat ensures Settled(InFlight(g, f, t), PollsOf(g, t) + g.latency) {
      assert Settled(InFlight(h, f, t), PollsOf(h, t) + h.latency);
    }
    forall f: nat, t: nat, p | p in InFlight(g, f, t) ensures LabelOk(g.peers, f, t, p) {
      assert p in InFlight(h, f, t);
    }
  }

  lemma ReleaseHolds(h: Hub)
    requires Holds(h)
    ensures Holds(ReleaseHeld(h))
  {
    var g := ReleaseHeld(h);
    forall k | k in h.pipes ensures g.pipes[k] == h.pipes[k] {
      var s := InFlight(h, k.0, k.1);
      assert Settled(s, PollsOf(h, k.1) + h.latency);
      assert h.pipes[k] == PipeOf(h, k.0, k.1) && Released(s) == s;
    }
    assert g.pipes == h.pipes && g == h;
  }

  lemma DrainHolds(h: Hub, peer: nat, origin: nat)
    requires Holds(h)
    ensures Holds(DrainBox(h, peer, origin))
  {
    hide MessagesOf, BroadcastsOf, Settled, LabelOk, PipeInOrder, ForwardedTo;
    var g := DrainBox(h, peer, origin);
    SameLinks(h, g, 0, 0, []);
    SameForwards(h, g);
    hide Links, Forwards, InOrder, PlainStar, Calm, Labelled;
    forall a: nat, o: nat ensures FiledIn(g, a, o) {
      assert FiledIn(h, a, o);
      DrainKeeps(h, peer, origin, a, o);
    }
  }

  lemma DrainKeeps(h: Hub, peer: nat, origin: nat, a: nat, o: nat)
    ensures var g := DrainBox(h, peer, origin);
      && Stream(BoxOf(g, a, o)) == Stream(BoxOf(h, a, o))
      && BoxOf(g, a, o).overflowed == BoxOf(h, a, o).overflowed
  {
  }

  /** Faults are what the relay's promise does not survive; everything else it does. */
  predicate Faultless(ops: seq<Operation>, peers: nat) {
    forall i :: 0 <= i < |ops| ==> !ops[i].DoArm? && Sensible(ops[i], peers)
  }

  lemma StarOf(h: Hub)
    requires Holds(h)
    ensures h.star
  {
  }

  lemma StepHolds(h: Hub, op: Operation, draw: Draw)
    requires Holds(h) && !op.DoArm? && Sensible(op, h.peers)
    ensures Holds(Step(h, op, draw)) && Step(h, op, draw).peers == h.peers
  {
    StarOf(h);
    hide Holds, Broadcast, Pump, Lose, ReleaseHeld, DrainBox, Enqueue;
    match op
    case DoSend(from, to, bytes) =>
      if from < h.peers && to < h.peers && from != to && (from == 0 || to == 0) && to !in h.lost && from !in h.lost {
        EnqueueHolds(h, from, to, bytes, false);
      }
    case DoBroadcast(from, bytes) => BroadcastHolds(h, from, bytes);
    case DoPump(peer) => PumpHolds(h, peer, draw);
    case DoLose(peer) => LoseHolds(h, peer);
    case DoRelease => ReleaseHolds(h);
    case DoDrain(peer, origin) => DrainHolds(h, peer, origin);
  }

  lemma {:induction false} RunHolds(h: Hub, ops: seq<Operation>, draw: Draw)
    requires Holds(h) && Faultless(ops, h.peers)
    ensures Holds(Run(h, ops, draw)) && Run(h, ops, draw).peers == h.peers
    decreases |ops|
  {
    hide Holds, Step;
    if ops != [] {
      StepHolds(h, ops[0], draw);
      RunHolds(Step(h, ops[0], draw), ops[1..], draw);
    }
  }

  lemma InitialHolds(peers: nat, latency: nat)
    requires peers >= 2
    ensures Holds(Loopback.Initial(peers, true, latency, false))
  {
    var h := Loopback.Initial(peers, true, latency, false);
    forall f: nat, t: nat ensures PipeInOrder(h, f, t, []) {
    }
    EveryPipeInOrder(h, 0, 0);
    hide PipeInOrder, InOrder;
    assert Calm(h) && PlainStar(h) && Labelled(h);
    hide Settled, Calm, PlainStar, Labelled;
    forall a: nat, o: nat ensures FiledIn(h, a, o) {
      assert HandedFrom(h, a, o) == [];
    }
  }

  // ---------------------------------------------------------------- the promises

  ghost predicate Reachable(h: Hub, peers: nat, latency: nat, ops: seq<Operation>, draw: Draw) {
    peers >= 2 && Faultless(ops, peers) && h == Run(Loopback.Initial(peers, true, latency, false), ops, draw)
  }

  /** What a connector has been handed is at every moment a prefix of what the relay emitted to it; a
      live one is owed only what is still in its pipe. */
  lemma HandedIsPrefix(h: Hub, peers: nat, latency: nat, ops: seq<Operation>, draw: Draw, q: nat)
    requires Reachable(h, peers, latency, ops, draw) && 0 < q < peers
    ensures Handed(h, 0, q) <= Sent(h, 0, q)
    ensures q !in h.lost && 0 !in h.lost ==> Handed(h, 0, q) + Items(InFlight(h, 0, q)) == Sent(h, 0, q)
  {
    ReachableHolds(h, peers, latency, ops, draw);
    hide Reachable;
    EveryPipe(h, 0, 0);
    assert PipeInOrder(h, 0, q, []);
    assert Handed(h, 0, q) + [] == Handed(h, 0, q);
  }

  lemma ReachableHolds(h: Hub, peers: nat, latency: nat, ops: seq<Operation>, draw: Draw)
    requires Reachable(h, peers, latency, ops, draw)
    ensures Holds(h) && h.peers == peers
  {
    InitialHolds(peers, latency);
    hide Holds, Run;
    RunHolds(Loopback.Initial(peers, true, latency, false), ops, draw);
  }

  /** What a connector has been handed of third parties' is a beginning of what the relay took in of them. */
  lemma ThirdParty(h: Hub, peers: nat, latency: nat, ops: seq<Operation>, draw: Draw, q: nat, set3: set<nat>)
    requires Reachable(h, peers, latency, ops, draw) && 0 < q < peers && 0 in set3 && q in set3
    ensures Without(Handed(h, 0, q), set3) <= Without(h.relayed, set3)
  {
    HandedIsPrefix(h, peers, latency, ops, draw, q);
    ReachableForwards(h, peers, latency, ops, draw, q);
    hide Reachable, Without;
    WithoutPrefix(Handed(h, 0, q), Sent(h, 0, q), set3);
    WithoutTwice(Sent(h, 0, q), {0}, set3);
    WithoutTwice(h.relayed, {q}, set3);
    assert {0} + set3 == set3 && {q} + set3 == set3;
    WithoutPrefix(Without(Sent(h, 0, q), {0}), Without(h.relayed, {q}), set3);
  }

  lemma ReachableForwards(h: Hub, peers: nat, latency: nat, ops: seq<Operation>, draw: Draw, q: nat)
    requires Reachable(h, peers, latency, ops, draw) && 0 < q < peers
    ensures ForwardedTo(h, q) && Filed(h) && TookIn(h)
  {
    ReachableHolds(h, peers, latency, ops, draw);
    hide Reachable, ForwardedTo, Filed, TookIn;
  }
}
