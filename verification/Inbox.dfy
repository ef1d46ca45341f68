/** A bounded mailbox for one peer's messages. Once it refuses one message it refuses every later one. */
module Inboxes {

  type Message = seq<bv8>

  const MAX_MESSAGES: nat := 256
  const MAX_BYTES: nat := 1024 * 1024

  /** `drained` is everything the main thread has already taken, oldest first. */
  datatype Inbox = Inbox(
    pending: seq<Message>, queuedBytes: nat, overflowed: bool, accepted: nat, refused: nat,
    drained: seq<Message>)

  const EMPTY := Inbox([], 0, false, 0, 0, [])

  function Offer(box: Inbox, message: Message): (Inbox, bool) {
    if box.overflowed then
      (box.(refused := box.refused + 1), false)
    else if |box.pending| >= MAX_MESSAGES || box.queuedBytes + |message| > MAX_BYTES then
      (box.(overflowed := true, refused := box.refused + 1), false)
    else
      (box.(pending := box.pending + [message], queuedBytes := box.queuedBytes + |message|,
            accepted := box.accepted + 1), true)
  }

  predicate Accepts(box: Inbox, message: Message) {
    !box.overflowed && |box.pending| < MAX_MESSAGES && box.queuedBytes + |message| <= MAX_BYTES
  }

  function Drain(box: Inbox): Inbox {
    box.(pending := [], queuedBytes := 0, drained := box.drained + box.pending)
  }

  /** Everything the inbox ever accepted, in the order it accepted it. */
  function Stream(box: Inbox): seq<Message> { box.drained + box.pending }

  function TotalBytes(messages: seq<Message>): nat {
    if messages == [] then 0 else TotalBytes(messages[..|messages| - 1]) + |messages[|messages| - 1]|
  }

  predicate Sound(box: Inbox) {
    && |box.pending| <= MAX_MESSAGES && box.queuedBytes == TotalBytes(box.pending) <= MAX_BYTES
    && box.accepted == |Stream(box)| && (box.overflowed <==> box.refused > 0)
  }

  datatype Use = PushUse(message: Message) | DrainUse

  function UseAll(box: Inbox, uses: seq<Use>): Inbox
    decreases |uses|
  {
    if uses == [] then box
    else UseAll(if uses[0].PushUse? then Offer(box, uses[0].message).0 else Drain(box), uses[1..])
  }

  function Pushed(uses: seq<Use>): seq<Message>
    decreases |uses|
  {
    if uses == [] then []
    else (if uses[0].PushUse? then [uses[0].message] else []) + Pushed(uses[1..])
  }

  /** However pushes and drains interleave: both bounds hold, nothing is reordered or skipped, what was
      accepted is a prefix of what was pushed, and it is all of it exactly when nothing overflowed. */
  lemma {:induction false} StreamIsPrefix(box: Inbox, uses: seq<Use>)
    requires Sound(box)
    ensures var after := UseAll(box, uses);
      && Sound(after)
      && Stream(box) <= Stream(after) <= Stream(box) + Pushed(uses)
      && (box.overflowed ==> after.overflowed && Stream(after) == Stream(box))
      && (!box.overflowed ==> (after.overflowed <==> Stream(after) != Stream(box) + Pushed(uses)))
      && after.accepted + after.refused == box.accepted + box.refused + |Pushed(uses)|
    decreases |uses|
  {
    if uses != [] {
      var next := if uses[0].PushUse? then Offer(box, uses[0].message).0 else Drain(box);
      UseKeepsSound(box, uses[0]);
      StreamOfUse(box, uses[0]);
      hide Stream, Offer, Drain, Sound, UseAll;
      StreamIsPrefix(next, uses[1..]);
      OneMoreUse(Stream(box), uses);
      assert UseAll(box, uses) == UseAll(next, uses[1..]) by { UseFirst(box, uses); }
    } else {
      assert Stream(box) + [] == Stream(box);
    }
  }

  lemma UseFirst(box: Inbox, uses: seq<Use>)
    requires uses != []
    ensures UseAll(box, uses)
         == UseAll(if uses[0].PushUse? then Offer(box, uses[0].message).0 else Drain(box), uses[1..])
  {
  }

  lemma OneMoreUse(before: seq<Message>, uses: seq<Use>)
    requires uses != []
    ensures uses[0].DrainUse? ==> Pushed(uses) == Pushed(uses[1..])
    ensures uses[0].PushUse? ==> |Pushed(uses)| == 1 + |Pushed(uses[1..])| && before < before + Pushed(uses)
    ensures uses[0].PushUse? ==> before + Pushed(uses) == before + [uses[0].message] + Pushed(uses[1..])
  {
  }

  lemma StreamOfUse(box: Inbox, use: Use)
    ensures var next := if use.PushUse? then Offer(box, use.message).0 else Drain(box);
      && (Stream(next) == if use.PushUse? && !next.overflowed then Stream(box) + [use.message] else Stream(box))
      && next.accepted + next.refused == box.accepted + box.refused + (if use.PushUse? then 1 else 0)
      && (box.overflowed ==> next.overflowed) && (use.DrainUse? ==> next.overflowed == box.overflowed)
  {
    if use.PushUse? {
      assert box.drained + (box.pending + [use.message]) == box.drained + box.pending + [use.message];
    }
  }

  lemma UseKeepsSound(box: Inbox, use: Use)
    requires Sound(box)
    ensures Sound(if use.PushUse? then Offer(box, use.message).0 else Drain(box))
  {
    if use.PushUse? {
      assert (box.pending + [use.message])[..|box.pending|] == box.pending;
    }
  }

  /** A message is taken exactly when none was refused before, fewer than two hundred and fifty-six wait, and
      with it they come to no more than a mebibyte; and if it is not, none is taken any more. */
  lemma OfferDoes(box: Inbox, message: Message)
    requires Sound(box)
    ensures var (next, ok) := Offer(box, message);
      && (ok <==> !box.overflowed && |box.pending| < 256 && TotalBytes(box.pending + [message]) <= 1_048_576)
      && next.pending == box.pending + (if ok then [message] else []) && next.drained == box.drained
      && next.overflowed == !ok && next.queuedBytes == TotalBytes(next.pending)
      && next.accepted == box.accepted + (if ok then 1 else 0) && next.refused == box.refused + (if ok then 0 else 1)
  {
    assert (box.pending + [message])[..|box.pending|] == box.pending;
    assert box.pending + [] == box.pending;
  }

  /** What waits is handed over, in order, and the mark of an overflow stays. */
  lemma DrainDoes(box: Inbox)
    ensures var next := Drain(box);
      && next.pending == [] && next.queuedBytes == 0 && next.drained == box.drained + box.pending
      && next.overflowed == box.overflowed && next.accepted == box.accepted && next.refused == box.refused
  {
  }

  /** The mailbox itself. `drained` is kept for the proofs alone. */
  class CommandInbox {
    var pending: seq<Message>
    var queuedBytes: nat
    var overflowed: bool
    var accepted: nat
    var refused: nat
    ghost var drained: seq<Message>

    ghost function State(): Inbox
      reads this
    {
      Inbox(pending, queuedBytes, overflowed, accepted, refused, drained)
    }

    constructor ()
      ensures State() == EMPTY
    {
      pending, queuedBytes, overflowed, accepted, refused, drained := [], 0, false, 0, 0, [];
    }

    method PushMessage(message: Message) returns (ok: bool)
      modifies this
      ensures (State(), ok) == Offer(old(State()), message)
    {
      // Sticky, and checked first.
      if overflowed {
        refused := refused + 1;
        return false;
      }
      if |pending| >= MAX_MESSAGES || queuedBytes + |message| > MAX_BYTES {
        overflowed := true;
        refused := refused + 1;
        return false;
      }
      queuedBytes := queuedBytes + |message|;
      pending := pending + [message];
      accepted := accepted + 1;
      ok := true;
    }

    /** Hand over everything waiting. The overflow flag stays: the refused messages do not come back. */
    method DrainAll() returns (out: seq<Message>)
      modifies this
      ensures State() == Drain(old(State())) && out == old(pending)
    {
      out := pending;
      drained := drained + pending;
      pending := [];
      queuedBytes := 0;
    }
  }
}
