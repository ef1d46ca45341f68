/** What is heard of one voice, frame by frame and side by side, when it stops, and when it leaves the pool. */
module MixerLaws {
  import opened Division
  import opened Mixer

  /** One frame of a clip on its two sides: a mono clip's one sample on both, of any other the first two. */
  function Heard(v: Voice, at: nat, gain: real): Frame
    requires at < FramesOf(v)
  {
    ClipHolds(v, at);
    var n := v.channels;
    Frame(v.samples[at * n] * (gain * v.volume * v.pan.left),
          v.samples[if n == 1 then at * n else at * n + 1] * (gain * v.volume * v.pan.right))
  }

  lemma {:induction false} OnceAdvances(v: Voice, k: nat)
    requires !v.loop && FramesOf(v) > 0 && v.cursor <= FramesOf(v)
    ensures Advance(v, k) == v.(cursor := if v.cursor + k < FramesOf(v) then v.cursor + k else FramesOf(v))
    decreases k
  {
    if k > 0 {
      OnceAdvances(v, k - 1);
    }
  }

  /** A voice that plays once is heard frame by frame from its cursor to the end of its clip, and then no
      more. */
  lemma PlaysOnce(v: Voice, gain: real, k: nat)
    requires !v.loop && FramesOf(v) > 0 && v.cursor <= FramesOf(v)
    ensures Adds(Advance(v, k), gain)
      == if v.cursor + k < FramesOf(v) then Heard(v, v.cursor + k, gain) else Frame(0.0, 0.0)
  {
    OnceAdvances(v, k);
    hide Advance;
  }

  lemma {:induction false} RoundAdvances(v: Voice, k: nat)
    requires v.loop && FramesOf(v) > 0 && v.cursor <= FramesOf(v)
    ensures Advance(v, k) == v.(cursor := Advance(v, k).cursor) && Advance(v, k).cursor <= FramesOf(v)
    ensures ReadAt(Advance(v, k)) == (v.cursor + k) % FramesOf(v)
    decreases k
  {
    var n := FramesOf(v);
    if k == 0 {
      Wraps(v.cursor, n);
    } else {
      RoundAdvances(v, k - 1);
      NextRound(v.cursor + k - 1, n);
      Wraps(Advance(v, k).cursor, n);
    }
  }

  lemma Wraps(c: nat, n: nat)
    requires n > 0 && c <= n
    ensures c % n == if c < n then c else 0
  {
    if c == n {
      Quotient(c, n, 1, 0);
    } else {
      Quotient(c, n, 0, c);
    }
  }

  /** A looping one goes round its clip for ever. */
  lemma PlaysRound(v: Voice, gain: real, k: nat)
    requires v.loop && FramesOf(v) > 0 && v.cursor <= FramesOf(v)
    ensures (v.cursor + k) % FramesOf(v) < FramesOf(v)
    ensures Adds(Advance(v, k), gain) == Heard(v, (v.cursor + k) % FramesOf(v), gain)
  {
    RoundAdvances(v, k);
    hide Advance;
    AddsIs(v, Advance(v, k).cursor, gain);
    hide Adds, Heard, ReadAt;
  }

  /** What a voice adds is what is heard at the place its cursor has come to. */
  lemma AddsIs(v: Voice, cursor: nat, gain: real)
    requires v.loop && FramesOf(v) > 0
    ensures var w := v.(cursor := cursor);
      !Done(w) && ReadAt(w) < FramesOf(v) && Adds(w, gain) == Heard(v, ReadAt(w), gain)
  {
  }

  /** A clip without frames is never heard. */
  lemma NothingToPlay(v: Voice, gain: real, k: nat)
    requires FramesOf(v) == 0
    ensures Adds(Advance(v, k), gain) == Frame(0.0, 0.0)
  {
    AdvanceKeeps(v, k);
    hide Advance;
  }

  /** The gain of a bus is the master volume times its own. */
  lemma GainIs(volumes: Volumes)
    ensures Gain(volumes, Music) == volumes.master * volumes.music
    ensures Gain(volumes, Effects) == volumes.master * volumes.effects
    ensures Gain(volumes, Master) == volumes.master * volumes.master
  {
  }

  /** Clamping changes only what is out of range, and to the nearer end of it. */
  lemma ClampIs(x: real)
    ensures -1.0 <= Clamp(x) <= 1.0 && (-1.0 <= x <= 1.0 ==> Clamp(x) == x)
    ensures (x > 1.0 ==> Clamp(x) == 1.0) && (x < -1.0 ==> Clamp(x) == -1.0)
  {
  }

  /** Every voice is in the sum once, on its bus's gain. */
  lemma SumIs(pool: seq<Slot>, slot: Slot, volumes: Volumes, k: nat)
    ensures var (was, adds) := (Sum(pool, volumes, k), Adds(Advance(slot.voice, k), Gain(volumes, slot.voice.bus)));
      Sum(pool + [slot], volumes, k) == Frame(was.left + adds.left, was.right + adds.right)
    ensures Sum([], volumes, k) == Frame(0.0, 0.0)
  {
    hide Advance, Adds, Gain;
    assert (pool + [slot])[..|pool|] == pool;
  }

  /** A voice finishes in a pass exactly if it has nothing to play, or plays once and runs out before the
      block does: a voice that ends with the block has still to be seen to have ended. */
  lemma FinishesIff(v: Voice, frames: nat)
    requires v.cursor <= FramesOf(v)
    ensures Finishes(v, frames) <==> FramesOf(v) == 0 || (!v.loop && frames > 0 && v.cursor + frames > FramesOf(v))
  {
    if FramesOf(v) > 0 && frames > 0 {
      if v.loop {
        AdvanceKeeps(v, frames - 1);
      } else {
        OnceAdvances(v, frames - 1);
      }
      hide Advance;
    }
  }

  /** How many finish in a pass. */
  function Finishing(pool: seq<Slot>, frames: nat): nat {
    if pool == [] then 0
    else Finishing(pool[..|pool| - 1], frames) + (if Finishes(pool[|pool| - 1].voice, frames) then 1 else 0)
  }

  /** Of those that finish, the first sixty-four are retired in the pass, and all of them if there are no more. */
  lemma {:induction false} RetiredIs(pool: seq<Slot>, frames: nat, j: nat)
    requires j < |pool|
    ensures |Retired(pool, frames)| == if Finishing(pool, frames) < 64 then Finishing(pool, frames) else 64
    ensures Finishes(pool[j].voice, frames) && Finishing(pool[..j], frames) < 64 ==> pool[j].handle in Retired(pool, frames)
    decreases |pool|
  {
    hide Finishes;
    var n := |pool| - 1;
    if j < n {
      RetiredIs(pool[..n], frames, j);
      assert pool[..n][..j] == pool[..j];
    } else {
      RetiredCount(pool[..n], frames);
    }
  }

  lemma {:induction false} RetiredCount(pool: seq<Slot>, frames: nat)
    ensures |Retired(pool, frames)| == if Finishing(pool, frames) < 64 then Finishing(pool, frames) else 64
    decreases |pool|
  {
    hide Finishes;
    if pool != [] {
      RetiredCount(pool[..|pool| - 1], frames);
    }
  }
}
