/** The mixer over the reals: what each voice adds to each frame, and why the stream it makes does not
    depend on how it is cut into blocks. */
module Mixer {
  import opened Division

  datatype Bus = Master | Music | Effects

  datatype Frame = Frame(left: real, right: real)

  /** A sounding instance of a clip. `pan` holds the two gains its position maps to. */
  datatype Voice = Voice(samples: seq<real>, channels: nat, cursor: nat, volume: real, pan: Frame, loop: bool, bus: Bus)

  /** A pool slot in use. */
  datatype Slot = Slot(handle: nat, voice: Voice)

  datatype Volumes = Volumes(master: real, music: real, effects: real)

  const SILENCE := Frame(0.0, 0.0)
  const RETIRED_PER_PASS := 64

  function FramesOf(v: Voice): nat {
    if v.channels == 0 then 0 else |v.samples| / v.channels
  }

  /** Nothing more will be heard of it. */
  predicate Done(v: Voice) {
    FramesOf(v) == 0 || (!v.loop && v.cursor >= FramesOf(v))
  }

  /** The frame read next: a looping cursor at the end starts over. */
  function ReadAt(v: Voice): (at: nat)
    requires !Done(v)
    ensures at < FramesOf(v)
  {
    if v.cursor >= FramesOf(v) then 0 else v.cursor
  }

  function Step(v: Voice): Voice {
    if Done(v) then v else v.(cursor := ReadAt(v) + 1)
  }

  function Advance(v: Voice, frames: nat): Voice {
    if frames == 0 then v else Step(Advance(v, frames - 1))
  }

  function Gain(volumes: Volumes, bus: Bus): real {
    volumes.master * (match bus case Master => volumes.master case Music => volumes.music case Effects => volumes.effects)
  }

  lemma ClipHolds(v: Voice, at: nat)
    requires at < FramesOf(v)
    ensures at * v.channels + v.channels <= |v.samples|
  {
    assert (at + 1) * v.channels <= FramesOf(v) * v.channels;
    assert |v.samples| == FramesOf(v) * v.channels + |v.samples| % v.channels;
  }

  /** What the voice adds to the next frame. A mono clip feeds both sides. */
  function Adds(v: Voice, gain: real): Frame {
    if Done(v) then SILENCE
    else
      var at := ReadAt(v);
      ClipHolds(v, at);
      var base := at * v.channels;
      var left := v.samples[base];
      var right := if v.channels >= 2 then v.samples[base + 1] else left;
      Frame(left * (gain * v.volume * v.pan.left), right * (gain * v.volume * v.pan.right))
  }

  function Plus(a: Frame, b: Frame): Frame { Frame(a.left + b.left, a.right + b.right) }

  /** The sum of all voices, `k` frames from now. */
  function Sum(pool: seq<Slot>, volumes: Volumes, k: nat): Frame {
    if pool == [] then SILENCE
    else
      var v := pool[|pool| - 1].voice;
      Plus(Sum(pool[..|pool| - 1], volumes, k), Adds(Advance(v, k), Gain(volumes, v.bus)))
  }

  function Clamp(x: real): real {
    if x < -1.0 then -1.0 else if x > 1.0 then 1.0 else x
  }

  function Clamped(f: Frame): Frame { Frame(Clamp(f.left), Clamp(f.right)) }

  /** The next frames as they are heard, were no voice ever retired and no block ever cut. */
  function Stream(pool: seq<Slot>, volumes: Volumes, frames: nat): (s: seq<Frame>)
    ensures |s| == frames && forall k :: 0 <= k < frames ==> s[k] == Clamped(Sum(pool, volumes, k))
  {
    seq(frames, k requires 0 <= k < frames => Clamped(Sum(pool, volumes, k)))
  }

  function AdvanceAll(pool: seq<Slot>, frames: nat): (p: seq<Slot>)
    ensures |p| == |pool|
    ensures forall j :: 0 <= j < |p| ==> p[j] == Slot(pool[j].handle, Advance(pool[j].voice, frames))
  {
    seq(|pool|, j requires 0 <= j < |pool| => Slot(pool[j].handle, Advance(pool[j].voice, frames)))
  }

  // ---------------------------------------------------------------- one pass

  /** A voice asks to be retired when it has no clip, or runs out before the block does. */
  predicate Finishes(v: Voice, frames: nat) {
    FramesOf(v) == 0 || (frames > 0 && Done(Advance(v, frames - 1)))
  }

  /** The handles a pass retires: the first of those that finish, and no more than there is room to note. */
  function Retired(pool: seq<Slot>, frames: nat): (h: seq<nat>)
    ensures |h| <= RETIRED_PER_PASS
  {
    if pool == [] then []
    else
      var before := Retired(pool[..|pool| - 1], frames);
      var last := pool[|pool| - 1];
      if Finishes(last.voice, frames) && |before| < RETIRED_PER_PASS then before + [last.handle] else before
  }

  function Without(pool: seq<Slot>, handles: seq<nat>): seq<Slot> {
    if pool == [] then []
    else
      var last := pool[|pool| - 1];
      Without(pool[..|pool| - 1], handles) + (if last.handle in handles then [] else [last])
  }

  /** The pool after a pass over one block. */
  function Pass(pool: seq<Slot>, frames: nat): seq<Slot> {
    Without(AdvanceAll(pool, frames), Retired(pool, frames))
  }

  /** Handles are never shared. */
  predicate Distinct(pool: seq<Slot>) {
    forall i, j :: 0 <= i < j < |pool| ==> pool[i].handle != pool[j].handle
  }

  function Total(blocks: seq<nat>): nat {
    if blocks == [] then 0 else blocks[0] + Total(blocks[1..])
  }

  /** What is heard when the frames are mixed block by block, and the pool that is left. */
  function Played(pool: seq<Slot>, volumes: Volumes, blocks: seq<nat>): seq<Frame>
    decreases |blocks|
  {
    if blocks == [] then []
    else Stream(pool, volumes, blocks[0]) + Played(Pass(pool, blocks[0]), volumes, blocks[1..])
  }

  function Left(pool: seq<Slot>, blocks: seq<nat>): seq<Slot>
    decreases |blocks|
  {
    if blocks == [] then pool else Left(Pass(pool, blocks[0]), blocks[1..])
  }

  /** The voices still to be heard. */
  function Sounding(pool: seq<Slot>): seq<Slot> {
    if pool == [] then []
    else
      var last := pool[|pool| - 1];
      Sounding(pool[..|pool| - 1]) + (if Done(last.voice) then [] else [last])
  }

  // ---------------------------------------------------------------- voices in time

  lemma {:induction false} AdvanceAdds(v: Voice, a: nat, b: nat)
    ensures Advance(Advance(v, a), b) == Advance(v, a + b)
    decreases b
  {
    if b > 0 {
      AdvanceAdds(v, a, b - 1);
    }
  }

  /** Once done, always done, and the clip and the bus never change. */
  lemma {:induction false} AdvanceKeeps(v: Voice, n: nat)
    ensures Advance(v, n) == v.(cursor := Advance(v, n).cursor)
    ensures Done(v) ==> Advance(v, n) == v
  {
    if n > 0 {
      AdvanceKeeps(v, n - 1);
    }
  }

  lemma DoneSilent(v: Voice, k: nat, gain: real)
    requires Done(v)
    ensures Adds(Advance(v, k), gain) == SILENCE && Done(Advance(v, k))
  {
    AdvanceKeeps(v, k);
  }

  lemma FinishedIsDone(v: Voice, frames: nat)
    requires Finishes(v, frames)
    ensures Done(Advance(v, frames))
  {
    AdvanceKeeps(v, frames);
  }

  // ---------------------------------------------------------------- pools

  lemma {:induction false} SumOfSounding(pool: seq<Slot>, volumes: Volumes, k: nat)
    ensures Sum(Sounding(pool), volumes, k) == Sum(pool, volumes, k)
    decreases |pool|
  {
    hide Advance, Adds, Gain, Done;
    if pool != [] {
      var n := |pool| - 1;
      var rest, last := Sounding(pool[..n]), pool[n];
      SumOfSounding(pool[..n], volumes, k);
      if Done(last.voice) {
        DoneSilent(last.voice, k, Gain(volumes, last.voice.bus));
        assert rest + [] == rest;
      } else {
        assert (rest + [last])[..|rest|] == rest;
      }
    }
  }

  lemma {:induction false} SumLater(pool: seq<Slot>, volumes: Volumes, n: nat, k: nat)
    ensures Sum(AdvanceAll(pool, n), volumes, k) == Sum(pool, volumes, n + k)
    decreases |pool|
  {
    hide Advance, Adds, Gain;
    if pool != [] {
      var last := pool[|pool| - 1];
      SumLater(pool[..|pool| - 1], volumes, n, k);
      assert AdvanceAll(pool, n)[..|pool| - 1] == AdvanceAll(pool[..|pool| - 1], n);
      AdvanceAdds(last.voice, n, k);
      AdvanceKeeps(last.voice, n);
    }
  }

  lemma {:induction false} SoundingAdvances(pool: seq<Slot>, n: nat)
    ensures Sounding(AdvanceAll(Sounding(pool), n)) == Sounding(AdvanceAll(pool, n))
    decreases |pool|
  {
    hide Advance, Done;
    if pool == [] {
      assert AdvanceAll(Sounding(pool), n) == AdvanceAll(pool, n);
    } else {
      var m := |pool| - 1;
      var rest, last := Sounding(pool[..m]), pool[m];
      SoundingAdvances(pool[..m], n);
      assert AdvanceAll(pool, n)[..m] == AdvanceAll(pool[..m], n);
      if Done(last.voice) {
        DoneSilent(last.voice, n, 0.0);
        assert rest + [] == rest;
      } else {
        assert AdvanceAll(rest + [last], n)[..|rest|] == AdvanceAll(rest, n);
      }
    }
  }

  lemma AdvanceAllAdds(pool: seq<Slot>, a: nat, b: nat)
    ensures AdvanceAll(AdvanceAll(pool, a), b) == AdvanceAll(pool, a + b)
  {
    hide Advance;
    forall j | 0 <= j < |pool| ensures AdvanceAll(AdvanceAll(pool, a), b)[j] == AdvanceAll(pool, a + b)[j] {
      AdvanceAdds(pool[j].voice, a, b);
    }
  }

  /** Only voices that are done are retired. */
  lemma {:induction false} RetiredAreDone(pool: seq<Slot>, frames: nat, h: nat)
    requires h in Retired(pool, frames)
    ensures exists j :: 0 <= j < |pool| && pool[j].handle == h && Finishes(pool[j].voice, frames)
    decreases |pool|
  {
    hide Finishes;
    var n := |pool| - 1;
    if h in Retired(pool[..n], frames) {
      RetiredAreDone(pool[..n], frames, h);
      var j :| 0 <= j < n && pool[..n][j].handle == h && Finishes(pool[..n][j].voice, frames);
      assert pool[j].handle == h;
    } else {
      assert pool[n].handle == h;
    }
  }

  lemma {:induction false} SoundingWithout(pool: seq<Slot>, handles: seq<nat>)
    requires forall j :: 0 <= j < |pool| && pool[j].handle in handles ==> Done(pool[j].voice)
    ensures Sounding(Without(pool, handles)) == Sounding(pool)
    decreases |pool|
  {
    hide Done;
    if pool != [] {
      var n := |pool| - 1;
      SoundingWithout(pool[..n], handles);
      var rest := Without(pool[..n], handles);
      if pool[n].handle in handles {
        assert rest + [] == rest;
      } else {
        assert (rest + [pool[n]])[..|rest|] == rest;
      }
    }
  }

  /** A pass loses no voice that is still to be heard, however many finish in it. */
  lemma PassKeepsSounding(pool: seq<Slot>, frames: nat)
    requires Distinct(pool)
    ensures Sounding(Pass(pool, frames)) == Sounding(AdvanceAll(pool, frames))
  {
    hide Done, Advance, Finishes, Retired;
    var after, handles := AdvanceAll(pool, frames), Retired(pool, frames);
    forall j | 0 <= j < |after| && after[j].handle in handles ensures Done(after[j].voice) {
      RetiredAreDone(pool, frames, after[j].handle);
      FinishedIsDone(pool[j].voice, frames);
    }
    SoundingWithout(after, handles);
  }

  lemma {:induction false} WithoutDistinct(pool: seq<Slot>, handles: seq<nat>)
    requires Distinct(pool)
    ensures Distinct(Without(pool, handles))
    ensures forall s :: s in Without(pool, handles) ==> s in pool
    decreases |pool|
  {
    if pool != [] {
      var n := |pool| - 1;
      WithoutDistinct(pool[..n], handles);
      var rest := Without(pool[..n], handles);
      forall i | 0 <= i < |rest| ensures rest[i].handle != pool[n].handle {
        assert rest[i] in pool[..n];
      }
    }
  }

  lemma PassDistinct(pool: seq<Slot>, frames: nat)
    requires Distinct(pool)
    ensures Distinct(Pass(pool, frames))
  {
    WithoutDistinct(AdvanceAll(pool, frames), Retired(pool, frames));
  }

  // ---------------------------------------------------------------- cutting does not matter

  /** Pools with the same voices still to be heard sound the same. */
  lemma SameSoundingSameStream(p: seq<Slot>, q: seq<Slot>, volumes: Volumes, frames: nat)
    requires Sounding(p) == Sounding(q)
    ensures Stream(p, volumes, frames) == Stream(q, volumes, frames)
  {
    hide Sum, Clamped;
    forall k: nat | k < frames ensures Stream(p, volumes, frames)[k] == Stream(q, volumes, frames)[k] {
      SumOfSounding(p, volumes, k);
      SumOfSounding(q, volumes, k);
    }
  }

  lemma StreamSplits(pool: seq<Slot>, volumes: Volumes, a: nat, b: nat)
    ensures Stream(pool, volumes, a + b) == Stream(pool, volumes, a) + Stream(AdvanceAll(pool, a), volumes, b)
  {
    hide Sum, Clamped;
    var whole, parts := Stream(pool, volumes, a + b), Stream(pool, volumes, a) + Stream(AdvanceAll(pool, a), volumes, b);
    forall k: nat | k < a + b ensures whole[k] == parts[k] {
      if k >= a {
        SumLater(pool, volumes, a, k - a);
      }
    }
  }

  /** However the frames are cut into blocks, the stream heard is the one of a single uncut pass, and the
      voices left to be heard, cursors and all, are the ones it leaves. */
  lemma {:induction false} CuttingDoesNotMatter(pool: seq<Slot>, volumes: Volumes, blocks: seq<nat>)
    requires Distinct(pool)
    ensures Played(pool, volumes, blocks) == Stream(pool, volumes, Total(blocks))
    ensures Sounding(Left(pool, blocks)) == Sounding(AdvanceAll(pool, Total(blocks)))
    decreases |blocks|
  {
    hide Stream, Sounding, Pass, Distinct;
    if blocks == [] {
      NoFrames(pool, volumes);
    } else {
      var n, others := blocks[0], blocks[1..];
      var after, uncut := Pass(pool, n), AdvanceAll(pool, n);
      PassKeepsSounding(pool, n);
      PassDistinct(pool, n);
      CuttingDoesNotMatter(after, volumes, others);
      SameSoundingSameStream(after, uncut, volumes, Total(others));
      StreamSplits(pool, volumes, n, Total(others));
      SoundingAdvances(after, Total(others));
      SoundingAdvances(uncut, Total(others));
      AdvanceAllAdds(pool, n, Total(others));
    }
  }

  lemma NoFrames(pool: seq<Slot>, volumes: Volumes)
    ensures Stream(pool, volumes, 0) == [] && AdvanceAll(pool, 0) == pool
  {
  }

  /** So any two cuts of the same number of frames agree. */
  lemma CutsAgree(pool: seq<Slot>, volumes: Volumes, cut: seq<nat>, other: seq<nat>)
    requires Distinct(pool) && Total(cut) == Total(other)
    ensures Played(pool, volumes, cut) == Played(pool, volumes, other)
    ensures Sounding(Left(pool, cut)) == Sounding(Left(pool, other))
  {
    hide Played, Stream, Left, Sounding, Distinct;
    CuttingDoesNotMatter(pool, volumes, cut);
    CuttingDoesNotMatter(pool, volumes, other);
  }

  /** A looping voice comes round: after any number of frames its next frame is the one the count says. */
  lemma {:induction false} LoopsRound(v: Voice, n: nat)
    requires v.loop && FramesOf(v) > 0 && v.cursor == 0
    ensures !Done(Advance(v, n)) && ReadAt(Advance(v, n)) == n % FramesOf(v)
  {
    hide FramesOf;
    var length := FramesOf(v);
    SameLength(v, n);
    if n > 0 {
      LoopsRound(v, n - 1);
      SameLength(v, n - 1);
      NextRound(n - 1, length);
    }
  }

  lemma SameLength(v: Voice, n: nat)
    ensures FramesOf(Advance(v, n)) == FramesOf(v) && Advance(v, n).loop == v.loop
  {
    AdvanceKeeps(v, n);
  }

  lemma NextRound(m: nat, length: nat)
    requires length > 0
    ensures (m + 1) % length == if m % length + 1 == length then 0 else m % length + 1
  {
    var q, r := m / length, m % length;
    if r + 1 == length {
      assert m + 1 == (q + 1) * length;
      Quotient(m + 1, length, q + 1, 0);
    } else {
      Quotient(m + 1, length, q, r + 1);
    }
  }
}
