/** The mixing loops in place: a voice added into a block, a block mixed and its finished voices retired, and
    the update that fills a queue block by block. */
module AudioDevices {
  import opened Mixer

  const BLOCK_FRAMES := 1024
  const MAX_PASSES := 8

  /** The interleaved samples of a block, as frames. */
  function FramesIn(out: seq<real>, count: nat): (f: seq<Frame>)
    requires 2 * count <= |out|
    ensures |f| == count && forall k :: 0 <= k < count ==> f[k] == Frame(out[2 * k], out[2 * k + 1])
  {
    seq(count, k requires 0 <= k < count => Frame(out[2 * k], out[2 * k + 1]))
  }

  /** The block with a voice added to its first frames. */
  function Mix(block: seq<Frame>, v: Voice, gain: real, frames: nat): (m: seq<Frame>)
    ensures |m| == |block|
    ensures forall k :: 0 <= k < |m| ==> m[k] == if k < frames then Plus(block[k], Adds(Advance(v, k), gain)) else block[k]
  {
    seq(|block|, k requires 0 <= k < |block| =>
      if k < frames then Plus(block[k], Adds(Advance(v, k), gain)) else block[k])
  }

  /** Every voice of the pool added, in order. */
  function MixAll(block: seq<Frame>, pool: seq<Slot>, volumes: Volumes, frames: nat): (m: seq<Frame>)
    ensures |m| == |block|
  {
    if pool == [] then block
    else
      var v := pool[|pool| - 1].voice;
      Mix(MixAll(block, pool[..|pool| - 1], volumes, frames), v, Gain(volumes, v.bus), frames)
  }

  lemma MixOneMore(block: seq<Frame>, v: Voice, gain: real, k: nat)
    requires k < |block|
    ensures Mix(block, v, gain, k)[k := Plus(block[k], Adds(Advance(v, k), gain))] == Mix(block, v, gain, k + 1)
  {
    hide Adds, Advance;
  }

  lemma MixNone(block: seq<Frame>, v: Voice, gain: real)
    ensures Mix(block, v, gain, 0) == block && Advance(v, 0) == v
  {
  }

  /** A voice that is done by some frame adds nothing from there on. */
  lemma MixEndsEarly(block: seq<Frame>, v: Voice, gain: real, frame: nat, frames: nat)
    requires frame <= frames && Done(Advance(v, frame))
    ensures Mix(block, v, gain, frame) == Mix(block, v, gain, frames) && Advance(v, frames) == Advance(v, frame)
    ensures frame < frames ==> Finishes(v, frames)
  {
    hide Advance, Adds, Done;
    forall k: nat | frame <= k <= frames
      ensures Adds(Advance(v, k), gain) == SILENCE && Advance(v, k) == Advance(v, frame)
    {
      AdvanceAdds(v, frame, k - frame);
      DoneSilent(Advance(v, frame), k - frame, gain);
      AdvanceKeeps(Advance(v, frame), k - frame);
    }
    forall k | 0 <= k < |block| ensures Mix(block, v, gain, frame)[k] == Mix(block, v, gain, frames)[k] {
      if frame <= k < frames {
        PlusSilence(block[k]);
      }
    }
  }

  lemma PlusSilence(f: Frame)
    ensures Plus(f, SILENCE) == f && Plus(SILENCE, f) == f
  {
  }

  lemma {:induction false} MixAllSums(block: seq<Frame>, pool: seq<Slot>, volumes: Volumes, frames: nat, k: nat)
    requires k < frames <= |block| && block[k] == SILENCE
    ensures MixAll(block, pool, volumes, frames)[k] == Sum(pool, volumes, k)
    decreases |pool|
  {
    hide Adds, Advance, Gain, Plus;
    if pool != [] {
      MixAllSums(block, pool[..|pool| - 1], volumes, frames, k);
    }
  }

  class AudioDevice {
    const block: array<real>
    var voices: seq<Slot>
    var volumes: Volumes

    ghost predicate Valid()
      reads this
    {
      block.Length == 2 * BLOCK_FRAMES && Distinct(voices)
    }

    ghost function Block(): seq<Frame>
      reads block
      requires block.Length == 2 * BLOCK_FRAMES
    {
      FramesIn(block[..], BLOCK_FRAMES)
    }

    constructor (voices: seq<Slot>, volumes: Volumes)
      requires Distinct(voices)
      ensures Valid() && this.voices == voices && this.volumes == volumes && fresh(block)
    {
      block := new real[2 * BLOCK_FRAMES](_ => 0.0);
      this.voices, this.volumes := voices, volumes;
    }

    method AddFrame(frame: nat, left: real, right: real)
      requires block.Length == 2 * BLOCK_FRAMES && frame < BLOCK_FRAMES
      modifies block
      ensures Block() == old(Block())[frame := Plus(old(Block())[frame], Frame(left, right))]
    {
      block[2 * frame] := block[2 * frame] + left;
      block[2 * frame + 1] := block[2 * frame + 1] + right;
    }

    /** Add the voice into the first frames of the block. `playing` is false when it has nothing more. */
    method MixVoice(voice: Voice, frames: nat, gain: real) returns (after: Voice, playing: bool)
      requires block.Length == 2 * BLOCK_FRAMES && frames <= BLOCK_FRAMES
      modifies block
      ensures after == Advance(voice, frames) && playing == !Finishes(voice, frames)
      ensures Block() == Mix(old(Block()), voice, gain, frames)
    {
      after := voice;
      MixNone(Block(), voice, gain);
      if FramesOf(voice) == 0 {
        MixEndsEarly(Block(), voice, gain, 0, frames);
        return after, false;
      }
      for frame := 0 to frames
        invariant after == Advance(voice, frame) && (frame > 0 ==> !Done(Advance(voice, frame - 1)))
        invariant Block() == Mix(old(Block()), voice, gain, frame)
      {
        hide Adds, Done, Advance, Step, ReadAt, Plus;
        if after.cursor >= FramesOf(after) && !after.loop {
          EndReached(after);
          MixEndsEarly(old(Block()), voice, gain, frame, frames);
          return after, false;
        }
        MixOneMore(old(Block()), voice, gain, frame);
        AdvanceOne(voice, frame);
        SameClip(voice, frame);
        NotEnded(after);
        var left, right;
        after, left, right := ReadFrame(after, gain);
        AddFrame(frame, left, right);
      }
      playing := true;
    }

    /** One frame read at the cursor, which starts over first if a looping clip has run out. */
    method ReadFrame(voice: Voice, gain: real) returns (after: Voice, left: real, right: real)
      requires !Done(voice)
      ensures after == Step(voice) && Frame(left, right) == Adds(voice, gain)
    {
      var leftGain, rightGain := gain * voice.volume * voice.pan.left, gain * voice.volume * voice.pan.right;
      after := voice;
      if after.cursor >= FramesOf(voice) {
        after := after.(cursor := 0);
      }
      ClipHolds(voice, after.cursor);
      var base := after.cursor * voice.channels;
      left := voice.samples[base];
      right := if voice.channels >= 2 then voice.samples[base + 1] else left;
      left, right := left * leftGain, right * rightGain;
      after := after.(cursor := after.cursor + 1);
    }

    /** Mix one block's worth of frames, and retire what finished. */
    method MixIntoBlock(frames: nat)
      requires Valid() && frames <= BLOCK_FRAMES
      modifies this, block
      ensures Valid() && voices == Pass(old(voices), frames) && volumes == old(volumes)
      ensures Block()[..frames] == Stream(old(voices), old(volumes), frames)
    {
      hide Distinct, MixAll, Clamped, Sum, Pass;
      Silence(frames);
      ghost var silent := Block();
      var finished := AddVoices(frames);
      PassDistinct(old(voices), frames);
      Retire(finished);
      assert voices == Pass(old(voices), frames) by { PassIs(old(voices), frames); }
      ghost var mixed := Block();
      ClampBlock(frames);
      forall k: nat | k < frames ensures Block()[k] == Clamped(Sum(old(voices), volumes, k)) {
        MixAllSums(silent, old(voices), volumes, frames, k);
      }
    }

    method Silence(frames: nat)
      requires block.Length == 2 * BLOCK_FRAMES && frames <= BLOCK_FRAMES
      modifies block
      ensures forall k :: 0 <= k < frames ==> Block()[k] == SILENCE
    {
      forall i | 0 <= i < 2 * frames {
        block[i] := 0.0;
      }
    }

    /** Mix every voice in turn, noting which to retire while the pool is being walked. */
    method AddVoices(frames: nat) returns (finished: seq<nat>)
      requires block.Length == 2 * BLOCK_FRAMES && frames <= BLOCK_FRAMES
      modifies `voices, block
      ensures finished == Retired(old(voices), frames) && voices == AdvanceAll(old(voices), frames)
      ensures Block() == MixAll(old(Block()), old(voices), volumes, frames)
    {
      hide Finishes, Gain, Mix, Advance, Retired, MixAll, AdvanceAll, FramesIn;
      finished := [];
      var j := 0;
      ghost var pool, block0 := voices, Block();
      AddedNone(block0, volumes, frames);
      while j < |voices|
        invariant |voices| == |pool| && 0 <= j <= |voices|
        invariant voices == AdvanceAll(pool[..j], frames) + pool[j..]
        invariant finished == Retired(pool[..j], frames)
        invariant Block() == MixAll(block0, pool[..j], volumes, frames)
      {
        AddedOneMore(block0, pool, volumes, frames, j);
        NextInPlace(AdvanceAll(pool[..j], frames), pool, j, Advance(pool[j].voice, frames));
        var slot := voices[j];
        var after, playing := MixVoice(slot.voice, frames, Gain(volumes, slot.voice.bus));
        if !playing && |finished| < RETIRED_PER_PASS {
          finished := finished + [slot.handle];
        }
        voices := voices[j := Slot(slot.handle, after)];
        j := j + 1;
      }
      assert pool[..j] == pool && AdvanceAll(pool, frames) + [] == AdvanceAll(pool, frames);
    }

    method Retire(finished: seq<nat>)
      modifies `voices
      ensures voices == Without(old(voices), finished)
    {
      WithoutNone(voices);
      for i := 0 to |finished|
        invariant voices == Without(old(voices), finished[..i])
      {
        WithoutOneMore(old(voices), finished[..i], finished[i]);
        assert finished[..i + 1] == finished[..i] + [finished[i]];
        voices := Without(voices, [finished[i]]);
      }
      assert finished[..|finished|] == finished;
    }

    method ClampBlock(frames: nat)
      requires block.Length == 2 * BLOCK_FRAMES && frames <= BLOCK_FRAMES
      modifies block
      ensures forall k :: 0 <= k < frames ==> Block()[k] == Clamped(old(Block())[k])
    {
      for i := 0 to 2 * frames
        invariant forall m :: 0 <= m < i ==> block[m] == Clamp(old(block[m]))
        invariant forall m :: i <= m < block.Length ==> block[m] == old(block[m])
      {
        block[i] := Clamp(block[i]);
      }
      forall k | 0 <= k < frames ensures Block()[k] == Clamped(old(Block())[k]) {
        assert block[2 * k] == Clamp(old(block[2 * k])) && block[2 * k + 1] == Clamp(old(block[2 * k + 1]));
      }
    }

    /** With no device to feed: as many frames as have passed, block by block. */
    method AdvanceBy(wanted: nat) returns (heard: seq<Frame>)
      requires Valid()
      modifies this, block
      ensures Valid() && volumes == old(volumes) && heard == Stream(old(voices), volumes, wanted)
      ensures Sounding(voices) == Sounding(AdvanceAll(old(voices), wanted))
    {
      hide Stream, Sounding, Pass, Distinct;
      heard := [];
      var remaining: nat := wanted;
      CutNone(voices, volumes);
      while remaining > 0
        invariant Valid() && remaining <= wanted && volumes == old(volumes)
        invariant heard == Stream(old(voices), volumes, wanted - remaining)
        invariant Sounding(voices) == Sounding(AdvanceAll(old(voices), wanted - remaining))
      {
        var frames := if remaining < BLOCK_FRAMES then remaining else BLOCK_FRAMES;
        CutOneMore(old(voices), voices, volumes, wanted - remaining, frames);
        ghost var before := voices;
        MixIntoBlock(frames);
        heard := heard + FramesIn(block[..], BLOCK_FRAMES)[..frames];
        remaining := remaining - frames;
      }
    }

    /** With a device: blocks until the queue reaches its target, has no room, refuses one, or the passes
        run out. `accepts` says which passes the queue takes. */
    method FillQueue(queued0: nat, target: nat, max: nat, accepts: nat -> bool)
        returns (heard: seq<Frame>, mixed: nat, queued: nat)
      requires Valid()
      modifies this, block
      ensures Valid() && volumes == old(volumes) && queued == queued0 + |heard| && |heard| <= mixed
      ensures heard == Stream(old(voices), volumes, |heard|)
      ensures Sounding(voices) == Sounding(AdvanceAll(old(voices), mixed))
      ensures queued <= max || queued == queued0
      ensures queued < target + 1024 || queued == queued0
      ensures |heard| <= mixed <= |heard| + 1024 && ((forall pass :: accepts(pass)) ==> mixed == |heard|)
      ensures (forall pass :: accepts(pass)) && target <= max && target <= queued0 + 8 * 1024 ==> queued >= target
    {
      hide Stream, Sounding, Pass, Distinct;
      heard, mixed, queued := [], 0, queued0;
      CutNone(voices, volumes);
      var pass := 0;
      while pass < MAX_PASSES && queued < target
        invariant 0 <= pass <= MAX_PASSES && Valid() && volumes == old(volumes)
        invariant mixed == |heard| && queued == queued0 + mixed && (queued <= max || queued == queued0)
        invariant queued >= queued0 + pass * BLOCK_FRAMES || queued >= max
        invariant queued < target + BLOCK_FRAMES || queued == queued0
        invariant heard == Stream(old(voices), volumes, mixed)
        invariant Sounding(voices) == Sounding(AdvanceAll(old(voices), mixed))
        decreases MAX_PASSES - pass
      {
        var room := if max > queued then max - queued else 0;
        var frames := if room < BLOCK_FRAMES then room else BLOCK_FRAMES;
        if frames == 0 {
          return;
        }
        CutOneMore(old(voices), voices, volumes, mixed, frames);
        MixIntoBlock(frames);
        mixed := mixed + frames;
        if !accepts(pass) {
          return;
        }
        heard := heard + FramesIn(block[..], BLOCK_FRAMES)[..frames];
        queued := queued + frames;
        pass := pass + 1;
      }
    }
  }

  lemma AdvanceOne(v: Voice, k: nat)
    ensures Advance(v, k + 1) == Step(Advance(v, k))
  {
  }

  lemma NextInPlace(done: seq<Slot>, pool: seq<Slot>, j: nat, after: Voice)
    requires j < |pool| && |done| == j
    ensures (done + pool[j..])[j] == pool[j]
    ensures (done + pool[j..])[j := Slot(pool[j].handle, after)] == done + [Slot(pool[j].handle, after)] + pool[j + 1..]
  {
  }

  lemma AddedNone(block: seq<Frame>, volumes: Volumes, frames: nat)
    ensures Retired([], frames) == [] && MixAll(block, [], volumes, frames) == block && AdvanceAll([], frames) == []
  {
  }

  lemma AddedOneMore(block: seq<Frame>, pool: seq<Slot>, volumes: Volumes, frames: nat, j: nat)
    requires j < |pool|
    ensures var before, v := Retired(pool[..j], frames), pool[j].voice;
      && Retired(pool[..j + 1], frames)
         == (if Finishes(v, frames) && |before| < RETIRED_PER_PASS then before + [pool[j].handle] else before)
      && MixAll(block, pool[..j + 1], volumes, frames)
         == Mix(MixAll(block, pool[..j], volumes, frames), v, Gain(volumes, v.bus), frames)
      && AdvanceAll(pool[..j + 1], frames)
         == AdvanceAll(pool[..j], frames) + [Slot(pool[j].handle, Advance(v, frames))]
  {
    hide Finishes, Gain, Mix, Advance;
    assert pool[..j + 1][..j] == pool[..j];
  }

  lemma EndReached(v: Voice)
    requires v.cursor >= FramesOf(v) && !v.loop
    ensures Done(v)
  {
  }

  lemma NotEnded(v: Voice)
    requires FramesOf(v) > 0 && (v.cursor < FramesOf(v) || v.loop)
    ensures !Done(v)
  {
  }

  lemma SameClip(v: Voice, k: nat)
    ensures FramesOf(Advance(v, k)) == FramesOf(v)
  {
    AdvanceKeeps(v, k);
  }

  lemma PassIs(pool: seq<Slot>, frames: nat)
    ensures Pass(pool, frames) == Without(AdvanceAll(pool, frames), Retired(pool, frames))
  {
  }

  lemma {:induction false} WithoutNone(pool: seq<Slot>)
    ensures Without(pool, []) == pool
    decreases |pool|
  {
    if pool != [] {
      WithoutNone(pool[..|pool| - 1]);
    }
  }

  lemma {:induction false} WithoutOneMore(pool: seq<Slot>, handles: seq<nat>, h: nat)
    ensures Without(Without(pool, handles), [h]) == Without(pool, handles + [h])
    decreases |pool|
  {
    if pool != [] {
      var n := |pool| - 1;
      WithoutOneMore(pool[..n], handles, h);
      var rest := Without(pool[..n], handles);
      if pool[n].handle in handles {
        assert rest + [] == rest;
      } else {
        assert (rest + [pool[n]])[..|rest|] == rest;
      }
    }
  }

  lemma CutNone(pool: seq<Slot>, volumes: Volumes)
    ensures Stream(pool, volumes, 0) == [] && Sounding(AdvanceAll(pool, 0)) == Sounding(pool)
  {
    NoFrames(pool, volumes);
  }

  /** One more block after `done` frames goes on with the same stream. */
  lemma CutOneMore(start: seq<Slot>, now: seq<Slot>, volumes: Volumes, done: nat, frames: nat)
    requires Distinct(now) && Sounding(now) == Sounding(AdvanceAll(start, done))
    ensures Stream(start, volumes, done + frames) == Stream(start, volumes, done) + Stream(now, volumes, frames)
    ensures Sounding(Pass(now, frames)) == Sounding(AdvanceAll(start, done + frames))
  {
    hide Stream, Sounding, Pass, Distinct;
    var uncut := AdvanceAll(start, done);
    StreamSplits(start, volumes, done, frames);
    SameSoundingSameStream(now, uncut, volumes, frames);
    PassKeepsSounding(now, frames);
    SoundingAdvances(now, frames);
    SoundingAdvances(uncut, frames);
    AdvanceAllAdds(start, done, frames);
  }
}
