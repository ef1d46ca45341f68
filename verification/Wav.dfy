/** The RIFF/WAVE reader and the script that writes the engine's sounds: what the reader makes of any
    bytes, that it inverts the writer, and that chunks it does not know never change what it hears. */
module Waves {
  import opened Bytes
  import opened Floats

  // ---------------------------------------------------------------- what is read

  const RIFF: seq<Byte> := [82, 73, 70, 70]
  const WAVE: seq<Byte> := [87, 65, 86, 69]
  const FMT: seq<Byte> := [102, 109, 116, 32]
  const DATA: seq<Byte> := [100, 97, 116, 97]

  const PCM := 0x0001
  const FLOAT := 0x0003
  const EXTENSIBLE := 0xFFFE

  const MAX_CHANNELS := 2
  const MIN_RATE := 8_000
  const MAX_RATE := 192_000
  const MAX_DECODED := 64 * 1024 * 1024

  datatype Format = Format(tag: nat, channels: nat, rate: nat, bits: nat)

  /** An integer sample as the fraction it stands for, or a float's 32 bits as they are. */
  datatype Sample = Pcm(value: real) | Float(pattern: nat)

  datatype Audio = Audio(channels: nat, rate: nat, samples: seq<Sample>)

  datatype Refusal =
    | NotRiff | Truncated | ChunkPastEnd | FormatTooSmall | ExtensionTooSmall
    | NoFormat | NoData | UnknownFormat | FloatBits | IntegerBits | Channels | Rate | NoFrames | TooLong

  datatype Result<+T> = Ok(value: T) | Refused(why: Refusal)

  datatype Maybe<+T> = Absent | Present(value: T)

  /** What the walk over the chunks has met so far: the last of each kind counts. */
  datatype Found = Found(format: Maybe<Format>, data: Maybe<seq<Byte>>)

  const NOTHING := Found(Absent, Absent)

  // ---------------------------------------------------------------- the chunk walk

  function ReadFormat(body: seq<Byte>): Result<Format> {
    if |body| < 16 then Refused(FormatTooSmall)
    else if U16(body, 0) != EXTENSIBLE then Ok(Format(U16(body, 0), U16(body, 2), U32(body, 4), U16(body, 14)))
    else if |body| < 40 then Refused(ExtensionTooSmall)
    else Ok(Format(U16(body, 24), U16(body, 2), U32(body, 4), U16(body, 14)))
  }

  function Take(found: Found, tag: seq<Byte>, body: seq<Byte>): Result<Found> {
    if tag == FMT then
      match ReadFormat(body)
      case Refused(why) => Refused(why)
      case Ok(format) => Ok(found.(format := Present(format)))
    else if tag == DATA then Ok(found.(data := Present(body)))
    else Ok(found)
  }

  /** How far the chunk at the head reaches, pad byte included. */
  function Span(size: nat): nat { 8 + size + size % 2 }

  function Drop(rest: seq<Byte>, n: nat): seq<Byte> {
    if n <= |rest| then rest[n..] else []
  }

  function Walk(rest: seq<Byte>, found: Found): Result<Found>
    decreases |rest|
  {
    if |rest| < 8 then Ok(found)
    else
      var size := U32(rest, 4);
      if 8 + size > |rest| then Refused(ChunkPastEnd)
      else
        match Take(found, rest[..4], rest[8..8 + size])
        case Refused(why) => Refused(why)
        case Ok(found') => Walk(Drop(rest, Span(size)), found')
  }

  /** The walk taken up again after a chunk. */
  function WalkOn(rest: seq<Byte>, taken: Result<Found>): Result<Found> {
    match taken
    case Refused(why) => Refused(why)
    case Ok(found) => Walk(rest, found)
  }

  // ---------------------------------------------------------------- decoding

  function Signed(n: nat, bound: nat): int {
    if n >= bound then n - 2 * bound else n
  }

  /** One sample, from the bytes that hold it. */
  function DecodeSample(b: seq<Byte>, bits: nat, isFloat: bool): Sample
    requires bits in {8, 16, 24, 32} && |b| == bits / 8 && (isFloat ==> bits == 32)
  {
    if isFloat then Float(U32(b, 0))
    else if bits == 8 then Pcm((ToFloat(b[0] as int) - 128) as real / 128.0)
    else if bits == 16 then Pcm(ToFloat(Signed(U16(b, 0), 0x8000)) as real / 32768.0)
    else if bits == 24 then
      var top: nat := b[2];
      Pcm(ToFloat(Signed(U16(b, 0) + 0x1_0000 * top, 0x80_0000)) as real / 8388608.0)
    else Pcm(ToFloat(Signed(U32(b, 0), 0x8000_0000)) as real / 2147483648.0)
  }

  function Decodable(format: Format): Result<bool> {
    if format.tag != PCM && format.tag != FLOAT then Refused(UnknownFormat)
    else if format.tag == FLOAT && format.bits != 32 then Refused(FloatBits)
    else if format.bits !in {8, 16, 24, 32} then Refused(IntegerBits)
    else if format.channels == 0 || format.channels > MAX_CHANNELS then Refused(Channels)
    else if format.rate < MIN_RATE || format.rate > MAX_RATE then Refused(Rate)
    else Ok(true)
  }

  /** The samples of so many frames, in order. */
  function Samples(data: seq<Byte>, width: nat, isFloat: bool, count: nat): (s: seq<Sample>)
    requires width in {1, 2, 3, 4} && (isFloat ==> width == 4) && count * width <= |data|
    ensures |s| == count
  {
    if count == 0 then []
    else
      assert count * width == (count - 1) * width + width;
      Samples(data, width, isFloat, count - 1)
      + [DecodeSample(data[(count - 1) * width..count * width], 8 * width, isFloat)]
  }

  function Decode(found: Found): Result<Audio> {
    if found.format.Absent? then Refused(NoFormat)
    else if found.data.Absent? then Refused(NoData)
    else
      var format, data := found.format.value, found.data.value;
      match Decodable(format)
      case Refused(why) => Refused(why)
      case Ok(_) =>
        var width := format.bits / 8;
        var frames := |data| / (width * format.channels);
        if frames == 0 then Refused(NoFrames)
        else if frames * format.channels * 4 > MAX_DECODED then Refused(TooLong)
        else
          FramesFit(|data|, width, format.channels);
          Ok(Audio(format.channels, format.rate,
                   Samples(data, width, format.tag == FLOAT, frames * format.channels)))
  }

  lemma FramesFit(length: nat, width: nat, channels: nat)
    requires width > 0 && channels in {1, 2}
    ensures length / (width * channels) * channels * width <= length
  {
    var frame := width * channels;
    var frames := length / frame;
    assert frames * channels * width == frames * frame;
    assert length == frames * frame + length % frame;
  }

  /** What the reader makes of a file. */
  function Import(bytes: seq<Byte>): Result<Audio> {
    if |bytes| < 12 || bytes[..4] != RIFF || bytes[8..12] != WAVE then Refused(NotRiff)
    else if U32(bytes, 4) + 8 > |bytes| then Refused(Truncated)
    else
      match Walk(bytes[12..], NOTHING)
      case Refused(why) => Refused(why)
      case Ok(found) => Decode(found)
  }

  // ---------------------------------------------------------------- unknown chunks

  function Chunk(tag: seq<Byte>, body: seq<Byte>): (c: seq<Byte>)
    requires |tag| == 4 && |body| < 0x1_0000_0000
    ensures |c| == 8 + |body|
  {
    tag + Le32(|body|) + body
  }

  /** The walk over a chunk followed by whatever follows it. */
  lemma WalkChunk(tag: seq<Byte>, body: seq<Byte>, pad: seq<Byte>, rest: seq<Byte>, found: Found)
    requires |tag| == 4 && |body| < 0x1_0000_0000 && |pad| == |body| % 2
    ensures Walk(Chunk(tag, body) + pad + rest, found) == WalkOn(rest, Take(found, tag, body))
  {
    hide Take, Le32, U32;
    var all := Chunk(tag, body) + pad + rest;
    assert all[..4] == tag;
    assert all[4..8] == Le32(|body|);
    U32At(all, 4, |body|);
    assert all[8..8 + |body|] == body;
    assert Drop(all, Span(|body|)) == rest;
  }

  /** The walk over `rest` comes to stand at `offset`, stepping over well-bounded chunks. */
  predicate Visits(rest: seq<Byte>, offset: nat)
    decreases |rest|
  {
    offset == 0
    || (|rest| >= 8 && 8 + U32(rest, 4) <= |rest| && Span(U32(rest, 4)) <= offset <= |rest|
        && Visits(rest[Span(U32(rest, 4))..], offset - Span(U32(rest, 4))))
  }

  /** A string of bytes the walk passes over wherever it stands. */
  ghost predicate Skippable(chunk: seq<Byte>) {
    forall found, after :: Walk(chunk + after, found) == Walk(after, found)
  }

  lemma {:induction false} SkippedInWalk(rest: seq<Byte>, offset: nat, chunk: seq<Byte>, found: Found)
    requires Visits(rest, offset) && offset <= |rest|
    requires Skippable(chunk)
    ensures Walk(rest[..offset] + chunk + rest[offset..], found) == Walk(rest, found)
    decreases |rest|
  {
    hide Take, U32;
    var all := rest[..offset] + chunk + rest[offset..];
    if offset == 0 {
      assert all == chunk + rest;
    } else {
      var size := U32(rest, 4);
      var n := Span(size);
      SplicedHead(rest, offset, chunk, size);
      SameField(rest, all);
      HeadSkipped(rest, all, found, size);
      match Take(found, rest[..4], rest[8..8 + size])
      case Refused(_) =>
      case Ok(found') => SkippedInWalk(rest[n..], offset - n, chunk, found');
    }
  }

  /** What is put in behind a chunk leaves that chunk as it was. */
  lemma SplicedHead(rest: seq<Byte>, offset: nat, chunk: seq<Byte>, size: nat)
    requires 8 <= Span(size) <= offset <= |rest|
    ensures var all, n := rest[..offset] + chunk + rest[offset..], Span(size);
      && all[..8] == rest[..8] && all[8..8 + size] == rest[8..8 + size]
      && Drop(all, n) == rest[n..][..offset - n] + chunk + rest[n..][offset - n..] && Drop(rest, n) == rest[n..]
  {
  }

  lemma HeadSkipped(rest: seq<Byte>, all: seq<Byte>, found: Found, size: nat)
    requires |rest| >= 8 && |all| >= 8 && size == U32(rest, 4) == U32(all, 4) && all[..8] == rest[..8]
    requires 8 + size <= |rest| && 8 + size <= |all| && all[8..8 + size] == rest[8..8 + size]
    ensures Walk(all, found) == WalkOn(Drop(all, Span(size)), Take(found, rest[..4], rest[8..8 + size]))
    ensures Walk(rest, found) == WalkOn(Drop(rest, Span(size)), Take(found, rest[..4], rest[8..8 + size]))
  {
    hide Take, U32;
    assert all[..4] == all[..8][..4] && rest[..4] == rest[..8][..4];
  }

  lemma SameField(s: seq<Byte>, t: seq<Byte>)
    requires |s| >= 8 && |t| >= 8 && s[..8] == t[..8]
    ensures U32(s, 4) == U32(t, 4)
  {
    assert forall k :: 0 <= k < 8 ==> s[..8][k] == s[k] && t[..8][k] == t[k];
  }

  /** The file with a chunk put in `offset` bytes after the header, its size corrected. */
  function Inserted(bytes: seq<Byte>, offset: nat, chunk: seq<Byte>): seq<Byte>
    requires 12 + offset <= |bytes| && U32(bytes, 4) + |chunk| < 0x1_0000_0000
  {
    bytes[..4] + Le32(U32(bytes, 4) + |chunk|) + bytes[8..12 + offset] + chunk + bytes[12 + offset..]
  }

  /** A chunk the reader does not know, padded to an even length and put anywhere the walk comes to,
      changes nothing: the same audio, or the same refusal. */
  lemma UnknownChunkIsSkipped(bytes: seq<Byte>, offset: nat, tag: seq<Byte>, body: seq<Byte>, pad: seq<Byte>)
    requires |tag| == 4 && tag != FMT && tag != DATA
    requires |body| < 0x1_0000_0000 && |pad| == |body| % 2
    requires 12 + offset <= |bytes| && Visits(bytes[12..], offset)
    requires U32(bytes, 4) + |body| + |pad| + 8 < 0x1_0000_0000
    ensures Import(Inserted(bytes, offset, Chunk(tag, body) + pad)) == Import(bytes)
  {
    hide Walk, Decode, U32, Le32, Visits, Inserted, Chunk;
    var chunk := Chunk(tag, body) + pad;
    forall found, after ensures Walk(chunk + after, found) == Walk(after, found) {
      WalkChunk(tag, body, pad, after, found);
    }
    InsertedParts(bytes, offset, chunk);
    SkippedInWalk(bytes[12..], offset, chunk, NOTHING);
  }

  lemma InsertedParts(bytes: seq<Byte>, offset: nat, chunk: seq<Byte>)
    requires 12 + offset <= |bytes| && U32(bytes, 4) + |chunk| < 0x1_0000_0000
    ensures var (all, rest) := (Inserted(bytes, offset, chunk), bytes[12..]);
      && |all| == |bytes| + |chunk| && all[..4] == bytes[..4] && all[8..12] == bytes[8..12]
      && U32(all, 4) == U32(bytes, 4) + |chunk| && all[12..] == rest[..offset] + chunk + rest[offset..]
  {
    var all, rest, size := Inserted(bytes, offset, chunk), bytes[12..], Le32(U32(bytes, 4) + |chunk|);
    hide U32, Le32;
    AfterTwelve(bytes, offset);
    Regrouped(bytes[..4], size, bytes[8..12], rest[..offset], chunk, rest[offset..]);
    Spliced(bytes[..4], size, bytes[8..12], rest[..offset], chunk, rest[offset..]);
    hide Inserted;
    U32At(all, 4, U32(bytes, 4) + |chunk|);
  }

  lemma AfterTwelve(bytes: seq<Byte>, offset: nat)
    requires 12 + offset <= |bytes|
    ensures var rest := bytes[12..];
      bytes[8..12 + offset] == bytes[8..12] + rest[..offset] && bytes[12 + offset..] == rest[offset..]
  {
  }

  lemma Regrouped(a: seq<Byte>, b: seq<Byte>, c: seq<Byte>, d: seq<Byte>, e: seq<Byte>, f: seq<Byte>)
    ensures a + b + (c + d) + e + f == a + b + c + d + e + f
  {
    assert a + b + (c + d) == a + b + c + d;
  }

  lemma Spliced(a: seq<Byte>, b: seq<Byte>, c: seq<Byte>, d: seq<Byte>, e: seq<Byte>, f: seq<Byte>)
    requires |a| == |b| == |c| == 4
    ensures var all := a + b + c + d + e + f;
      all[..4] == a && all[4..8] == b && all[8..12] == c && all[12..] == d + e + f
  {
  }

  // ---------------------------------------------------------------- the writer

  const LIST: seq<Byte> := [76, 73, 83, 84]
  const INFO_COMMENT: seq<Byte> := [73, 78, 70, 79, 73, 67, 77, 84]

  function Pack16(v: int): seq<Byte>
    requires -0x8000 <= v < 0x8000
  {
    Le16(if v < 0 then v + 0x1_0000 else v)
  }

  function PackAll(samples: seq<int>): (b: seq<Byte>)
    requires forall k :: 0 <= k < |samples| ==> -0x8000 <= samples[k] < 0x8000
    ensures |b| == 2 * |samples|
  {
    if samples == [] then [] else PackAll(samples[..|samples| - 1]) + Pack16(samples[|samples| - 1])
  }

  function Terminated(info: seq<Byte>): (text: seq<Byte>)
    ensures |text| % 2 == 0 && |info| < |text| <= |info| + 2
  {
    if |info| % 2 == 0 then info + [0, 0] else info + [0]
  }

  function WrittenLength(samples: seq<int>, info: seq<Byte>): nat {
    4 + 24 + 8 + 12 + |Terminated(info)| + 8 + 2 * |samples|
  }

  /** The values the format has room for, outside which packing raises; and text that is ASCII. */
  predicate Packable(samples: seq<int>, rate: int, channels: int, info: seq<Byte>) {
    && (forall k :: 0 <= k < |samples| ==> -0x8000 <= samples[k] < 0x8000)
    && 0 <= rate < 0x1_0000_0000 && 0 <= channels && channels * 2 < 0x1_0000
    && rate * (channels * 2) < 0x1_0000_0000 && (forall k :: 0 <= k < |info| ==> info[k] < 128)
    && WrittenLength(samples, info) < 0x1_0000_0000
  }

  function FormatBody(rate: int, channels: int): (b: seq<Byte>)
    requires 0 <= rate < 0x1_0000_0000 && 0 <= channels && channels * 2 < 0x1_0000
    requires rate * (channels * 2) < 0x1_0000_0000
    ensures |b| == 16
  {
    Le16(PCM) + Le16(channels) + Le32(rate) + Le32(ByteRate(rate, channels)) + Le16(channels * 2) + Le16(16)
  }

  function ByteRate(rate: int, channels: int): (n: nat)
    requires 0 <= rate && 0 <= channels
    ensures n == rate * (channels * 2)
  {
    rate * (channels * 2)
  }

  function ListBody(info: seq<Byte>): (b: seq<Byte>)
    requires |Terminated(info)| < 0x1_0000_0000
    ensures |b| == 12 + |Terminated(info)|
  {
    INFO_COMMENT + Le32(|Terminated(info)|) + Terminated(info)
  }

  function WrittenChunks(samples: seq<int>, rate: int, channels: int, info: seq<Byte>): (c: seq<Byte>)
    requires Packable(samples, rate, channels, info)
    ensures 4 + |c| == WrittenLength(samples, info)
  {
    Chunk(FMT, FormatBody(rate, channels)) + Chunk(LIST, ListBody(info)) + Chunk(DATA, PackAll(samples))
  }

  /** The 16-bit file: a format chunk, a comment, and the samples. */
  function WavBytes(samples: seq<int>, rate: int, channels: int, info: seq<Byte>): seq<Byte>
    requires Packable(samples, rate, channels, info)
  {
    var chunks := WrittenChunks(samples, rate, channels, info);
    RIFF + Le32(4 + |chunks|) + WAVE + chunks
  }

  /** What was written, as the reader should give it back. */
  function Heard(samples: seq<int>): (s: seq<Sample>)
    ensures |s| == |samples| && forall k :: 0 <= k < |s| ==> s[k] == Pcm(samples[k] as real / 32768.0)
  {
    seq(|samples|, k requires 0 <= k < |samples| => Pcm(samples[k] as real / 32768.0))
  }

  function Expected(samples: seq<int>, rate: int, channels: int): Result<Audio> {
    if channels <= 0 || channels > MAX_CHANNELS then Refused(Channels)
    else if rate < MIN_RATE || rate > MAX_RATE then Refused(Rate)
    else
      var whole: nat := |samples| / channels * channels;
      if whole == 0 then Refused(NoFrames)
      else if whole * 4 > MAX_DECODED then Refused(TooLong)
      else Ok(Audio(channels, rate, Heard(samples)[..whole]))
  }

  lemma FormatRead(rate: int, channels: int)
    requires 0 <= rate < 0x1_0000_0000 && 0 <= channels && channels * 2 < 0x1_0000
    requires rate * (channels * 2) < 0x1_0000_0000
    ensures ReadFormat(FormatBody(rate, channels)) == Ok(Format(PCM, channels, rate, 16))
  {
    hide Le16, Le32, U16, U32, ByteRate;
    var b := FormatBody(rate, channels);
    assert b[0..2] == Le16(PCM) && b[2..4] == Le16(channels) && b[4..8] == Le32(rate) && b[14..16] == Le16(16);
    U16At(b, 0, PCM);
    U16At(b, 2, channels);
    U32At(b, 4, rate);
    U16At(b, 14, 16);
  }

  lemma SampleRead(v: int)
    requires -0x8000 <= v < 0x8000
    ensures |Pack16(v)| == 2 && DecodeSample(Pack16(v), 16, false) == Pcm(v as real / 32768.0)
  {
    SmallFloat(v);
    hide ToFloat;
    var n := if v < 0 then v + 0x1_0000 else v;
    assert Pack16(v)[0..2] == Le16(n);
    U16At(Pack16(v), 0, n);
  }

  /** An integer sample of any width the reader decodes, as files hold it: eight bits unsigned about 128, the
      wider ones two's complement. */
  function PackSample(v: int, bits: nat): (b: seq<Byte>)
    requires bits in {8, 16, 24, 32} && -Half(bits) <= v < Half(bits)
    ensures |b| == bits / 8
  {
    var n := if v < 0 then v + 2 * Half(bits) else v;
    if bits == 8 then [v + 128]
    else if bits == 16 then Le16(n)
    else if bits == 24 then Le16(n % 0x1_0000) + [n / 0x1_0000]
    else Le32(n)
  }

  function Half(bits: nat): int {
    if bits == 8 then 0x80 else if bits == 16 then 0x8000 else if bits == 24 then 0x80_0000 else 0x8000_0000
  }

  /** Every width is decoded to the fraction of full scale it stands for, as near as a float comes to it:
      exactly, unless thirty-two bits are too many for one. It is from -1 to 1, and 1 only by rounding. */
  lemma SampleInverts(v: int, bits: nat)
    requires bits in {8, 16, 24, 32} && -Half(bits) <= v < Half(bits)
    ensures DecodeSample(PackSample(v, bits), bits, false) == Pcm(ToFloat(v) as real / Half(bits) as real)
    ensures bits < 32 || IsFloat(v) ==> ToFloat(v) == v
    ensures -Half(bits) <= ToFloat(v) <= Half(bits) && (ToFloat(v) == Half(bits) ==> bits == 32)
  {
    hide U16, U32, Le16, Le32, ToFloat, IsFloat;
    var n := if v < 0 then v + 2 * Half(bits) else v;
    var b := PackSample(v, bits);
    if bits == 16 {
      assert b[0..2] == Le16(n);
      U16At(b, 0, n);
    } else if bits == 24 {
      assert b[0..2] == Le16(n % 0x1_0000);
      U16At(b, 0, n % 0x1_0000);
    } else if bits == 32 {
      assert b[0..4] == Le32(n);
      U32At(b, 0, n);
    } else {
      SmallFloat(v + 128);
    }
    if bits < 32 {
      SmallFloat(v);
    } else {
      FloatInRange(v);
    }
  }

  /** Twenty-four bits hold every sample of the narrower widths. */
  lemma SmallFloat(v: int)
    requires -0x100_0000 < v < 0x100_0000
    ensures ToFloat(v) == v
  {
    SmallExact(Abs(v));
  }

  lemma FloatInRange(v: int)
    requires -0x8000_0000 <= v <= 0x8000_0000
    ensures -0x8000_0000 <= ToFloat(v) <= 0x8000_0000
    ensures IsFloat(v) ==> ToFloat(v) == v
  {
    FullScaleIsFloat();
    hide ToFloat, IsFloat;
    RoundsToNearest(v, 0x8000_0000);
    RoundsToNearest(v, -0x8000_0000);
    if IsFloat(v) {
      RoundsToNearest(v, v);
    }
  }

  lemma FullScaleIsFloat()
    ensures IsFloat(0x8000_0000) && IsFloat(-0x8000_0000)
  {
    assert Unit(0x100_0000) == 2 * Unit(0x80_0000) == 2;
    assert Unit(0x1000_0000) == 2 * Unit(0x800_0000) == 4 * Unit(0x400_0000) == 8 * Unit(0x200_0000) == 32;
    assert Unit(0x8000_0000) == 2 * Unit(0x4000_0000) == 4 * Unit(0x2000_0000) == 8 * Unit(0x1000_0000);
  }

  lemma {:induction false} PackAllAt(samples: seq<int>, k: nat)
    requires forall k :: 0 <= k < |samples| ==> -0x8000 <= samples[k] < 0x8000
    requires k < |samples|
    ensures PackAll(samples)[2 * k..2 * k + 2] == Pack16(samples[k])
    decreases |samples|
  {
    hide Pack16;
    var n := |samples| - 1;
    if k < n {
      PackAllAt(samples[..n], k);
      assert PackAll(samples)[2 * k..2 * k + 2] == PackAll(samples[..n])[2 * k..2 * k + 2];
    }
  }

  lemma {:induction false} SamplesRead(samples: seq<int>, count: nat)
    requires forall k :: 0 <= k < |samples| ==> -0x8000 <= samples[k] < 0x8000
    requires count <= |samples|
    ensures Samples(PackAll(samples), 2, false, count) == Heard(samples)[..count]
  {
    hide Pack16, PackAll;
    if count > 0 {
      var k := count - 1;
      SamplesRead(samples, k);
      PackAllAt(samples, k);
      SampleRead(samples[k]);
      assert k * 2 == 2 * k && count * 2 == 2 * k + 2;
    }
  }

  lemma WalkEvenChunk(tag: seq<Byte>, body: seq<Byte>, rest: seq<Byte>, found: Found)
    requires |tag| == 4 && |body| < 0x1_0000_0000 && |body| % 2 == 0
    ensures Walk(Chunk(tag, body) + rest, found) == WalkOn(rest, Take(found, tag, body))
  {
    hide Chunk, Walk, WalkOn, Take;
    WalkChunk(tag, body, [], rest, found);
    assert Chunk(tag, body) + [] == Chunk(tag, body);
  }

  ghost function Written(samples: seq<int>, rate: int, channels: int): Found
    requires 0 <= rate && 0 <= channels
    requires forall k :: 0 <= k < |samples| ==> -0x8000 <= samples[k] < 0x8000
  {
    Found(Present(Format(PCM, channels, rate, 16)), Present(PackAll(samples)))
  }

  lemma WalkWritten(samples: seq<int>, rate: int, channels: int, info: seq<Byte>)
    requires Packable(samples, rate, channels, info)
    ensures Walk(WrittenChunks(samples, rate, channels, info), NOTHING) == Ok(Written(samples, rate, channels))
  {
    hide FormatBody, ListBody, ReadFormat, Chunk, PackAll, Walk;
    FormatRead(rate, channels);
    WalkThree(FormatBody(rate, channels), ListBody(info), PackAll(samples), Format(PCM, channels, rate, 16));
    var f, l, d := Chunk(FMT, FormatBody(rate, channels)), Chunk(LIST, ListBody(info)), Chunk(DATA, PackAll(samples));
    assert f + l + d == f + (l + d);
  }

  lemma WalkThree(format: seq<Byte>, list: seq<Byte>, data: seq<Byte>, read: Format)
    requires |format| % 2 == |list| % 2 == |data| % 2 == 0
    requires |format| < 0x1_0000_0000 && |list| < 0x1_0000_0000 && |data| < 0x1_0000_0000
    requires ReadFormat(format) == Ok(read)
    ensures Walk(Chunk(FMT, format) + (Chunk(LIST, list) + Chunk(DATA, data)), NOTHING)
         == Ok(Found(Present(read), Present(data)))
  {
    TakeEach(NOTHING, format, list, data);
    var found := Found(Present(read), Absent);
    TakeEach(found, format, list, data);
    hide Chunk, Walk, Take, ReadFormat;
    var l, d := Chunk(LIST, list), Chunk(DATA, data);
    WalkEvenChunk(FMT, format, l + d, NOTHING);
    WalkEvenChunk(LIST, list, d, found);
    WalkEvenChunk(DATA, data, [], found);
    assert d + [] == d;
    NothingLeft(Found(Present(read), Present(data)));
  }

  lemma TakeEach(found: Found, format: seq<Byte>, list: seq<Byte>, data: seq<Byte>)
    requires ReadFormat(format).Ok?
    ensures Take(found, FMT, format) == Ok(found.(format := Present(ReadFormat(format).value)))
    ensures Take(found, LIST, list) == Ok(found)
    ensures Take(found, DATA, data) == Ok(found.(data := Present(data)))
  {
    hide ReadFormat;
    assert FMT[0] != LIST[0] && FMT[0] != DATA[0] && LIST[0] != DATA[0];
  }

  lemma NothingLeft(found: Found)
    ensures Walk([], found) == Ok(found)
  {
  }

  lemma SameFrames(count: nat, channels: nat)
    requires channels in {1, 2}
    ensures 2 * count / (2 * channels) == count / channels && count / channels * channels <= count
  {
  }

  lemma DecodeWritten(samples: seq<int>, rate: int, channels: int, info: seq<Byte>)
    requires Packable(samples, rate, channels, info)
    ensures Decode(Written(samples, rate, channels)) == Expected(samples, rate, channels)
  {
    hide Samples, PackAll, Heard;
    if 1 <= channels <= 2 {
      SameFrames(|samples|, channels);
      SamplesRead(samples, |samples| / channels * channels);
    }
  }

  /** The reader inverts the writer: every list of samples comes back as it was written, cut to whole
      frames; a channel count, rate or length outside the limits is refused for that reason. */
  lemma ImportInvertsWriter(samples: seq<int>, rate: int, channels: int, info: seq<Byte>)
    requires Packable(samples, rate, channels, info)
    ensures Import(WavBytes(samples, rate, channels, info)) == Expected(samples, rate, channels)
  {
    var b, chunks := WavBytes(samples, rate, channels, info), WrittenChunks(samples, rate, channels, info);
    assert b == RIFF + Le32(4 + |chunks|) + WAVE + chunks;
    hide Import, Walk, Decode, U32, Le32, Written, WrittenChunks, WavBytes, Expected, Packable;
    HeaderRead(b, chunks);
    WalkWritten(samples, rate, channels, info);
    ImportIsDecode(b, chunks, Written(samples, rate, channels));
    DecodeWritten(samples, rate, channels, info);
  }

  lemma ImportIsDecode(b: seq<Byte>, chunks: seq<Byte>, found: Found)
    requires |b| >= 12 && b[..4] == RIFF && b[8..12] == WAVE && b[12..] == chunks && U32(b, 4) + 8 <= |b|
    requires Walk(chunks, NOTHING) == Ok(found)
    ensures Import(b) == Decode(found)
  {
  }

  lemma HeaderRead(b: seq<Byte>, chunks: seq<Byte>)
    requires 4 + |chunks| < 0x1_0000_0000 && b == RIFF + Le32(4 + |chunks|) + WAVE + chunks
    ensures |b| == 12 + |chunks| && b[..4] == RIFF && b[8..12] == WAVE && b[12..] == chunks
    ensures U32(b, 4) == 4 + |chunks|
  {
    hide Le32, U32;
    assert b[4..8] == Le32(4 + |chunks|);
    U32At(b, 4, 4 + |chunks|);
  }

  // ---------------------------------------------------------------- the reader itself

  /** Whether the bytes at `offset` are this tag. */
  method TagIs(bytes: seq<Byte>, offset: nat, tag: seq<Byte>) returns (same: bool)
    ensures same <==> offset + |tag| <= |bytes| && bytes[offset..offset + |tag|] == tag
  {
    if offset + |tag| > |bytes| {
      return false;
    }
    for i := 0 to |tag|
      invariant bytes[offset..offset + i] == tag[..i]
    {
      if bytes[offset + i] != tag[i] {
        assert bytes[offset..offset + |tag|][i] != tag[i];
        return false;
      }
      assert bytes[offset..offset + i + 1] == bytes[offset..offset + i] + [bytes[offset + i]];
    }
    assert tag[..|tag|] == tag;
    return true;
  }

  /** The chunk walk, by offsets into the file. It ends on any bytes, reading none out of range. */
  method WalkChunks(bytes: seq<Byte>) returns (found: Result<Found>)
    requires |bytes| >= 12
    ensures found == Walk(bytes[12..], NOTHING)
  {
    hide ReadFormat, Walk, U32, Take, Drop, WalkOn;
    var format, data := Absent, Absent;
    var offset := 12;
    assert Drop(bytes, offset) == bytes[12..] by { DropFits(bytes, offset); }
    while offset + 8 <= |bytes|
      invariant offset >= 12
      invariant Walk(Drop(bytes, offset), Found(format, data)) == Walk(bytes[12..], NOTHING)
      decreases |bytes| + 8 - offset
    {
      var size := U32(bytes, offset + 4);
      var body := offset + 8;
      if body + size > |bytes| {
        StopsShort(bytes, offset, Found(format, data));
        return Refused(ChunkPastEnd);
      }
      ghost var was := Found(format, data);
      var isFormat := TagIs(bytes, offset, FMT);
      var isData := TagIs(bytes, offset, DATA);
      StepsOver(bytes, offset, size, was);
      TakeByTag(was, bytes[offset..offset + 4], bytes[body..body + size]);
      GoesOn(Drop(bytes, offset + 8 + size + size % 2), Take(was, bytes[offset..offset + 4], bytes[body..body + size]));
      if isFormat {
        var read := ReadFormat(bytes[body..body + size]);
        if read.Refused? {
          return Refused(read.why);
        }
        format := Present(read.value);
      } else if isData {
        data := Present(bytes[body..body + size]);
      }
      var advance := 8 + size + size % 2;
      assert advance != 0;
      offset := offset + advance;
    }
    WalkEnds(bytes, offset, Found(format, data));
    return Ok(Found(format, data));
  }

  lemma DropFits(bytes: seq<Byte>, n: nat)
    requires n <= |bytes|
    ensures Drop(bytes, n) == bytes[n..]
  {
  }

  lemma WalkEnds(bytes: seq<Byte>, offset: nat, found: Found)
    requires offset + 8 > |bytes|
    ensures Walk(Drop(bytes, offset), found) == Ok(found)
  {
    hide U32, Take;
  }

  lemma StopsShort(bytes: seq<Byte>, offset: nat, found: Found)
    requires offset + 8 <= |bytes| < offset + 8 + U32(bytes, offset + 4)
    ensures Walk(Drop(bytes, offset), found) == Refused(ChunkPastEnd)
  {
    HeadChunk(bytes, offset);
    hide U32, Take;
  }

  lemma GoesOn(rest: seq<Byte>, taken: Result<Found>)
    ensures WalkOn(rest, taken) == if taken.Ok? then Walk(rest, taken.value) else Refused(taken.why)
  {
    hide Walk;
  }

  lemma TakeByTag(found: Found, tag: seq<Byte>, body: seq<Byte>)
    ensures tag == FMT && ReadFormat(body).Refused? ==> Take(found, tag, body) == Refused(ReadFormat(body).why)
    ensures tag == FMT && ReadFormat(body).Ok?
        ==> Take(found, tag, body) == Ok(Found(Present(ReadFormat(body).value), found.data))
    ensures tag != FMT && tag == DATA ==> Take(found, tag, body) == Ok(Found(found.format, Present(body)))
    ensures tag != FMT && tag != DATA ==> Take(found, tag, body) == Ok(found)
  {
    hide ReadFormat;
  }

  lemma HeadChunk(bytes: seq<Byte>, offset: nat)
    requires offset + 8 <= |bytes|
    ensures Drop(bytes, offset) == bytes[offset..] && bytes[offset..][..4] == bytes[offset..offset + 4]
    ensures U32(bytes[offset..], 4) == U32(bytes, offset + 4)
  {
  }

  lemma WalkHead(rest: seq<Byte>, size: nat, found: Found)
    requires |rest| >= 8 && size == U32(rest, 4) && 8 + size <= |rest|
    ensures Walk(rest, found) == WalkOn(Drop(rest, Span(size)), Take(found, rest[..4], rest[8..8 + size]))
  {
    hide U32, Take;
  }

  lemma DropTwice(bytes: seq<Byte>, offset: nat, n: nat)
    requires offset <= |bytes|
    ensures Drop(bytes[offset..], n) == Drop(bytes, offset + n)
  {
  }

  lemma StepsOver(bytes: seq<Byte>, offset: nat, size: nat, found: Found)
    requires offset + 8 <= |bytes| && size == U32(bytes, offset + 4) && offset + 8 + size <= |bytes|
    ensures Walk(Drop(bytes, offset), found)
         == WalkOn(Drop(bytes, offset + 8 + size + size % 2),
                   Take(found, bytes[offset..offset + 4], bytes[offset + 8..offset + 8 + size]))
  {
    hide Walk, WalkOn, Take, U32, Drop;
    var rest := bytes[offset..];
    HeadChunk(bytes, offset);
    DropTwice(bytes, offset, Span(size));
    WalkHead(rest, size, found);
    assert rest[8..8 + size] == bytes[offset + 8..offset + 8 + size];
  }

  function Product(a: nat, b: nat): nat { a * b }

  /** The samples, frame by frame and channel by channel, each put in its place. */
  method DecodeFrames(data: seq<Byte>, width: nat, isFloat: bool, channels: nat, frames: nat)
      returns (samples: array<Sample>)
    requires width in {1, 2, 3, 4} && (isFloat ==> width == 4) && channels in {1, 2}
    requires Product(Product(frames, channels), width) <= |data|
    ensures fresh(samples)
    ensures samples[..] == Samples(data, width, isFloat, Product(frames, channels))
  {
    hide Samples, Filled, Product;
    samples := new Sample[Product(frames, channels)](_ => Pcm(0.0));
    NoneFilled(samples[..], data, width, isFloat);
    ProductSteps(0, channels);
    for frame: nat := 0 to frames
      invariant Filled(samples[..], data, width, isFloat, Product(frame, channels))
    {
      FrameFits(frame, frames, channels);
      ProductSteps(frame, channels);
      for channel: nat := 0 to channels
        invariant Filled(samples[..], data, width, isFloat, Product(frame, channels) + channel)
      {
        var index, at := Product(frame, channels) + channel, Product(frame, Product(width, channels)) + Product(channel, width);
        SampleOffset(frame, channel, channels, width);
        SampleFits(index, Product(frames, channels), width);
        DecodeInto(samples, data, width, isFloat, index, at);
      }
    }
    AllFilled(samples[..], data, width, isFloat, Product(frames, channels));
  }

  lemma ProductSteps(a: nat, b: nat)
    ensures Product(a + 1, b) == Product(a, b) + b && Product(0, b) == 0
  {
  }

  lemma FrameFits(frame: nat, frames: nat, channels: nat)
    requires frame < frames
    ensures Product(frame, channels) + channels <= Product(frames, channels)
  {
    assert (frame + 1) * channels <= frames * channels;
  }

  lemma SampleFits(index: nat, count: nat, width: nat)
    requires index < count
    ensures Product(index, width) + width <= Product(count, width)
  {
    assert (index + 1) * width <= count * width;
  }

  lemma SampleOffset(frame: nat, channel: nat, channels: nat, width: nat)
    ensures Product(frame, Product(width, channels)) + Product(channel, width)
         == Product(Product(frame, channels) + channel, width)
  {
  }

  method DecodeInto(samples: array<Sample>, data: seq<Byte>, width: nat, isFloat: bool, index: nat, at: nat)
    requires width in {1, 2, 3, 4} && (isFloat ==> width == 4)
    requires index < samples.Length && at == Product(index, width) && at + width <= |data|
    requires Filled(samples[..], data, width, isFloat, index)
    modifies samples
    ensures Filled(samples[..], data, width, isFloat, index + 1)
  {
    hide DecodeSample;
    ghost var was := samples[..];
    samples[index] := DecodeSample(data[at..at + width], 8 * width, isFloat);
    assert samples[..index] == was[..index];
    assert (index + 1) * width == index * width + width;
  }

  lemma NoneFilled(samples: seq<Sample>, data: seq<Byte>, width: nat, isFloat: bool)
    requires width in {1, 2, 3, 4} && (isFloat ==> width == 4)
    ensures Filled(samples, data, width, isFloat, 0)
  {
  }

  lemma AllFilled(samples: seq<Sample>, data: seq<Byte>, width: nat, isFloat: bool, count: nat)
    requires width in {1, 2, 3, 4} && (isFloat ==> width == 4) && count == |samples|
    requires Filled(samples, data, width, isFloat, count)
    ensures samples == Samples(data, width, isFloat, count)
  {
    assert samples[..count] == samples;
  }

  ghost predicate Filled(samples: seq<Sample>, data: seq<Byte>, width: nat, isFloat: bool, count: nat)
    requires width in {1, 2, 3, 4} && (isFloat ==> width == 4)
  {
    count <= |samples| && count * width <= |data| && samples[..count] == Samples(data, width, isFloat, count)
  }

  /** The whole reader: on any bytes, what `Import` says. */
  method ImportWav(bytes: seq<Byte>) returns (r: Result<Audio>)
    ensures r == Import(bytes)
  {
    hide Walk, Samples, U32;
    var isRiff := TagIs(bytes, 0, RIFF);
    var isWave := TagIs(bytes, 8, WAVE);
    if |bytes| < 12 || !isRiff || !isWave {
      return Refused(NotRiff);
    }
    assert bytes[0..4] == bytes[..4];
    if U32(bytes, 4) + 8 > |bytes| {
      return Refused(Truncated);
    }
    var walked := WalkChunks(bytes);
    if walked.Refused? {
      return Refused(walked.why);
    }
    r := DecodeFound(walked.value);
  }

  method DecodeFound(found: Found) returns (r: Result<Audio>)
    ensures r == Decode(found)
  {
    hide Samples;
    if found.format.Absent? {
      return Refused(NoFormat);
    }
    if found.data.Absent? {
      return Refused(NoData);
    }
    var format, data := found.format.value, found.data.value;
    var decodable := Decodable(format);
    if decodable.Refused? {
      return Refused(decodable.why);
    }
    var width := format.bits / 8;
    assert width * format.channels != 0;
    var frames := |data| / (width * format.channels);
    if frames == 0 {
      return Refused(NoFrames);
    }
    if frames * format.channels * 4 > MAX_DECODED {
      return Refused(TooLong);
    }
    FramesFit(|data|, width, format.channels);
    var samples := DecodeFrames(data, width, format.tag == FLOAT, format.channels, frames);
    return Ok(Audio(format.channels, format.rate, samples[..]));
  }
}
