/** What the RIFF/WAVE reader makes of a file, read off the file itself: which chunks it goes by, where the
    fields stand in them, what it refuses and why, and which bytes each sample comes from. */
module WavLaws {
  import opened Bytes
  import opened Waves
  import opened Division

  // ---------------------------------------------------------------- the chunks of any file

  datatype Piece = Piece(tag: seq<Byte>, body: seq<Byte>)

  /** The chunks one after the other, each padded to an even length, and then `tail`. */
  predicate LaidOut(rest: seq<Byte>, pieces: seq<Piece>, tail: seq<Byte>)
    decreases |pieces|
  {
    if pieces == [] then rest == tail
    else
      var size := |pieces[0].body|;
      && |rest| >= 8 + size && rest[..4] == pieces[0].tag && U32(rest, 4) == size
      && rest[8..8 + size] == pieces[0].body
      && LaidOut(if size % 2 == 1 && |rest| > 8 + size then rest[9 + size..] else rest[8 + size..], pieces[1..], tail)
  }

  /** No further chunk is whole here. */
  predicate NoWhole(tail: seq<Byte>) {
    |tail| < 8 || U32(tail, 4) > |tail| - 8
  }

  /** Whatever the bytes are, they are some chunks and then no whole one. */
  lemma {:induction false} EveryFile(rest: seq<Byte>) returns (pieces: seq<Piece>, tail: seq<Byte>)
    ensures LaidOut(rest, pieces, tail) && NoWhole(tail)
    decreases |rest|
  {
    hide U32;
    if NoWhole(rest) {
      return [], rest;
    }
    var size := U32(rest, 4);
    var later, end := EveryFile(if size % 2 == 1 && |rest| > 8 + size then rest[9 + size..] else rest[8 + size..]);
    pieces, tail := [Piece(rest[..4], rest[8..8 + size])] + later, end;
    assert pieces[1..] == later;
  }

  predicate IsFormat(p: Piece) { p.tag == [0x66, 0x6D, 0x74, 0x20] }

  predicate IsData(p: Piece) { p.tag == [0x64, 0x61, 0x74, 0x61] }

  /** A format chunk without room for its fields. */
  predicate Misformed(p: Piece) { IsFormat(p) && ReadFormat(p.body).Refused? }

  predicate LastFormat(pieces: seq<Piece>, k: nat) {
    k < |pieces| && IsFormat(pieces[k]) && forall j :: k < j < |pieces| ==> !IsFormat(pieces[j])
  }

  predicate LastData(pieces: seq<Piece>, k: nat) {
    k < |pieces| && IsData(pieces[k]) && forall j :: k < j < |pieces| ==> !IsData(pieces[j])
  }

  predicate NoFormatIn(pieces: seq<Piece>) { forall j :: 0 <= j < |pieces| ==> !IsFormat(pieces[j]) }

  predicate NoDataIn(pieces: seq<Piece>) { forall j :: 0 <= j < |pieces| ==> !IsData(pieces[j]) }

  predicate NoneMisformed(pieces: seq<Piece>) { forall j :: 0 <= j < |pieces| ==> !Misformed(pieces[j]) }

  /** The format found is this chunk's. */
  predicate Reads(found: Found, p: Piece) {
    found.format.Present? && ReadFormat(p.body) == Ok(found.format.value)
  }

  /** What the chunks say: the last format chunk and the last data chunk. */
  ghost predicate Says(pieces: seq<Piece>, before: Found, found: Found) {
    && (NoFormatIn(pieces) ==> found.format == before.format) && (NoDataIn(pieces) ==> found.data == before.data)
    && (forall k: nat :: LastFormat(pieces, k) ==> Reads(found, pieces[k]))
    && (forall k: nat :: LastData(pieces, k) ==> found.data == Present(pieces[k].body))
  }

  /** The walk's answer for these chunks and what is left over. */
  ghost predicate Answers(pieces: seq<Piece>, tail: seq<Byte>, before: Found, r: Result<Found>) {
    if !NoneMisformed(pieces) then r.Refused? && exists k: nat :: RefusesFor(pieces, k, r.why)
    else if |tail| >= 8 then r == Refused(ChunkPastEnd)
    else r.Ok? && Says(pieces, before, r.value)
  }

  /** Refused for the first format chunk without room for its fields. */
  predicate RefusesFor(pieces: seq<Piece>, k: nat, why: Refusal) {
    k < |pieces| && Misformed(pieces[k]) && NoneMisformed(pieces[..k]) && ReadFormat(pieces[k].body) == Refused(why)
  }

  /** The last format chunk and the last data chunk count, wherever they stand and whatever else there is; a
      format chunk too small is refused if nothing was before it, and then a chunk that runs past the end. */
  lemma {:induction false} WalkDoes(rest: seq<Byte>, pieces: seq<Piece>, tail: seq<Byte>, before: Found)
    requires LaidOut(rest, pieces, tail) && NoWhole(tail)
    ensures Answers(pieces, tail, before, Walk(rest, before))
    decreases |pieces|
  {
    hide *;
    if pieces == [] {
      NothingWhole(rest, tail, before);
    } else {
      var next := FirstPiece(rest, pieces, tail, before);
      TakesPiece(pieces[0], before);
      var taken := Take(before, pieces[0].tag, pieces[0].body);
      if taken.Ok? {
        WalkDoes(next, pieces[1..], tail, taken.value);
        AnswersMore(pieces, tail, before, taken.value, Walk(next, taken.value));
      } else {
        MisformedFirst(pieces, tail, before, taken);
      }
    }
  }

  lemma NothingWhole(rest: seq<Byte>, tail: seq<Byte>, before: Found)
    requires LaidOut(rest, [], tail) && NoWhole(tail)
    ensures Answers([], tail, before, Walk(rest, before))
  {
    hide U32, Take;
  }

  lemma FirstPiece(rest: seq<Byte>, pieces: seq<Piece>, tail: seq<Byte>, before: Found) returns (next: seq<Byte>)
    requires pieces != [] && LaidOut(rest, pieces, tail)
    ensures LaidOut(next, pieces[1..], tail)
    ensures var taken := Take(before, pieces[0].tag, pieces[0].body);
      Walk(rest, before) == if taken.Ok? then Walk(next, taken.value) else Refused(taken.why)
  {
    hide U32, Take;
    var size := |pieces[0].body|;
    next := if size % 2 == 1 && |rest| > 8 + size then rest[9 + size..] else rest[8 + size..];
    assert Drop(rest, Span(size)) == next;
  }

  lemma TakesPiece(p: Piece, before: Found)
    ensures var taken := Take(before, p.tag, p.body);
      && (taken.Refused? <==> Misformed(p)) && (taken.Refused? ==> ReadFormat(p.body) == Refused(taken.why))
      && (taken.Ok? ==> if IsFormat(p) then Reads(taken.value, p) else taken.value.format == before.format)
      && (taken.Ok? ==> taken.value.data == if IsData(p) then Present(p.body) else before.data)
  {
    hide ReadFormat;
    assert FMT[0] != DATA[0];
  }

  lemma MisformedFirst(pieces: seq<Piece>, tail: seq<Byte>, before: Found, r: Result<Found>)
    requires pieces != [] && Misformed(pieces[0]) && r.Refused? && ReadFormat(pieces[0].body) == Refused(r.why)
    ensures Answers(pieces, tail, before, r)
  {
    hide ReadFormat;
    assert RefusesFor(pieces, 0, r.why);
  }

  lemma AnswersMore(pieces: seq<Piece>, tail: seq<Byte>, before: Found, mid: Found, r: Result<Found>)
    requires pieces != [] && !Misformed(pieces[0]) && Answers(pieces[1..], tail, mid, r)
    requires if IsFormat(pieces[0]) then Reads(mid, pieces[0]) else mid.format == before.format
    requires mid.data == if IsData(pieces[0]) then Present(pieces[0].body) else before.data
    ensures Answers(pieces, tail, before, r)
  {
    hide Misformed, IsFormat, IsData, Says;
    if !NoneMisformed(pieces[1..]) {
      var k: nat :| RefusesFor(pieces[1..], k, r.why);
      var front := pieces[..k + 1];
      forall j | 0 <= j < |front| ensures !Misformed(front[j]) {
        if j > 0 {
          assert front[j] == pieces[1..][..k][j - 1];
        }
      }
      assert RefusesFor(pieces, k + 1, r.why);
    } else {
      assert forall j :: 1 <= j < |pieces| ==> pieces[j] == pieces[1..][j - 1];
      if |tail| < 8 {
        SaysMore(pieces, before, mid, r.value);
      }
    }
  }

  lemma SaysMore(pieces: seq<Piece>, before: Found, mid: Found, found: Found)
    requires pieces != [] && Says(pieces[1..], mid, found)
    requires if IsFormat(pieces[0]) then Reads(mid, pieces[0]) else mid.format == before.format
    requires mid.data == if IsData(pieces[0]) then Present(pieces[0].body) else before.data
    ensures Says(pieces, before, found)
  {
    hide IsFormat, IsData, Reads;
    assert forall j :: 1 <= j < |pieces| ==> pieces[j] == pieces[1..][j - 1];
    forall k: nat | LastFormat(pieces, k) ensures Reads(found, pieces[k]) {
      if k > 0 {
        assert LastFormat(pieces[1..], k - 1);
      } else {
        SameReads(found, mid, pieces[0]);
      }
    }
    forall k: nat | LastData(pieces, k) ensures found.data == Present(pieces[k].body) {
      if k > 0 {
        assert LastData(pieces[1..], k - 1);
      }
    }
  }

  lemma SameReads(found: Found, mid: Found, p: Piece)
    requires Reads(mid, p) && found.format == mid.format
    ensures Reads(found, p)
  {
  }

  // ---------------------------------------------------------------- the format

  /** Where the fields stand: the tag, the channels, the rate, six bytes nothing is made of, the width; and in
      the extensible form the real tag, eight bytes into what follows. */
  lemma FormatDoes(tag: nat, channels: nat, rate: nat, six: seq<Byte>, bits: nat, extension: seq<Byte>, actual: nat)
    requires tag < 0x1_0000 && channels < 0x1_0000 && rate < 0x1_0000_0000 && |six| == 6 && bits < 0x1_0000
    requires actual < 0x1_0000 && (|extension| >= 10 ==> extension[8..10] == Le16(actual))
    ensures ReadFormat(Le16(tag) + Le16(channels) + Le32(rate) + six + Le16(bits) + extension)
         == if tag != 0xFFFE then Ok(Format(tag, channels, rate, bits))
            else if |extension| < 24 then Refused(ExtensionTooSmall) else Ok(Format(actual, channels, rate, bits))
  {
    hide Le16, Le32, U16, U32;
    var b := Le16(tag) + Le16(channels) + Le32(rate) + six + Le16(bits) + extension;
    assert b[0..2] == Le16(tag) && b[2..4] == Le16(channels) && b[4..8] == Le32(rate) && b[14..16] == Le16(bits);
    U16At(b, 0, tag);
    U16At(b, 2, channels);
    U32At(b, 4, rate);
    U16At(b, 14, bits);
    assert b[16..] == extension;
    if |extension| >= 24 {
      assert b[24..26] == extension[8..10];
      U16At(b, 24, actual);
    }
  }

  lemma FormatTooShort(body: seq<Byte>)
    ensures |body| < 16 <==> ReadFormat(body) == Refused(FormatTooSmall)
  {
  }

  // ---------------------------------------------------------------- the samples

  /** Whole numbers of four widths, or floats of one. */
  predicate Numbers(f: Format) {
    (f.tag == 1 && f.bits in {8, 16, 24, 32}) || (f.tag == 3 && f.bits == 32)
  }

  /** The formats that are decoded. */
  predicate Playable(f: Format) {
    Numbers(f) && 1 <= f.channels <= 2 && 8_000 <= f.rate <= 192_000
  }

  /** So many samples are the whole frames of so many bytes, each sample `width` wide. */
  predicate WholeFrames(count: nat, length: nat, width: nat, channels: nat) {
    channels > 0 && count % channels == 0 && count * width <= length < count * width + channels * width
  }

  /** The bytes a sample comes from. */
  function Slice(data: seq<Byte>, k: nat, width: nat): seq<Byte>
    requires k * width + width <= |data|
  {
    data[k * width..k * width + width]
  }

  lemma {:induction false} SampleFrom(data: seq<Byte>, width: nat, isFloat: bool, count: nat, k: nat)
    requires width in {1, 2, 3, 4} && (isFloat ==> width == 4) && count * width <= |data| && k < count
    ensures k * width + width <= |data|
    ensures Samples(data, width, isFloat, count)[k] == DecodeSample(Slice(data, k, width), 8 * width, isFloat)
    decreases count
  {
    hide DecodeSample;
    assert (count - 1) * width + width == count * width;
    if k < count - 1 {
      SampleFrom(data, width, isFloat, count - 1, k);
    }
  }

  /** A float sample is the four bytes' pattern, a whole one the fraction of full scale nearest the number they
      hold: `SampleInverts`. */
  lemma FloatKept(pattern: nat)
    requires pattern < 0x1_0000_0000
    ensures DecodeSample(Le32(pattern), 32, true) == Float(pattern)
  {
    hide Le32, U32;
    assert Le32(pattern)[0..4] == Le32(pattern);
    U32At(Le32(pattern), 0, pattern);
  }

  /** What is decoded: every whole frame and no more, each sample from its own bytes, provided the format is one
      of those played, there is a frame, and all of them fit in sixty-four mebibytes as floats. */
  lemma DecodeDoes(f: Format, data: seq<Byte>, count: nat)
    requires Playable(f) ==> WholeFrames(count, |data|, f.bits / 8, f.channels)
    ensures var r := Decode(Found(Present(f), Present(data)));
      && (r.Ok? <==> Playable(f) && 0 < count <= 16_777_216)
      && (r.Ok? ==> Decoded(f, data, count, r.value))
      && (Playable(f) ==> (r == Refused(NoFrames) <==> count == 0) && (r == Refused(TooLong) <==> count > 16_777_216))
  {
    hide Samples, DecodeSample;
    var r := Decode(Found(Present(f), Present(data)));
    if Playable(f) {
      var width := f.bits / 8;
      FramesAre(count, |data|, width, f.channels);
      FramesFit(|data|, width, f.channels);
      if 0 < count <= 16_777_216 {
        assert r == Ok(Audio(f.channels, f.rate, Samples(data, width, f.tag == 3, count)));
        forall k: nat | k < count ensures SampleIs(f, data, r.value.samples, k) {
          SampleFrom(data, width, f.tag == 3, count, k);
        }
      }
    }
  }

  predicate SampleIs(f: Format, data: seq<Byte>, samples: seq<Sample>, k: nat)
    requires Playable(f)
  {
    var width := f.bits / 8;
    && k < |samples| && k * width + width <= |data|
    && samples[k] == DecodeSample(Slice(data, k, width), f.bits, f.tag == 3)
  }

  ghost predicate Decoded(f: Format, data: seq<Byte>, count: nat, audio: Audio)
    requires Playable(f)
  {
    && audio.channels == f.channels && audio.rate == f.rate && |audio.samples| == count
    && forall k: nat :: k < count ==> SampleIs(f, data, audio.samples, k)
  }

  lemma FramesAre(count: nat, length: nat, width: nat, channels: nat)
    requires width in {1, 2, 3, 4} && channels in {1, 2} && WholeFrames(count, length, width, channels)
    ensures length / (width * channels) * channels == count
  {
    var frames, frame := count / channels, width * channels;
    assert count * width == frames * frame;
    QuotientIs(length, frame, frames);
  }

  lemma QuotientIs(n: nat, d: nat, q: nat)
    requires d > 0 && q * d <= n < q * d + d
    ensures n / d == q
  {
    Quotient(n, d, q, n - q * d);
    var e := n / d - q;
    assert e * d == 0;
    Scaled(e, d);
  }

  /** In what order an unplayable format is found at fault. */
  lemma UnplayableFor(f: Format, data: seq<Byte>)
    ensures var r := Decode(Found(Present(f), Present(data)));
      && (r == Refused(UnknownFormat) <==> f.tag !in {1, 3})
      && (r == Refused(FloatBits) <==> f.tag == 3 && f.bits != 32)
      && (r == Refused(IntegerBits) <==> f.tag == 1 && f.bits !in {8, 16, 24, 32})
      && (r == Refused(Channels) <==> Numbers(f) && f.channels !in {1, 2})
      && (r == Refused(Rate) <==> !Playable(f) && Playable(f.(rate := 8_000)))
  {
    hide Samples;
  }

  // ---------------------------------------------------------------- the whole file

  /** A whole file: refused unless it begins as a RIFF file of sound and is as long as it says, and else for
      what its chunks are refused for, and else decoded from its last format and its last data chunk, of which
      it must have one each, the format being missed first. */
  lemma ImportDoes(bytes: seq<Byte>, pieces: seq<Piece>, tail: seq<Byte>)
    requires |bytes| >= 12 ==> LaidOut(bytes[12..], pieces, tail) && NoWhole(tail)
    ensures var r := Import(bytes);
      if |bytes| < 12 || bytes[..4] != [0x52, 0x49, 0x46, 0x46] || bytes[8..12] != [0x57, 0x41, 0x56, 0x45]
      then r == Refused(NotRiff)
      else if U32(bytes, 4) > |bytes| - 8 then r == Refused(Truncated)
      else ImportsPieces(pieces, tail, r)
  {
    hide Walk, Decode, U32, LaidOut, NoWhole, Answers, ImportsPieces;
    if |bytes| >= 12 {
      WalkDoes(bytes[12..], pieces, tail, NOTHING);
      PiecesImported(pieces, tail, Walk(bytes[12..], NOTHING));
    }
  }

  ghost predicate ImportsPieces(pieces: seq<Piece>, tail: seq<Byte>, r: Result<Audio>) {
    if !NoneMisformed(pieces) then r.Refused? && exists k: nat :: RefusesFor(pieces, k, r.why)
    else if |tail| >= 8 then r == Refused(ChunkPastEnd)
    else if NoFormatIn(pieces) then r == Refused(NoFormat)
    else if NoDataIn(pieces) then r == Refused(NoData)
    else exists k: nat, j: nat ::
      LastFormat(pieces, k) && LastData(pieces, j) && DecodesTo(pieces[k].body, pieces[j].body, r)
  }

  /** These two bodies decode to this. */
  ghost predicate DecodesTo(format: seq<Byte>, data: seq<Byte>, r: Result<Audio>) {
    exists f :: ReadFormat(format) == Ok(f) && r == Decode(Found(Present(f), Present(data)))
  }

  lemma PiecesImported(pieces: seq<Piece>, tail: seq<Byte>, walked: Result<Found>)
    requires Answers(pieces, tail, NOTHING, walked)
    ensures ImportsPieces(pieces, tail, if walked.Ok? then Decode(walked.value) else Refused(walked.why))
  {
    hide ReadFormat, Misformed, IsFormat, IsData, Decodable;
    if !NoneMisformed(pieces) {
      var k: nat :| RefusesFor(pieces, k, walked.why);
    } else if |tail| < 8 && NoFormatIn(pieces) {
      assert walked.value.format.Absent?;
      assert Decode(walked.value) == Refused(NoFormat);
    } else if |tail| < 8 && NoDataIn(pieces) {
      var k := HasLastFormat(pieces);
      assert walked.value.data.Absent? && Reads(walked.value, pieces[k]);
      assert Decode(walked.value) == Refused(NoData);
    } else if |tail| < 8 {
      var k := HasLastFormat(pieces);
      var j := HasLastData(pieces);
      var found := walked.value;
      assert Reads(found, pieces[k]) && found.data == Present(pieces[j].body);
      assert found == Found(Present(found.format.value), Present(pieces[j].body));
      assert DecodesTo(pieces[k].body, pieces[j].body, Decode(found));
    }
  }

  lemma HasLastFormat(pieces: seq<Piece>) returns (k: nat)
    requires !NoFormatIn(pieces)
    ensures LastFormat(pieces, k)
  {
    var i :| 0 <= i < |pieces| && IsFormat(pieces[i]);
    k := i;
    hide IsFormat;
    for n: nat := i to |pieces|
      invariant k <= |pieces| - 1 && k <= n && IsFormat(pieces[k]) && forall j :: k < j < n ==> !IsFormat(pieces[j])
    {
      if IsFormat(pieces[n]) {
        k := n;
      }
    }
  }

  lemma HasLastData(pieces: seq<Piece>) returns (k: nat)
    requires !NoDataIn(pieces)
    ensures LastData(pieces, k)
  {
    var i :| 0 <= i < |pieces| && IsData(pieces[i]);
    k := i;
    hide IsData;
    for n: nat := i to |pieces|
      invariant k <= |pieces| - 1 && k <= n && IsData(pieces[k]) && forall j :: k < j < n ==> !IsData(pieces[j])
    {
      if IsData(pieces[n]) {
        k := n;
      }
    }
  }

  /** Cut anywhere, a file as long as it says is refused: nothing of it is played. */
  lemma CutIsRefused(bytes: seq<Byte>, n: nat)
    requires n < |bytes| && |bytes| >= 12 && U32(bytes, 4) + 8 == |bytes|
    ensures Import(bytes[..n]).Refused?
  {
    hide Walk, Decode;
    if n >= 12 {
      assert bytes[..n][4..8] == bytes[4..8];
      SameWord(bytes[..n], bytes);
    }
  }

  lemma SameWord(a: seq<Byte>, b: seq<Byte>)
    requires |a| >= 8 && |b| >= 8 && a[4..8] == b[4..8]
    ensures U32(a, 4) == U32(b, 4)
  {
    assert forall k :: 4 <= k < 8 ==> a[k] == a[4..8][k - 4] && b[k] == b[4..8][k - 4];
  }

  // ---------------------------------------------------------------- the written file

  /** The fields a file of sixteen-bit samples begins with. */
  predicate Begins(b: seq<Byte>, size: nat, channels: nat, rate: nat, byteRate: nat)
    requires size < 0x1_0000_0000 && channels * 2 < 0x1_0000 && rate < 0x1_0000_0000 && byteRate < 0x1_0000_0000
  {
    && |b| >= 44 && b[..4] == [0x52, 0x49, 0x46, 0x46] && b[4..8] == Le32(size)
    && b[8..16] == [0x57, 0x41, 0x56, 0x45, 0x66, 0x6D, 0x74, 0x20] && b[16..20] == [16, 0, 0, 0]
    && b[20..22] == [1, 0] && b[22..24] == Le16(channels) && b[24..28] == Le32(rate)
    && b[28..32] == Le32(byteRate) && b[32..34] == Le16(channels * 2) && b[34..36] == [16, 0]
    && b[36..40] == [0x4C, 0x49, 0x53, 0x54]
  }

  /** How a written file begins, the fields the reader skips among them. */
  lemma WrittenBegins(samples: seq<int>, rate: int, channels: int, info: seq<Byte>)
    requires Packable(samples, rate, channels, info)
    ensures var b, size := WavBytes(samples, rate, channels, info), WrittenLength(samples, info);
      |b| == size + 8 && Begins(b, size, channels, rate, rate * (channels * 2))
  {
    var list, data := WrittenParts(samples, rate, channels, info);
    FormatFields(rate, channels);
    assert Le32(16) == [16, 0, 0, 0];
    hide Le16, Le32, FormatBody, WavBytes, WrittenLength;
    BeginsWith(Le32(WrittenLength(samples, info)), Le32(16), FormatBody(rate, channels), list, data);
  }

  lemma WrittenParts(samples: seq<int>, rate: int, channels: int, info: seq<Byte>)
      returns (list: seq<Byte>, data: seq<Byte>)
    requires Packable(samples, rate, channels, info)
    ensures |list| >= 8 && list[..4] == LIST && WrittenLength(samples, info) == 28 + |list| + |data|
    ensures WavBytes(samples, rate, channels, info)
         == RIFF + Le32(WrittenLength(samples, info)) + WAVE
            + (FMT + Le32(16) + FormatBody(rate, channels) + list + data)
  {
    hide Le32, FormatBody, ListBody, PackAll;
    list, data := Chunk(LIST, ListBody(info)), Chunk(DATA, PackAll(samples));
  }

  lemma BeginsWith(size: seq<Byte>, sixteen: seq<Byte>, format: seq<Byte>, list: seq<Byte>, data: seq<Byte>)
    requires |size| == |sixteen| == 4 && |format| == 16 && |list| >= 8
    ensures var b := RIFF + size + WAVE + (FMT + sixteen + format + list + data);
      && b[..4] == RIFF && b[4..8] == size && b[8..16] == WAVE + FMT && b[16..20] == sixteen
      && b[20..22] == format[0..2] && b[22..24] == format[2..4] && b[24..28] == format[4..8]
      && b[28..32] == format[8..12] && b[32..34] == format[12..14] && b[34..36] == format[14..16]
      && b[36..40] == list[..4] && |b| == 36 + |list| + |data|
  {
  }

  lemma FormatFields(rate: int, channels: int)
    requires 0 <= rate < 0x1_0000_0000 && 0 <= channels && channels * 2 < 0x1_0000
    requires rate * (channels * 2) < 0x1_0000_0000
    ensures var b := FormatBody(rate, channels);
      && b[0..2] == [1, 0] && b[2..4] == Le16(channels) && b[4..8] == Le32(rate)
      && b[8..12] == Le32(rate * (channels * 2))
      && b[12..14] == Le16(channels * 2) && b[14..16] == [16, 0]
  {
    assert Le16(1) == [1, 0] && Le16(16) == [16, 0];
    hide Le16, Le32;
  }

  /** The comment a written file carries: its text ends with one zero byte, or two to come to an even length. */
  lemma CommentIs(info: seq<Byte>)
    requires |info| + 14 < 0x1_0000_0000
    ensures var text := if |info| % 2 == 0 then info + [0, 0] else info + [0];
      Chunk(LIST, ListBody(info))
      == [0x4C, 0x49, 0x53, 0x54] + Le32(12 + |text|)
         + ([0x49, 0x4E, 0x46, 0x4F, 0x49, 0x43, 0x4D, 0x54] + Le32(|text|) + text)
  {
    hide Le32;
  }
}
