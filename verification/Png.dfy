/** The texture writer: deflate in stored blocks, a zlib wrapper, and the chunks of a PNG, read back by
    decoders that follow section 3.2.4 of RFC 1951, section 2.2 of RFC 1950 and section 3.2 of RFC 2083. */
module Pngs {
  import opened Bytes

  // ---------------------------------------------------------------- checksums

  /** Adler-32: two running sums modulo the largest prime below 2^16. */
  datatype Sums = Sums(a: nat, b: nat)

  function AdlerSums(data: seq<Byte>): (s: Sums)
    ensures s.a < 65521 && s.b < 65521
  {
    if data == [] then Sums(1, 0)
    else
      var before := AdlerSums(data[..|data| - 1]);
      var last: nat := data[|data| - 1];
      var a := (before.a + last) % 65521;
      Sums(a, (before.b + a) % 65521)
  }

  function Adler32(data: seq<Byte>): (n: nat)
    ensures n < 0x1_0000_0000
  {
    AdlerSums(data).b * 0x1_0000 + AdlerSums(data).a
  }

  function Xor(a: bv32, b: bv32): bv32 { a ^ b }
  function Half(v: bv32): bv32 { v >> 1 }
  predicate Odd(v: bv32) { v & 1 == 1 }

  /** One bit of CRC-32. */
  function OneBit(v: bv32): bv32 { if Odd(v) then Xor(0xEDB88320, Half(v)) else Half(v) }

  function CrcBits(value: bv32, count: nat): bv32
    decreases count
  {
    if count == 0 then value else CrcBits(OneBit(value), count - 1)
  }

  /** A byte as a word, binary digit by binary digit. */
  function AsWord(x: Byte): bv32 {
    var h1: nat := x / 2;
    var h2, h3 := h1 / 2, h1 / 2 / 2;
    var h4, h5 := h3 / 2, h3 / 2 / 2;
    var h6, h7 := h5 / 2, h5 / 2 / 2;
    Digit(x, 0x01) | Digit(h1, 0x02) | Digit(h2, 0x04) | Digit(h3, 0x08)
    | Digit(h4, 0x10) | Digit(h5, 0x20) | Digit(h6, 0x40) | Digit(h7, 0x80)
  }

  function Digit(h: nat, bit: bv32): bv32 { if h % 2 == 1 then bit else 0 }

  /** The number the lowest bits of a word stand for. */
  function Number(v: bv32, count: nat): nat
    decreases count
  {
    if count == 0 then 0 else (if Odd(v) then 1 else 0) + 2 * Number(Half(v), count - 1)
  }

  lemma {:induction false} NumberBound(v: bv32, count: nat)
    ensures Number(v, count) <= Ones(count)
    decreases count
  {
    if count > 0 {
      NumberBound(Half(v), count - 1);
    }
  }

  lemma OnesOfWord()
    ensures Ones(32) == 0xFFFF_FFFF
  {
    assert Ones(8) == 0xFF;
    assert Ones(16) == 0xFFFF;
    assert Ones(24) == 0xFF_FFFF;
  }

  function CrcBytes(data: seq<Byte>): bv32 {
    if data == [] then 0xFFFFFFFF
    else CrcBits(Xor(CrcBytes(data[..|data| - 1]), AsWord(data[|data| - 1])), 8)
  }

  function Crc32(data: seq<Byte>): (n: nat)
    ensures n < 0x1_0000_0000
  {
    NumberBound(Xor(CrcBytes(data), 0xFFFFFFFF), 32);
    OnesOfWord();
    Number(Xor(CrcBytes(data), 0xFFFFFFFF), 32)
  }

  // ---------------------------------------------------------------- stored blocks

  const BLOCK := 0xFFFF

  /** `n` with each of its low `bits` bits turned over, as exclusive or with that many ones does. */
  function Flipped(n: nat, bits: nat): nat
    decreases bits
  {
    if bits == 0 then 0 else (1 - n % 2) + 2 * Flipped(n / 2, bits - 1)
  }

  function Ones(bits: nat): nat { if bits == 0 then 0 else 1 + 2 * Ones(bits - 1) }

  /** Which is the complement the standard asks for: the number and its turned-over self make all ones. */
  lemma {:induction false} FlippedIsComplement(n: nat, bits: nat)
    requires n <= Ones(bits)
    ensures n + Flipped(n, bits) == Ones(bits)
    decreases bits
  {
    if bits > 0 {
      FlippedIsComplement(n / 2, bits - 1);
    }
  }

  lemma BlockOnes(n: nat)
    requires n <= BLOCK
    ensures n + Flipped(n, 16) == BLOCK
  {
    assert Ones(8) == 255 && Ones(16) == BLOCK;
    FlippedIsComplement(n, 16);
  }

  /** A stored block: a header byte with its last-block bit, the length twice, the bytes. */
  function Block(final: bool, data: seq<Byte>): (b: seq<Byte>)
    requires |data| <= BLOCK
    ensures |b| == 5 + |data|
  {
    BlockOnes(|data|);
    [if final then 1 else 0] + Le16(|data|) + Le16(Flipped(|data|, 16)) + data
  }

  function Stored(payload: seq<Byte>): seq<Byte> {
    if |payload| <= BLOCK then Block(true, payload)
    else Block(false, payload[..BLOCK]) + Stored(payload[BLOCK..])
  }

  function StoredDeflate(payload: seq<Byte>): seq<Byte> {
    [0x78, 0x01] + Stored(payload) + Be32(Adler32(payload))
  }

  /** Blocks up to the last, each stored; the five bits that fill out a header byte are ignored. */
  function Inflate(b: seq<Byte>): (r: Parsed<seq<Byte>>)
    decreases |b|
  {
    if |b| < 5 then NoParse
    else
      var header: nat, size := b[0], U16(b, 1);
      if header / 2 % 4 != 0 || U16(b, 3) != BLOCK - size || 5 + size > |b| then NoParse
      else if header % 2 == 1 then Parse(b[5..5 + size], b[5 + size..])
      else
        match Inflate(b[5 + size..])
        case NoParse => NoParse
        case Parse(more, rest) => Parse(b[5..5 + size] + more, rest)
  }

  /** The wrapper: deflate with a window of at most 32 KiB and no dictionary, the header a multiple of 31,
      the checksum right. */
  function ReadZlib(b: seq<Byte>): Parsed<seq<Byte>> {
    if |b| < 2 then NoParse
    else
      var cmf: nat, flg: nat := b[0], b[1];
      if (256 * cmf + flg) % 31 != 0 || cmf % 16 != 8 || cmf / 16 > 7 || flg / 32 % 2 != 0 then NoParse
      else
        match Inflate(b[2..])
        case NoParse => NoParse
        case Parse(data, rest) =>
          if |rest| >= 4 && U32Be(rest, 0) == Adler32(data) then Parse(data, rest[4..]) else NoParse
  }

  lemma BlockParts(final: bool, data: seq<Byte>, rest: seq<Byte>)
    requires |data| <= BLOCK
    ensures var b := Block(final, data) + rest;
      && b[0] == (if final then 1 else 0) && U16(b, 1) == |data| && U16(b, 3) == BLOCK - |data|
      && b[5..5 + |data|] == data && b[5 + |data|..] == rest
  {
    BlockOnes(|data|);
    hide Le16, U16, Flipped;
    var b, size, flipped := Block(final, data) + rest, Le16(|data|), Le16(Flipped(|data|, 16));
    Slices(if final then 1 else 0, size, flipped, data, rest);
    assert b == [if final then 1 else 0] + size + flipped + data + rest;
    hide Block;
    U16At(b, 1, |data|);
    U16At(b, 3, Flipped(|data|, 16));
  }

  lemma Slices(first: Byte, size: seq<Byte>, flipped: seq<Byte>, data: seq<Byte>, rest: seq<Byte>)
    requires |size| == 2 && |flipped| == 2
    ensures var b := [first] + size + flipped + data + rest;
      && b[0] == first && b[1..3] == size && b[3..5] == flipped
      && b[5..5 + |data|] == data && b[5 + |data|..] == rest
  {
  }

  lemma BlockRead(final: bool, data: seq<Byte>, rest: seq<Byte>)
    requires |data| <= BLOCK
    ensures Inflate(Block(final, data) + rest)
         == if final then Parse(data, rest) else After(data, Inflate(rest))
  {
    hide U16, Block;
    BlockParts(final, data, rest);
  }

  function After(data: seq<Byte>, more: Parsed<seq<Byte>>): Parsed<seq<Byte>> {
    match more
    case NoParse => NoParse
    case Parse(others, rest) => Parse(data + others, rest)
  }

  lemma {:induction false} StoredRead(payload: seq<Byte>, rest: seq<Byte>)
    ensures Inflate(Stored(payload) + rest) == Parse(payload, rest)
    decreases |payload|
  {
    hide Inflate, Block;
    if |payload| <= BLOCK {
      BlockRead(true, payload, rest);
    } else {
      var first, others := payload[..BLOCK], payload[BLOCK..];
      assert Stored(payload) + rest == Block(false, first) + (Stored(others) + rest);
      BlockRead(false, first, Stored(others) + rest);
      StoredRead(others, rest);
      assert first + others == payload;
    }
  }

  /** Every payload is recovered, the empty one and those of many blocks included, and what follows it is
      left alone. */
  lemma ZlibInverts(payload: seq<Byte>, rest: seq<Byte>)
    ensures ReadZlib(StoredDeflate(payload) + rest) == Parse(payload, rest)
  {
    hide Inflate, Stored, Adler32, Be32, U32Be;
    var b := StoredDeflate(payload) + rest;
    var sum := Be32(Adler32(payload)) + rest;
    assert b[2..] == Stored(payload) + sum;
    StoredRead(payload, sum);
    assert sum[0..4] == Be32(Adler32(payload)) && sum[4..] == rest;
    U32BeAt(sum, 0, Adler32(payload));
  }

  // ---------------------------------------------------------------- chunks

  const IHDR: seq<Byte> := [73, 72, 68, 82]
  const TEXT: seq<Byte> := [116, 69, 88, 116]
  const IDAT: seq<Byte> := [73, 68, 65, 84]
  const IEND: seq<Byte> := [73, 69, 78, 68]
  const SIGNATURE: seq<Byte> := [0x89, 80, 78, 71, 13, 10, 26, 10]

  datatype Chunk = Chunk(tag: seq<Byte>, body: seq<Byte>)

  /** The format's own limit on a length, below the field's. */
  const MAX_LENGTH: nat := 0x8000_0000

  predicate IsChunk(c: Chunk) { |c.tag| == 4 && |c.body| < MAX_LENGTH }

  function WriteChunk(c: Chunk): (b: seq<Byte>)
    requires IsChunk(c)
    ensures |b| == 12 + |c.body|
  {
    Be32(|c.body|) + c.tag + c.body + Be32(Crc32(c.tag + c.body))
  }

  function ReadChunk(b: seq<Byte>): (r: Parsed<Chunk>)
    ensures r.Parse? ==> |r.rest| < |b|
  {
    if |b| < 12 then NoParse
    else
      var size := U32Be(b, 0);
      if size >= MAX_LENGTH || 12 + size > |b| || U32Be(b, 8 + size) != Crc32(b[4..8 + size]) then NoParse
      else Parse(Chunk(b[4..8], b[8..8 + size]), b[12 + size..])
  }

  lemma ChunkInverts(c: Chunk, rest: seq<Byte>)
    requires IsChunk(c)
    ensures ReadChunk(WriteChunk(c) + rest) == Parse(c, rest)
  {
    hide Crc32, Be32, U32Be;
    var b, size := WriteChunk(c) + rest, |c.body|;
    assert b[0..4] == Be32(size);
    U32BeAt(b, 0, size);
    assert b[4..8 + size] == c.tag + c.body;
    assert b[8 + size..12 + size] == Be32(Crc32(c.tag + c.body));
    U32BeAt(b, 8 + size, Crc32(c.tag + c.body));
    assert b[4..8] == c.tag && b[8..8 + size] == c.body && b[12 + size..] == rest;
  }

  // ---------------------------------------------------------------- pixels

  datatype Pixel = Pixel(red: Byte, green: Byte, blue: Byte, alpha: Byte)

  datatype Image = Image(width: nat, height: nat, rows: seq<seq<Pixel>>)

  function RowBytes(row: seq<Pixel>): (b: seq<Byte>)
    ensures |b| == 4 * |row|
  {
    if row == [] then []
    else
      var p := row[|row| - 1];
      RowBytes(row[..|row| - 1]) + [p.red, p.green, p.blue, p.alpha]
  }

  /** Every row behind its filter byte, which is always none. */
  function Raw(rows: seq<seq<Pixel>>): seq<Byte> {
    if rows == [] then [] else Raw(rows[..|rows| - 1]) + [0] + RowBytes(rows[|rows| - 1])
  }

  function ReadRow(b: seq<Byte>, width: nat): seq<Pixel>
    requires |b| == 4 * width
  {
    if width == 0 then []
    else
      var at := 4 * width - 4;
      ReadRow(b[..at], width - 1) + [Pixel(b[at], b[at + 1], b[at + 2], b[at + 3])]
  }

  /** The rows, last first; each must carry filter type none. */
  function ReadRows(b: seq<Byte>, width: nat, height: nat): Parsed<seq<seq<Pixel>>> {
    if height == 0 then (if b == [] then Parse([], []) else NoParse)
    else if |b| < 1 + 4 * width then NoParse
    else
      var at := |b| - 1 - 4 * width;
      if b[at] != 0 then NoParse
      else
        match ReadRows(b[..at], width, height - 1)
        case NoParse => NoParse
        case Parse(rows, _) => Parse(rows + [ReadRow(b[at + 1..], width)], [])
  }

  predicate Rectangular(rows: seq<seq<Pixel>>, width: nat) {
    forall k :: 0 <= k < |rows| ==> |rows[k]| == width
  }

  lemma {:induction false} RowInverts(row: seq<Pixel>)
    ensures ReadRow(RowBytes(row), |row|) == row
  {
    if row != [] {
      var n := |row| - 1;
      RowInverts(row[..n]);
      LastPixel(row);
      hide RowBytes;
      assert row == row[..n] + [row[n]];
    }
  }

  lemma LastPixel(row: seq<Pixel>)
    requires row != []
    ensures var n, b := |row| - 1, RowBytes(row);
      b[..4 * n] == RowBytes(row[..n]) && Pixel(b[4 * n], b[4 * n + 1], b[4 * n + 2], b[4 * n + 3]) == row[n]
  {
  }

  lemma {:induction false} RowsInvert(rows: seq<seq<Pixel>>, width: nat)
    requires Rectangular(rows, width)
    ensures ReadRows(Raw(rows), width, |rows|) == Parse(rows, [])
  {
    hide RowBytes, ReadRow;
    if rows != [] {
      var n, b := |rows| - 1, Raw(rows);
      RowsInvert(rows[..n], width);
      var at := |Raw(rows[..n])|;
      assert b[..at] == Raw(rows[..n]) && b[at + 1..] == RowBytes(rows[n]) && b[at] == 0;
      RowInverts(rows[n]);
      assert at == |b| - 1 - 4 * width && rows == rows[..n] + [rows[n]];
    }
  }

  // ---------------------------------------------------------------- the file

  function Header(width: nat, height: nat): (b: seq<Byte>)
    requires width < 0x1_0000_0000 && height < 0x1_0000_0000
    ensures |b| == 13
  {
    Be32(width) + Be32(height) + [8, 6, 0, 0, 0]
  }

  /** Eight-bit colour with alpha, not interlaced, neither side empty. */
  function ReadHeader(b: seq<Byte>): Parsed<(nat, nat)> {
    if |b| != 13 || b[8..] != [8, 6, 0, 0, 0] then NoParse
    else
      var width, height := U32Be(b, 0), U32Be(b, 4);
      if 0 < width < MAX_LENGTH && 0 < height < MAX_LENGTH then Parse((width, height), []) else NoParse
  }

  lemma HeaderRead(width: nat, height: nat)
    requires width < MAX_LENGTH && height < MAX_LENGTH
    ensures ReadHeader(Header(width, height)) == if width > 0 && height > 0 then Parse((width, height), []) else NoParse
  {
    hide Be32, U32Be;
    var b := Header(width, height);
    assert b[0..4] == Be32(width) && b[4..8] == Be32(height) && b[8..] == [8, 6, 0, 0, 0];
    U32BeAt(b, 0, width);
    U32BeAt(b, 4, height);
  }

  /** The image data of a chunk stream up to its end: consecutive data chunks joined, ancillary chunks passed
      over, any other critical chunk refused. */
  function ReadData(b: seq<Byte>): Parsed<seq<Byte>>
    decreases |b|
  {
    match ReadChunk(b)
    case NoParse => NoParse
    case Parse(c, rest) =>
      if c.tag == IEND then Parse([], rest)
      else if c.tag == IDAT then After(c.body, ReadData(rest))
      else if c.tag[0] / 32 % 2 == 1 then ReadData(rest)
      else NoParse
  }

  function ReadPng(b: seq<Byte>): Parsed<Image> {
    if |b| < 8 || b[..8] != SIGNATURE then NoParse
    else
      match ReadChunk(b[8..])
      case NoParse => NoParse
      case Parse(first, rest) =>
        if first.tag != IHDR || ReadHeader(first.body).NoParse? then NoParse
        else
          var (width, height) := ReadHeader(first.body).value;
          match ReadData(rest)
          case NoParse => NoParse
          case Parse(data, last) => ReadPixels(data, width, height, last)
  }

  function ReadPixels(data: seq<Byte>, width: nat, height: nat, last: seq<Byte>): Parsed<Image> {
    match ReadZlib(data)
    case NoParse => NoParse
    case Parse(raw, more) =>
      if more != [] then NoParse
      else
        match ReadRows(raw, width, height)
        case NoParse => NoParse
        case Parse(rows, _) => Parse(Image(width, height, rows), last)
  }

  function TextBody(comment: seq<Byte>): seq<Byte> {
    [67, 111, 109, 109, 101, 110, 116, 0] + comment
  }

  /** Everything has room in the format. */
  predicate Writable(rows: seq<seq<Pixel>>, comment: seq<Byte>) {
    && 0 < |rows| < MAX_LENGTH && Rectangular(rows, |rows[0]|) && |rows[0]| < MAX_LENGTH
    && |TextBody(comment)| < MAX_LENGTH && |StoredDeflate(Raw(rows))| < MAX_LENGTH
  }

  function PngBytes(rows: seq<seq<Pixel>>, comment: seq<Byte>): seq<Byte>
    requires Writable(rows, comment)
  {
    SIGNATURE + WriteChunk(Chunk(IHDR, Header(|rows[0]|, |rows|))) + WriteChunk(Chunk(TEXT, TextBody(comment)))
    + WriteChunk(Chunk(IDAT, StoredDeflate(Raw(rows)))) + WriteChunk(Chunk(IEND, []))
  }

  lemma DataRead(text: seq<Byte>, data: seq<Byte>)
    requires |text| < MAX_LENGTH && |data| < MAX_LENGTH
    ensures ReadData(WriteChunk(Chunk(TEXT, text)) + (WriteChunk(Chunk(IDAT, data)) + WriteChunk(Chunk(IEND, []))))
         == Parse(data, [])
  {
    hide ReadChunk, WriteChunk;
    var t, d, e := Chunk(TEXT, text), Chunk(IDAT, data), Chunk(IEND, []);
    assert IDAT[1] != IEND[1] && TEXT[0] != IDAT[0] && TEXT[0] != IEND[0];
    ChunkInverts(t, WriteChunk(d) + WriteChunk(e));
    ChunkInverts(d, WriteChunk(e));
    ChunkInverts(e, []);
    assert WriteChunk(e) + [] == WriteChunk(e);
    assert ReadData(WriteChunk(e)) == Parse([], []);
    assert data + [] == data;
  }

  /** Every rectangular image is recovered, pixel for pixel; one with no columns is refused, as the format
      refuses it. */
  lemma PngInverts(rows: seq<seq<Pixel>>, comment: seq<Byte>)
    requires Writable(rows, comment)
    ensures ReadPng(PngBytes(rows, comment))
         == if rows[0] == [] then NoParse else Parse(Image(|rows[0]|, |rows|, rows), [])
  {
    hide ReadChunk, WriteChunk, ReadHeader, Header, ReadData, ReadZlib, StoredDeflate, ReadRows, Raw;
    var b, width, height := PngBytes(rows, comment), |rows[0]|, |rows|;
    var data := StoredDeflate(Raw(rows));
    var h := Chunk(IHDR, Header(width, height));
    var others := WriteChunk(Chunk(TEXT, TextBody(comment)))
      + (WriteChunk(Chunk(IDAT, data)) + WriteChunk(Chunk(IEND, [])));
    assert b[..8] == SIGNATURE && b[8..] == WriteChunk(h) + others;
    ChunkInverts(h, others);
    HeaderRead(width, height);
    DataRead(TextBody(comment), data);
    ZlibInverts(Raw(rows), []);
    assert data + [] == data;
    RowsInvert(rows, width);
  }

  // ---------------------------------------------------------------- the writer's loops

  method StoredDeflateBytes(payload: seq<Byte>) returns (out: seq<Byte>)
    ensures out == StoredDeflate(payload)
  {
    hide Block, Adler32, Be32;
    out := [0x78, 0x01];
    var at := 0;
    var last := false;
    assert payload[0..] == payload;
    while !last
      invariant 0 <= at <= |payload|
      invariant !last ==> out + Stored(payload[at..]) == [0x78, 0x01] + Stored(payload)
      invariant last ==> out == [0x78, 0x01] + Stored(payload)
      decreases !last, |payload| - at
    {
      var end := if at + BLOCK < |payload| then at + BLOCK else |payload|;
      last := end == |payload|;
      ghost var rest := payload[at..];
      if !last {
        assert rest[..BLOCK] == payload[at..end] && rest[BLOCK..] == payload[end..];
        assert out + (Block(false, payload[at..end]) + Stored(payload[end..]))
            == out + Block(false, payload[at..end]) + Stored(payload[end..]);
      } else {
        assert rest == payload[at..end];
      }
      out := out + Block(last, payload[at..end]);
      at := end;
    }
    out := out + Be32(Adler32(payload));
  }

  method RawBytes(rows: seq<seq<Pixel>>) returns (raw: seq<Byte>)
    ensures raw == Raw(rows)
  {
    raw := [];
    for k := 0 to |rows|
      invariant raw == Raw(rows[..k])
    {
      var row, before := rows[k], raw;
      raw := raw + [0];
      for j := 0 to |row|
        invariant raw == before + [0] + RowBytes(row[..j])
      {
        assert row[..j + 1][..j] == row[..j];
        raw := raw + [row[j].red, row[j].green, row[j].blue, row[j].alpha];
      }
      assert row[..|row|] == row && rows[..k + 1][..k] == rows[..k];
    }
    assert rows[..|rows|] == rows;
  }
}
