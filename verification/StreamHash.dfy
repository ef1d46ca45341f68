/** The hashes as streams: bytes arrive in pieces, a partial word or block is held between calls, and the
    value is that of everything added so far, however it was divided. */
module StreamHashes {
  import opened WordHash

  /** Bytes copied into a buffer. */
  method CopyInto(buffer: array<bv8>, at: nat, bytes: seq<bv8>)
    requires at + |bytes| <= buffer.Length
    modifies buffer
    ensures buffer[..at + |bytes|] == old(buffer[..at]) + bytes
  {
    forall k | 0 <= k < |bytes| {
      buffer[at + k] := bytes[k];
    }
  }

  /** One chain, a word at a time. */
  class StreamHash {
    const buffer: array<bv8>
    var value: bv64
    var held: nat
    ghost var eaten: seq<bv8>

    ghost predicate Valid()
      reads this, buffer
    {
      buffer.Length == 8 && held < 8 && |eaten| % 8 == 0 && value == Words(eaten)
    }

    /** Every byte added so far. */
    ghost function Fed(): seq<bv8>
      reads this, buffer
      requires Valid()
    {
      eaten + buffer[..held]
    }

    constructor ()
      ensures Valid() && Fed() == [] && fresh(buffer)
    {
      buffer := new bv8[8](_ => 0);
      value := BASIS;
      held := 0;
      eaten := [];
    }

    /** Take one whole word into the chain. */
    method ConsumeWord(word: seq<bv8>)
      requires |word| == 8 && |eaten| % 8 == 0 && value == Words(eaten)
      modifies `value, `eaten
      ensures eaten == old(eaten) + word && |eaten| % 8 == 0 && value == Words(eaten)
    {
      hide Absorb, Load, Words;
      WordsAppend(eaten, word);
      value := Absorb(value, Load(word));
      eaten := eaten + word;
    }

    /** Top up a part-filled buffer; what did not fit is left over. */
    method Fill(bytes: seq<bv8>) returns (rest: seq<bv8>)
      requires Valid() && held > 0
      modifies this, buffer
      ensures Valid() && (held == 0 || rest == []) && Fed() + rest == old(Fed()) + bytes
    {
      hide Words;
      var take := if 8 - held < |bytes| then 8 - held else |bytes|;
      CopyInto(buffer, held, bytes[..take]);
      held := held + take;
      rest := bytes[take..];
      assert bytes == bytes[..take] + rest;
      assert eaten + buffer[..held] == old(Fed()) + bytes[..take];
      if held == 8 {
        assert buffer[..8] == buffer[..];
        ConsumeWord(buffer[..]);
        held := 0;
        assert Fed() == old(Fed()) + bytes[..take];
      }
    }

    /** Take what is whole straight from the input. */
    method TakeWhole(bytes: seq<bv8>) returns (at: nat)
      requires Valid() && held == 0
      modifies this
      ensures Valid() && held == 0 && at <= |bytes| < at + 8 && eaten == old(eaten) + bytes[..at]
    {
      hide Words;
      at := 0;
      while at + 8 <= |bytes|
        invariant at <= |bytes| && Valid() && held == 0 && eaten == old(eaten) + bytes[..at]
      {
        ConsumeWord(bytes[at..at + 8]);
        assert bytes[..at] + bytes[at..at + 8] == bytes[..at + 8];
        at := at + 8;
      }
    }

    method Add(bytes: seq<bv8>)
      requires Valid()
      modifies this, buffer
      ensures Valid() && Fed() == old(Fed()) + bytes
    {
      hide Words;
      var rest := bytes;
      if held > 0 {
        rest := Fill(bytes);
        if held > 0 {
          return;
        }
      }
      ghost var before := Fed();
      var at := TakeWhole(rest);
      held := |rest| - at;
      CopyInto(buffer, 0, rest[at..]);
      assert rest == rest[..at] + rest[at..];
      assert Fed() == before + rest;
    }

    method Value() returns (r: bv64)
      requires Valid()
      ensures r == MixFinal(FnvWords(Fed()))
    {
      hide Tail, Words, MixFinal;
      FnvWordsSplit(eaten, buffer[..held]);
      r := FinishTail(value, buffer[..held]);
      r := MixFinal(r);
    }
  }

  /** Four lanes, a block at a time. */
  class StreamLanes {
    const buffer: array<bv8>
    var a: bv64
    var b: bv64
    var c: bv64
    var d: bv64
    var held: nat
    ghost var eaten: seq<bv8>

    ghost predicate Valid()
      reads this, buffer
    {
      buffer.Length == 32 && held < 32 && |eaten| % 32 == 0 && Lanes(a, b, c, d) == Blocks(eaten)
    }

    ghost function Fed(): seq<bv8>
      reads this, buffer
      requires Valid()
    {
      eaten + buffer[..held]
    }

    constructor ()
      ensures Valid() && Fed() == [] && fresh(buffer)
    {
      buffer := new bv8[32](_ => 0);
      a, b, c, d := BASIS, BASIS ^ 1, BASIS ^ 2, BASIS ^ 3;
      held := 0;
      eaten := [];
      new;
      EmptyBlocks();
    }

    /** Take one whole block into the lanes. */
    method ConsumeBlock(block: seq<bv8>)
      requires |block| == 32 && |eaten| % 32 == 0 && Lanes(a, b, c, d) == Blocks(eaten)
      modifies `a, `b, `c, `d, `eaten
      ensures eaten == old(eaten) + block && |eaten| % 32 == 0 && Lanes(a, b, c, d) == Blocks(eaten)
    {
      hide Absorb, Word, Blocks;
      BlocksAppend(eaten, block);
      a := Absorb(a, Word(block, 0));
      b := Absorb(b, Word(block, 8));
      c := Absorb(c, Word(block, 16));
      d := Absorb(d, Word(block, 24));
      eaten := eaten + block;
    }

    /** Top up a part-filled buffer; what did not fit is left over. */
    method Fill(bytes: seq<bv8>) returns (rest: seq<bv8>)
      requires Valid() && held > 0
      modifies this, buffer
      ensures Valid() && (held == 0 || rest == []) && Fed() + rest == old(Fed()) + bytes
    {
      hide Blocks;
      var take := if 32 - held < |bytes| then 32 - held else |bytes|;
      CopyInto(buffer, held, bytes[..take]);
      held := held + take;
      rest := bytes[take..];
      assert bytes == bytes[..take] + rest;
      assert eaten + buffer[..held] == old(Fed()) + bytes[..take];
      if held == 32 {
        assert buffer[..32] == buffer[..];
        ConsumeBlock(buffer[..]);
        held := 0;
        assert Fed() == old(Fed()) + bytes[..take];
      }
    }

    /** Take what is whole straight from the input. */
    method TakeWhole(bytes: seq<bv8>) returns (at: nat)
      requires Valid() && held == 0
      modifies this
      ensures Valid() && held == 0 && at <= |bytes| < at + 32 && eaten == old(eaten) + bytes[..at]
    {
      hide Blocks;
      at := 0;
      while at + 32 <= |bytes|
        invariant at <= |bytes| && Valid() && held == 0 && eaten == old(eaten) + bytes[..at]
      {
        ConsumeBlock(bytes[at..at + 32]);
        assert bytes[..at] + bytes[at..at + 32] == bytes[..at + 32];
        at := at + 32;
      }
    }

    method Add(bytes: seq<bv8>)
      requires Valid()
      modifies this, buffer
      ensures Valid() && Fed() == old(Fed()) + bytes
    {
      hide Blocks;
      var rest := bytes;
      if held > 0 {
        rest := Fill(bytes);
        if held > 0 {
          return;
        }
      }
      ghost var before := Fed();
      var at := TakeWhole(rest);
      held := |rest| - at;
      CopyInto(buffer, 0, rest[at..]);
      assert rest == rest[..at] + rest[at..];
      assert Fed() == before + rest;
    }

    method Value() returns (r: bv64)
      requires Valid()
      ensures r == MixFinal(Lanes4(Fed()))
    {
      hide Tail, Blocks, Combine, MixFinal;
      Lanes4Split(eaten, buffer[..held]);
      r := CombineLanes(a, b, c, d);
      r := FinishTail(r, buffer[..held]);
      r := MixFinal(r);
    }
  }

  /** The engine's own accumulator: the four lanes again, filled byte by byte. */
  class Hasher {
    const buffer: array<bv8>
    var a: bv64
    var b: bv64
    var c: bv64
    var d: bv64
    var held: nat
    ghost var eaten: seq<bv8>

    ghost predicate Valid()
      reads this, buffer
    {
      buffer.Length == 32 && held < 32 && |eaten| % 32 == 0 && Lanes(a, b, c, d) == Blocks(eaten)
    }

    ghost function Fed(): seq<bv8>
      reads this, buffer
      requires Valid()
    {
      eaten + buffer[..held]
    }

    constructor ()
      ensures Valid() && Fed() == [] && fresh(buffer)
    {
      buffer := new bv8[32](_ => 0);
      a, b, c, d := BASIS, BASIS ^ 1, BASIS ^ 2, BASIS ^ 3;
      held := 0;
      eaten := [];
      new;
      EmptyBlocks();
    }

    method ConsumeBlock(block: seq<bv8>)
      requires |block| == 32 && |eaten| % 32 == 0 && Lanes(a, b, c, d) == Blocks(eaten)
      modifies `a, `b, `c, `d, `eaten
      ensures eaten == old(eaten) + block && |eaten| % 32 == 0 && Lanes(a, b, c, d) == Blocks(eaten)
    {
      hide Absorb, Word, Blocks;
      BlocksAppend(eaten, block);
      a := Absorb(a, Word(block, 0));
      b := Absorb(b, Word(block, 8));
      c := Absorb(c, Word(block, 16));
      d := Absorb(d, Word(block, 24));
      eaten := eaten + block;
    }

    /** Hold one more byte; a full block is taken at once. */
    method Push(byte: bv8)
      requires Valid()
      modifies this, buffer
      ensures Valid() && Fed() == old(Fed()) + [byte]
    {
      hide Blocks;
      buffer[held] := byte;
      held := held + 1;
      if held == 32 {
        assert eaten + buffer[..] == old(Fed()) + [byte];
        ConsumeBlock(buffer[..]);
        held := 0;
      }
    }

    /** Top up a part-filled buffer byte by byte. */
    method Fill(bytes: seq<bv8>) returns (at: nat)
      requires Valid() && held > 0
      modifies this, buffer
      ensures Valid() && at <= |bytes| && (held == 0 || at == |bytes|) && Fed() == old(Fed()) + bytes[..at]
    {
      hide Blocks;
      at := 0;
      while held < 32 && at < |bytes|
        invariant 0 < held <= 32 && at <= |bytes| && buffer.Length == 32 && |eaten| % 32 == 0
        invariant Lanes(a, b, c, d) == Blocks(eaten) && eaten == old(eaten)
        invariant eaten + buffer[..held] == old(Fed()) + bytes[..at]
        decreases |bytes| - at
      {
        ghost var was := buffer[..held];
        buffer[held] := bytes[at];
        assert buffer[..held + 1] == was + [bytes[at]];
        assert bytes[..at + 1] == bytes[..at] + [bytes[at]];
        assert eaten + (was + [bytes[at]]) == (eaten + was) + [bytes[at]];
        held := held + 1;
        at := at + 1;
      }
      if held == 32 {
        assert buffer[..32] == buffer[..];
        ConsumeBlock(buffer[..]);
        held := 0;
        assert Fed() == old(Fed()) + bytes[..at];
      }
    }

    /** Take whole blocks straight from the input, and hold the rest. */
    method TakeRest(bytes: seq<bv8>)
      requires Valid() && held == 0
      modifies this, buffer
      ensures Valid() && Fed() == old(Fed()) + bytes
    {
      hide Blocks;
      var at := 0;
      while |bytes| - at >= 32
        invariant at <= |bytes| && Valid() && held == 0 && eaten == old(eaten) + bytes[..at]
      {
        ConsumeBlock(bytes[at..at + 32]);
        assert bytes[..at] + bytes[at..at + 32] == bytes[..at + 32];
        at := at + 32;
      }
      ghost var whole := at;
      while at < |bytes|
        invariant whole <= at <= |bytes| < whole + 32 && held == at - whole && Valid()
        invariant eaten == old(eaten) + bytes[..whole] && buffer[..held] == bytes[whole..at]
      {
        ghost var was := buffer[..held];
        buffer[held] := bytes[at];
        assert buffer[..held + 1] == was + [bytes[at]];
        assert bytes[whole..at + 1] == bytes[whole..at] + [bytes[at]];
        held := held + 1;
        at := at + 1;
      }
      assert bytes[..whole] + bytes[whole..at] == bytes;
    }

    method Add(bytes: seq<bv8>)
      requires Valid()
      modifies this, buffer
      ensures Valid() && Fed() == old(Fed()) + bytes
    {
      hide Blocks;
      var at := 0;
      if held > 0 {
        at := Fill(bytes);
      }
      assert bytes == bytes[..at] + bytes[at..];
      if held == 0 {
        TakeRest(bytes[at..]);
      }
    }

    /** An integer as its `width` low bytes, low byte first. */
    method AddInteger(value: bv64, width: nat)
      requires Valid() && width <= 8
      modifies this, buffer
      ensures Valid() && Fed() == old(Fed()) + LittleEndian(value, width)
    {
      hide Blocks, LowByte, NextBits;
      var bits := value;
      for i := 0 to width
        invariant Valid() && Fed() + LittleEndian(bits, width - i) == old(Fed()) + LittleEndian(value, width)
      {
        ghost var was := Fed();
        Push(LowByte(bits));
        assert Fed() + LittleEndian(NextBits(bits), width - i - 1) == was + LittleEndian(bits, width - i);
        bits := NextBits(bits);
      }
    }

    method Value() returns (r: bv64)
      requires Valid()
      ensures r == MixFinal(Lanes4(Fed()))
    {
      hide Tail, Blocks, Combine, MixFinal;
      Lanes4Split(eaten, buffer[..held]);
      r := CombineLanes(a, b, c, d);
      r := FinishTail(r, buffer[..held]);
      r := MixFinal(r);
    }
  }

  function LowByte(value: bv64): bv8 { (value & 0xFF) as bv8 }
  function NextBits(value: bv64): bv64 { value >> 8 }

  function LittleEndian(value: bv64, width: nat): (s: seq<bv8>)
    ensures |s| == width
  {
    if width == 0 then [] else [LowByte(value)] + LittleEndian(NextBits(value), width - 1)
  }

  /** The engine's one-shot hash is the four-lane candidate the benchmark measures. */
  method HashBytes(bytes: seq<bv8>) returns (r: bv64)
    ensures r == MixFinal(Lanes4(bytes))
  {
    hide Lanes4, MixFinal;
    var hasher := new Hasher();
    assert hasher.Fed() + bytes == bytes;
    hasher.Add(bytes);
    r := hasher.Value();
  }

  /** Bytes fed in pieces of the sizes given, then the rest: the division does not matter. */
  method StreamedWords(bytes: seq<bv8>, splits: seq<nat>) returns (r: bv64)
    ensures r == MixFinal(FnvWords(bytes))
  {
    hide FnvWords, Lanes4, MixFinal;
    var hash := new StreamHash();
    var at, k := 0, 0;
    while k < |splits|
      invariant 0 <= k <= |splits| && 0 <= at <= |bytes|
      invariant hash.Valid() && fresh(hash) && fresh(hash.buffer) && hash.Fed() == bytes[..at]
    {
      var span := if splits[k] < |bytes| - at then splits[k] else |bytes| - at;
      hash.Add(bytes[at..at + span]);
      assert bytes[..at] + bytes[at..at + span] == bytes[..at + span];
      at := at + span;
      k := k + 1;
    }
    hash.Add(bytes[at..]);
    assert bytes[..at] + bytes[at..] == bytes;
    r := hash.Value();
  }

  /** The same for the four lanes. */
  method StreamedLanes(bytes: seq<bv8>, splits: seq<nat>) returns (r: bv64)
    ensures r == MixFinal(Lanes4(bytes))
  {
    hide FnvWords, Lanes4, MixFinal;
    var hash := new StreamLanes();
    var at, k := 0, 0;
    while k < |splits|
      invariant 0 <= k <= |splits| && 0 <= at <= |bytes|
      invariant hash.Valid() && fresh(hash) && fresh(hash.buffer) && hash.Fed() == bytes[..at]
    {
      var span := if splits[k] < |bytes| - at then splits[k] else |bytes| - at;
      hash.Add(bytes[at..at + span]);
      assert bytes[..at] + bytes[at..at + span] == bytes[..at + span];
      at := at + span;
      k := k + 1;
    }
    hash.Add(bytes[at..]);
    assert bytes[..at] + bytes[at..] == bytes;
    r := hash.Value();
  }

  /** And for the engine's accumulator, which therefore agrees with the candidate it was chosen as. */
  method StreamedHasher(bytes: seq<bv8>, splits: seq<nat>) returns (r: bv64)
    ensures r == MixFinal(Lanes4(bytes))
  {
    hide FnvWords, Lanes4, MixFinal;
    var hash := new Hasher();
    var at, k := 0, 0;
    while k < |splits|
      invariant 0 <= k <= |splits| && 0 <= at <= |bytes|
      invariant hash.Valid() && fresh(hash) && fresh(hash.buffer) && hash.Fed() == bytes[..at]
    {
      var span := if splits[k] < |bytes| - at then splits[k] else |bytes| - at;
      hash.Add(bytes[at..at + span]);
      assert bytes[..at] + bytes[at..at + span] == bytes[..at + span];
      at := at + span;
      k := k + 1;
    }
    hash.Add(bytes[at..]);
    assert bytes[..at] + bytes[at..] == bytes;
    r := hash.Value();
  }
}
