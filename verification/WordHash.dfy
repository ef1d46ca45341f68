/** The four-lane hash and the word-wise hash it was chosen over: what they compute of a byte string, and
    the loops that compute it. Words are 64-bit vectors, so every product wraps as the machine's does. */
module WordHash {

  const BASIS: bv64 := 0xCBF29CE484222325

  /** Multiplication by the prime 0x100000001B3, and by its inverse modulo 2^64. */
  function Times(value: bv64): bv64 { value * 0x100000001B3 }
  function Untimes(value: bv64): bv64 { value * 0xCE965057AFF6957B }

  function Xor(value: bv64, word: bv64): bv64 { value ^ word }

  /** One step of every hash here: fold a word into the accumulator. */
  function Absorb(value: bv64, word: bv64): bv64 {
    Times(Xor(value, word))
  }

  /** The eight bytes as one little-endian word. */
  function Load(b: seq<bv8>): bv64
    requires |b| == 8
  {
    (b[0] as bv64) | ((b[1] as bv64) << 8) | ((b[2] as bv64) << 16) | ((b[3] as bv64) << 24)
    | ((b[4] as bv64) << 32) | ((b[5] as bv64) << 40) | ((b[6] as bv64) << 48) | ((b[7] as bv64) << 56)
  }

  function Word(bytes: seq<bv8>, at: nat): bv64
    requires at + 8 <= |bytes|
  {
    Load(bytes[at..at + 8])
  }

  /** The bytes one at a time; from `BASIS`, this is FNV-1a. */
  function Tail(value: bv64, bytes: seq<bv8>): bv64 {
    if bytes == [] then value
    else Absorb(Tail(value, bytes[..|bytes| - 1]), bytes[|bytes| - 1] as bv64)
  }

  // ---------------------------------------------------------------- the final mix

  function Scramble(value: bv64): bv64 { value ^ (value >> 33) }
  function TimesFirst(value: bv64): bv64 { value * 0xFF51AFD7ED558CCD }
  function TimesSecond(value: bv64): bv64 { value * 0xC4CEB9FE1A85EC53 }

  function MixFinal(value: bv64): bv64 {
    Scramble(TimesSecond(Scramble(TimesFirst(Scramble(value)))))
  }

  // ---------------------------------------------------------------- one chain of words

  /** The length of the part taken whole words, or whole blocks, at a time. */
  function WholeWords(length: nat): nat { length - length % 8 }
  function WholeBlocks(length: nat): nat { length - length % 32 }

  function Words(bytes: seq<bv8>): bv64
    requires |bytes| % 8 == 0
  {
    if bytes == [] then BASIS
    else Absorb(Words(bytes[..|bytes| - 8]), Word(bytes, |bytes| - 8))
  }

  function FnvWords(bytes: seq<bv8>): bv64 {
    var w := WholeWords(|bytes|);
    Tail(Words(bytes[..w]), bytes[w..])
  }

  // ---------------------------------------------------------------- four lanes

  datatype Lanes = Lanes(a: bv64, b: bv64, c: bv64, d: bv64)

  const START := Lanes(BASIS, BASIS ^ 1, BASIS ^ 2, BASIS ^ 3)

  function Consume(lanes: Lanes, block: seq<bv8>): Lanes
    requires |block| == 32
  {
    Lanes(Absorb(lanes.a, Word(block, 0)), Absorb(lanes.b, Word(block, 8)),
          Absorb(lanes.c, Word(block, 16)), Absorb(lanes.d, Word(block, 24)))
  }

  function Blocks(bytes: seq<bv8>): Lanes
    requires |bytes| % 32 == 0
  {
    if bytes == [] then START
    else Consume(Blocks(bytes[..|bytes| - 32]), bytes[|bytes| - 32..])
  }

  function Combine(lanes: Lanes): bv64 {
    Absorb(Absorb(Absorb(Absorb(BASIS, lanes.a), lanes.b), lanes.c), lanes.d)
  }

  function Lanes4(bytes: seq<bv8>): bv64 {
    var w := WholeBlocks(|bytes|);
    Tail(Combine(Blocks(bytes[..w])), bytes[w..])
  }

  // ---------------------------------------------------------------- appending

  lemma BlocksAppend(bytes: seq<bv8>, block: seq<bv8>)
    requires |bytes| % 32 == 0 && |block| == 32
    ensures Blocks(bytes + block) == Consume(Blocks(bytes), block)
  {
    hide Consume;
    var all := bytes + block;
    assert all[..|all| - 32] == bytes && all[|all| - 32..] == block;
  }

  lemma WordsAppend(bytes: seq<bv8>, word: seq<bv8>)
    requires |bytes| % 8 == 0 && |word| == 8
    ensures Words(bytes + word) == Absorb(Words(bytes), Load(word))
  {
    hide Absorb, Load;
    var all := bytes + word;
    assert all[..|all| - 8] == bytes && all[|all| - 8..|all|] == word;
  }

  lemma WholeWordsOf(n: nat, more: nat)
    requires n % 8 == 0 && more < 8
    ensures WholeWords(n + more) == n
  {
    assert n == 8 * (n / 8);
    assert (8 * (n / 8) + more) / 8 == n / 8;
  }

  lemma WholeBlocksOf(n: nat, more: nat)
    requires n % 32 == 0 && more < 32
    ensures WholeBlocks(n + more) == n
  {
    assert n == 32 * (n / 32);
    assert (32 * (n / 32) + more) / 32 == n / 32;
  }

  lemma Lanes4At(all: seq<bv8>, w: nat)
    requires w == WholeBlocks(|all|)
    ensures w <= |all| && w % 32 == 0 && Lanes4(all) == Tail(Combine(Blocks(all[..w])), all[w..])
  {
    hide Tail, Combine, Blocks;
  }

  lemma FnvWordsAt(all: seq<bv8>, w: nat)
    requires w == WholeWords(|all|)
    ensures w <= |all| && w % 8 == 0 && FnvWords(all) == Tail(Words(all[..w]), all[w..])
  {
    hide Tail, Words;
  }

  /** The block region and the tail of a byte string. */
  lemma Lanes4Split(blocks: seq<bv8>, tail: seq<bv8>)
    requires |blocks| % 32 == 0 && |tail| < 32
    ensures Lanes4(blocks + tail) == Tail(Combine(Blocks(blocks)), tail)
  {
    hide *;
    var all := blocks + tail;
    WholeBlocksOf(|blocks|, |tail|);
    Lanes4At(all, |blocks|);
    assert all[..|blocks|] == blocks && all[|blocks|..] == tail;
  }

  lemma FnvWordsSplit(words: seq<bv8>, tail: seq<bv8>)
    requires |words| % 8 == 0 && |tail| < 8
    ensures FnvWords(words + tail) == Tail(Words(words), tail)
  {
    hide *;
    var all := words + tail;
    WholeWordsOf(|words|, |tail|);
    FnvWordsAt(all, |words|);
    assert all[..|words|] == words && all[|words|..] == tail;
  }

  /** FNV-1a continues from a previous value: text hashed in two pieces hashes as one. */
  lemma {:induction false} TailContinues(value: bv64, first: seq<bv8>, second: seq<bv8>)
    ensures Tail(Tail(value, first), second) == Tail(value, first + second)
    decreases |second|
  {
    hide Absorb;
    if second == [] {
      assert first + second == first;
    } else {
      var n := |second| - 1;
      TailContinues(value, first, second[..n]);
      assert (first + second)[..|first| + n] == first + second[..n];
    }
  }

  // ---------------------------------------------------------------- the loops

  method FinishTail(value: bv64, tail: seq<bv8>) returns (r: bv64)
    ensures r == Tail(value, tail)
  {
    hide Absorb;
    r := value;
    var k := 0;
    while k < |tail|
      invariant 0 <= k <= |tail| && r == Tail(value, tail[..k])
    {
      assert tail[..k + 1][..k] == tail[..k];
      r := Absorb(r, tail[k] as bv64);
      k := k + 1;
    }
    assert tail[..k] == tail;
  }

  method HashWords(bytes: seq<bv8>) returns (r: bv64)
    ensures r == FnvWords(bytes)
  {
    hide Tail, Absorb, Load, Words;
    r := BASIS;
    var at := 0;
    assert Words([]) == BASIS by { EmptyWords(); }
    assert bytes[..0] == [];
    while at + 8 <= |bytes|
      invariant 0 <= at <= |bytes| && at % 8 == 0 && r == Words(bytes[..at])
    {
      WordsAppend(bytes[..at], bytes[at..at + 8]);
      assert bytes[..at] + bytes[at..at + 8] == bytes[..at + 8];
      r := Absorb(r, Word(bytes, at));
      at := at + 8;
    }
    FnvWordsSplit(bytes[..at], bytes[at..]);
    assert bytes[..at] + bytes[at..] == bytes;
    r := FinishTail(r, bytes[at..]);
  }

  lemma EmptyWords()
    ensures Words([]) == BASIS
  {
  }

  method HashLanes(bytes: seq<bv8>) returns (r: bv64)
    ensures r == Lanes4(bytes)
  {
    hide Tail, Absorb, Load, Blocks;
    var a, b, c, d := BASIS, BASIS ^ 1, BASIS ^ 2, BASIS ^ 3;
    var at := 0;
    EmptyBlocks();
    assert bytes[..0] == [];
    while at + 32 <= |bytes|
      invariant 0 <= at <= |bytes| && at % 32 == 0 && Lanes(a, b, c, d) == Blocks(bytes[..at])
    {
      var block := bytes[at..at + 32];
      BlocksAppend(bytes[..at], block);
      assert bytes[..at] + block == bytes[..at + 32];
      a := Absorb(a, Word(block, 0));
      b := Absorb(b, Word(block, 8));
      c := Absorb(c, Word(block, 16));
      d := Absorb(d, Word(block, 24));
      at := at + 32;
    }
    Lanes4Split(bytes[..at], bytes[at..]);
    assert bytes[..at] + bytes[at..] == bytes;
    r := CombineLanes(a, b, c, d);
    r := FinishTail(r, bytes[at..]);
  }

  lemma EmptyBlocks()
    ensures Blocks([]) == START
  {
  }

  method CombineLanes(a: bv64, b: bv64, c: bv64, d: bv64) returns (r: bv64)
    ensures r == Combine(Lanes(a, b, c, d))
  {
    hide Absorb;
    r := BASIS;
    var lanes := [a, b, c, d];
    for k := 0 to 4
      invariant k == 0 ==> r == BASIS
      invariant k == 1 ==> r == Absorb(BASIS, a)
      invariant k == 2 ==> r == Absorb(Absorb(BASIS, a), b)
      invariant k == 3 ==> r == Absorb(Absorb(Absorb(BASIS, a), b), c)
      invariant k == 4 ==> r == Combine(Lanes(a, b, c, d))
    {
      r := Absorb(r, lanes[k]);
    }
  }
}
