/** The hashes pinned down: what a word is, what each lane is given, and the values the algorithms' own
    specifications and the engine's tests give for particular texts. */
module HashVectors {
  import opened WordHash
  import opened StreamHashes

  // ---------------------------------------------------------------- words

  /** `v` without its lowest `k` bytes. */
  function Above(v: bv64, k: nat): bv64 { if k == 0 then v else NextBits(Above(v, k - 1)) }

  lemma {:induction false} ByteAt(v: bv64, width: nat, k: nat)
    requires k < width
    ensures LittleEndian(v, width)[k] == LowByte(Above(v, k))
    decreases k
  {
    hide LowByte, NextBits;
    if k > 0 {
      ByteAt(NextBits(v), width - 1, k - 1);
      AboveNext(v, k);
    }
  }

  lemma {:induction false} AboveNext(v: bv64, k: nat)
    requires k > 0
    ensures Above(NextBits(v), k - 1) == Above(v, k)
    decreases k
  {
    hide NextBits;
    if k > 1 {
      AboveNext(v, k - 1);
    }
  }

  lemma LoadOfBytes(v: bv64)
    ensures ((LowByte(v) as bv64) | ((LowByte(v >> 8) as bv64) << 8) | ((LowByte(v >> 16) as bv64) << 16)
             | ((LowByte(v >> 24) as bv64) << 24) | ((LowByte(v >> 32) as bv64) << 32)
             | ((LowByte(v >> 40) as bv64) << 40) | ((LowByte(v >> 48) as bv64) << 48)
             | ((LowByte(v >> 56) as bv64) << 56)) == v
  {
  }

  lemma AboveIs(v: bv64)
    ensures Above(v, 0) == v && Above(v, 1) == v >> 8 && Above(v, 2) == v >> 16 && Above(v, 3) == v >> 24
    ensures Above(v, 4) == v >> 32 && Above(v, 5) == v >> 40 && Above(v, 6) == v >> 48 && Above(v, 7) == v >> 56
  {
    ShiftsJoin(v);
    assert Above(v, 1) == v >> 8;
    assert Above(v, 2) == v >> 16;
    assert Above(v, 3) == v >> 24;
    assert Above(v, 4) == v >> 32;
    assert Above(v, 5) == v >> 40;
    assert Above(v, 6) == v >> 48;
  }

  lemma ShiftsJoin(v: bv64)
    ensures (v >> 8) >> 8 == v >> 16 && (v >> 16) >> 8 == v >> 24 && (v >> 24) >> 8 == v >> 32
    ensures (v >> 32) >> 8 == v >> 40 && (v >> 40) >> 8 == v >> 48 && (v >> 48) >> 8 == v >> 56
  {
  }

  /** An integer's eight bytes, low byte first, are loaded as that integer. */
  lemma LoadInverts(v: bv64)
    ensures Load(LittleEndian(v, 8)) == v
  {
    var b := LittleEndian(v, 8);
    ByteAt(v, 8, 0);
    ByteAt(v, 8, 1);
    ByteAt(v, 8, 2);
    ByteAt(v, 8, 3);
    ByteAt(v, 8, 4);
    ByteAt(v, 8, 5);
    ByteAt(v, 8, 6);
    ByteAt(v, 8, 7);
    AboveIs(v);
    LoadOfBytes(v);
    hide LowByte, LittleEndian, Above;
  }

  /** So a word hash absorbs an integer fed at a word boundary as itself. */
  lemma WordsAbsorb(words: seq<bv8>, v: bv64)
    requires |words| % 8 == 0
    ensures Words(words + LittleEndian(v, 8)) == Absorb(Words(words), v)
    ensures words == [] ==> FnvWords(LittleEndian(v, 8)) == Absorb(0xCBF29CE484222325, v)
  {
    LoadInverts(v);
    WordsAppend(words, LittleEndian(v, 8));
    hide Load, LittleEndian, Absorb;
    if words == [] {
      assert [] + LittleEndian(v, 8) == LittleEndian(v, 8);
      FnvWordsSplit(LittleEndian(v, 8), []);
      assert LittleEndian(v, 8) + [] == LittleEndian(v, 8);
    }
  }

  /** Four integers side by side: each lane gets its own, in order. */
  lemma LanesAbsorb(blocks: seq<bv8>, a: bv64, b: bv64, c: bv64, d: bv64)
    requires |blocks| % 32 == 0
    ensures var block := LittleEndian(a, 8) + LittleEndian(b, 8) + LittleEndian(c, 8) + LittleEndian(d, 8);
      var was := Blocks(blocks);
      Blocks(blocks + block) == Lanes(Absorb(was.a, a), Absorb(was.b, b), Absorb(was.c, c), Absorb(was.d, d))
  {
    var w, x, y, z := LittleEndian(a, 8), LittleEndian(b, 8), LittleEndian(c, 8), LittleEndian(d, 8);
    hide Load, LittleEndian, Absorb, Blocks;
    BlocksAppend(blocks, w + x + y + z);
    FourWords(w, x, y, z);
    LoadInverts(a);
    LoadInverts(b);
    LoadInverts(c);
    LoadInverts(d);
  }

  lemma FourWords(w: seq<bv8>, x: seq<bv8>, y: seq<bv8>, z: seq<bv8>)
    requires |w| == |x| == |y| == |z| == 8
    ensures var block := w + x + y + z;
      && Word(block, 0) == Load(w) && Word(block, 8) == Load(x) && Word(block, 16) == Load(y)
      && Word(block, 24) == Load(z)
  {
    hide Load;
    var block := w + x + y + z;
    assert block[0..8] == w && block[8..16] == x && block[16..24] == y && block[24..32] == z;
  }

  /** One block of four integers, hashed. */
  lemma OneBlock(a: bv64, b: bv64, c: bv64, d: bv64)
    ensures var block := LittleEndian(a, 8) + LittleEndian(b, 8) + LittleEndian(c, 8) + LittleEndian(d, 8);
      Lanes4(block) == Absorb(Absorb(Absorb(Absorb(0xCBF29CE484222325,
        Absorb(0xCBF29CE484222325, a)), Absorb(0xCBF29CE484222324, b)),
        Absorb(0xCBF29CE484222327, c)), Absorb(0xCBF29CE484222326, d))
  {
    var block := LittleEndian(a, 8) + LittleEndian(b, 8) + LittleEndian(c, 8) + LittleEndian(d, 8);
    LanesAbsorb([], a, b, c, d);
    assert [] + block == block && block + [] == block;
    Lanes4Split(block, []);
    StartLanes();
    hide Absorb, LittleEndian;
  }

  lemma StartLanes()
    ensures Blocks([]) == Lanes(0xCBF29CE484222325, 0xCBF29CE484222324, 0xCBF29CE484222327, 0xCBF29CE484222326)
  {
  }

  // ---------------------------------------------------------------- published values

  /** One byte more. */
  lemma TailPush(value: bv64, s: seq<bv8>, b: bv8, was: bv64, now: bv64)
    requires Tail(value, s) == was && Absorb(was, b as bv64) == now
    ensures Tail(value, s + [b]) == now
  {
    assert (s + [b])[..|s|] == s;
  }

  const FOOBAR: seq<bv8> := [0x66, 0x6F, 0x6F, 0x62, 0x61, 0x72]

  /** The values FNV-1a's specification gives for the empty text, for "a" and for "foobar". */
  lemma PublishedFnv()
    ensures Tail(BASIS, []) == 0xCBF29CE484222325
    ensures Tail(BASIS, [0x61]) == 0xAF63DC4C8601EC8C
    ensures Tail(BASIS, FOOBAR) == 0x85944171F73967E8
  {
    hide Tail;
    EmptyTail(BASIS);
    TailPush(BASIS, [], 0x61, BASIS, 0xAF63DC4C8601EC8C);
    assert FOOBAR[..0] == [] && [] + [0x61 as bv8] == [0x61];
    TailPush(BASIS, FOOBAR[..0], 0x66, 0xCBF29CE484222325, 0xAF63DB4C8601EAD9);
    assert FOOBAR[..0] + [0x66] == FOOBAR[..1];
    TailPush(BASIS, FOOBAR[..1], 0x6F, 0xAF63DB4C8601EAD9, 0x08985907B541D342);
    assert FOOBAR[..1] + [0x6F] == FOOBAR[..2];
    TailPush(BASIS, FOOBAR[..2], 0x6F, 0x08985907B541D342, 0xDCB27518FED9D577);
    assert FOOBAR[..2] + [0x6F] == FOOBAR[..3];
    TailPush(BASIS, FOOBAR[..3], 0x62, 0xDCB27518FED9D577, 0xDD120E790C2512AF);
    assert FOOBAR[..3] + [0x62] == FOOBAR[..4];
    TailPush(BASIS, FOOBAR[..4], 0x61, 0xDD120E790C2512AF, 0xCAC165AFA2FEF40A);
    assert FOOBAR[..4] + [0x61] == FOOBAR[..5];
    TailPush(BASIS, FOOBAR[..5], 0x72, 0xCAC165AFA2FEF40A, 0x85944171F73967E8);
    assert FOOBAR[..5] + [0x72] == FOOBAR;
  }

  lemma EmptyTail(value: bv64)
    ensures Tail(value, []) == value
  {
  }

  // "the quick brown fox jumps over t" is one block, "he lazy dog" the tail.

  const WORD_A: seq<bv8> := [0x74, 0x68, 0x65, 0x20, 0x71, 0x75, 0x69, 0x63]
  const WORD_B: seq<bv8> := [0x6B, 0x20, 0x62, 0x72, 0x6F, 0x77, 0x6E, 0x20]
  const WORD_C: seq<bv8> := [0x66, 0x6F, 0x78, 0x20, 0x6A, 0x75, 0x6D, 0x70]
  const WORD_D: seq<bv8> := [0x73, 0x20, 0x6F, 0x76, 0x65, 0x72, 0x20, 0x74]
  const REST: seq<bv8> := [0x68, 0x65, 0x20, 0x6C, 0x61, 0x7A, 0x79, 0x20, 0x64, 0x6F, 0x67]

  lemma PangramBlock()
    ensures Blocks(WORD_A + WORD_B + WORD_C + WORD_D)
      == Lanes(0xC8393A462524FAA3, 0x9BA78DD36EC59F3D, 0x2B061E61456F9273, 0x406E9BCEB8DCA96F)
  {
    var block := WORD_A + WORD_B + WORD_C + WORD_D;
    assert [] + block == block;
    BlocksAppend([], block);
    StartLanes();
    FourWords(WORD_A, WORD_B, WORD_C, WORD_D);
    assert Load(WORD_A) == 0x6369757120656874 && Load(WORD_B) == 0x206E776F7262206B;
    assert Load(WORD_C) == 0x706D756A20786F66 && Load(WORD_D) == 0x74207265766F2073;
    hide Load, Word, Blocks;
    assert Absorb(0xCBF29CE484222325, 0x6369757120656874) == 0xC8393A462524FAA3;
    assert Absorb(0xCBF29CE484222324, 0x206E776F7262206B) == 0x9BA78DD36EC59F3D;
    assert Absorb(0xCBF29CE484222327, 0x706D756A20786F66) == 0x2B061E61456F9273;
    assert Absorb(0xCBF29CE484222326, 0x74207265766F2073) == 0x406E9BCEB8DCA96F;
  }

  lemma PangramCombined()
    ensures Combine(Lanes(0xC8393A462524FAA3, 0x9BA78DD36EC59F3D, 0x2B061E61456F9273, 0x406E9BCEB8DCA96F)) == 0x29755E08CF38FBDF
  {
    assert Absorb(0xCBF29CE484222325, 0xC8393A462524FAA3) == 0x79E5AC579EA39EB2;
    assert Absorb(0x79E5AC579EA39EB2, 0x9BA78DD36EC59F3D) == 0xDC6083E47D54A5FD;
    assert Absorb(0xDC6083E47D54A5FD, 0x2B061E61456F9273) == 0x9E95375E8C9F664A;
    assert Absorb(0x9E95375E8C9F664A, 0x406E9BCEB8DCA96F) == 0x29755E08CF38FBDF;
  }

  lemma PangramTail()
    ensures Tail(0x29755E08CF38FBDF, REST) == 0x3456EACB2EA3D0E4
  {
    hide Tail;
    EmptyTail(0x29755E08CF38FBDF);
    assert REST[..0] == [];
    TailPush(0x29755E08CF38FBDF, REST[..0], 0x68, 0x29755E08CF38FBDF, 0xAB6A7FF81DD3B7F5);
    assert REST[..0] + [0x68] == REST[..1];
    TailPush(0x29755E08CF38FBDF, REST[..1], 0x65, 0xAB6A7FF81DD3B7F5, 0x19AF029AAEC0E9B0);
    assert REST[..1] + [0x65] == REST[..2];
    TailPush(0x29755E08CF38FBDF, REST[..2], 0x20, 0x19AF029AAEC0E9B0, 0x654AFCD6F1CCDFB0);
    assert REST[..2] + [0x20] == REST[..3];
    TailPush(0x29755E08CF38FBDF, REST[..3], 0x6C, 0x654AFCD6F1CCDFB0, 0xEB4B7D3CDF2062D4);
    assert REST[..3] + [0x6C] == REST[..4];
    TailPush(0x29755E08CF38FBDF, REST[..4], 0x61, 0xEB4B7D3CDF2062D4, 0xF1A8836F2407B98F);
    assert REST[..4] + [0x61] == REST[..5];
    TailPush(0x29755E08CF38FBDF, REST[..5], 0x7A, 0xF1A8836F2407B98F, 0xA9114ADA3920FB4F);
    assert REST[..5] + [0x7A] == REST[..6];
    TailPush(0x29755E08CF38FBDF, REST[..6], 0x79, 0xA9114ADA3920FB4F, 0x695D66CF130ADCC2);
    assert REST[..6] + [0x79] == REST[..7];
    TailPush(0x29755E08CF38FBDF, REST[..7], 0x20, 0x695D66CF130ADCC2, 0x149293DD5B755406);
    assert REST[..7] + [0x20] == REST[..8];
    TailPush(0x29755E08CF38FBDF, REST[..8], 0x64, 0x149293DD5B755406, 0x6A65A322685E6286);
    assert REST[..8] + [0x64] == REST[..9];
    TailPush(0x29755E08CF38FBDF, REST[..9], 0x6F, 0x6A65A322685E6286, 0x29171C77586211EB);
    assert REST[..9] + [0x6F] == REST[..10];
    TailPush(0x29755E08CF38FBDF, REST[..10], 0x67, 0x29171C77586211EB, 0x3456EACB2EA3D0E4);
    assert REST[..10] + [0x67] == REST;
  }

  /** The value the engine's tests pin for "the quick brown fox jumps over the lazy dog": a block and a tail. */
  lemma Pangram()
    ensures MixFinal(Lanes4(WORD_A + WORD_B + WORD_C + WORD_D + REST)) == 0xE3461E838BC7C275
  {
    var block := WORD_A + WORD_B + WORD_C + WORD_D;
    PangramBlock();
    PangramCombined();
    PangramTail();
    Lanes4Split(block, REST);
    hide Blocks, Combine, Tail;
    assert MixFinal(0x3456EACB2EA3D0E4) == 0xE3461E838BC7C275;
  }
}
