/** The two checksums, said without their loops: Adler-32 as two sums, CRC-32 as a linear map that multiplies
    by x modulo its polynomial and loses no difference; and the fixed parts of the file, byte for byte. */
module PngLaws {
  import opened Bytes
  import opened Pngs

  // ---------------------------------------------------------------- Adler-32

  function Sum(data: seq<Byte>): nat { if data == [] then 0 else data[0] + Sum(data[1..]) }

  /** Each byte as often as there are bytes from it on. */
  function Weighted(data: seq<Byte>): nat {
    if data == [] then 0 else |data| * data[0] + Weighted(data[1..])
  }

  lemma {:induction false} SumPush(data: seq<Byte>, x: Byte)
    ensures Sum(data + [x]) == Sum(data) + x && Weighted(data + [x]) == Weighted(data) + Sum(data) + x
  {
    if data == [] {
      assert [] + [x] == [x] && [x][1..] == [];
    } else {
      assert (data + [x])[0] == data[0] && (data + [x])[1..] == data[1..] + [x];
      SumPush(data[1..], x);
      assert (|data| + 1) * data[0] == |data| * data[0] + data[0];
    }
  }

  /** Adler-32 is one more than the sum of the bytes, and the number of bytes with each byte as often as there
      are bytes from it on, both modulo the largest prime below 2^16. */
  lemma {:induction false} AdlerIsSums(data: seq<Byte>)
    ensures AdlerSums(data).a == (1 + Sum(data)) % 65521
    ensures AdlerSums(data).b == (|data| + Weighted(data)) % 65521
    ensures Adler32(data) == (|data| + Weighted(data)) % 65521 * 0x1_0000 + (1 + Sum(data)) % 65521
    decreases |data|
  {
    if data != [] {
      var front, x := data[..|data| - 1], data[|data| - 1];
      assert data == front + [x];
      AdlerIsSums(front);
      SumPush(front, x);
      hide Sum, Weighted;
      AdlerNext(AdlerSums(front), 1 + Sum(front), |front| + Weighted(front), x);
    }
  }

  /** One byte more, modulo the prime. */
  lemma AdlerNext(before: Sums, a: nat, b: nat, x: nat)
    requires before == Sums(a % 65521, b % 65521)
    ensures (before.a + x) % 65521 == (a + x) % 65521
    ensures (before.b + (before.a + x) % 65521) % 65521 == (b + (a + x)) % 65521
  {
  }

  // ---------------------------------------------------------------- CRC-32

  lemma CrcFirst(v: bv32, count: nat)
    requires count > 0
    ensures CrcBits(v, count) == CrcBits(OneBit(v), count - 1)
  {
  }

  lemma {:induction false} CrcLinear(a: bv32, b: bv32, count: nat)
    ensures CrcBits(Xor(a, b), count) == Xor(CrcBits(a, count), CrcBits(b, count))
    decreases count
  {
    if count == 0 {
    } else {
      hide OneBit, CrcBits, Xor;
      OneBitLinear(a, b);
      CrcFirst(a, count);
      CrcFirst(b, count);
      CrcFirst(Xor(a, b), count);
      CrcLinear(OneBit(a), OneBit(b), count - 1);
    }
  }

  lemma OneBitLinear(a: bv32, b: bv32)
    ensures OneBit(Xor(a, b)) == Xor(OneBit(a), OneBit(b))
  {
    hide Xor, Half, Odd;
    var p: bv32 := 0xEDB88320;
    HalfLinear(a, b);
    OddLinear(a, b);
    XorCancels(p, Half(a), Half(b));
    XorRegroups(p, Half(a), Half(b));
    XorRegroups(p, Half(b), Half(a));
    XorCommutes(Half(a), Half(b));
    XorCommutes(Xor(p, Half(b)), Half(a));
  }

  lemma HalfLinear(a: bv32, b: bv32)
    ensures Half(Xor(a, b)) == Xor(Half(a), Half(b))
  {
  }

  lemma OddLinear(a: bv32, b: bv32)
    ensures Odd(Xor(a, b)) <==> Odd(a) != Odd(b)
  {
  }

  lemma XorCancels(p: bv32, a: bv32, b: bv32)
    ensures Xor(Xor(p, a), Xor(p, b)) == Xor(a, b)
  {
    XorRegroups(Xor(p, a), p, b);
    XorCommutes(Xor(p, a), p);
    XorRegroups(p, p, a);
    XorItself(p, a);
    hide Xor;
  }

  lemma XorItself(p: bv32, a: bv32)
    ensures Xor(p, p) == 0 && Xor(0, a) == a
  {
  }

  lemma XorRegroups(p: bv32, a: bv32, b: bv32)
    ensures Xor(p, Xor(a, b)) == Xor(Xor(p, a), b)
  {
  }

  /** In the register the highest power, x^31, is the lowest bit: a power is taken to the next, and x^31 to
      what x^32 leaves modulo x^32 + x^26 + x^23 + x^22 + x^16 + x^12 + x^11 + x^10 + x^8 + x^7 + x^5 + x^4 + x^2 + x + 1. */
  lemma TimesX(v: bv32)
    requires v & 1 == 0
    ensures CrcBits(v, 1) == v >> 1
    ensures CrcBits(1, 1)
      == (1 << 31) ^ (1 << 30) ^ (1 << 29) ^ (1 << 27) ^ (1 << 26) ^ (1 << 24) ^ (1 << 23) ^ (1 << 21)
         ^ (1 << 20) ^ (1 << 19) ^ (1 << 15) ^ (1 << 9) ^ (1 << 8) ^ (1 << 5)
  {
    assert CrcBits(v, 1) == CrcBits(OneBit(v), 0);
    assert CrcBits(1, 1) == CrcBits(OneBit(1), 0);
  }

  /** One bit of the division, undone. */
  function BitBack(v: bv32): bv32 {
    if v & 0x80000000 != 0 then ((v ^ 0xEDB88320) << 1) | 1 else v << 1
  }

  lemma BitBackInverts(v: bv32)
    ensures BitBack(OneBit(v)) == v
  {
  }

  lemma {:induction false} CrcDiffers(a: bv32, b: bv32, count: nat)
    requires a != b
    ensures CrcBits(a, count) != CrcBits(b, count)
    decreases count
  {
    if count > 0 {
      BitBackInverts(a);
      BitBackInverts(b);
      CrcDiffers(OneBit(a), OneBit(b), count - 1);
    }
  }

  lemma BytesDiffer(a: bv32, b: bv32, x: Byte, y: Byte)
    requires (a != b && x == y) || (a == b && x != y)
    ensures Xor(a, AsWord(x)) != Xor(b, AsWord(y))
  {
    hide Xor, AsWord;
    if a != b {
      XorKeeps(a, b, AsWord(x));
    } else {
      WordsDiffer(x, y);
      XorKeeps(AsWord(x), AsWord(y), a);
      XorCommutes(a, AsWord(x));
      XorCommutes(a, AsWord(y));
    }
  }

  lemma XorKeeps(a: bv32, b: bv32, c: bv32)
    requires a != b
    ensures Xor(a, c) != Xor(b, c)
  {
  }

  lemma XorCommutes(a: bv32, b: bv32)
    ensures Xor(a, b) == Xor(b, a)
  {
  }

  lemma DigitsOfWord(a: bool, b: bool, c: bool, d: bool, e: bool, f: bool, g: bool, h: bool)
    ensures var w: bv32 := (if a then 0x01 else 0) | (if b then 0x02 else 0) | (if c then 0x04 else 0)
      | (if d then 0x08 else 0) | (if e then 0x10 else 0) | (if f then 0x20 else 0) | (if g then 0x40 else 0)
      | (if h then 0x80 else 0);
      && (w & 0x01 != 0 <==> a) && (w & 0x02 != 0 <==> b) && (w & 0x04 != 0 <==> c) && (w & 0x08 != 0 <==> d)
      && (w & 0x10 != 0 <==> e) && (w & 0x20 != 0 <==> f) && (w & 0x40 != 0 <==> g) && (w & 0x80 != 0 <==> h)
  {
  }

  /** A word's lowest eight bits are the byte's binary digits. */
  lemma WordDigits(x: Byte)
    ensures var h1: nat := x / 2;
      var h2, h3 := h1 / 2, h1 / 2 / 2;
      var h4, h5 := h3 / 2, h3 / 2 / 2;
      var h6, h7 := h5 / 2, h5 / 2 / 2;
      var w := AsWord(x);
      && (w & 0x01 != 0 <==> x % 2 == 1) && (w & 0x02 != 0 <==> h1 % 2 == 1) && (w & 0x04 != 0 <==> h2 % 2 == 1)
      && (w & 0x08 != 0 <==> h3 % 2 == 1) && (w & 0x10 != 0 <==> h4 % 2 == 1) && (w & 0x20 != 0 <==> h5 % 2 == 1)
      && (w & 0x40 != 0 <==> h6 % 2 == 1) && (w & 0x80 != 0 <==> h7 % 2 == 1)
  {
    var h1: nat := x / 2;
    var h2, h3 := h1 / 2, h1 / 2 / 2;
    var h4, h5 := h3 / 2, h3 / 2 / 2;
    var h6, h7 := h5 / 2, h5 / 2 / 2;
    DigitsOfWord(x % 2 == 1, h1 % 2 == 1, h2 % 2 == 1, h3 % 2 == 1, h4 % 2 == 1, h5 % 2 == 1, h6 % 2 == 1, h7 % 2 == 1);
  }

  lemma WordsDiffer(x: Byte, y: Byte)
    requires x != y
    ensures AsWord(x) != AsWord(y)
  {
    WordDigits(x);
    WordDigits(y);
    hide AsWord;
    if AsWord(x) == AsWord(y) {
      SameHalves(x, y);
      SameHalves(x / 2, y / 2);
      SameHalves(x / 2 / 2, y / 2 / 2);
      SameHalves(x / 2 / 2 / 2, y / 2 / 2 / 2);
      SameHalves(x / 2 / 2 / 2 / 2, y / 2 / 2 / 2 / 2);
      SameHalves(x / 2 / 2 / 2 / 2 / 2, y / 2 / 2 / 2 / 2 / 2);
      SameHalves(x / 2 / 2 / 2 / 2 / 2 / 2, y / 2 / 2 / 2 / 2 / 2 / 2);
      SameHalves(x / 2 / 2 / 2 / 2 / 2 / 2 / 2, y / 2 / 2 / 2 / 2 / 2 / 2 / 2);
    }
  }

  lemma SameHalves(x: nat, y: nat)
    requires x % 2 == 1 <==> y % 2 == 1
    ensures x / 2 == y / 2 ==> x == y
    ensures x < 2 && y < 2 ==> x == y
  {
  }

  lemma CrcLast(data: seq<Byte>)
    requires data != []
    ensures var n := |data| - 1; CrcBytes(data) == CrcBits(Xor(CrcBytes(data[..n]), AsWord(data[n])), 8)
  {
    hide CrcBits, AsWord, Xor;
  }

  lemma LastDiffers(a: bv32, b: bv32, x: Byte, y: Byte)
    requires (a != b && x == y) || (a == b && x != y)
    ensures CrcBits(Xor(a, AsWord(x)), 8) != CrcBits(Xor(b, AsWord(y)), 8)
  {
    hide CrcBits, AsWord, Xor;
    BytesDiffer(a, b, x, y);
    CrcDiffers(Xor(a, AsWord(x)), Xor(b, AsWord(y)), 8);
  }

  /** Changing any one byte changes the CRC, wherever it is and however much follows it. */
  lemma {:induction false} CrcByteMatters(data: seq<Byte>, p: nat, y: Byte)
    requires p < |data| && y != data[p]
    ensures CrcBytes(data) != CrcBytes(data[p := y]) && Crc32(data) != Crc32(data[p := y])
    decreases |data|
  {
    hide CrcBits, AsWord, CrcBytes, Crc32, Xor;
    var n, other := |data| - 1, data[p := y];
    if p < n {
      CrcByteMatters(data[..n], p, y);
      assert other[..n] == data[..n][p := y] && other[n] == data[n];
    } else {
      assert other[..n] == data[..n];
    }
    CrcLast(data);
    CrcLast(other);
    LastDiffers(CrcBytes(data[..n]), CrcBytes(other[..n]), data[n], other[n]);
    CrcNumber(data, other);
  }

  lemma CrcNumber(a: seq<Byte>, b: seq<Byte>)
    requires CrcBytes(a) != CrcBytes(b)
    ensures Crc32(a) != Crc32(b)
  {
    hide CrcBytes, Number, Xor;
    XorKeeps(CrcBytes(a), CrcBytes(b), 0xFFFFFFFF);
    NumbersDiffer(Xor(CrcBytes(a), 0xFFFFFFFF), Xor(CrcBytes(b), 0xFFFFFFFF));
  }

  /** A word without its lowest `k` bits. */
  function Shifted(v: bv32, k: nat): bv32
    decreases k
  {
    if k == 0 then v else Half(Shifted(v, k - 1))
  }

  lemma {:induction false} ShiftedTwice(v: bv32, k: nat, m: nat)
    ensures Shifted(Shifted(v, k), m) == Shifted(v, k + m)
    decreases m
  {
    hide Half;
    if m > 0 {
      ShiftedTwice(v, k, m - 1);
    }
  }

  lemma EightHalves(v: bv32)
    ensures Half(Half(Half(Half(Half(Half(Half(Half(v)))))))) == v >> 8
  {
  }

  lemma EightShifts(v: bv32)
    ensures Shifted(v, 8) == v >> 8
  {
    EightHalves(v);
    hide Half;
    assert Shifted(v, 2) == Half(Half(v));
    assert Shifted(v, 4) == Half(Half(Half(Half(v))));
    assert Shifted(v, 6) == Half(Half(Half(Half(Half(Half(v))))));
  }

  lemma FourBytes(v: bv32)
    ensures (((v >> 8) >> 8) >> 8) >> 8 == 0
  {
  }

  lemma NothingLeft(v: bv32)
    ensures Shifted(v, 32) == 0
  {
    EightShifts(v);
    EightShifts(Shifted(v, 8));
    EightShifts(Shifted(v, 16));
    EightShifts(Shifted(v, 24));
    ShiftedTwice(v, 8, 8);
    ShiftedTwice(v, 16, 8);
    ShiftedTwice(v, 24, 8);
    FourBytes(v);
    hide Shifted;
  }

  /** Words with the same number in their lowest bits and nothing above them are the same. */
  lemma {:induction false} NumberInjective(a: bv32, b: bv32, count: nat)
    requires Number(a, count) == Number(b, count) && Shifted(a, count) == 0 && Shifted(b, count) == 0
    ensures a == b
    decreases count
  {
    hide Half, Odd;
    if count > 0 {
      ShiftedTwice(a, 1, count - 1);
      ShiftedTwice(b, 1, count - 1);
      assert Shifted(a, 1) == Half(a) && Shifted(b, 1) == Half(b);
      NumberInjective(Half(a), Half(b), count - 1);
      SameAbove(a, b);
    }
  }

  lemma SameAbove(a: bv32, b: bv32)
    requires Half(a) == Half(b) && (Odd(a) <==> Odd(b))
    ensures a == b
  {
  }

  lemma NumbersDiffer(a: bv32, b: bv32)
    requires a != b
    ensures Number(a, 32) != Number(b, 32)
  {
    NothingLeft(a);
    NothingLeft(b);
    hide Number, Shifted;
    if Number(a, 32) == Number(b, 32) {
      NumberInjective(a, b, 32);
    }
  }

  // ---------------------------------------------------------------- fixed bytes

  lemma CrcOfI1()
    ensures CrcBits(0xFFFFFFB6, 8) == 0x22FDE946
  {
    CrcFirst(0xFFFFFFB6, 8);
    CrcFirst(0x7FFFFFDB, 7);
    CrcFirst(0xD2477CCD, 6);
    CrcFirst(0x849B3D46, 5);
    CrcFirst(0x424D9EA3, 4);
    CrcFirst(0xCC9E4C71, 3);
    CrcFirst(0x8BF7A518, 2);
    CrcFirst(0x45FBD28C, 1);
    assert OneBit(0xFFFFFFB6) == 0x7FFFFFDB && OneBit(0x7FFFFFDB) == 0xD2477CCD;
    assert OneBit(0xD2477CCD) == 0x849B3D46 && OneBit(0x849B3D46) == 0x424D9EA3;
    assert OneBit(0x424D9EA3) == 0xCC9E4C71 && OneBit(0xCC9E4C71) == 0x8BF7A518;
    assert OneBit(0x8BF7A518) == 0x45FBD28C && OneBit(0x45FBD28C) == 0x22FDE946;
    hide OneBit;
  }

  lemma CrcOfE2()
    ensures CrcBits(0x22FDE903, 8) == 0x992BAC53
  {
    CrcFirst(0x22FDE903, 8);
    CrcFirst(0xFCC677A1, 7);
    CrcFirst(0x93DBB8F0, 6);
    CrcFirst(0x49EDDC78, 5);
    CrcFirst(0x24F6EE3C, 4);
    CrcFirst(0x127B771E, 3);
    CrcFirst(0x093DBB8F, 2);
    CrcFirst(0xE9265EE7, 1);
    assert OneBit(0x22FDE903) == 0xFCC677A1 && OneBit(0xFCC677A1) == 0x93DBB8F0;
    assert OneBit(0x93DBB8F0) == 0x49EDDC78 && OneBit(0x49EDDC78) == 0x24F6EE3C;
    assert OneBit(0x24F6EE3C) == 0x127B771E && OneBit(0x127B771E) == 0x093DBB8F;
    assert OneBit(0x093DBB8F) == 0xE9265EE7 && OneBit(0xE9265EE7) == 0x992BAC53;
    hide OneBit;
  }

  lemma CrcOfN3()
    ensures CrcBits(0x992BAC1D, 8) == 0x639F4775
  {
    CrcFirst(0x992BAC1D, 8);
    CrcFirst(0xA12D552E, 7);
    CrcFirst(0x5096AA97, 6);
    CrcFirst(0xC5F3D66B, 5);
    CrcFirst(0x8F416815, 4);
    CrcFirst(0xAA18372A, 3);
    CrcFirst(0x550C1B95, 2);
    CrcFirst(0xC73E8EEA, 1);
    assert OneBit(0x992BAC1D) == 0xA12D552E && OneBit(0xA12D552E) == 0x5096AA97;
    assert OneBit(0x5096AA97) == 0xC5F3D66B && OneBit(0xC5F3D66B) == 0x8F416815;
    assert OneBit(0x8F416815) == 0xAA18372A && OneBit(0xAA18372A) == 0x550C1B95;
    assert OneBit(0x550C1B95) == 0xC73E8EEA && OneBit(0xC73E8EEA) == 0x639F4775;
    hide OneBit;
  }

  lemma CrcOfD4()
    ensures CrcBits(0x639F4731, 8) == 0x51BD9F7D
  {
    CrcFirst(0x639F4731, 8);
    CrcFirst(0xDC7720B8, 7);
    CrcFirst(0x6E3B905C, 6);
    CrcFirst(0x371DC82E, 5);
    CrcFirst(0x1B8EE417, 4);
    CrcFirst(0xE07FF12B, 3);
    CrcFirst(0x9D877BB5, 2);
    CrcFirst(0xA37B3EFA, 1);
    assert OneBit(0x639F4731) == 0xDC7720B8 && OneBit(0xDC7720B8) == 0x6E3B905C;
    assert OneBit(0x6E3B905C) == 0x371DC82E && OneBit(0x371DC82E) == 0x1B8EE417;
    assert OneBit(0x1B8EE417) == 0xE07FF12B && OneBit(0xE07FF12B) == 0x9D877BB5;
    assert OneBit(0x9D877BB5) == 0xA37B3EFA && OneBit(0xA37B3EFA) == 0x51BD9F7D;
    hide OneBit;
  }

  lemma CrcPush(data: seq<Byte>, x: Byte, was: bv32, now: bv32)
    requires CrcBytes(data) == was && CrcBits(Xor(was, AsWord(x)), 8) == now
    ensures CrcBytes(data + [x]) == now
  {
    assert (data + [x])[..|data|] == data;
    hide CrcBits, Xor, AsWord;
  }

  lemma WordOfI()
    ensures AsWord(73) == 73
  {
    assert 73 / 2 == 36 && 73 / 2 / 2 == 18 && 73 / 2 / 2 / 2 == 9 && 73 / 2 / 2 / 2 / 2 == 4;
    assert Digit(73, 1) == 1 && Digit(36, 2) == 0;
  }

  lemma WordOfE()
    ensures AsWord(69) == 69
  {
    assert 69 / 2 == 34 && 69 / 2 / 2 == 17 && 69 / 2 / 2 / 2 == 8 && 69 / 2 / 2 / 2 / 2 == 4;
    assert Digit(69, 1) == 1 && Digit(34, 2) == 0;
  }

  lemma WordOfN()
    ensures AsWord(78) == 78
  {
    assert 78 / 2 == 39 && 78 / 2 / 2 == 19 && 78 / 2 / 2 / 2 == 9 && 78 / 2 / 2 / 2 / 2 == 4;
    assert Digit(78, 1) == 0 && Digit(39, 2) == 2;
  }

  lemma WordOfD()
    ensures AsWord(68) == 68
  {
    assert 68 / 2 == 34 && 68 / 2 / 2 == 17 && 68 / 2 / 2 / 2 == 8 && 68 / 2 / 2 / 2 / 2 == 4;
    assert Digit(68, 1) == 0 && Digit(34, 2) == 0;
  }

  lemma IendWords()
    ensures Xor(0xFFFFFFFF, AsWord(73)) == 0xFFFFFFB6
    ensures Xor(0x22FDE946, AsWord(69)) == 0x22FDE903
    ensures Xor(0x992BAC53, AsWord(78)) == 0x992BAC1D
    ensures Xor(0x639F4775, AsWord(68)) == 0x639F4731
  {
    WordOfI();
    WordOfE();
    WordOfN();
    WordOfD();
    hide AsWord;
  }

  /** The CRC of the end chunk, as every PNG file ends. */
  lemma CrcOfEnd()
    ensures CrcBytes([73, 69, 78, 68]) == 0x51BD9F7D && Crc32([73, 69, 78, 68]) == 0xAE426082
  {
    IendWords();
    CrcOfI1();
    CrcOfE2();
    CrcOfN3();
    CrcOfD4();
    hide CrcBits, AsWord;
    assert CrcBytes([]) == 0xFFFFFFFF;
    CrcPush([], 73, 0xFFFFFFFF, 0x22FDE946);
    assert [] + [73] == [73];
    CrcPush([73], 69, 0x22FDE946, 0x992BAC53);
    assert [73] + [69] == [73, 69];
    CrcPush([73, 69], 78, 0x992BAC53, 0x639F4775);
    assert [73, 69] + [78] == [73, 69, 78];
    CrcPush([73, 69, 78], 68, 0x639F4775, 0x51BD9F7D);
    assert [73, 69, 78] + [68] == [73, 69, 78, 68];
    hide CrcBytes;
    assert Xor(0x51BD9F7D, 0xFFFFFFFF) == 0xAE426082;
    EndNumber();
  }

  lemma EndNumber()
    ensures Number(0xAE426082, 32) == 0xAE426082
  {
    assert Number(0x0000000A, 4) == 0x0000000A;
    assert Number(0x000000AE, 8) == 0x000000AE;
    assert Number(0x00000AE4, 12) == 0x00000AE4;
    assert Number(0x0000AE42, 16) == 0x0000AE42;
    assert Number(0x000AE426, 20) == 0x000AE426;
    assert Number(0x00AE4260, 24) == 0x00AE4260;
    assert Number(0x0AE42608, 28) == 0x0AE42608;
    assert Number(0xAE426082, 32) == 0xAE426082;
  }

  /** The stream for no bytes at all: its two bytes of header, one empty last block, the checksum of nothing. */
  lemma EmptyStream()
    ensures StoredDeflate([]) == [0x78, 0x01, 0x01, 0x00, 0x00, 0xFF, 0xFF, 0x00, 0x00, 0x00, 0x01]
  {
    BlockOnes(0);
    assert Flipped(0, 16) == 0xFFFF;
    assert Block(true, []) == [1] + Le16(0) + Le16(0xFFFF) + [];
    assert Adler32([]) == 1;
  }

  /** A stored block of up to 65535 bytes: whether it is the last, its length low end first, the length with
      every bit turned over, and the bytes. */
  lemma BlockIs(final: bool, data: seq<Byte>)
    requires |data| <= 65535
    ensures var b, n := Block(final, data), |data|;
      && b[0] == (if final then 1 else 0) && b[1] == n % 256 && b[2] == n / 256
      && b[3] == (65535 - n) % 256 && b[4] == (65535 - n) / 256 && b[5..] == data
  {
    BlockOnes(|data|);
    hide Flipped;
  }

  /** How a file begins and ends, whatever the image: signature; a header chunk of thirteen bytes with the sides,
      high end first, eight bits a channel, colour with alpha, no options; the end chunk. */
  lemma FileIs(rows: seq<seq<Pixel>>, comment: seq<Byte>)
    requires Writable(rows, comment)
    ensures var b := PngBytes(rows, comment);
      && |b| >= 45 && b[..8] == [0x89, 0x50, 0x4E, 0x47, 0x0D, 0x0A, 0x1A, 0x0A]
      && b[8..16] == [0, 0, 0, 13, 0x49, 0x48, 0x44, 0x52]
      && b[16..20] == Be32(|rows[0]|) && b[20..24] == Be32(|rows|) && b[24..29] == [8, 6, 0, 0, 0]
      && b[|b| - 12..] == [0, 0, 0, 0, 0x49, 0x45, 0x4E, 0x44, 0xAE, 0x42, 0x60, 0x82]
  {
    var text, data := FileParts(rows, comment);
    HeaderChunkIs(|rows[0]|, |rows|);
    EndChunkIs();
    hide *;
    Enclosed(SIGNATURE, WriteChunk(Chunk(IHDR, Header(|rows[0]|, |rows|))), text, data, WriteChunk(Chunk(IEND, [])));
  }

  lemma FileParts(rows: seq<seq<Pixel>>, comment: seq<Byte>) returns (text: seq<Byte>, data: seq<Byte>)
    requires Writable(rows, comment)
    ensures PngBytes(rows, comment)
         == SIGNATURE + WriteChunk(Chunk(IHDR, Header(|rows[0]|, |rows|))) + text + data + WriteChunk(Chunk(IEND, []))
  {
    hide WriteChunk, Header, Raw, StoredDeflate;
    text, data := WriteChunk(Chunk(TEXT, TextBody(comment))), WriteChunk(Chunk(IDAT, StoredDeflate(Raw(rows))));
  }

  lemma Enclosed(signature: seq<Byte>, header: seq<Byte>, text: seq<Byte>, data: seq<Byte>, end: seq<Byte>)
    requires |signature| == 8 && |header| == 25 && |end| == 12
    ensures var b := signature + header + text + data + end;
      && |b| >= 45 && b[..8] == signature && b[8..16] == header[..8] && b[16..20] == header[8..12]
      && b[20..24] == header[12..16] && b[24..29] == header[16..21] && b[|b| - 12..] == end
  {
    var b := signature + header + text + data + end;
    assert b[8..33] == header;
    assert b[8..33][..8] == b[8..16] && b[8..33][8..12] == b[16..20];
    assert b[8..33][12..16] == b[20..24] && b[8..33][16..21] == b[24..29];
  }

  lemma HeaderChunkIs(width: nat, height: nat)
    requires width < MAX_LENGTH && height < MAX_LENGTH
    ensures var c := WriteChunk(Chunk(IHDR, Header(width, height)));
      && |c| == 25 && c[..8] == [0, 0, 0, 13, 0x49, 0x48, 0x44, 0x52] && c[8..12] == Be32(width)
      && c[12..16] == Be32(height) && c[16..21] == [8, 6, 0, 0, 0]
  {
    assert Be32(13) == [0, 0, 0, 13];
    hide Be32, Crc32;
    var h := Header(width, height);
    var c := WriteChunk(Chunk(IHDR, h));
    assert c[..8] == Be32(13) + IHDR && c[8..21] == h;
    assert c[8..12] == h[..4] && c[12..16] == h[4..8] && c[16..21] == h[8..];
  }

  lemma EndChunkIs()
    ensures WriteChunk(Chunk(IEND, [])) == [0, 0, 0, 0, 0x49, 0x45, 0x4E, 0x44, 0xAE, 0x42, 0x60, 0x82]
  {
    CrcOfEnd();
    hide Crc32, CrcBytes;
    assert IEND + [] == [73, 69, 78, 68];
    assert Be32(0) == [0, 0, 0, 0] && Be32(0xAE426082) == [0xAE, 0x42, 0x60, 0x82];
    hide Be32;
  }

  /** A row is a zero, for no filter, and then each pixel's red, green, blue and alpha. */
  lemma {:induction false} RowIs(row: seq<Pixel>, k: nat)
    requires k < |row|
    ensures |RowBytes(row)| == 4 * |row|
    ensures RowBytes(row)[4 * k..4 * k + 4] == [row[k].red, row[k].green, row[k].blue, row[k].alpha]
    decreases |row|
  {
    var n := |row| - 1;
    if k < n {
      RowIs(row[..n], k);
      assert RowBytes(row)[4 * k..4 * k + 4] == RowBytes(row[..n])[4 * k..4 * k + 4];
    }
  }
}
