/** Variable-length integers: the two encoders, in Python and in C++, and the decoder of section 5.2.2 of
    the WebAssembly Core Specification that inverts both. */
module Leb128 {
  import opened Bytes

  function Pow2(n: nat): (p: nat)
    ensures p >= 1
  {
    if n == 0 then 1 else 2 * Pow2(n - 1)
  }

  // ---------------------------------------------------------------- the encodings

  function Uleb(value: nat): (b: seq<Byte>)
    ensures |b| >= 1
  {
    if value < 128 then [value] else [value % 128 + 128] + Uleb(value / 128)
  }

  /** No more bytes are needed once what is left is all copies of the sign. */
  predicate SlebEnds(value: int) {
    (value / 128 == 0 && value % 128 < 64) || (value / 128 == -1 && value % 128 >= 64)
  }

  function Sleb(value: int): (b: seq<Byte>)
    ensures |b| >= 1
    decreases if value < 0 then -value else value
  {
    if SlebEnds(value) then [value % 128] else [value % 128 + 128] + Sleb(value / 128)
  }

  // ---------------------------------------------------------------- the decoder

  /** An unsigned integer of at most `bits` bits at the head of the stream. */
  function DecodeU(b: seq<Byte>, bits: nat): (r: Parsed<nat>)
    ensures r.Parse? ==> |r.rest| < |b|
    decreases bits
  {
    if b == [] then NoParse
    else
      var n: nat := b[0];
      if n < 128 then (if n < Pow2(bits) then Parse(n, b[1..]) else NoParse)
      else if bits <= 7 then NoParse
      else
        match DecodeU(b[1..], bits - 7)
        case NoParse => NoParse
        case Parse(m, rest) => Parse(128 * m + (n - 128), rest)
  }

  /** A signed one. */
  function DecodeS(b: seq<Byte>, bits: nat): (r: Parsed<int>)
    requires bits >= 1
    ensures r.Parse? ==> |r.rest| < |b|
    decreases bits
  {
    if b == [] then NoParse
    else
      var n: nat := b[0];
      if n < 64 then (if n < Pow2(bits - 1) then Parse(n, b[1..]) else NoParse)
      else if n < 128 then (if n >= 128 - Pow2(bits - 1) then Parse(n - 128, b[1..]) else NoParse)
      else if bits <= 7 then NoParse
      else
        match DecodeS(b[1..], bits - 7)
        case NoParse => NoParse
        case Parse(m, rest) => Parse(128 * m + (n - 128), rest)
  }

  lemma Pow2Seven(n: nat)
    ensures Pow2(n + 7) == 128 * Pow2(n)
  {
    assert Pow2(n + 7) == 2 * Pow2(n + 6) == 4 * Pow2(n + 5) == 8 * Pow2(n + 4) == 16 * Pow2(n + 3);
    assert Pow2(n + 3) == 2 * Pow2(n + 2) == 4 * Pow2(n + 1) == 8 * Pow2(n);
  }

  lemma {:induction false} Pow2Grows(m: nat, n: nat)
    requires m <= n
    ensures Pow2(m) <= Pow2(n)
  {
    if m < n {
      Pow2Grows(m, n - 1);
    }
  }

  lemma SevenBits()
    ensures Pow2(7) == 128 && Pow2(6) == 64
  {
    Pow2Seven(0);
    assert Pow2(7) == 2 * Pow2(6);
  }

  /** The decoder gives back every value that fits, with the rest of the stream untouched, and refuses
      every value that does not. */
  lemma {:induction false} UlebInverts(value: nat, bits: nat, rest: seq<Byte>)
    ensures DecodeU(Uleb(value) + rest, bits) == if value < Pow2(bits) then Parse(value, rest) else NoParse
    decreases value
  {
    hide Pow2;
    var b := Uleb(value) + rest;
    if value < 128 {
      assert b[1..] == rest;
    } else if bits <= 7 {
      SevenBits();
      Pow2Grows(bits, 7);
    } else {
      UlebInverts(value / 128, bits - 7, rest);
      Pow2Seven(bits - 7);
      assert b[1..] == Uleb(value / 128) + rest;
    }
  }

  lemma {:induction false} SlebInverts(value: int, bits: nat, rest: seq<Byte>)
    requires bits >= 1
    ensures DecodeS(Sleb(value) + rest, bits)
         == if -(Pow2(bits - 1) as int) <= value < Pow2(bits - 1) then Parse(value, rest) else NoParse
    decreases if value < 0 then -value else value
  {
    hide Pow2;
    var b := Sleb(value) + rest;
    if SlebEnds(value) {
      assert b[1..] == rest;
    } else if bits <= 7 {
      SevenBits();
      Pow2Grows(bits - 1, 6);
    } else {
      SlebInverts(value / 128, bits - 7, rest);
      Pow2Seven(bits - 8);
      assert b[1..] == Sleb(value / 128) + rest;
    }
  }

  /** No encoding the decoder accepts for a value is shorter than the one written. */
  lemma {:induction false} UlebIsShortest(b: seq<Byte>, bits: nat)
    requires DecodeU(b, bits).Parse?
    ensures |Uleb(DecodeU(b, bits).value)| + |DecodeU(b, bits).rest| <= |b|
    decreases bits
  {
    hide Pow2;
    if b[0] >= 128 {
      UlebIsShortest(b[1..], bits - 7);
      var m: nat, low: nat := DecodeU(b[1..], bits - 7).value, b[0] - 128;
      assert (128 * m + low) / 128 == m;
    }
  }

  lemma {:induction false} SlebIsShortest(b: seq<Byte>, bits: nat)
    requires bits >= 1 && DecodeS(b, bits).Parse?
    ensures |Sleb(DecodeS(b, bits).value)| + |DecodeS(b, bits).rest| <= |b|
    decreases bits
  {
    hide Pow2;
    if b[0] >= 128 {
      SlebIsShortest(b[1..], bits - 7);
      var m: int, low: nat := DecodeS(b[1..], bits - 7).value, b[0] - 128;
      assert (128 * m + low) / 128 == m && (128 * m + low) % 128 == low;
    }
  }

  // ---------------------------------------------------------------- the two encoders

  /** The Python loop, on an integer of any size. */
  method UlebPython(value0: nat) returns (out: seq<Byte>)
    ensures out == Uleb(value0)
  {
    out := [];
    var value := value0;
    while true
      invariant out + Uleb(value) == Uleb(value0)
      decreases value
    {
      var byte, was := value % 128, value;
      value := value / 128;
      if value != 0 {
        assert out + Uleb(was) == out + [byte + 128] + Uleb(value);
        out := out + [byte + 128];
      } else {
        return out + [byte];
      }
    }
  }

  method SlebPython(value0: int) returns (out: seq<Byte>)
    ensures out == Sleb(value0)
  {
    out := [];
    var value := value0;
    while true
      invariant out + Sleb(value) == Sleb(value0)
      decreases if value < 0 then -value else value
    {
      var byte, was := value % 128, value;
      value := value / 128;
      var signSet := byte >= 64;
      if (value == 0 && !signSet) || (value == -1 && signSet) {
        return out + [byte];
      }
      assert out + Sleb(was) == out + [byte + 128] + Sleb(value);
      out := out + [byte + 128];
    }
  }

  const LIMIT64: nat := 0x1_0000_0000_0000_0000

  /** The C++ loop, on a 64-bit word, pushing onto what is there: the same bytes. */
  method UlebWords(out0: seq<Byte>, value0: nat) returns (out: seq<Byte>)
    requires value0 < LIMIT64
    ensures out == out0 + Uleb(value0)
  {
    out := out0;
    var value, more := value0, true;
    while more
      invariant more ==> out + Uleb(value) == out0 + Uleb(value0)
      invariant !more ==> out == out0 + Uleb(value0)
      decreases more, value
    {
      var byte, was := value % 128, value;
      value := value / 128;
      if value != 0 {
        byte := byte + 128;
        assert out + Uleb(was) == out + [byte] + Uleb(value);
      }
      out := out + [byte];
      more := value != 0;
    }
  }

  method SlebWords(out0: seq<Byte>, value0: int) returns (out: seq<Byte>)
    requires -(LIMIT64 / 2) <= value0 < LIMIT64 / 2
    ensures out == out0 + Sleb(value0)
  {
    out := out0;
    var value := value0;
    while true
      invariant out + Sleb(value) == out0 + Sleb(value0)
      decreases if value < 0 then -value else value
    {
      var byte, was := value % 128, value;
      value := value / 128;
      var signSet := byte >= 64;
      if (value == 0 && !signSet) || (value == -1 && signSet) {
        return out + [byte];
      }
      assert out + Sleb(was) == out + [byte + 128] + Sleb(value);
      out := out + [byte + 128];
    }
  }
}
