/** Bytes and the fixed-width integers files are made of, little end first. */
module Bytes {

  type Byte = x: nat | x < 256

  /** What a decoder makes of the head of a stream, and what it leaves. */
  datatype Parsed<+T> = NoParse | Parse(value: T, rest: seq<Byte>)

  function U16(b: seq<Byte>, at: nat): (n: nat)
    requires at + 2 <= |b|
    ensures n < 0x1_0000
  {
    var low: nat, high: nat := b[at], b[at + 1];
    low + 0x100 * high
  }

  function U32(b: seq<Byte>, at: nat): (n: nat)
    requires at + 4 <= |b|
    ensures n < 0x1_0000_0000
  {
    U16(b, at) + 0x1_0000 * U16(b, at + 2)
  }

  function Le16(n: nat): (b: seq<Byte>)
    requires n < 0x1_0000
    ensures |b| == 2
  {
    [n % 0x100, n / 0x100]
  }

  function Le32(n: nat): (b: seq<Byte>)
    requires n < 0x1_0000_0000
    ensures |b| == 4
  {
    Le16(n % 0x1_0000) + Le16(n / 0x1_0000)
  }

  /** A field read inside a longer string is the field. */
  lemma U16At(b: seq<Byte>, at: nat, n: nat)
    requires n < 0x1_0000 && at + 2 <= |b| && b[at..at + 2] == Le16(n)
    ensures U16(b, at) == n
  {
    var f := b[at..at + 2];
    assert f[0] == b[at] && f[1] == b[at + 1];
  }

  lemma U32At(b: seq<Byte>, at: nat, n: nat)
    requires n < 0x1_0000_0000 && at + 4 <= |b| && b[at..at + 4] == Le32(n)
    ensures U32(b, at) == n
  {
    hide U16, Le16;
    var f := b[at..at + 4];
    assert b[at..at + 2] == f[..2] && b[at + 2..at + 4] == f[2..];
    U16At(b, at, n % 0x1_0000);
    U16At(b, at + 2, n / 0x1_0000);
  }

  // ---------------------------------------------------------------- big end first

  function Be32(n: nat): (b: seq<Byte>)
    requires n < 0x1_0000_0000
    ensures |b| == 4
  {
    [n / 0x100_0000, n / 0x1_0000 % 0x100, n / 0x100 % 0x100, n % 0x100]
  }

  function U32Be(b: seq<Byte>, at: nat): (n: nat)
    requires at + 4 <= |b|
    ensures n < 0x1_0000_0000
  {
    var b0: nat, b1: nat, b2: nat, b3: nat := b[at], b[at + 1], b[at + 2], b[at + 3];
    0x100_0000 * b0 + 0x1_0000 * b1 + 0x100 * b2 + b3
  }

  lemma U32BeAt(b: seq<Byte>, at: nat, n: nat)
    requires n < 0x1_0000_0000 && at + 4 <= |b| && b[at..at + 4] == Be32(n)
    ensures U32Be(b, at) == n
  {
    var f := b[at..at + 4];
    assert f[0] == b[at] && f[1] == b[at + 1] && f[2] == b[at + 2] && f[3] == b[at + 3];
    var h, q := n / 0x100, n / 0x1_0000;
    assert h / 0x100 == q && q / 0x100 == n / 0x100_0000;
  }

  /** Which end comes first. */
  lemma Ends()
    ensures Le16(0x0201) == [1, 2] && Le32(0x0403_0201) == [1, 2, 3, 4] && Be32(0x0102_0304) == [1, 2, 3, 4]
    ensures U16([1, 2], 0) == 0x0201 && U32([1, 2, 3, 4], 0) == 0x0403_0201 && U32Be([1, 2, 3, 4], 0) == 0x0102_0304
  {
  }
}
