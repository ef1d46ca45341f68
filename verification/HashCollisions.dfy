/** No collisions between near neighbours: every absorb step and the final mix are bijections, so two
    byte strings of one length that differ only inside one aligned word, or in one tail byte, never
    share a hash. Hence every single byte matters to every hash. */
module HashCollisions {
  import opened WordHash

  // ---------------------------------------------------------------- the steps are bijections

  lemma UntimesTimes(x: bv64)
    ensures Untimes(x * 0x100000001B3) == x
  {
  }

  lemma TimesUndone(x: bv64)
    ensures Untimes(Times(x)) == x
  {
    hide Untimes;
    UntimesTimes(x);
  }

  lemma TimesUntimes(x: bv64)
    ensures Times(x * 0xCE965057AFF6957B) == x
  {
  }

  lemma TimesReaches(x: bv64)
    ensures Times(Untimes(x)) == x
  {
    hide Times;
    TimesUntimes(x);
  }

  lemma XorCancels(x: bv64, y: bv64)
    ensures Xor(Xor(x, y), y) == x && Xor(Xor(x, y), x) == y && Xor(y, Xor(x, y)) == x
  {
  }

  /** An absorb step can be undone, knowing either the word or the value before it; and every value is
      reached from each side. */
  lemma AbsorbIsBijection(value: bv64, word: bv64)
    ensures Xor(Untimes(Absorb(value, word)), word) == value && Xor(Untimes(Absorb(value, word)), value) == word
    ensures Absorb(Xor(Untimes(value), word), word) == value && Absorb(word, Xor(Untimes(value), word)) == value
  {
    hide Times, Untimes, Xor;
    TimesUndone(Xor(value, word));
    TimesReaches(value);
    XorCancels(value, word);
    XorCancels(Untimes(value), word);
  }

  /** So two steps that differ on one side only give different values. */
  lemma AbsorbDiffers(v: bv64, w: bv64, v': bv64, w': bv64)
    requires (v == v') != (w == w')
    ensures Absorb(v, w) != Absorb(v', w')
  {
    hide Absorb, Untimes, Xor;
    AbsorbIsBijection(v, w);
    AbsorbIsBijection(v', w');
  }

  function Unscramble(value: bv64): bv64 { value ^ (value >> 33) }
  function UntimesFirst(value: bv64): bv64 { value * 0x4F74430C22A54005 }
  function UntimesSecond(value: bv64): bv64 { value * 0x9CB4B2F8129337DB }

  function UnmixFinal(value: bv64): bv64 {
    Unscramble(UntimesFirst(Unscramble(UntimesSecond(Unscramble(value)))))
  }

  lemma ScrambleSteps(x: bv64)
    ensures Unscramble(x ^ (x >> 33)) == x
  {
  }

  lemma UnscrambleSteps(x: bv64)
    ensures Scramble(x ^ (x >> 33)) == x
  {
  }

  lemma ScrambleUndone(x: bv64)
    ensures Unscramble(Scramble(x)) == x
  {
    hide Unscramble;
    ScrambleSteps(x);
  }

  lemma ScrambleReaches(x: bv64)
    ensures Scramble(Unscramble(x)) == x
  {
    hide Scramble;
    UnscrambleSteps(x);
  }

  lemma FirstSteps(x: bv64)
    ensures UntimesFirst(x * 0xFF51AFD7ED558CCD) == x && TimesFirst(x * 0x4F74430C22A54005) == x
  {
  }

  lemma SecondSteps(x: bv64)
    ensures UntimesSecond(x * 0xC4CEB9FE1A85EC53) == x && TimesSecond(x * 0x9CB4B2F8129337DB) == x
  {
  }

  lemma FirstUndone(x: bv64)
    ensures UntimesFirst(TimesFirst(x)) == x
  {
    hide UntimesFirst;
    FirstSteps(x);
  }

  lemma FirstReaches(x: bv64)
    ensures TimesFirst(UntimesFirst(x)) == x
  {
    hide TimesFirst;
    FirstSteps(x);
  }

  lemma SecondUndone(x: bv64)
    ensures UntimesSecond(TimesSecond(x)) == x
  {
    hide UntimesSecond;
    SecondSteps(x);
  }

  lemma SecondReaches(x: bv64)
    ensures TimesSecond(UntimesSecond(x)) == x
  {
    hide TimesSecond;
    SecondSteps(x);
  }

  /** The final mix is a bijection: it merges no two values and misses none. */
  lemma MixIsBijection(x: bv64)
    ensures UnmixFinal(MixFinal(x)) == x && MixFinal(UnmixFinal(x)) == x
  {
    hide Scramble, Unscramble, TimesFirst, UntimesFirst, TimesSecond, UntimesSecond;
    var a := Scramble(x);
    ScrambleUndone(x);
    FirstUndone(a);
    ScrambleUndone(TimesFirst(a));
    SecondUndone(Scramble(TimesFirst(a)));
    ScrambleUndone(TimesSecond(Scramble(TimesFirst(a))));
    var b := Unscramble(x);
    ScrambleReaches(x);
    SecondReaches(b);
    ScrambleReaches(UntimesSecond(b));
    FirstReaches(Unscramble(UntimesSecond(b)));
    ScrambleReaches(UntimesFirst(Unscramble(UntimesSecond(b))));
  }

  lemma MixDiffers(x: bv64, y: bv64)
    requires x != y
    ensures MixFinal(x) != MixFinal(y)
  {
    hide MixFinal, UnmixFinal;
    MixIsBijection(x);
    MixIsBijection(y);
  }

  lemma LoadDiffers(b: seq<bv8>, c: seq<bv8>)
    requires |b| == |c| == 8 && b != c
    ensures Load(b) != Load(c)
  {
  }

  // ---------------------------------------------------------------- tails

  lemma {:induction false} TailDiffers(v: bv64, w: bv64, tail: seq<bv8>)
    requires v != w
    ensures Tail(v, tail) != Tail(w, tail)
    decreases |tail|
  {
    hide Absorb;
    if tail != [] {
      var n := |tail| - 1;
      TailDiffers(v, w, tail[..n]);
      AbsorbDiffers(Tail(v, tail[..n]), tail[n] as bv64, Tail(w, tail[..n]), tail[n] as bv64);
    }
  }

  /** Two tails that differ in one byte only. */
  lemma {:induction false} TailByteMatters(v: bv64, s: seq<bv8>, p: nat, b: bv8)
    requires p < |s| && s[p] != b
    ensures Tail(v, s) != Tail(v, s[p := b])
    decreases |s|
  {
    hide Absorb;
    var n, t := |s| - 1, s[p := b];
    if p == n {
      assert t[..n] == s[..n];
      ByteStepDiffers(Tail(v, s[..n]), s[n], Tail(v, s[..n]), b);
    } else {
      assert t[..n] == s[..n][p := b];
      TailByteMatters(v, s[..n], p, b);
      ByteStepDiffers(Tail(v, s[..n]), s[n], Tail(v, t[..n]), s[n]);
    }
  }

  lemma ByteStepDiffers(v: bv64, b: bv8, w: bv64, c: bv8)
    requires (v == w) != (b == c)
    ensures Absorb(v, b as bv64) != Absorb(w, c as bv64)
  {
    hide Absorb;
    BytesDiffer(b, c);
    AbsorbDiffers(v, b as bv64, w, c as bv64);
  }

  lemma BytesDiffer(b: bv8, c: bv8)
    ensures (b as bv64 == c as bv64) == (b == c)
  {
  }

  // ---------------------------------------------------------------- four lanes

  /** The two strings differ, and only inside the word that starts at `at`. */
  predicate DifferInWord(x: seq<bv8>, y: seq<bv8>, at: nat) {
    && |x| == |y| && x != y && at + 8 <= |x|
    && forall k :: 0 <= k < |x| && !(at <= k < at + 8) ==> x[k] == y[k]
  }

  function Lane(lanes: Lanes, i: nat): bv64 {
    if i == 0 then lanes.a else if i == 1 then lanes.b else if i == 2 then lanes.c else lanes.d
  }

  /** Exactly one lane differs. */
  predicate OneLaneDiffers(l: Lanes, m: Lanes, i: nat) {
    i < 4 && forall k: nat :: k < 4 ==> (Lane(l, k) == Lane(m, k) <==> k != i)
  }

  lemma LaneConsumes(lanes: Lanes, block: seq<bv8>, i: nat)
    requires |block| == 32 && i < 4
    ensures Lane(Consume(lanes, block), i) == Absorb(Lane(lanes, i), Word(block, 8 * i))
  {
    hide Absorb, Load;
  }

  lemma SameBlockKeeps(l: Lanes, m: Lanes, block: seq<bv8>, i: nat)
    requires |block| == 32 && OneLaneDiffers(l, m, i)
    ensures OneLaneDiffers(Consume(l, block), Consume(m, block), i)
  {
    hide Absorb, Word, Consume, Lane;
    forall k: nat | k < 4 ensures Lane(Consume(l, block), k) == Lane(Consume(m, block), k) <==> k != i {
      LaneConsumes(l, block, k);
      LaneConsumes(m, block, k);
      if k == i {
        AbsorbDiffers(Lane(l, k), Word(block, 8 * k), Lane(m, k), Word(block, 8 * k));
      }
    }
  }

  lemma WordsOfBlock(block: seq<bv8>, other: seq<bv8>, i: nat, k: nat)
    requires |block| == 32 && i < 4 && k < 4 && DifferInWord(block, other, 8 * i)
    ensures Word(block, 8 * k) == Word(other, 8 * k) <==> k != i
  {
    hide Load;
    var s, t := block[8 * k..8 * k + 8], other[8 * k..8 * k + 8];
    if k != i {
      assert s == t;
    } else {
      var p :| 0 <= p < 32 && block[p] != other[p];
      assert s[p - 8 * k] != t[p - 8 * k];
      LoadDiffers(s, t);
    }
  }

  lemma OtherBlockSplits(l: Lanes, block: seq<bv8>, other: seq<bv8>, i: nat)
    requires |block| == 32 && i < 4 && DifferInWord(block, other, 8 * i)
    ensures OneLaneDiffers(Consume(l, block), Consume(l, other), i)
  {
    hide Absorb, Word, Consume, Lane, DifferInWord;
    assert |other| == 32 by { SameLength(block, other, 8 * i); }
    forall k: nat | k < 4 ensures Lane(Consume(l, block), k) == Lane(Consume(l, other), k) <==> k != i {
      LaneConsumes(l, block, k);
      LaneConsumes(l, other, k);
      WordsOfBlock(block, other, i, k);
      if k == i {
        AbsorbDiffers(Lane(l, k), Word(block, 8 * k), Lane(l, k), Word(other, 8 * k));
      }
    }
  }

  lemma SameLength(x: seq<bv8>, y: seq<bv8>, at: nat)
    requires DifferInWord(x, y, at)
    ensures |x| == |y|
  {
  }

  lemma DifferBefore(x: seq<bv8>, y: seq<bv8>, n: nat, at: nat)
    requires DifferInWord(x, y, at) && at + 8 <= n <= |x|
    ensures DifferInWord(x[..n], y[..n], at) && x[n..] == y[n..]
  {
    var p :| 0 <= p < |x| && x[p] != y[p];
    assert x[..n][p] != y[..n][p];
  }

  lemma DifferAfter(x: seq<bv8>, y: seq<bv8>, n: nat, at: nat)
    requires DifferInWord(x, y, at) && n <= at
    ensures x[..n] == y[..n] && DifferInWord(x[n..], y[n..], at - n)
  {
    var p :| 0 <= p < |x| && x[p] != y[p];
    assert x[n..][p - n] != y[n..][p - n];
  }

  lemma {:induction false} BlocksDiffer(x: seq<bv8>, y: seq<bv8>, at: nat)
    requires |x| == |y| && |x| % 32 == 0 && at % 8 == 0 && at + 8 <= |x| && DifferInWord(x, y, at)
    ensures OneLaneDiffers(Blocks(x), Blocks(y), at / 8 % 4)
    decreases |x|
  {
    hide Consume, OneLaneDiffers, DifferInWord;
    var n := |x| - 32;
    if at < n {
      assert at + 8 <= n;
      DifferBefore(x, y, n, at);
      BlocksDiffer(x[..n], y[..n], at);
      SameBlockKeeps(Blocks(x[..n]), Blocks(y[..n]), x[n..], at / 8 % 4);
    } else {
      DifferAfter(x, y, n, at);
      LastWord(at, n);
      OtherBlockSplits(Blocks(x[..n]), x[n..], y[n..], at / 8 % 4);
    }
  }

  lemma LastWord(at: nat, n: nat)
    requires at % 8 == 0 && n % 32 == 0 && n <= at < n + 32
    ensures at - n == 8 * (at / 8 % 4)
  {
  }

  lemma CombineDiffers(l: Lanes, m: Lanes, i: nat)
    requires OneLaneDiffers(l, m, i)
    ensures Combine(l) != Combine(m)
  {
    hide Absorb;
    assert Lane(l, 0) == l.a && Lane(l, 1) == l.b && Lane(l, 2) == l.c && Lane(l, 3) == l.d;
    assert Lane(m, 0) == m.a && Lane(m, 1) == m.b && Lane(m, 2) == m.c && Lane(m, 3) == m.d;
    var s, t := BASIS, BASIS;
    if l.a != m.a { AbsorbDiffers(s, l.a, t, m.a); }
    s, t := Absorb(s, l.a), Absorb(t, m.a);
    if (s == t) != (l.b == m.b) { AbsorbDiffers(s, l.b, t, m.b); }
    s, t := Absorb(s, l.b), Absorb(t, m.b);
    if (s == t) != (l.c == m.c) { AbsorbDiffers(s, l.c, t, m.c); }
    s, t := Absorb(s, l.c), Absorb(t, m.c);
    AbsorbDiffers(s, l.d, t, m.d);
  }

  /** Two inputs of one length that differ only inside one aligned word of the block region never have
      the same four-lane hash. */
  lemma LanesWordMatters(x: seq<bv8>, y: seq<bv8>, at: nat)
    requires |x| == |y| && at % 8 == 0 && at + 8 <= WholeBlocks(|x|) && DifferInWord(x, y, at)
    ensures MixFinal(Lanes4(x)) != MixFinal(Lanes4(y))
  {
    hide Tail, Combine, Blocks, OneLaneDiffers, MixFinal, DifferInWord;
    var w := WholeBlocks(|x|);
    DifferBefore(x, y, w, at);
    BlocksDiffer(x[..w], y[..w], at);
    CombineDiffers(Blocks(x[..w]), Blocks(y[..w]), at / 8 % 4);
    TailDiffers(Combine(Blocks(x[..w])), Combine(Blocks(y[..w])), x[w..]);
    MixDiffers(Lanes4(x), Lanes4(y));
  }

  lemma OneByteIsInWord(x: seq<bv8>, p: nat, b: bv8, w: nat)
    requires p < w <= |x| && w % 8 == 0 && b != x[p]
    ensures p - p % 8 + 8 <= w && (p - p % 8) % 8 == 0 && DifferInWord(x, x[p := b], p - p % 8)
  {
    assert x[p := b][p] == b;
  }

  lemma OneByteInTail(x: seq<bv8>, p: nat, b: bv8, w: nat, v: bv64)
    requires w <= p < |x| && b != x[p]
    ensures x[..w] == x[p := b][..w] && Tail(v, x[w..]) != Tail(v, x[p := b][w..])
  {
    hide Tail;
    assert x[p := b][w..] == x[w..][p - w := b];
    TailByteMatters(v, x[w..], p - w, b);
  }

  /** Nor do two that differ in one byte anywhere. */
  lemma LanesByteMatters(x: seq<bv8>, p: nat, b: bv8)
    requires p < |x| && b != x[p]
    ensures MixFinal(Lanes4(x)) != MixFinal(Lanes4(x[p := b]))
  {
    hide *;
    if p < WholeBlocks(|x|) {
      LanesByteInBlocks(x, p, b);
    } else {
      LanesByteInTail(x, p, b);
      MixDiffers(Lanes4(x), Lanes4(x[p := b]));
    }
  }

  lemma LanesByteInBlocks(x: seq<bv8>, p: nat, b: bv8)
    requires p < |x| && b != x[p] && p < WholeBlocks(|x|)
    ensures MixFinal(Lanes4(x)) != MixFinal(Lanes4(x[p := b]))
  {
    hide *;
    BlocksFit(|x|);
    OneByteIsInWord(x, p, b, WholeBlocks(|x|));
    LanesWordMatters(x, x[p := b], p - p % 8);
  }

  lemma LanesByteInTail(x: seq<bv8>, p: nat, b: bv8)
    requires p < |x| && b != x[p] && WholeBlocks(|x|) <= p
    ensures Lanes4(x) != Lanes4(x[p := b])
  {
    hide *;
    var w := WholeBlocks(|x|);
    Lanes4At(x, w);
    Lanes4At(x[p := b], w);
    OneByteInTail(x, p, b, w, Combine(Blocks(x[..w])));
  }

  lemma BlocksFit(n: nat)
    ensures WholeBlocks(n) <= n && WholeBlocks(n) % 8 == 0
  {
  }

  // ---------------------------------------------------------------- one chain of words

  lemma {:induction false} WordsDiffer(x: seq<bv8>, y: seq<bv8>, at: nat)
    requires |x| == |y| && |x| % 8 == 0 && at % 8 == 0 && at + 8 <= |x| && DifferInWord(x, y, at)
    ensures Words(x) != Words(y)
    decreases |x|
  {
    hide Absorb, Load;
    var n := |x| - 8;
    if at < n {
      DifferBefore(x, y, n, at);
      WordsDiffer(x[..n], y[..n], at);
    } else {
      DifferAfter(x, y, n, at);
      LoadDiffers(x[n..], y[n..]);
    }
    assert x[n..] == x[n..|x|] && y[n..] == y[n..|y|];
    AbsorbDiffers(Words(x[..n]), Word(x, n), Words(y[..n]), Word(y, n));
  }

  /** The same for the one-chain hash. */
  lemma WordsWordMatters(x: seq<bv8>, y: seq<bv8>, at: nat)
    requires |x| == |y| && at % 8 == 0 && at + 8 <= WholeWords(|x|) && DifferInWord(x, y, at)
    ensures MixFinal(FnvWords(x)) != MixFinal(FnvWords(y))
  {
    hide Tail, Words, MixFinal, DifferInWord;
    var w := WholeWords(|x|);
    DifferBefore(x, y, w, at);
    WordsDiffer(x[..w], y[..w], at);
    TailDiffers(Words(x[..w]), Words(y[..w]), x[w..]);
    MixDiffers(FnvWords(x), FnvWords(y));
  }

  lemma WordsByteMatters(x: seq<bv8>, p: nat, b: bv8)
    requires p < |x| && b != x[p]
    ensures MixFinal(FnvWords(x)) != MixFinal(FnvWords(x[p := b]))
  {
    hide Tail, Words, MixFinal, DifferInWord;
    var w := WholeWords(|x|);
    if p < w {
      OneByteIsInWord(x, p, b, w);
      WordsWordMatters(x, x[p := b], p - p % 8);
    } else {
      OneByteInTail(x, p, b, w, Words(x[..w]));
      MixDiffers(FnvWords(x), FnvWords(x[p := b]));
    }
  }
}
