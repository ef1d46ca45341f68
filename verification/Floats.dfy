/** What a whole number becomes as a 32-bit float, section 4.3.1 of IEEE 754: the nearest number with
    twenty-four significant bits, and of two as near the one whose last bit is even. */
module Floats {

  const HALF_MANTISSA: nat := 0x80_0000
  const MANTISSA: nat := 0x100_0000

  function Abs(v: int): nat { if v < 0 then -v else v }

  /** The weight of the last of twenty-four bits: a power of two. */
  function Unit(n: nat): (u: nat)
    ensures u >= 1
  {
    if n < MANTISSA then 1 else 2 * Unit(n / 2)
  }

  /** The multiple of `u` nearest to `n`, an even one when two are. */
  function Nearest(n: nat, u: nat): nat
    requires u > 0
  {
    var k, over := n / u, n % u;
    if 2 * over < u || (2 * over == u && k % 2 == 0) then k * u else (k + 1) * u
  }

  function ToFloat(v: int): int {
    var near: int := Nearest(Abs(v), Unit(Abs(v)));
    if v < 0 then -near else near
  }

  /** Twenty-four bits are enough for it. */
  predicate IsFloat(v: int) { Abs(v) % Unit(Abs(v)) == 0 }

  // ---------------------------------------------------------------- units

  lemma {:induction false} UnitBounds(n: nat)
    ensures n < MANTISSA * Unit(n) && (n >= MANTISSA ==> HALF_MANTISSA * Unit(n) <= n)
    decreases n
  {
    if n >= MANTISSA {
      UnitBounds(n / 2);
    }
  }

  /** From the bottom of its range up, every float is a multiple of the unit. */
  lemma {:induction false} UnitMultiple(n: nat, w: nat) returns (k: nat)
    requires HALF_MANTISSA * Unit(n) <= w
    ensures Unit(w) == k * Unit(n)
    decreases n
  {
    if n < MANTISSA {
      k := Unit(w);
    } else {
      k := UnitMultiple(n / 2, w / 2);
      assert Unit(w) == 2 * Unit(w / 2);
      assert 2 * (k * Unit(n / 2)) == k * (2 * Unit(n / 2));
    }
  }

  lemma UnitTwice(m: nat)
    requires 2 * m >= MANTISSA
    ensures Unit(2 * m) == 2 * Unit(m)
  {
    assert 2 * m / 2 == m;
  }

  lemma {:induction false} UnitOfMultiple(n: nat, k: nat)
    requires HALF_MANTISSA <= k < MANTISSA
    ensures Unit(k * Unit(n)) == Unit(n)
    decreases n
  {
    if n >= MANTISSA {
      UnitOfMultiple(n / 2, k);
      TwiceMultiple(k, Unit(n / 2));
      UnitTwice(k * Unit(n / 2));
    }
  }

  lemma TwiceMultiple(k: nat, u: nat)
    requires u >= 1
    ensures k * (2 * u) == 2 * (k * u) && k * u >= k
  {
  }

  // ---------------------------------------------------------------- the nearest

  function Distance(a: int, b: int): nat { Abs(a - b) }

  function Multiple(k: nat, u: nat): nat { k * u }

  /** The multiples on either side, and where any other lies. */
  lemma Neighbours(n: nat, u: nat, m: nat)
    requires u > 0
    ensures var q := n / u;
      && n == Multiple(q, u) + n % u && n % u < u && Multiple(q + 1, u) == Multiple(q, u) + u
      && (m < q ==> Multiple(m, u) + u <= Multiple(q, u)) && (m > q + 1 ==> Multiple(q, u) + 2 * u <= Multiple(m, u))
  {
    var q := n / u;
    Divides(n, u);
    Steps(q, q + 1, u);
    if m < q {
      Steps(m, q, u);
    } else if m > q + 1 {
      Steps(q + 1, m, u);
    }
  }

  lemma Divides(n: nat, u: nat)
    requires u > 0
    ensures n == Multiple(n / u, u) + n % u && n % u < u
  {
  }

  lemma {:induction false} Steps(a: nat, b: nat, u: nat)
    requires a <= b
    ensures Multiple(a, u) <= Multiple(b, u) && (a < b ==> Multiple(a, u) + u <= Multiple(b, u))
    ensures b == a + 1 ==> Multiple(b, u) == Multiple(a, u) + u
    decreases b - a
  {
    if a < b {
      Steps(a, b - 1, u);
      assert b * u == (b - 1) * u + u;
    }
  }

  lemma NearestIs(n: nat, u: nat)
    requires u > 0
    ensures var (k, over) := (n / u, n % u);
      Nearest(n, u) == Multiple(if 2 * over < u || (2 * over == u && k % 2 == 0) then k else k + 1, u)
  {
  }

  /** Of the multiples of `u` none is nearer, and another as near only when this one is even. */
  lemma NearestMultiple(n: nat, u: nat, m: nat) returns (k: nat)
    requires u > 0
    ensures Nearest(n, u) == Multiple(k, u) && n / u <= k <= n / u + 1
    ensures Distance(Multiple(k, u), n) <= Distance(Multiple(m, u), n)
    ensures Distance(Multiple(k, u), n) == Distance(Multiple(m, u), n) && m != k ==> k % 2 == 0
  {
    NearestIs(n, u);
    Neighbours(n, u, m);
    hide Multiple, Nearest;
    var q, over := n / u, n % u;
    k := if 2 * over < u || (2 * over == u && q % 2 == 0) then q else q + 1;
  }

  lemma MultipleDivides(k: nat, u: nat)
    requires u > 0
    ensures Multiple(k, u) % u == 0 && Multiple(k, u) / u == k
  {
    Divides(Multiple(k, u), u);
    var j := Multiple(k, u) / u;
    if j < k {
      Steps(j, k, u);
    } else if j > k {
      Steps(k, j, u);
    }
  }

  lemma MultipleBounds(n: nat)
    ensures n < Multiple(MANTISSA, Unit(n)) && (n >= MANTISSA ==> Multiple(HALF_MANTISSA, Unit(n)) <= n)
  {
    UnitBounds(n);
  }

  /** A float no lower than the bottom of the range is a multiple of its unit. */
  lemma FloatIsMultiple(n: nat, w: nat) returns (m: nat)
    requires w % Unit(w) == 0 && Multiple(HALF_MANTISSA, Unit(n)) <= w
    ensures w == Multiple(m, Unit(n))
  {
    var k := UnitMultiple(n, w);
    Divides(w, Unit(w));
    m := w / Unit(w) * k;
    assert w / Unit(w) * (k * Unit(n)) == m * Unit(n);
  }

  /** No float is nearer than the one chosen, and one as near only when the one chosen has an even last bit. */
  lemma NearestFloat(n: nat, w: nat)
    requires w % Unit(w) == 0
    ensures var near := Nearest(n, Unit(n));
      && Distance(near, n) <= Distance(w, n)
      && (Distance(near, n) == Distance(w, n) && w != near ==> near / Unit(n) % 2 == 0)
  {
    var u := Unit(n);
    MultipleBounds(n);
    if Multiple(HALF_MANTISSA, u) <= w {
      var m := FloatIsMultiple(n, w);
      var k := NearestMultiple(n, u, m);
      MultipleDivides(k, u);
    } else if n >= MANTISSA {
      var k := NearestMultiple(n, u, HALF_MANTISSA);
    } else {
      SmallExact(n);
    }
  }

  lemma SmallExact(n: nat)
    requires n < MANTISSA
    ensures Nearest(n, Unit(n)) == n
  {
  }

  lemma NearestIsFloat(n: nat)
    ensures var near := Nearest(n, Unit(n)); near % Unit(near) == 0
  {
    var u := Unit(n);
    if n < MANTISSA {
      SmallExact(n);
    } else {
      var k := NearestMultiple(n, u, 0);
      MultipleBounds(n);
      QuotientBounds(n, u);
      MultipleDivides(k, u);
      if k < MANTISSA {
        UnitOfMultiple(n, k);
      } else {
        UnitOfMultiple(n, HALF_MANTISSA);
        TwiceMultiple(HALF_MANTISSA, u);
        UnitTwice(Multiple(HALF_MANTISSA, u));
        assert Multiple(MANTISSA, u) == Multiple(HALF_MANTISSA, 2 * u);
        MultipleDivides(HALF_MANTISSA, 2 * u);
      }
    }
  }

  lemma QuotientBounds(n: nat, u: nat)
    requires u > 0 && Multiple(HALF_MANTISSA, u) <= n < Multiple(MANTISSA, u)
    ensures HALF_MANTISSA <= n / u < MANTISSA
  {
    Divides(n, u);
    if n / u < HALF_MANTISSA {
      Steps(n / u, HALF_MANTISSA, u);
    } else if n / u >= MANTISSA {
      Steps(MANTISSA, n / u, u);
    }
  }

  /** Rounding to the nearest, ties to even: the result is a float, no float is nearer to `v`, and where another
      is as near the last bit of this one is even. So a number that is a float is itself. */
  lemma RoundsToNearest(v: int, w: int)
    requires IsFloat(w)
    ensures IsFloat(ToFloat(v)) && Distance(ToFloat(v), v) <= Distance(w, v)
    ensures Distance(ToFloat(v), v) == Distance(w, v) && w != ToFloat(v) ==>
      Abs(ToFloat(v)) / Unit(Abs(v)) % 2 == 0
    ensures w == v ==> ToFloat(v) == v
  {
    var n := Abs(v);
    NearestIsFloat(n);
    NearestFloat(n, Abs(w));
    NearestFloat(n, 0);
    hide Nearest, Unit;
  }

  /** Twenty-four bits and no more: two just past them, each halfway between its neighbours. */
  lemma TwentyFourBits()
    ensures !IsFloat(0x100_0001) && IsFloat(0x100_0002) && !IsFloat(0x100_0003)
    ensures ToFloat(0x100_0001) == 0x100_0000 && ToFloat(0x100_0003) == 0x100_0004 && ToFloat(-0x100_0003) == -0x100_0004
  {
    assert Unit(0x100_0001) == 2 * Unit(0x80_0000) == 2 && Unit(0x100_0003) == 2 * Unit(0x80_0001) == 2;
  }
}
