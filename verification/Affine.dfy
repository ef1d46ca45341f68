/** The dependent chain's end found without walking it: affine maps modulo 2^64, composed by squaring. */
module AffineMaps {

  const MODULUS: nat := 0x1_0000_0000_0000_0000

  type Word = x: nat | x < MODULUS

  /** What a machine word keeps of a number. */
  function Wrap(x: nat): (w: Word)
    ensures w == x % MODULUS
  {
    x % MODULUS
  }

  function Times(x: nat, y: nat): nat { x * y }

  /** x -> m * x + b, modulo 2^64. */
  datatype Affine = Affine(m: Word, b: Word)

  function Eval(f: Affine, x: Word): Word {
    Wrap(Wrap(Times(f.m, x)) + f.b)
  }

  /** `outer` after `inner`. */
  function Compose(outer: Affine, inner: Affine): Affine {
    Affine(Wrap(Times(outer.m, inner.m)), Wrap(Wrap(Times(outer.m, inner.b)) + outer.b))
  }

  /** The map applied step after step. */
  function Iterate(f: Affine, times: nat, x: Word): Word {
    if times == 0 then x else Eval(f, Iterate(f, times - 1, x))
  }

  // ---------------------------------------------------------------- wrapping

  lemma WrapSame(x: nat, y: nat, k: int)
    requires x == y + k * MODULUS
    ensures Wrap(x) == Wrap(y)
  {
    var q := x / MODULUS - y / MODULUS - k;
    assert q * MODULUS == Wrap(y) - Wrap(x);
  }

  lemma Quotients(x: nat) returns (q: nat)
    ensures x == q * MODULUS + Wrap(x)
  {
    q := x / MODULUS;
  }

  lemma WrapInSum(x: nat, y: nat)
    ensures Wrap(Wrap(x) + y) == Wrap(x + y)
  {
    var q := Quotients(x);
    WrapSame(x + y, Wrap(x) + y, q);
  }

  lemma WrapInProduct(x: nat, y: nat)
    ensures Wrap(Times(y, Wrap(x))) == Wrap(Times(y, x)) && Wrap(Times(Wrap(x), y)) == Wrap(Times(x, y))
  {
    var q := Quotients(x);
    Spread(y, Wrap(x), q);
    WrapSame(y * x, y * Wrap(x), y * q);
  }

  lemma Spread(y: nat, w: nat, q: nat)
    ensures y * (q * MODULUS + w) == y * w + (y * q) * MODULUS
  {
  }

  // ---------------------------------------------------------------- composition

  lemma Regroup(a: nat, b: nat, x: nat, c: nat)
    ensures Times(a, Times(b, x) + c) == Times(Times(a, b), x) + Times(a, c)
  {
  }

  lemma EvalOfComposed(f: Affine, g: Affine, x: Word)
    ensures Eval(Compose(f, g), x) == Wrap(Times(Times(f.m, g.m), x) + (Times(f.m, g.b) + f.b))
  {
    hide Wrap, Times;
    var mx, c := Times(Times(f.m, g.m), x), Times(f.m, g.b) + f.b;
    WrapInProduct(Times(f.m, g.m), x);
    WrapInSum(Times(f.m, g.b), f.b);
    WrapInSum(mx, Wrap(c));
    WrapInSum(c, mx);
  }

  lemma EvalOfEval(f: Affine, g: Affine, x: Word)
    ensures Eval(f, Eval(g, x)) == Wrap(Times(f.m, Times(g.m, x) + g.b) + f.b)
  {
    hide Wrap, Times;
    var inner := Times(g.m, x) + g.b;
    WrapInSum(Times(g.m, x), g.b);
    WrapInProduct(inner, f.m);
    WrapInSum(Times(f.m, inner), f.b);
  }

  /** Composing the maps composes what they do. */
  lemma ComposeIsAfter(f: Affine, g: Affine, x: Word)
    ensures Eval(Compose(f, g), x) == Eval(f, Eval(g, x))
  {
    hide Wrap, Times, Eval, Compose;
    EvalOfComposed(f, g, x);
    EvalOfEval(f, g, x);
    Regroup(f.m, g.m, x, g.b);
  }

  lemma {:induction false} IterateFromStart(f: Affine, times: nat, x: Word)
    ensures Iterate(f, times + 1, x) == Iterate(f, times, Eval(f, x))
  {
    hide Eval;
    if times > 0 {
      IterateFromStart(f, times - 1, x);
    }
  }

  lemma {:induction false} SquareHalves(f: Affine, half: nat, x: Word)
    ensures Iterate(Compose(f, f), half, x) == Iterate(f, 2 * half, x)
  {
    hide Eval, Compose;
    if half > 0 {
      SquareHalves(f, half - 1, x);
      var y := Iterate(f, 2 * half - 2, x);
      assert Iterate(f, 2 * half, x) == Eval(f, Iterate(f, 2 * half - 1, x)) == Eval(f, Eval(f, y));
      ComposeIsAfter(f, f, y);
    }
  }

  lemma IdentityMap(x: Word)
    ensures Eval(Affine(1, 0), x) == x
  {
  }

  /** The map applied `times` times, by squaring, is the map applied step after step. */
  method Power(map0: Affine, times0: nat) returns (result: Affine)
    ensures forall x: Word :: Eval(result, x) == Iterate(map0, times0, x)
  {
    hide Eval, Compose;
    var map', times: nat := map0, times0;
    result := Affine(1, 0);
    forall x: Word ensures Eval(result, x) == x {
      IdentityMap(x);
    }
    while times > 0
      invariant forall x: Word :: Iterate(map', times, Eval(result, x)) == Iterate(map0, times0, x)
    {
      ghost var was := result;
      ghost var left := times;
      if times % 2 != 0 {
        result := Compose(map', result);
      }
      forall x: Word ensures Iterate(map', left - left % 2, Eval(result, x)) == Iterate(map', left, Eval(was, x)) {
        if left % 2 != 0 {
          ComposeIsAfter(map', was, x);
          IterateFromStart(map', left - 1, Eval(was, x));
        }
      }
      forall x: Word
        ensures Iterate(Compose(map', map'), left / 2, Eval(result, x)) == Iterate(map', left, Eval(was, x))
      {
        SquareHalves(map', left / 2, Eval(result, x));
      }
      map' := Compose(map', map');
      times := times / 2;
    }
  }

  /** The chain walked in rounds of `steps`, and its closed form: the check after it never fails. */
  method Chain(step: Affine, start: Word, rounds: nat, steps: nat) returns (died: bool)
    ensures !died
  {
    hide Eval;
    var x: Word, taken: nat := start, 0;
    for round := 0 to rounds
      invariant x == Iterate(step, taken, start)
    {
      var value := x;
      for i: nat := 0 to steps
        invariant value == Iterate(step, taken + i, start)
      {
        value := Eval(step, value);
      }
      x := value;
      taken := taken + steps;
    }
    var walked := Power(step, taken);
    died := x != Eval(walked, start);
  }
}
