/** Arithmetic of the evaluator: 64-bit two's complement, `ipow`, and number literals. */
module ExprNumbers {
  import opened Numbers

  const MODULUS: int := 0x1_0000_0000_0000_0000

  /** The machine integer congruent to n. */
  function Wrap(n: int): (r: Intmax)
    ensures Same(r, n)
    ensures IsIntmax(n) ==> r == n
  {
    WrapSame(n);
    (n - INTMAX_MIN) % MODULUS + INTMAX_MIN
  }

  ghost predicate Same(a: int, b: int) {
    exists k: int :: a == b + k * MODULUS
  }

  lemma WrapSame(n: int)
    ensures Same((n - INTMAX_MIN) % MODULUS + INTMAX_MIN, n)
  {
    var q := (n - INTMAX_MIN) / MODULUS;
    assert (n - INTMAX_MIN) % MODULUS + INTMAX_MIN == n + (-q) * MODULUS;
  }

  /** Congruent numbers wrap to the same machine integer. */
  lemma SameWrap(a: int, b: int)
    requires Same(a, b)
    ensures Wrap(a) == Wrap(b)
  {
    var k: int :| a == b + k * MODULUS;
    var i: int :| Wrap(a) == a + i * MODULUS;
    var j: int :| Wrap(b) == b + j * MODULUS;
    assert Wrap(a) - Wrap(b) == (k + i - j) * MODULUS;
  }

  lemma SameMul(a: int, b: int, c: int)
    requires Same(a, b)
    ensures Same(a * c, b * c)
  {
    var k: int :| a == b + k * MODULUS;
    assert a * c == b * c + (k * c) * MODULUS;
  }

  lemma SameAdd(a: int, b: int, c: int)
    requires Same(a, b)
    ensures Same(a + c, b + c)
  {
    var k: int :| a == b + k * MODULUS;
    assert a + c == b + c + k * MODULUS;
  }

  lemma SameTrans(a: int, b: int, c: int)
    requires Same(a, b) && Same(b, c)
    ensures Same(a, c)
  {
    var i: int :| a == b + i * MODULUS;
    var j: int :| b == c + j * MODULUS;
    assert a == c + (i + j) * MODULUS;
  }

  /** Wrapping early does not matter. */
  lemma WrapMulAdd(a: int, b: int, c: int)
    ensures Wrap(Wrap(a) * b + c) == Wrap(a * b + c)
  {
    SameMul(Wrap(a), a, b);
    SameAdd(Wrap(a) * b, a * b, c);
    SameWrap(Wrap(a) * b + c, a * b + c);
  }

  ghost function Power(b: int, e: nat): int {
    if e == 0 then 1 else b * Power(b, e - 1)
  }

  lemma {:induction false} PowerSquare(b: int, e: nat)
    ensures Power(b, 2 * e) == Power(b * b, e)
  {
    if e > 0 {
      PowerSquare(b, e - 1);
      assert Power(b, 2 * e) == b * Power(b, 2 * e - 1) == b * (b * Power(b, 2 * e - 2));
      Associate(b, Power(b, 2 * e - 2));
    }
  }

  lemma Associate(b: int, p: int)
    ensures b * (b * p) == (b * b) * p
  {
  }

  lemma {:induction false} SamePower(a: int, b: int, e: nat)
    requires Same(a, b)
    ensures Same(Power(a, e), Power(b, e))
  {
    if e == 0 {
      assert 1 == 1 + 0 * MODULUS;
    } else {
      SamePower(a, b, e - 1);
      SameMul(a, b, Power(a, e - 1));
      SameMul(Power(a, e - 1), Power(b, e - 1), b);
      Commute(Power(a, e - 1), b);
      Commute(Power(b, e - 1), b);
      SameTrans(a * Power(a, e - 1), b * Power(a, e - 1), b * Power(b, e - 1));
    }
  }

  lemma Commute(a: int, b: int)
    ensures a * b == b * a
  {
  }

  lemma PowerHalf(base: int, exp: nat)
    requires exp > 0
    ensures Power(base, exp) == (if exp % 2 == 1 then base else 1) * Power(base * base, exp / 2)
  {
    PowerSquare(base, exp / 2);
    if exp % 2 == 1 {
      assert Power(base, exp) == base * Power(base, 2 * (exp / 2));
    }
  }

  lemma SameProduct(r: int, x: int, p: int, q: int)
    requires Same(r, x) && Same(p, q)
    ensures Same(r * p, x * q)
  {
    SameMul(r, x, p);
    SameMul(p, q, x);
    Commute(p, x);
    Commute(q, x);
    SameTrans(r * p, x * p, x * q);
  }

  /** One round of the loop of `ipow`. */
  lemma PowStep(result: int, base: int, exp: nat)
    requires exp > 0
    ensures var r := if exp % 2 == 1 then Wrap(result * base) else result;
      Same(r * Power(Wrap(base * base), exp / 2), result * Power(base, exp))
  {
    hide Wrap, Same, Power;
    var odd := exp % 2 == 1;
    var r, x := if odd then Wrap(result * base) else result, result * if odd then base else 1;
    if !odd {
      Reflexive(result);
    }
    var p, q := Power(Wrap(base * base), exp / 2), Power(base * base, exp / 2);
    SamePower(Wrap(base * base), base * base, exp / 2);
    SameProduct(r, x, p, q);
    PowerHalf(base, exp);
    Regroup(result, if odd then base else 1, q);
  }

  lemma Regroup(a: int, b: int, c: int)
    ensures a * (b * c) == (a * b) * c
  {
  }

  /** `ipow`, with its extra squaring of the base after the last bit. */
  method Ipow(base: Intmax, exp: Intmax) returns (result: Intmax)
    requires exp >= 0
    ensures result == Wrap(Power(base, exp))
  {
    hide Power, Same, Wrap;
    result := 1;
    var b: int, e: int := base, exp;
    Reflexive(Power(base, exp));
    while e != 0
      invariant e >= 0
      invariant Same(result * Power(b, e), Power(base, exp))
    {
      PowStep(result, b, e);
      ghost var r: int := if e % 2 == 1 then Wrap(result * b) else result;
      SameTrans(r * Power(Wrap(b * b), e / 2), result * Power(b, e), Power(base, exp));
      if e % 2 == 1 {
        result := Wrap(result * b);
      }
      e := e / 2;
      b := Wrap(b * b);
    }
    PowerZero(b);
    SameWrap(result, Power(base, exp));
  }

  lemma PowerZero(b: int)
    ensures Power(b, 0) == 1
  {
  }

  lemma Reflexive(a: int)
    ensures Same(1 * a, a)
  {
    assert 1 * a == a + 0 * MODULUS;
  }
}
