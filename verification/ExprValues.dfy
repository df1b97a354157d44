/** What operators compute, said with the arithmetic of integers, residues modulo 2 to the 64 and bits, and
    carried to the text of expressions. */
module ExprValues {
  import opened Numbers
  import opened ExprErrors
  import opened ExprNumbers
  import opened ExprTokens

  /** Bit k of n in two's complement. */
  predicate Bit(n: int, k: nat)
    decreases k
  {
    if k == 0 then n % 2 == 1 else Bit(n / 2, k - 1)
  }

  /** `+`, `-` and `*` are exact modulo 2 to the 64. */
  lemma Sums(a: Intmax, b: Intmax, noeval: nat)
    ensures var r := Combine(Plus, a, b, noeval); r.Ok? && Same(r.value, a as int + b)
    ensures var r := Combine(Minus, a, b, noeval); r.Ok? && Same(r.value as int + b, a)
    ensures var r := Combine(Mul, a, b, noeval); r.Ok? && Same(r.value, a as int * b)
  {
    var d := Wrap(a as int - b);
    SameAdd(d, a as int - b, b);
  }

  /** `/` and `%` fail exactly for a zero divisor while evaluating. */
  lemma ZeroDivisor(op: BinOp, a: Intmax, b: Intmax, noeval: nat)
    ensures Combine(op, a, b, noeval).Err? <==> (op == Div || op == Mod) && b == 0 && noeval == 0
  {
  }

  /** Otherwise quotient and remainder are those of truncating division, also where the one quotient that
      does not fit wraps; an unevaluated zero divisor counts as 1. */
  lemma Quotients(a: Intmax, b: Intmax, noeval: nat)
    requires b != 0 || noeval > 0
    ensures Combine(Div, a, b, noeval).Ok? && Combine(Mod, a, b, noeval).Ok?
    ensures var q, m := Combine(Div, a, b, noeval).value, Combine(Mod, a, b, noeval).value;
      var b1 := if b == 0 then 1 else b as int;
      && Same(q * b1 + m, a) && Abs(m) < Abs(b1) && (m == 0 || (m < 0 <==> a < 0))
      && (a != INTMAX_MIN || b1 != -1 ==> q * b1 + m == a)
  {
    var b1: Intmax := if b == 0 then 1 else b;
    Divided(a, b1);
    MinByMinusOne();
    if a == INTMAX_MIN && b1 == -1 {
      assert Combine(Div, a, b, noeval).value == INTMAX_MIN && Combine(Mod, a, b, noeval).value == 0;
      assert INTMAX_MIN * -1 + 0 == INTMAX_MIN + 1 * MODULUS;
    } else {
      assert Quot(a, b1) * b1 + Rem(a, b1) == a + 0 * MODULUS;
    }
  }

  lemma Divided(a: Intmax, b: Intmax)
    requires b != 0
    ensures Quot(a, b) * b + Rem(a, b) == a && Abs(Rem(a, b)) < Abs(b)
    ensures Rem(a, b) == 0 || (Rem(a, b) < 0 <==> a < 0)
    ensures IsIntmax(Rem(a, b)) && (a != INTMAX_MIN || b != -1 ==> IsIntmax(Quot(a, b)))
  {
    var x: int, y: int := Abs(a), Abs(b);
    var q, m := x / y, x % y;
    assert x == y * q + m && 0 <= m < y;
    SignedProduct(a, b, q);
    assert Rem(a, b) == if a < 0 then -m else m;
    assert IsIntmax(b) && y <= INTMAX_MAX + 1;
    if a != INTMAX_MIN || b != -1 {
      QuotientFits(a, b);
    }
  }

  lemma QuotientFits(a: Intmax, b: Intmax)
    requires b != 0 && (a != INTMAX_MIN || b != -1)
    ensures IsIntmax(Quot(a, b))
  {
    var x: int, y: int := Abs(a), Abs(b);
    Smaller(x, y, x / y, x % y);
    assert IsIntmax(a) && x <= INTMAX_MAX + 1;
  }

  lemma SignedProduct(a: int, b: int, q: int)
    requires b != 0
    ensures (if (a < 0) == (b < 0) then q else -q) * b == if a < 0 then -(Abs(b) * q) else Abs(b) * q
  {
  }

  lemma AtLeast(p: int, t: int)
    requires p >= 1 && t >= 0
    ensures p * t >= t && (p >= 2 ==> p * t >= 2 * t)
  {
  }

  lemma Smaller(x: int, y: int, q: int, m: int)
    requires y > 0 && x >= 0 && q == x / y && m == x % y
    ensures 0 <= q <= x && (y > 1 && x > 0 ==> q < x)
  {
    assert x == y * q + m && 0 <= m && 0 <= q;
    AtLeast(y, q);
  }

  /** Comparisons give 1 or 0. */
  lemma Comparisons(a: Intmax, b: Intmax, noeval: nat)
    ensures Combine(Lt, a, b, noeval) == Ok(if a < b then 1 else 0)
    ensures Combine(Gt, a, b, noeval) == Ok(if a > b then 1 else 0)
    ensures Combine(Leq, a, b, noeval) == Ok(if a <= b then 1 else 0)
    ensures Combine(Geq, a, b, noeval) == Ok(if a >= b then 1 else 0)
    ensures Combine(EqEq, a, b, noeval) == Ok(if a == b then 1 else 0)
    ensures Combine(Neq, a, b, noeval) == Ok(if a == b then 0 else 1)
  {
  }

  lemma {:induction false} TwoToPower(k: nat)
    ensures TwoTo(k) == ExprNumbers.Power(2, k) > 0
  {
    if k > 0 {
      TwoToPower(k - 1);
    }
  }

  /** A left shift multiplies by a power of two modulo 2 to the 64, a right shift divides by it and rounds
      down; only the last six bits of the count matter. */
  lemma Shifts(a: Intmax, b: Intmax, noeval: nat)
    ensures var k := b % 64;
      var r := Combine(Lsh, a, b, noeval); r.Ok? && Same(r.value, a as int * ExprNumbers.Power(2, k))
    ensures var k := b % 64;
      var r := Combine(Rsh, a, b, noeval);
      r.Ok? && r.value * ExprNumbers.Power(2, k) <= a < (r.value + 1) * ExprNumbers.Power(2, k)
  {
    var p := TwoTo(b % 64);
    TwoToPower(b % 64);
    var q := a as int / p;
    Floor(a, p, q);
  }

  lemma Floor(a: Intmax, p: int, q: int)
    requires p > 0 && q == a as int / p
    ensures q * p <= a < (q + 1) * p && IsIntmax(q)
  {
    var m := a as int % p;
    assert a == p * q + m && 0 <= m < p;
    assert (q + 1) * p == p * q + p && q * p == p * q;
    Nearer(a, p, q, m);
    assert IsIntmax(a) && (a >= 0 <==> q >= 0);
  }

  lemma Nearer(a: int, p: int, q: int, m: int)
    requires p > 0 && a == p * q + m && 0 <= m < p
    ensures if q < 0 then a <= q else q <= a
  {
    if q < 0 {
      var t := -(q + 1);
      AtLeast(p, t);
      calc {
        p * q;
        == { assert q == -t - 1; }
        p * (-t - 1);
        == { Negated(p, t); }
        -(p * t) - p;
      }
    } else {
      AtLeast(p, q);
    }
  }

  lemma Negated(p: int, t: int)
    ensures p * (-t - 1) == -(p * t) - p
  {
  }

  /** `&`, `^` and `|` work bit by bit. */
  lemma Bits(a: Intmax, b: Intmax, noeval: nat, k: nat)
    requires k < 64
    ensures Combine(Band, a, b, noeval).Ok? && Combine(Bxor, a, b, noeval).Ok? && Combine(Bor, a, b, noeval).Ok?
    ensures Bit(Combine(Band, a, b, noeval).value, k) <==> Bit(a, k) && Bit(b, k)
    ensures Bit(Combine(Bor, a, b, noeval).value, k) <==> Bit(a, k) || Bit(b, k)
    ensures Bit(Combine(Bxor, a, b, noeval).value, k) <==> Bit(a, k) != Bit(b, k)
  {
    BitOf(Band, a, b, noeval, k);
    BitOf(Bxor, a, b, noeval, k);
    BitOf(Bor, a, b, noeval, k);
    hide Bit, Combine;
  }

  lemma BitOf(op: BinOp, a: Intmax, b: Intmax, noeval: nat, k: nat)
    requires k < 64 && (op == Band || op == Bxor || op == Bor)
    ensures Combine(op, a, b, noeval).Ok?
    ensures Bit(Combine(op, a, b, noeval).value, k) <==>
      if op == Band then Bit(a, k) && Bit(b, k)
      else if op == Bor then Bit(a, k) || Bit(b, k)
      else Bit(a, k) != Bit(b, k)
  {
    BitwiseBit(op, a, b, 64, k);
    WrapBit(Bitwise(op, a, b, 64), k);
    hide Bit, Bitwise, Wrap;
  }

  lemma {:induction false} BitwiseBit(op: BinOp, a: int, b: int, n: nat, k: nat)
    requires k < n
    ensures Bit(Bitwise(op, a, b, n), k) <==>
      if op == Band then Bit(a, k) && Bit(b, k)
      else if op == Bor then Bit(a, k) || Bit(b, k)
      else Bit(a, k) != Bit(b, k)
    decreases k
  {
    var r := Bitwise(op, a, b, n);
    var rest := Bitwise(op, a / 2, b / 2, n - 1);
    var x, y := a % 2 == 1, b % 2 == 1;
    var bit := if op == Band then x && y else if op == Bor then x || y else x != y;
    assert r == (if bit then 1 else 0) + 2 * rest;
    assert r / 2 == rest && (r % 2 == 1 <==> bit);
    if k > 0 {
      BitwiseBit(op, a / 2, b / 2, n - 1, k - 1);
    }
  }

  /** Wrapping keeps the low 64 bits. */
  lemma WrapBit(n: int, k: nat)
    requires k < 64
    ensures Bit(Wrap(n), k) == Bit(n, k)
  {
    var j: int :| Wrap(n) == n + j * MODULUS;
    assert TwoTo(64) == MODULUS by {
      Modulus();
    }
    HigherBits(n, j, 64, k);
  }

  lemma Modulus()
    ensures TwoTo(64) == MODULUS
  {
    assert TwoTo(8) == 256;
    TwoToTwice(8);
    TwoToTwice(16);
    TwoToTwice(32);
  }

  lemma {:induction false} TwoToSum(i: nat, j: nat)
    ensures TwoTo(i + j) == TwoTo(i) * TwoTo(j)
  {
    if i > 0 {
      TwoToSum(i - 1, j);
      assert TwoTo(i + j) == 2 * TwoTo(i - 1 + j);
    }
  }

  lemma TwoToTwice(k: nat)
    ensures TwoTo(2 * k) == TwoTo(k) * TwoTo(k)
  {
    TwoToSum(k, k);
  }

  lemma {:induction false} HigherBits(n: int, j: int, m: nat, k: nat)
    requires k < m
    ensures Bit(n + j * TwoTo(m), k) == Bit(n, k)
    decreases k
  {
    var p := TwoTo(m - 1);
    assert n + j * TwoTo(m) == n + 2 * (j * p) by {
      assert j * TwoTo(m) == j * (2 * p) == 2 * (j * p);
    }
    assert (n + 2 * (j * p)) % 2 == n % 2 && (n + 2 * (j * p)) / 2 == n / 2 + j * p;
    if k > 0 {
      HigherBits(n / 2, j, m - 1, k - 1);
    }
  }
}
