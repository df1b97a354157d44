/** What the text of an expression evaluates to, for every operator as it is written: signs, precedence and
    associativity, with variables that hold any machine integers as operands. */
module ExprText {
  import opened Numbers
  import opened ExprErrors
  import opened ExprNumbers
  import opened ExprTokens
  import opened ExprSpec
  import opened ExprTree
  import opened ExprLaws
  import opened ExprValues

  /** How tightly an operator binds: `*` before `+` before shifts before comparisons before `&`, `^` and `|`,
      and `**` before all. */
  function Rank(s: string): nat {
    if s == "|" then 1
    else if s == "^" then 2
    else if s == "&" then 3
    else if s == "==" || s == "!=" then 4
    else if s == "<" || s == ">" || s == "<=" || s == ">=" then 5
    else if s == "<<" || s == ">>" then 6
    else if s == "+" || s == "-" then 7
    else if s == "*" || s == "/" || s == "%" then 8
    else if s == "**" then 9
    else 0
  }

  /** v is what the operator written s makes of a and b. */
  ghost predicate Denotes(s: string, a: Intmax, b: Intmax, v: Intmax) {
    match Rank(s)
    case 1 => forall k: nat | k < 64 :: Bit(v, k) <==> Bit(a, k) || Bit(b, k)
    case 2 => forall k: nat | k < 64 :: Bit(v, k) <==> Bit(a, k) != Bit(b, k)
    case 3 => forall k: nat | k < 64 :: Bit(v, k) <==> Bit(a, k) && Bit(b, k)
    case 4 => v == if (a == b) == (s == "==") then 1 else 0
    case 5 => v == if (if s == "<" then a < b else if s == ">" then a > b else if s == "<=" then a <= b else a >= b)
                   then 1 else 0
    case 6 => IsShifted(s == "<<", a, b % 64, v)
    case 7 => if s == "+" then Same(v, a as int + b) else Same(v as int + b, a)
    case 8 => if s == "*" then Same(v, a as int * b)
              else b != 0 && if s == "/" then IsQuotient(a, b, v) else IsRemainder(a, b, v)
    case 9 => b >= 0 && Same(v, ExprNumbers.Power(a, b))
    case _ => false
  }

  ghost predicate IsShifted(left: bool, a: Intmax, k: nat, v: Intmax) {
    if left then Same(v, a as int * ExprNumbers.Power(2, k))
    else v * ExprNumbers.Power(2, k) <= a < (v + 1) * ExprNumbers.Power(2, k)
  }

  /** Truncating division; the one quotient that does not fit wraps. */
  predicate IsQuotient(a: Intmax, b: Intmax, v: Intmax)
    requires b != 0
  {
    if a == INTMAX_MIN && b == -1 then v == INTMAX_MIN else IsRest(a, b, a - v * b)
  }

  predicate IsRemainder(a: Intmax, b: Intmax, v: Intmax)
    requires b != 0
  {
    IsRest(a, b, v) && (a - v) as int % b == 0
  }

  /** Smaller than the divisor, and zero or of the sign of the dividend. */
  predicate IsRest(a: int, b: int, m: int) {
    Abs(m) < Abs(b) && (m == 0 || (m < 0 <==> a < 0))
  }

  predicate Known(s: string) {
    Rank(s) > 0
  }

  /** The tree of an operator. */
  function Apply(s: string, l: Tree, r: Tree): Tree
    requires Known(s)
  {
    if s == "**" then Pow(l, r)
    else Binary(OpOf(s), l, r)
  }

  function OpOf(s: string): BinOp {
    if s == "|" then Bor else if s == "^" then Bxor else if s == "&" then Band
    else if s == "==" then EqEq else if s == "!=" then Neq
    else if s == "<" then Lt else if s == ">" then Gt else if s == "<=" then Leq else if s == ">=" then Geq
    else if s == "<<" then Lsh else if s == ">>" then Rsh
    else if s == "+" then Plus else if s == "-" then Minus
    else if s == "*" then Mul else if s == "/" then Div else Mod
  }

  lemma SignOf(s: string)
    requires Rank(s) > 0 && s != "**"
    ensures BinSign(OpOf(s)) == s && LevelOf(OpOf(s)) == Rank(s) + 4
  {
  }

  /** The value of an operator on values, or the error it ends in. */
  ghost predicate Gives(s: string, a: Intmax, b: Intmax, r: Checked<Intmax>) {
    match r
    case Err(e) =>
      || (e == DivisionByZero && (s == "/" || s == "%") && b == 0)
      || (e == NegativeExponent && s == "**" && b < 0)
    case Ok(v) => Denotes(s, a, b, v)
  }

  lemma CombineGives(s: string, a: Intmax, b: Intmax)
    requires Known(s) && s != "**"
    ensures Gives(s, a, b, Combine(OpOf(s), a, b, 0))
  {
    ZeroDivisor(OpOf(s), a, b, 0);
    hide Combine, Denotes, OpOf, Rank;
    RankBelow(s);
    if Rank(s) <= 3 {
      BitsGive(a, b);
      OpOfBits(s);
    } else if Rank(s) <= 5 {
      CompareGives(s, a, b);
    } else if Rank(s) <= 7 {
      SumGives(s, a, b);
    } else if OpOf(s) == Mul || b != 0 {
      ProductGives(s, a, b);
    } else {
      OpOfProducts(s);
    }
  }

  lemma RankBelow(s: string)
    ensures Rank(s) <= 9 && (Rank(s) == 9 <==> s == "**")
  {
  }

  lemma OpOfBits(s: string)
    requires 1 <= Rank(s) <= 3
    ensures (s == "|" && OpOf(s) == Bor) || (s == "^" && OpOf(s) == Bxor) || (s == "&" && OpOf(s) == Band)
  {
  }

  lemma OpOfProducts(s: string)
    requires Rank(s) == 8
    ensures (s == "*" && OpOf(s) == Mul) || (s == "/" && OpOf(s) == Div) || (s == "%" && OpOf(s) == Mod)
  {
  }

  lemma CompareGives(s: string, a: Intmax, b: Intmax)
    requires 4 <= Rank(s) <= 5
    ensures Combine(OpOf(s), a, b, 0).Ok? && Denotes(s, a, b, Combine(OpOf(s), a, b, 0).value)
  {
    hide Combine;
    Comparisons(a, b, 0);
  }

  lemma SumGives(s: string, a: Intmax, b: Intmax)
    requires 6 <= Rank(s) <= 7
    ensures Combine(OpOf(s), a, b, 0).Ok? && Denotes(s, a, b, Combine(OpOf(s), a, b, 0).value)
  {
    hide Combine, Same, IsShifted;
    ShiftGives(a, b);
    Sums(a, b, 0);
  }

  lemma ProductGives(s: string, a: Intmax, b: Intmax)
    requires Rank(s) == 8 && (OpOf(s) == Mul || b != 0)
    ensures Combine(OpOf(s), a, b, 0).Ok? && Denotes(s, a, b, Combine(OpOf(s), a, b, 0).value)
  {
    hide Combine, Same, IsQuotient, IsRemainder;
    Sums(a, b, 0);
    if b != 0 {
      DivisionGives(a, b);
    }
  }

  lemma BitsGive(a: Intmax, b: Intmax)
    ensures Combine(Band, a, b, 0).Ok? && Combine(Bxor, a, b, 0).Ok? && Combine(Bor, a, b, 0).Ok?
    ensures Denotes("&", a, b, Combine(Band, a, b, 0).value)
    ensures Denotes("|", a, b, Combine(Bor, a, b, 0).value)
    ensures Denotes("^", a, b, Combine(Bxor, a, b, 0).value)
  {
    hide Combine, Bit;
    Bits(a, b, 0, 0);
    forall k: nat | k < 64
      ensures Bit(Combine(Band, a, b, 0).value, k) <==> Bit(a, k) && Bit(b, k)
      ensures Bit(Combine(Bor, a, b, 0).value, k) <==> Bit(a, k) || Bit(b, k)
      ensures Bit(Combine(Bxor, a, b, 0).value, k) <==> Bit(a, k) != Bit(b, k)
    {
      Bits(a, b, 0, k);
    }
  }

  lemma ShiftGives(a: Intmax, b: Intmax)
    ensures Combine(Lsh, a, b, 0).Ok? && IsShifted(true, a, b % 64, Combine(Lsh, a, b, 0).value)
    ensures Combine(Rsh, a, b, 0).Ok? && IsShifted(false, a, b % 64, Combine(Rsh, a, b, 0).value)
  {
    hide Combine;
    Shifts(a, b, 0);
  }

  lemma DivisionGives(a: Intmax, b: Intmax)
    requires b != 0
    ensures Combine(Div, a, b, 0).Ok? && IsQuotient(a, b, Combine(Div, a, b, 0).value)
    ensures Combine(Mod, a, b, 0).Ok? && IsRemainder(a, b, Combine(Mod, a, b, 0).value)
  {
    hide Combine;
    Quotients(a, b, 0);
    var q, m := Combine(Div, a, b, 0).value, Combine(Mod, a, b, 0).value;
    if a == INTMAX_MIN && b == -1 {
      LeastByMinusOne();
    } else {
      Divides(a - m, q, b);
    }
  }

  lemma LeastByMinusOne()
    ensures Combine(Div, INTMAX_MIN, -1, 0) == Ok(INTMAX_MIN) && Combine(Mod, INTMAX_MIN, -1, 0) == Ok(0)
    ensures INTMAX_MIN % -1 == 0
  {
    MinByMinusOne();
  }

  lemma Divides(n: int, q: int, b: int)
    requires b != 0 && n == q * b
    ensures n % b == 0
  {
    var r := n % b;
    assert n == b * (n / b) + r;
    assert r == b * (q - n / b) by {
      assert q * b == b * q;
    }
    if q - n / b != 0 {
      assert Abs(b * (q - n / b)) >= Abs(b) by {
        TimesAtLeast(b, q - n / b);
      }
    }
  }

  lemma TimesAtLeast(b: int, t: int)
    requires t != 0
    ensures Abs(b * t) >= Abs(b)
  {
    AtLeast1(Abs(b), Abs(t));
    assert Abs(b * t) == Abs(b) as int * Abs(t) by {
      if b < 0 && t >= 0 {
        assert b * t == -(-b * t);
      }
    }
  }

  lemma AtLeast1(x: int, t: int)
    requires x >= 0 && t >= 1
    ensures x * t >= x
  {
  }

  // ---- texts ----

  /** A variable that holds a machine integer. */
  predicate Holds(env: Env, x: string, a: Intmax) {
    Identifier(x) && x in env && env[x] == Itos(a)
  }

  function Answer(r: Checked<Intmax>, env: Env): Outcome<Looked> {
    match r
    case Err(e) => Err(Fault(e, env))
    case Ok(v) => Ok(Looked(v, env))
  }

  lemma HeldValue(d: nat, x: string, a: Intmax, env: Env)
    requires d < MAX_DEPTH && Holds(env, x, a)
    ensures Meaning(d, Var(x), env) == Ok(Looked(a, env))
  {
    hide Lookup;
    BindThenLookup(d, x, a, env);
    assert env[x := Itos(a)] == env;
  }

  /** An operator on trees whose values are known and that change nothing. */
  lemma ApplyMeans(d: nat, s: string, l: Tree, r: Tree, a: Intmax, b: Intmax, env: Env)
    returns (v: Checked<Intmax>)
    requires d <= MAX_DEPTH && Known(s) && WellFormed(l) && WellFormed(r)
    requires Meaning(d, l, env) == Ok(Looked(a, env)) && Meaning(d, r, env) == Ok(Looked(b, env))
    ensures WellFormed(Apply(s, l, r)) && Gives(s, a, b, v)
    ensures Meaning(d, Apply(s, l, r), env) == Answer(v, env)
  {
    hide Denotes, Combine, OpOf, Meaning, WellFormed, Gives, Rank, ExprNumbers.Power;
    if s == "**" {
      v := if b < 0 then Err(NegativeExponent) else Ok(Wrap(ExprNumbers.Power(a, b)));
      PowerGives(a, b);
      PowMeans(d, l, r, a, b, env);
    } else {
      v := Combine(OpOf(s), a, b, 0);
      CombineGives(s, a, b);
      BinaryMeans(d, OpOf(s), l, r, a, b, env);
    }
  }

  lemma PowMeans(d: nat, l: Tree, r: Tree, a: Intmax, b: Intmax, env: Env)
    requires d <= MAX_DEPTH && WellFormed(l) && WellFormed(r)
    requires Meaning(d, l, env) == Ok(Looked(a, env)) && Meaning(d, r, env) == Ok(Looked(b, env))
    ensures WellFormed(Pow(l, r))
    ensures Meaning(d, Pow(l, r), env)
         == Answer(if b < 0 then Err(NegativeExponent) else Ok(Wrap(ExprNumbers.Power(a, b))), env)
  {
    hide ExprNumbers.Power;
  }

  lemma BinaryMeans(d: nat, op: BinOp, l: Tree, r: Tree, a: Intmax, b: Intmax, env: Env)
    requires d <= MAX_DEPTH && WellFormed(l) && WellFormed(r)
    requires Meaning(d, l, env) == Ok(Looked(a, env)) && Meaning(d, r, env) == Ok(Looked(b, env))
    ensures WellFormed(Binary(op, l, r))
    ensures Meaning(d, Binary(op, l, r), env) == Answer(Combine(op, a, b, 0), env)
  {
    hide Combine;
  }

  lemma PowerGives(a: Intmax, b: Intmax)
    ensures Gives("**", a, b, if b < 0 then Err(NegativeExponent) else Ok(Wrap(ExprNumbers.Power(a, b))))
  {
  }

  lemma ApplyFails(d: nat, s: string, l: Tree, r: Tree, a: Intmax, e: Fault, env: Env)
    requires d <= MAX_DEPTH && Known(s) && WellFormed(l) && WellFormed(r)
    requires Meaning(d, l, env) == Err(e) || (Meaning(d, l, env) == Ok(Looked(a, env)) && Meaning(d, r, env) == Err(e))
    ensures WellFormed(Apply(s, l, r)) && Meaning(d, Apply(s, l, r), env) == Err(e)
  {
    hide Combine, OpOf, Known;
    if s == "**" {
      PowFails(d, l, r, a, e, env);
    } else {
      BinaryFails(d, OpOf(s), l, r, a, e, env);
    }
    hide Meaning;
  }

  lemma PowFails(d: nat, l: Tree, r: Tree, a: Intmax, e: Fault, env: Env)
    requires d <= MAX_DEPTH && WellFormed(l) && WellFormed(r)
    requires Meaning(d, l, env) == Err(e) || (Meaning(d, l, env) == Ok(Looked(a, env)) && Meaning(d, r, env) == Err(e))
    ensures WellFormed(Pow(l, r)) && Meaning(d, Pow(l, r), env) == Err(e)
  {
  }

  lemma BinaryFails(d: nat, op: BinOp, l: Tree, r: Tree, a: Intmax, e: Fault, env: Env)
    requires d <= MAX_DEPTH && WellFormed(l) && WellFormed(r)
    requires Meaning(d, l, env) == Err(e) || (Meaning(d, l, env) == Ok(Looked(a, env)) && Meaning(d, r, env) == Err(e))
    ensures WellFormed(Binary(op, l, r)) && Meaning(d, Binary(op, l, r), env) == Err(e)
  {
    hide Combine;
  }

  function Two(x: string, s: string, y: string): string {
    Word(x) + (Word(s) + Word(y))
  }

  function Three(x: string, s: string, y: string, t: string, z: string): string {
    Word(x) + (Word(s) + (Word(y) + (Word(t) + Word(z))))
  }

  /** The level of an operator, and how its tree is printed. */
  lemma Levels(s: string, l: Tree, r: Tree)
    requires Known(s)
    ensures Prec(Apply(s, l, r)) == Rank(s) + 4
    ensures Body(Apply(s, l, r)) == if s == "**" then Print(l, 14) + (Word(s) + Print(r, 13))
                                    else Print(l, Rank(s) + 4) + (Word(s) + Print(r, Rank(s) + 5))
    ensures 1 <= Rank(s) <= 9 && (s == "**" <==> Rank(s) == 9)
  {
    if s != "**" {
      SignOf(s);
    }
    hide OpOf, BinSign, Print;
  }

  lemma VarPrinted(x: string, n: nat)
    requires n <= 15
    ensures Print(Var(x), n) == Word(x)
  {
  }

  lemma Unbracketed(t: Tree, n: nat)
    requires n <= Prec(t)
    ensures Print(t, n) == Body(t)
  {
    hide Body, Prec;
  }

  lemma TwoPrinted(x: string, s: string, y: string, n: nat)
    requires Known(s) && n <= Rank(s) + 4
    ensures Print(Apply(s, Var(x), Var(y)), n) == Two(x, s, y)
  {
    hide *;
    Levels(s, Var(x), Var(y));
    VarPrinted(x, if s == "**" then 14 else Rank(s) + 4);
    VarPrinted(y, if s == "**" then 13 else Rank(s) + 5);
    Unbracketed(Apply(s, Var(x), Var(y)), n);
    TwoIs(x, s, y);
  }

  lemma TwoIs(x: string, s: string, y: string)
    ensures Two(x, s, y) == Word(x) + (Word(s) + Word(y))
  {
  }

  /** One operator: text to value, or the error. */
  lemma TwoOperands(d: nat, x: string, s: string, y: string, a: Intmax, b: Intmax, env: Env)
    returns (r: Checked<Intmax>)
    requires d + 1 < MAX_DEPTH && Known(s) && Holds(env, x, a) && Holds(env, y, b)
    ensures Subexpr(d, Two(x, s, y), 0, env) == Answer(r, env) && Gives(s, a, b, r)
  {
    hide Subexpr, Meaning, Apply, Print, Known, Itos, Denotes;
    HeldValue(d + 1, x, a, env);
    HeldValue(d + 1, y, b, env);
    r := ApplyMeans(d + 1, s, Var(x), Var(y), a, b, env);
    TwoPrinted(x, s, y, 0);
    Agreement(d, Apply(s, Var(x), Var(y)), env);
  }

  /** Does the second of two operators take the operand between them? */
  predicate SecondFirst(s: string, t: string) {
    Rank(s) < Rank(t) || (s == "**" && t == "**")
  }

  function Grouped(x: string, s: string, y: string, t: string, z: string): Tree
    requires Known(s) && Known(t)
  {
    if SecondFirst(s, t) then Apply(s, Var(x), Apply(t, Var(y), Var(z)))
    else Apply(t, Apply(s, Var(x), Var(y)), Var(z))
  }

  lemma ThreePrinted(x: string, s: string, y: string, t: string, z: string)
    requires Known(s) && Known(t)
    ensures Print(Grouped(x, s, y, t, z), 0) == Three(x, s, y, t, z)
  {
    if SecondFirst(s, t) {
      RightPrinted(x, s, y, t, z);
    } else {
      LeftPrinted(x, s, y, t, z);
    }
    hide *;
  }

  lemma RightPrinted(x: string, s: string, y: string, t: string, z: string)
    requires Known(s) && Known(t) && SecondFirst(s, t)
    ensures Print(Apply(s, Var(x), Apply(t, Var(y), Var(z))), 0) == Three(x, s, y, t, z)
  {
    hide Rank, Apply, Body, Prec, Print, Known;
    var r := Apply(t, Var(y), Var(z));
    Levels(s, Var(x), r);
    Levels(t, Var(y), Var(z));
    TwoPrinted(y, t, z, if s == "**" then 13 else Rank(s) + 5);
    VarPrinted(x, if s == "**" then 14 else Rank(s) + 4);
    Unbracketed(Apply(s, Var(x), r), 0);
  }

  lemma LeftPrinted(x: string, s: string, y: string, t: string, z: string)
    requires Known(s) && Known(t) && !SecondFirst(s, t)
    ensures Print(Apply(t, Apply(s, Var(x), Var(y)), Var(z)), 0) == Three(x, s, y, t, z)
  {
    hide Rank, Apply, Body, Prec, Print, Known;
    var l := Apply(s, Var(x), Var(y));
    Levels(t, l, Var(z));
    Levels(s, Var(x), Var(y));
    TwoPrinted(x, s, y, Rank(t) + 4);
    VarPrinted(z, Rank(t) + 5);
    Unbracketed(Apply(t, l, Var(z)), 0);
    assert Word(x) + (Word(s) + Word(y)) + (Word(t) + Word(z)) == Three(x, s, y, t, z);
  }

  /** Two operators: the one that binds tighter is applied first, of equals the left one, of two `**` the
      right one. */
  lemma ThreeOperands(d: nat, x: string, s: string, y: string, t: string, z: string, a: Intmax, b: Intmax, c: Intmax,
                      env: Env) returns (inner: Checked<Intmax>, r: Checked<Intmax>)
    requires d + 1 < MAX_DEPTH && Known(s) && Known(t)
    requires Holds(env, x, a) && Holds(env, y, b) && Holds(env, z, c)
    ensures Subexpr(d, Three(x, s, y, t, z), 0, env) == Answer(r, env)
    ensures if SecondFirst(s, t) then Gives(t, b, c, inner) else Gives(s, a, b, inner)
    ensures if inner.Err? then r == inner
            else if SecondFirst(s, t) then Gives(s, a, inner.value, r) else Gives(t, inner.value, c, r)
  {
    hide Subexpr, Meaning, Apply, Print, Known, Itos, Denotes, Rank;
    HeldValue(d + 1, x, a, env);
    HeldValue(d + 1, y, b, env);
    HeldValue(d + 1, z, c, env);
    if SecondFirst(s, t) {
      inner := ApplyMeans(d + 1, t, Var(y), Var(z), b, c, env);
      if inner.Ok? {
        r := ApplyMeans(d + 1, s, Var(x), Apply(t, Var(y), Var(z)), a, inner.value, env);
      } else {
        r := inner;
        ApplyFails(d + 1, s, Var(x), Apply(t, Var(y), Var(z)), a, Fault(inner.error, env), env);
      }
    } else {
      inner := ApplyMeans(d + 1, s, Var(x), Var(y), a, b, env);
      if inner.Ok? {
        r := ApplyMeans(d + 1, t, Apply(s, Var(x), Var(y)), Var(z), inner.value, c, env);
      } else {
        r := inner;
        ApplyFails(d + 1, t, Apply(s, Var(x), Var(y)), Var(z), a, Fault(inner.error, env), env);
      }
    }
    ThreePrinted(x, s, y, t, z);
    Agreement(d, Grouped(x, s, y, t, z), env);
  }

  /** An unset or empty variable is 0. */
  lemma UnsetIsZero(d: nat, x: string, env: Env)
    requires d < MAX_DEPTH && Identifier(x) && (x !in env || env[x] == "")
    ensures Subexpr(d, Word(x), 0, env) == Ok(Looked(0, env))
  {
    hide Subexpr;
    Agreement(d, Var(x), env);
  }

  /** The unary operators. */
  lemma UnaryOperand(d: nat, s: string, x: string, a: Intmax, env: Env) returns (v: Intmax)
    requires d + 1 < MAX_DEPTH && Holds(env, x, a) && (s == "-" || s == "+" || s == "~" || s == "!")
    ensures Subexpr(d, Word(s) + Word(x), 0, env) == Ok(Looked(v, env))
    ensures IsNegated(s, a, v)
  {
    hide Subexpr, Lookup, Itos, Meaning, UnaryValue, SignToken, Sign, IsNegated;
    HeldValue(d + 1, x, a, env);
    var sign := SignToken(s);
    v := UnaryValue(sign, a);
    Negation(s, a);
    UnaryMeans(d + 1, s, x, a, env);
    VarPrinted(x, 14);
    Agreement(d, Unary(sign, Var(x)), env);
  }

  function SignToken(s: string): (t: Token)
    ensures t == Not || t == Bnot || t == Bin(Minus) || t == Bin(Plus)
  {
    if s == "-" then Bin(Minus) else if s == "+" then Bin(Plus) else if s == "~" then Bnot else Not
  }

  ghost predicate IsNegated(s: string, a: Intmax, v: Intmax) {
    if s == "-" then Same(v as int + a, 0)
    else if s == "+" then v == a
    else if s == "~" then v as int == -(a as int) - 1
    else v == if a == 0 then 1 else 0
  }

  lemma Negation(s: string, a: Intmax)
    requires s == "-" || s == "+" || s == "~" || s == "!"
    ensures IsUnary(SignToken(s)) && Sign(SignToken(s)) == s && IsNegated(s, a, UnaryValue(SignToken(s), a))
  {
    var n := Wrap(-(a as int));
    SameAdd(n, -(a as int), a);
    assert IsIntmax(a) && IsIntmax(-(a as int) - 1);
  }

  /** Unary operators bind tighter than all others, `**` included. */
  lemma UnaryFirst(d: nat, u: string, x: string, s: string, y: string, a: Intmax, b: Intmax, env: Env)
    returns (inner: Intmax, r: Checked<Intmax>)
    requires d + 1 < MAX_DEPTH && Known(s) && Holds(env, x, a) && Holds(env, y, b)
    requires u == "-" || u == "+" || u == "~" || u == "!"
    ensures Subexpr(d, Word(u) + Two(x, s, y), 0, env) == Answer(r, env)
    ensures IsNegated(u, a, inner) && Gives(s, inner, b, r)
  {
    hide Subexpr, Lookup, Itos, Print, Apply, Known, Denotes, UnaryValue, IsNegated;
    HeldValue(d + 1, x, a, env);
    HeldValue(d + 1, y, b, env);
    inner := UnaryValue(SignToken(u), a);
    Negation(u, a);
    UnaryMeans(d + 1, u, x, a, env);
    hide Meaning, SignToken;
    r := ApplyMeans(d + 1, s, Unary(SignToken(u), Var(x)), Var(y), inner, b, env);
    UnaryPrinted(u, x, s, y);
    Agreement(d, Apply(s, Unary(SignToken(u), Var(x)), Var(y)), env);
  }

  lemma UnaryMeans(d: nat, u: string, x: string, a: Intmax, env: Env)
    requires d <= MAX_DEPTH && Identifier(x) && IsUnary(SignToken(u)) && Meaning(d, Var(x), env) == Ok(Looked(a, env))
    ensures Meaning(d, Unary(SignToken(u), Var(x)), env) == Ok(Looked(UnaryValue(SignToken(u), a), env))
  {
    hide Lookup, UnaryValue, SignToken, Identifier;
  }

  lemma UnaryPrinted(u: string, x: string, s: string, y: string)
    requires Known(s) && IsUnary(SignToken(u)) && Sign(SignToken(u)) == u
    ensures Print(Apply(s, Unary(SignToken(u), Var(x)), Var(y)), 0) == Word(u) + Two(x, s, y)
  {
    hide OpOf, BinSign, Rank, Apply, SignToken, Sign, Body, Prec, Print, Known;
    var l := Unary(SignToken(u), Var(x));
    Levels(s, l, Var(y));
    OneUnary(SignToken(u), x);
    Unbracketed(l, if s == "**" then 14 else Rank(s) + 4);
    VarPrinted(y, if s == "**" then 13 else Rank(s) + 5);
    Unbracketed(Apply(s, l, Var(y)), 0);
    assert Word(u) + Word(x) + (Word(s) + Word(y)) == Word(u) + Two(x, s, y);
  }

  lemma OneUnary(sign: Token, x: string)
    ensures Prec(Unary(sign, Var(x))) == 14 && Body(Unary(sign, Var(x))) == Word(Sign(sign)) + Word(x)
  {
    VarPrinted(x, 14);
  }

  lemma LogicalPrinted(x: string, y: string)
    ensures Print(And(Var(x), Var(y)), 0) == Two(x, "&&", y) && Print(Or(Var(x), Var(y)), 0) == Two(x, "||", y)
  {
    VarPrinted(x, 4);
    VarPrinted(y, 5);
    VarPrinted(x, 3);
    VarPrinted(y, 4);
    Unbracketed(And(Var(x), Var(y)), 0);
    Unbracketed(Or(Var(x), Var(y)), 0);
    hide Print;
  }

  /** `&&` and `||` give 1 or 0. */
  lemma Logical(d: nat, x: string, y: string, a: Intmax, b: Intmax, env: Env)
    requires d + 1 < MAX_DEPTH && Holds(env, x, a) && Holds(env, y, b)
    ensures Subexpr(d, Two(x, "&&", y), 0, env) == Ok(Looked(if a != 0 && b != 0 then 1 else 0, env))
    ensures Subexpr(d, Two(x, "||", y), 0, env) == Ok(Looked(if a != 0 || b != 0 then 1 else 0, env))
  {
    hide Subexpr, Lookup, Itos, Print, Two;
    HeldValue(d + 1, x, a, env);
    HeldValue(d + 1, y, b, env);
    LogicalPrinted(x, y);
    Agreement(d, And(Var(x), Var(y)), env);
    Agreement(d, Or(Var(x), Var(y)), env);
  }
}
