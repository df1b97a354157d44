/** Operators, tokens and the scanner's state of the arithmetic evaluator. */
module ExprTokens {
  import opened Chars
  import opened Numbers
  import opened Wrappers
  import opened ExprErrors
  import opened ExprNumbers

  /** The left-associative operators that work on values. */
  datatype BinOp =
    | Mul | Div | Mod | Plus | Minus | Lsh | Rsh
    | Leq | Geq | Lt | Gt | EqEq | Neq | Band | Bxor | Bor

  /** `OP_ASSIGN` carries the operator that the source keeps in `assigntok`. */
  datatype Token =
    | End | Str | Num | Bin(op: BinOp) | OpAssign(op: BinOp) | Eq
    | Land | Lor | Power | Not | Bnot | Lpar | Rpar | Ques | Col | Comma
    | PreInc | PreDec | PostInc | PostDec | CondEnd

  /** The globals of the evaluator: the text still to be read, the current and the last token, the
      value and the name that came with a token, the counter that switches evaluation off, and the
      shell variables. */
  datatype State = State(rest: string, cur: Token, last: Token, val: Intmax, name: Option<string>,
                         noeval: nat, env: Env)
  {
    /** What is left to read, the current token included. */
    function Left(): nat {
      |rest| + if cur == End then 0 else 1
    }
  }

  /** Precedence levels as in the table at the top of the source, the comma lowest. */
  function LevelOf(op: BinOp): (n: nat)
    ensures 5 <= n <= 12
  {
    match op
    case Bor => 5
    case Bxor => 6
    case Band => 7
    case EqEq | Neq => 8
    case Leq | Geq | Lt | Gt => 9
    case Lsh | Rsh => 10
    case Plus | Minus => 11
    case Mul | Div | Mod => 12
  }

  /** Division truncates towards zero. */
  function Quot(a: int, b: int): int
    requires b != 0
  {
    if (a < 0) == (b < 0) then Abs(a) / Abs(b) else -(Abs(a) / Abs(b))
  }

  function Rem(a: int, b: int): int
    requires b != 0
  {
    a - Quot(a, b) * b
  }

  /** The low k bits of a op b, bit by bit in two's complement. */
  function Bitwise(op: BinOp, a: int, b: int, k: nat): nat
    decreases k
  {
    if k == 0 then 0
    else
      var x, y := a % 2 == 1, b % 2 == 1;
      var bit := if op == Band then x && y else if op == Bor then x || y else x != y;
      (if bit then 1 else 0) + 2 * Bitwise(op, a / 2, b / 2, k - 1)
  }

  function TwoTo(k: nat): nat {
    if k == 0 then 1 else 2 * TwoTo(k - 1)
  }

  lemma TwoToPositive(k: nat)
    ensures TwoTo(k) > 0
  {
  }

  function Truth(b: bool): Intmax {
    if b then 1 else 0
  }

  /** The value of a op b for a non-zero divisor.  A shift count outside 0..63, which C leaves
      undefined, is taken modulo 64. */
  function Arith(op: BinOp, a: Intmax, b: Intmax): Intmax
    requires op == Div || op == Mod ==> b != 0
  {
    match op
    case Mul => Wrap(a * b)
    case Div => Wrap(Quot(a, b))
    case Mod => Wrap(Rem(a, b))
    case Plus => Wrap(a + b)
    case Minus => Wrap(a - b)
    case Lsh => Wrap(a * TwoTo(b % 64))
    case Rsh =>
      TwoToPositive(b % 64);
      Wrap(a / TwoTo(b % 64))
    case Leq => Truth(a <= b)
    case Geq => Truth(a >= b)
    case Lt => Truth(a < b)
    case Gt => Truth(a > b)
    case EqEq => Truth(a == b)
    case Neq => Truth(a != b)
    case Band | Bxor | Bor => Wrap(Bitwise(op, a, b, 64))
  }

  /** The one quotient that does not fit wraps to INTMAX_MIN, and its remainder is 0. */
  lemma MinByMinusOne()
    ensures Arith(Div, INTMAX_MIN, -1) == INTMAX_MIN == Arith(Div, INTMAX_MIN, 1)
    ensures Arith(Mod, INTMAX_MIN, -1) == 0
  {
    assert Quot(INTMAX_MIN, -1) == -INTMAX_MIN;
    assert Rem(INTMAX_MIN, -1) == 0;
    assert Quot(INTMAX_MIN, 1) == INTMAX_MIN;
    assert Wrap(-INTMAX_MIN) == INTMAX_MIN;
  }

  /** a op b where a zero divisor is an error, or counts as one while evaluation is off. */
  function Combine(op: BinOp, a: Intmax, b: Intmax, noeval: nat): (r: Checked<Intmax>)
    ensures r.Err? ==> noeval == 0 && r.error == DivisionByZero
  {
    if (op == Div || op == Mod) && b == 0 then
      if noeval == 0 then Err(DivisionByZero) else Ok(Arith(op, a, 1))
    else Ok(Arith(op, a, b))
  }

  predicate IsBlank(c: char) { c == ' ' || c == '\t' || c == '\n' }

  predicate NameStart(c: char) { IsAlpha(c) || c == '_' }

  predicate NameChar(c: char) { IsAlpha(c) || IsDigit(c) || c == '_' }

  predicate LiteralChar(c: char) { IsAlpha(c) || IsDigit(c) || c == '#' || c == '@' || c == '_' }

  function SkipBlanks(t: string): (r: string)
    ensures |r| <= |t| && (r != "" ==> !IsBlank(r[0]))
  {
    if t != "" && IsBlank(t[0]) then SkipBlanks(t[1..]) else t
  }

  function NameLength(t: string): (n: nat)
    ensures n <= |t| && (t != "" && NameChar(t[0]) ==> n > 0)
  {
    if t != "" && NameChar(t[0]) then 1 + NameLength(t[1..]) else 0
  }

  function LiteralLength(t: string): (n: nat)
    ensures n <= |t| && (t != "" && LiteralChar(t[0]) ==> n > 0)
  {
    if t != "" && LiteralChar(t[0]) then 1 + LiteralLength(t[1..]) else 0
  }

  /** The operator a single character stands for. */
  function SingleOp(c: char): Option<Token> {
    match c
    case '=' => Some(Eq)
    case '>' => Some(Bin(Gt))
    case '<' => Some(Bin(Lt))
    case '+' => Some(Bin(Plus))
    case '-' => Some(Bin(Minus))
    case '*' => Some(Bin(Mul))
    case '/' => Some(Bin(Div))
    case '%' => Some(Bin(Mod))
    case '!' => Some(Not)
    case '(' => Some(Lpar)
    case ')' => Some(Rpar)
    case '&' => Some(Bin(Band))
    case '|' => Some(Bin(Bor))
    case '^' => Some(Bin(Bxor))
    case '~' => Some(Bnot)
    case '?' => Some(Ques)
    case ':' => Some(Col)
    case ',' => Some(Comma)
    case _ => None
  }

  /** The operators that have an assignment form with one character and `=`. */
  predicate AssignOp(op: BinOp) {
    op == Mul || op == Div || op == Mod || op == Plus || op == Minus || op == Band || op == Bxor || op == Bor
  }

  /** A scanned operator and how many characters it takes. */
  datatype Lexeme = Lexeme(token: Token, length: nat)

  /** The operator part of `readtok`: the longest operator, with `++` and `--` depending on the
      tokens before and on the text behind. */
  function Operator(t: string, cur: Token, last: Token): (r: Checked<Lexeme>)
    requires t != ""
    ensures r.Ok? ==> 0 < r.value.length <= |t| && r.value.token != End && r.value.token != Str && r.value.token != Num
    ensures r.Err? ==> !r.error.Arithmetic()
  {
    var c, c1 := t[0], At(t, 1);
    if c == '=' && c1 == '=' then Ok(Lexeme(Bin(EqEq), 2))
    else if c == '!' && c1 == '=' then Ok(Lexeme(Bin(Neq), 2))
    else if c == '>' && c1 == '=' then Ok(Lexeme(Bin(Geq), 2))
    else if c == '<' && c1 == '=' then Ok(Lexeme(Bin(Leq), 2))
    else if c == '<' && c1 == '<' then
      if At(t, 2) == '=' then Ok(Lexeme(OpAssign(Lsh), 3)) else Ok(Lexeme(Bin(Lsh), 2))
    else if c == '>' && c1 == '>' then
      if At(t, 2) == '=' then Ok(Lexeme(OpAssign(Rsh), 3)) else Ok(Lexeme(Bin(Rsh), 2))
    else if c == '&' && c1 == '&' then Ok(Lexeme(Land, 2))
    else if c == '|' && c1 == '|' then Ok(Lexeme(Lor, 2))
    else if c == '*' && c1 == '*' then Ok(Lexeme(Power, 2))
    else if (c == '-' || c == '+') && c1 == c && cur == Str then
      Ok(Lexeme(if c == '-' then PostDec else PostInc, 2))
    else if (c == '-' || c == '+') && c1 == c && cur == Num && (last == PreInc || last == PreDec) then
      Err(NeedsLvalue)
    else if (c == '-' || c == '+') && c1 == c then
      if NameStart(At(SkipBlanks(t[2..]), 0)) then Ok(Lexeme(if c == '-' then PreDec else PreInc, 2))
      else Ok(Lexeme(Bin(if c == '-' then Minus else Plus), 1))
    else
      match SingleOp(c)
      case None => Err(if cur == Str || cur == Num then BadOperator else OperandExpected)
      case Some(token) =>
        if c1 == '=' && token.Bin? && AssignOp(token.op) then Ok(Lexeme(OpAssign(token.op), 2))
        else Ok(Lexeme(token, 1))
  }
}
