/** Arithmetic trees: their printed form with as few parentheses as the precedence table allows, and
    their meaning. */
module ExprTree {
  import opened Chars
  import opened Numbers
  import opened ExprErrors
  import opened ExprNumbers
  import opened ExprLiterals
  import opened ExprTokens
  import opened ExprSpec

  datatype Tree =
    | Lit(num: string)
    | Var(name: string)
    | Unary(sign: Token, e: Tree)
    | Binary(op: BinOp, l: Tree, r: Tree)
    | And(l: Tree, r: Tree)
    | Or(l: Tree, r: Tree)
    | Pow(l: Tree, r: Tree)
    | IfThen(c: Tree, t: Tree, f: Tree)
    | Set(name: string, e: Tree)
    | Update(op: BinOp, name: string, e: Tree)
    | Bump(pre: bool, up: bool, name: string)
    | Both(l: Tree, r: Tree)

  predicate Identifier(name: string) {
    name != "" && NameStart(name[0]) && forall k | 0 <= k < |name| :: NameChar(name[k])
  }

  predicate Literal(num: string) {
    num != "" && IsDigit(num[0]) && (forall k | 0 <= k < |num| :: LiteralChar(num[k])) && LiteralValue(num).Ok?
  }

  /** The operators that have an assignment form. */
  predicate Updating(op: BinOp) {
    AssignOp(op) || op == Lsh || op == Rsh
  }

  ghost predicate WellFormed(t: Tree) {
    match t
    case Lit(num) => Literal(num)
    case Var(name) => Identifier(name)
    case Unary(sign, e) => IsUnary(sign) && WellFormed(e)
    case Binary(_, l, r) => WellFormed(l) && WellFormed(r)
    case And(l, r) => WellFormed(l) && WellFormed(r)
    case Or(l, r) => WellFormed(l) && WellFormed(r)
    case Pow(l, r) => WellFormed(l) && WellFormed(r)
    case IfThen(c, x, y) => WellFormed(c) && WellFormed(x) && WellFormed(y)
    case Set(name, e) => Identifier(name) && WellFormed(e)
    case Update(op, name, e) => Updating(op) && Identifier(name) && WellFormed(e)
    case Bump(_, _, name) => Identifier(name)
    case Both(l, r) => WellFormed(l) && WellFormed(r)
  }

  /** The level of the grammar that a tree belongs to: 0 is the comma, 15 an operand. */
  function Prec(t: Tree): (n: nat)
    ensures n <= 15
  {
    match t
    case Lit(_) | Var(_) | Bump(_, _, _) => 15
    case Unary(_, _) => 14
    case Pow(_, _) => 13
    case Binary(op, _, _) => LevelOf(op)
    case And(_, _) => 4
    case Or(_, _) => 3
    case IfThen(_, _, _) => 2
    case Set(_, _) | Update(_, _, _) => 1
    case Both(_, _) => 0
  }

  function BinSign(op: BinOp): string {
    match op
    case Mul => "*" case Div => "/" case Mod => "%" case Plus => "+" case Minus => "-"
    case Lsh => "<<" case Rsh => ">>" case Leq => "<=" case Geq => ">=" case Lt => "<" case Gt => ">"
    case EqEq => "==" case Neq => "!=" case Band => "&" case Bxor => "^" case Bor => "|"
  }

  /** How an operator that stands between or behind operands is written. */
  function Sign(t: Token): string {
    match t
    case Bin(op) => BinSign(op)
    case OpAssign(op) => BinSign(op) + "="
    case Eq => "="
    case Land => "&&"
    case Lor => "||"
    case Power => "**"
    case Not => "!"
    case Bnot => "~"
    case Lpar => "("
    case Rpar => ")"
    case Ques => "?"
    case Col => ":"
    case Comma => ","
    case PreInc | PostInc => "++"
    case PreDec | PostDec => "--"
    case End | Str | Num | CondEnd => ""
  }

  function Twice(up: bool): string {
    if up then "++" else "--"
  }

  /** One space goes before every token. */
  function Word(t: string): string {
    " " + t
  }

  /** The tree where the grammar wants level n. */
  function Print(t: Tree, n: nat): string
    decreases t, 1
  {
    if Prec(t) < n then Word("(") + Body(t) + Word(")") else Body(t)
  }

  function Body(t: Tree): string
    decreases t, 0
  {
    match t
    case Lit(num) => Word(num)
    case Var(name) => Word(name)
    case Unary(sign, e) => Word(Sign(sign)) + Print(e, 14)
    case Binary(op, l, r) => Print(l, LevelOf(op)) + (Word(BinSign(op)) + Print(r, LevelOf(op) + 1))
    case And(l, r) => Print(l, 4) + (Word("&&") + Print(r, 5))
    case Or(l, r) => Print(l, 3) + (Word("||") + Print(r, 4))
    case Pow(l, r) => Print(l, 14) + (Word("**") + Print(r, 13))
    case IfThen(c, x, y) => Print(c, 3) + (Word("?") + (Print(x, 0) + (Word(":") + Print(y, 2))))
    case Set(name, e) => Word(name) + (Word("=") + Print(e, 1))
    case Update(op, name, e) => Word(name) + (Word(BinSign(op) + "=") + Print(e, 1))
    case Bump(pre, up, name) =>
      if pre then Word(Twice(up)) + Word(name) else Word(name) + Word(Twice(up))
    case Both(l, r) => Print(l, 0) + (Word(",") + Print(r, 1))
  }

  /** The meaning of a tree: left to right, the right operand of `&&` and `||` and the branches of `?:`
      only when wanted, variables through the evaluator at depth d. */
  ghost function Meaning(d: nat, t: Tree, env: Env): Outcome<Looked>
    requires d <= MAX_DEPTH && WellFormed(t)
  {
    match t
    case Lit(num) => Ok(Looked(LiteralValue(num).value, env))
    case Var(name) => Lookup(d, name, 0, env)
    case Unary(sign, e) =>
      var x :- Meaning(d, e, env);
      Ok(Looked(UnaryValue(sign, x.value), x.env))
    case Binary(op, l, r) =>
      var x :- Meaning(d, l, env);
      var y :- Meaning(d, r, x.env);
      var v :- Among(Combine(op, x.value, y.value, 0), y.env);
      Ok(Looked(v, y.env))
    case And(l, r) =>
      var x :- Meaning(d, l, env);
      if x.value == 0 then Ok(Looked(0, x.env))
      else
        var y :- Meaning(d, r, x.env);
        Ok(Looked(Truth(y.value != 0), y.env))
    case Or(l, r) =>
      var x :- Meaning(d, l, env);
      if x.value != 0 then Ok(Looked(1, x.env))
      else
        var y :- Meaning(d, r, x.env);
        Ok(Looked(Truth(y.value != 0), y.env))
    case Pow(l, r) =>
      var x :- Meaning(d, l, env);
      var y :- Meaning(d, r, x.env);
      if y.value < 0 then Err(Fault(NegativeExponent, y.env))
      else Ok(Looked(Wrap(ExprNumbers.Power(x.value, y.value)), y.env))
    case IfThen(c, x, y) =>
      var test :- Meaning(d, c, env);
      Meaning(d, if test.value != 0 then x else y, test.env)
    case Set(name, e) =>
      var x :- Meaning(d, e, env);
      Ok(Looked(x.value, x.env[name := Itos(x.value)]))
    case Update(op, name, e) =>
      var x :- Lookup(d, name, 0, env);
      var y :- Meaning(d, e, x.env);
      var v :- Among(Combine(op, x.value, y.value, 0), y.env);
      Ok(Looked(v, y.env[name := Itos(v)]))
    case Bump(pre, up, name) =>
      var x :- Lookup(d, name, 0, env);
      var v := Wrap(if up then x.value + 1 else x.value - 1);
      Ok(Looked(if pre then v else x.value, x.env[name := Itos(v)]))
    case Both(l, r) =>
      var x :- Meaning(d, l, env);
      Meaning(d, r, x.env)
  }
}
