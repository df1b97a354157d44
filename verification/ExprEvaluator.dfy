/** The evaluator itself: a recursive-descent parser over global token state, with a stack of saved
    contexts for variables whose values are expressions. */
module ExprEvaluator {
  import opened Chars
  import opened Numbers
  import opened Wrappers
  import opened ExprErrors
  import opened ExprNumbers
  import opened ExprLiterals
  import opened ExprTokens
  import opened ExprSpec

  /** What `pushexp` saves. */
  datatype Context = Context(expression: string, tp: string, curtok: Token, lasttok: Token, tokval: Intmax,
                             tokstr: Option<string>, noeval: nat)

  /** The globals.  `tp` is the text from the read position on, as the source's pointer is. */
  class Evaluator {
    var expression: string
    var tp: string
    var curtok: Token
    var lasttok: Token
    var tokval: Intmax
    var tokstr: Option<string>
    var noeval: nat
    var stack: seq<Context>
    var depth: nat
    var env: Env

    ghost predicate Valid()
      reads this
    {
      depth == |stack| <= MAX_DEPTH
    }

    ghost function St(): State
      reads this
    {
      State(tp, curtok, lasttok, tokval, tokstr, noeval, env)
    }

    /** The outcome is the one of the specification, the variables included; a normal return leaves the
        text and the saved contexts alone, an error leaves the contexts to be unwound. */
    ghost predicate Did(spec: Outcome<Valued>, r: Checked<Intmax>, text: string, saved: seq<Context>)
      reads this
    {
      && Valid()
      && match spec
         case Err(e) => r == Err(e.kind) && env == e.env
         case Ok(x) => r == Ok(x.value) && St() == x.st && expression == text && stack == saved
    }

    ghost predicate DidRead(spec: Outcome<State>, r: Checked<Token>, text: string, saved: seq<Context>)
      reads this
    {
      && Valid()
      && match spec
         case Err(e) => r == Err(e.kind) && env == e.env
         case Ok(s) => r == Ok(s.cur) && St() == s && expression == text && stack == saved
    }

    ghost predicate DidLook(spec: Outcome<Looked>, r: Checked<Intmax>, s: State, text: string, saved: seq<Context>)
      reads this
    {
      && Valid()
      && match spec
         case Err(e) => r == Err(e.kind) && env == e.env
         case Ok(x) => r == Ok(x.value) && St() == s.(env := x.env) && expression == text && stack == saved
    }

    constructor (variables: Env)
      ensures Valid() && depth == 0 && env == variables
    {
      expression, tp, tokval, tokstr, noeval := "", "", 0, None, 0;
      curtok, lasttok, stack, depth, env := End, End, [], 0, variables;
    }

    /** `pushexp` */
    method Pushexp() returns (r: Checked<Token>)
      requires Valid()
      modifies this`stack, this`depth
      ensures Valid()
      ensures r == if old(depth) >= 1024 then Err(RecursionExceeded) else Ok(curtok)
      ensures r.Ok? ==> stack == old(stack) + [Context(expression, tp, curtok, lasttok, tokval, tokstr, noeval)]
    {
      if depth >= MAX_DEPTH {
        return Err(RecursionExceeded);
      }
      stack := stack + [Context(expression, tp, curtok, lasttok, tokval, tokstr, noeval)];
      depth := depth + 1;
      return Ok(curtok);
    }

    /** `popexp`; its underflow branch is never taken. */
    method Popexp()
      requires Valid() && depth > 0
      modifies this
      ensures Valid() && stack == old(stack)[..old(depth) - 1] && env == old(env)
      ensures Context(expression, tp, curtok, lasttok, tokval, tokstr, noeval) == old(stack)[old(depth) - 1]
    {
      depth := depth - 1;
      var context := stack[depth];
      stack := stack[..depth];
      expression, tp, curtok, lasttok := context.expression, context.tp, context.curtok, context.lasttok;
      tokval, tokstr, noeval := context.tokval, context.tokstr, context.noeval;
    }

    method SkipWhitespace()
      requires Valid()
      modifies this`tp
      ensures tp == SkipBlanks(old(tp))
    {
      while tp != "" && IsBlank(tp[0])
        invariant SkipBlanks(tp) == SkipBlanks(old(tp))
        decreases |tp|
      {
        tp := tp[1..];
      }
    }

    method NameEnd() returns (n: nat)
      ensures n == NameLength(tp)
    {
      n := 0;
      while n < |tp| && NameChar(tp[n])
        invariant n <= |tp| && n + NameLength(tp[n..]) == NameLength(tp)
      {
        assert tp[n..][1..] == tp[n + 1..];
        n := n + 1;
      }
    }

    method LiteralEnd() returns (n: nat)
      ensures n == LiteralLength(tp)
    {
      n := 0;
      while n < |tp| && LiteralChar(tp[n])
        invariant n <= |tp| && n + LiteralLength(tp[n..]) == LiteralLength(tp)
      {
        assert tp[n..][1..] == tp[n + 1..];
        n := n + 1;
      }
    }

    /** `readtok` */
    method Readtok() returns (r: Checked<Token>)
      requires Valid()
      modifies this
      ensures DidRead(Next(old(depth), old(St())), r, old(expression), old(stack))
      decreases MAX_DEPTH - depth, |tp|, 2
    {
      hide LiteralValue, Operator, NameLength, LiteralLength, SkipBlanks, Named;
      SkipWhitespace();
      if tp == "" {
        lasttok, curtok := curtok, End;
        return Ok(End);
      }
      BlanksSkipped(old(tp));
      var c := tp[0];
      if NameStart(c) {
        r := ReadName();
      } else if IsDigit(c) {
        r := ReadNumber();
      } else {
        var op :- Operator(tp, curtok, lasttok);
        lasttok, curtok, tp := curtok, op.token, tp[op.length..];
        return Ok(curtok);
      }
    }

    lemma BlanksSkipped(t: string)
      ensures SkipBlanks(SkipBlanks(t)) == SkipBlanks(t)
    {
    }

    method ReadNumber() returns (r: Checked<Token>)
      requires Valid() && tp != "" && IsDigit(tp[0]) && !NameStart(tp[0]) && SkipBlanks(tp) == tp
      modifies this
      ensures DidRead(Next(old(depth), old(St())), r, old(expression), old(stack))
      decreases MAX_DEPTH - depth, |tp|, 1
    {
      hide LiteralValue, Operator, NameLength, LiteralLength, SkipBlanks, Named;
      var n := LiteralEnd();
      var v :- Strlong(tp[..n]);
      tokval := v;
      lasttok, curtok, tp := curtok, Num, tp[n..];
      return Ok(curtok);
    }

    /** A variable name: looks at the next token with evaluation off, goes back, and evaluates the
        variable unless it is about to be assigned. */
    method ReadName() returns (r: Checked<Token>)
      requires Valid() && tp != "" && NameStart(tp[0]) && SkipBlanks(tp) == tp
      modifies this
      ensures DidRead(Next(old(depth), old(St())), r, old(expression), old(stack))
      decreases MAX_DEPTH - depth, |tp|, 1
    {
      hide NameLength, SkipBlanks, Lookup, Named;
      var n := NameEnd();
      tokstr := Some(tp[..n]);
      if n < |tp| && tp[n] == '[' {
        return Err(BadSubscript);
      }
      var peektok :- Peek(tp[n..]);
      r := Valuate(peektok);
    }

    /** Evaluates the variable just read, unless it is about to be assigned. */
    method Valuate(peektok: Token) returns (r: Checked<Token>)
      requires Valid() && tokstr.Some?
      modifies this
      ensures DidRead(Named(old(depth), old(St()), old(tokstr).value, peektok), r, old(expression), old(stack))
      decreases MAX_DEPTH - depth, |tp|, 2
    {
      hide Lookup;
      if lasttok == PreInc || lasttok == PreDec || peektok != Eq {
        var v :- ExprStreval(tokstr.value);
        tokval := v;
      } else {
        tokval := 0;
      }
      lasttok, curtok := curtok, Str;
      return Ok(curtok);
    }

    /** Reads a token with evaluation off and without the current name. */
    method LookAhead() returns (r: Checked<Token>)
      requires Valid()
      modifies this
      ensures Valid()
      ensures match Next(old(depth), old(St()).(name := None, noeval := 1))
              case Err(e) => r == Err(e.kind) && env == e.env
              case Ok(p) =>
                && r == Ok(p.cur) && St() == p.(name := old(tokstr), noeval := old(noeval))
                && expression == old(expression) && stack == old(stack)
      decreases MAX_DEPTH - depth, |tp|, 3
    {
      hide Inert, Next;
      var name, off := tokstr, noeval;
      tokstr, noeval := None, 1;
      var tok :- Readtok();
      tokstr, noeval := name, off;
      return Ok(tok);
    }

    /** The look ahead of readtok from savecp on: the saved state comes back, with the position there. */
    method Peek(savecp: string) returns (r: Checked<Token>)
      requires Valid() && |savecp| < |tp|
      modifies this
      ensures Valid()
      ensures var s := old(St()).(rest := savecp);
        match Next(old(depth), s.(cur := Str, name := None, noeval := 1))
        case Err(e) => r == Err(e.kind) && env == e.env
        case Ok(p) => r == Ok(p.cur) && St() == s && expression == old(expression) && stack == old(stack)
      decreases MAX_DEPTH - depth, |tp|, 0
    {
      hide Inert, Next;
      var cur, last, val := curtok, lasttok, tokval;
      tp, curtok := savecp, Str;
      var peektok :- LookAhead();
      tp, curtok, lasttok, tokval := savecp, cur, last, val;
      return Ok(peektok);
    }

    /** `expr_streval` */
    method ExprStreval(tok: string) returns (r: Checked<Intmax>)
      requires Valid()
      modifies this
      ensures DidLook(Lookup(old(depth), tok, old(noeval), old(env)), r, old(St()), old(expression), old(stack))
      decreases MAX_DEPTH - depth, 0, 1
    {
      hide Inert, Subexpr;
      if noeval > 0 {
        return Ok(0);
      }
      if tok !in env || env[tok] == "" {
        return Ok(0);
      }
      r := EvalSubexpr(env[tok]);
    }

    /** `subexpr`: evaluates a text in a context of its own.  A normal return restores every field
        that was saved. */
    method EvalSubexpr(expr: string) returns (r: Checked<Intmax>)
      requires Valid()
      modifies this
      ensures DidLook(Subexpr(old(depth), expr, old(noeval), old(env)), r, old(St()), old(expression), old(stack))
      decreases MAX_DEPTH - depth, 0, 0
    {
      hide Inside, SkipBlanks;
      if SkipBlanks(expr) == "" {
        return Ok(0);
      }
      var _ :- Pushexp();
      var val :- EvalInside(expr);
      assert stack[..depth - 1] == old(stack);
      Popexp();
      return Ok(val);
    }

    /** The part of subexpr between pushexp and popexp. */
    method EvalInside(expr: string) returns (r: Checked<Intmax>)
      requires Valid()
      modifies this
      ensures Valid()
      ensures match Inside(old(depth), expr, old(noeval), old(env))
              case Err(e) => r == Err(e.kind) && env == e.env
              case Ok(x) => r == Ok(x.value) && env == x.env && stack == old(stack)
      decreases MAX_DEPTH - depth, |expr|, 19
    {
      hide Inert, Next, Commas;
      expression, tp, curtok, lasttok, tokstr, tokval := expr, expr, End, End, None, 0;
      var _ :- Readtok();
      var val :- Expcomma();
      if curtok != End {
        return Err(SyntaxError);
      }
      return Ok(val);
    }

    /** `evalexp`: afterwards, whatever happened, evaluation is on, and after an error no context is
        left on the stack. */
    method Evalexp(expr: string) returns (r: Checked<Intmax>)
      requires Valid()
      modifies this
      ensures Valid()
      ensures match Subexpr(old(depth), expr, 0, old(env))
              case Err(e) => r == Err(e.kind) && env == e.env && depth == 0
              case Ok(x) => r == Ok(x.value) && env == x.env && expression == old(expression) && stack == old(stack)
      ensures noeval == 0
    {
      hide Subexpr;
      noeval := 0;
      r := EvalSubexpr(expr);
      if r.Err? {
        tokstr, expression := None, "";
        stack, depth := [], 0;
        noeval := 0;
      }
    }

    /** `expcomma` */
    method Expcomma() returns (r: Checked<Intmax>)
      requires Valid()
      modifies this
      ensures Did(Commas(old(depth), old(St())), r, old(expression), old(stack))
      decreases MAX_DEPTH - depth, St().Left(), 18
    {
      hide Inert, Next, Assign, Commas, CommaRest;
      CommasIs(depth, St());
      var val1 :- Expassign();
      ghost var was := Commas(old(depth), old(St()));
      while curtok == Comma
        invariant Valid() && expression == old(expression) && stack == old(stack)
        invariant St().Left() < old(St()).Left()
        invariant CommaRest(depth, Valued(val1, St())) == was
        decreases St().Left()
      {
        CommaRestIs(depth, Valued(val1, St()));
        var _ :- Readtok();
        val1 :- Expassign();
      }
      CommaRestIs(depth, Valued(val1, St()));
      return Ok(val1);
    }

    /** `expassign` */
    method Expassign() returns (r: Checked<Intmax>)
      requires Valid()
      modifies this
      ensures Did(Assign(old(depth), old(St())), r, old(expression), old(stack))
      decreases MAX_DEPTH - depth, St().Left(), 17
    {
      hide Inert, Next, Conditional, Assign, Stored;
      AssignIs(depth, St());
      var value :- Expcond();
      if curtok == Eq || curtok.OpAssign? {
        if lasttok != Str {
          return Err(NotVariable);
        }
        if tokstr.None? {
          return Err(NoVariable);
        }
        r := Store(value);
        return;
      }
      return Ok(value);
    }

    /** The rest of an assignment to the current name; lvalue is the value it has. */
    method Store(lvalue: Intmax) returns (r: Checked<Intmax>)
      requires Valid() && (curtok == Eq || curtok.OpAssign?) && tokstr.Some?
      modifies this
      ensures Did(Stored(old(depth), Valued(lvalue, old(St()))), r, old(expression), old(stack))
      decreases MAX_DEPTH - depth, St().Left(), 1
    {
      hide Inert, Next, Assign, Combine;
      var assign, lhs := curtok, tokstr.value;
      var _ :- Readtok();
      var value :- Expassign();
      if assign != Eq {
        value :- Combine(assign.op, lvalue, value, noeval);
      }
      if noeval == 0 {
        env := env[lhs := Itos(value)];
      }
      tokstr := None;
      return Ok(value);
    }

    /** `expcond` */
    method Expcond() returns (r: Checked<Intmax>)
      requires Valid()
      modifies this
      ensures Did(Conditional(old(depth), old(St())), r, old(expression), old(stack))
      decreases MAX_DEPTH - depth, St().Left(), 16
    {
      hide Inert, Next, Lors, Commas, ThenPart, ElsePart;
      var cval :- Explor();
      if curtok == Ques {
        var val1 :- ExpThen(cval);
        r := ExpElse(cval, val1);
        return;
      }
      return Ok(cval);
    }

    /** The operand between `?` and `:`, unevaluated if the test is 0. */
    method ExpThen(cval: Intmax) returns (r: Checked<Intmax>)
      requires Valid() && curtok == Ques
      modifies this
      ensures Did(ThenPart(old(depth), Valued(cval, old(St()))), r, old(expression), old(stack))
      decreases MAX_DEPTH - depth, St().Left(), 0
    {
      hide Inert, Next, Commas;
      var setNoeval := cval == 0;
      if setNoeval {
        noeval := noeval + 1;
      }
      var _ :- Readtok();
      if curtok == End || curtok == Col {
        return Err(ExpressionExpected);
      }
      var val1 :- Expcomma();
      if setNoeval {
        noeval := noeval - 1;
      }
      if curtok != Col {
        return Err(ColonExpected);
      }
      return Ok(val1);
    }

    /** The operand behind `:`, unevaluated if the test is not 0. */
    method ExpElse(cval: Intmax, val1: Intmax) returns (r: Checked<Intmax>)
      requires Valid() && curtok == Col
      modifies this
      ensures Did(ElsePart(old(depth), cval, Valued(val1, old(St()))), r, old(expression), old(stack))
      decreases MAX_DEPTH - depth, St().Left(), 0
    {
      hide Inert, Next, Conditional, Commas, Lors, ElsePart;
      ElsePartIs(depth, cval, Valued(val1, St()));
      var setNoeval := cval != 0;
      if setNoeval {
        noeval := noeval + 1;
      }
      var _ :- Readtok();
      if curtok == End {
        return Err(ExpressionExpected);
      }
      var val2 :- Expcond();
      if setNoeval {
        noeval := noeval - 1;
      }
      lasttok := CondEnd;
      r := Ok(if cval != 0 then val1 else val2);
    }

    /** `explor` */
    method Explor() returns (r: Checked<Intmax>)
      requires Valid()
      modifies this
      ensures Did(Lors(old(depth), old(St())), r, old(expression), old(stack))
      decreases MAX_DEPTH - depth, St().Left(), 15
    {
      hide Inert, Next, Lands, Level, LorRest, LorStep, Truth, Operand, Lors;
      LorsIs(depth, St());
      var val1 :- Expland();
      ghost var was := Lors(old(depth), old(St()));
      while curtok == Lor
        invariant Valid() && expression == old(expression) && stack == old(stack)
        invariant St().Left() < old(St()).Left()
        invariant LorRest(depth, Valued(val1, St())) == was
        decreases St().Left()
      {
        LorGoesOn(depth, Valued(val1, St()));
        var val2 :- RightOperand(4, val1 != 0);
        val1 := Truth(val1 != 0 || val2 != 0);
        lasttok := Lor;
      }
      LorRestIs(depth, Valued(val1, St()));
      return Ok(val1);
    }

    /** `expland` */
    method Expland() returns (r: Checked<Intmax>)
      requires Valid()
      modifies this
      ensures Did(Lands(old(depth), old(St())), r, old(expression), old(stack))
      decreases MAX_DEPTH - depth, St().Left(), 14
    {
      hide Inert, Next, Lands, Level, LandRest, LandStep, Truth, Operand;
      LandsIs(depth, St());
      var val1 :- Explevel(5);
      ghost var was := Lands(old(depth), old(St()));
      while curtok == Land
        invariant Valid() && expression == old(expression) && stack == old(stack)
        invariant St().Left() < old(St()).Left()
        invariant LandRest(depth, Valued(val1, St())) == was
        decreases St().Left()
      {
        LandGoesOn(depth, Valued(val1, St()));
        var val2 :- RightOperand(5, val1 == 0);
        val1 := Truth(val1 != 0 && val2 != 0);
        lasttok := Land;
      }
      LandRestIs(depth, Valued(val1, St()));
      return Ok(val1);
    }

    /** What the operator loops do for their right operand: read past the operator and evaluate an
        operand of level n, with evaluation off if asked. */
    method RightOperand(n: nat, setNoeval: bool) returns (r: Checked<Intmax>)
      requires Valid() && curtok != End && 4 <= n <= 13
      modifies this
      ensures Did(Operand(old(depth), n, setNoeval, old(St())), r, old(expression), old(stack))
      decreases MAX_DEPTH - depth, St().Left(), 0
    {
      hide Inert, Next, Lands, Level;
      if setNoeval {
        noeval := noeval + 1;
      }
      var _ :- Readtok();
      var val2 :- ExpOperand(n);
      if setNoeval {
        noeval := noeval - 1;
      }
      return Ok(val2);
    }

    method ExpOperand(n: nat) returns (r: Checked<Intmax>)
      requires Valid() && 4 <= n <= 13
      modifies this
      ensures Did(if n == 4 then Lands(old(depth), old(St())) else Level(old(depth), n, old(St())),
                  r, old(expression), old(stack))
      decreases MAX_DEPTH - depth, St().Left(), 20
    {
      hide Inert, Lands, Level;
      if n == 4 {
        r := Expland();
      } else if n < 12 {
        r := Explevel(n);
      } else if n == 12 {
        r := Expmuldiv();
      } else {
        LevelIs(depth, 13, St());
        r := Exppower();
      }
    }

    /** `expbor`, `expbxor`, `expband`, `expeq`, `expcompare`, `expshift` and `expaddsub`, which differ in
        their operators, and in the next level being the one they start with. */
    method Explevel(n: nat) returns (r: Checked<Intmax>)
      requires Valid() && 5 <= n <= 11
      modifies this
      ensures Did(Level(old(depth), n, old(St())), r, old(expression), old(stack))
      decreases MAX_DEPTH - depth, St().Left(), 18 - n
    {
      hide Inert, Next, Arith, Level, LevelRest, LevelStep, OfLevel, Operand;
      LevelIs(depth, n, St());
      var val1;
      if n == 11 {
        val1 :- Expmuldiv();
      } else {
        val1 :- Explevel(n + 1);
      }
      ghost var was := Level(old(depth), n, old(St()));
      while OfLevel(curtok, n)
        invariant Valid() && expression == old(expression) && stack == old(stack)
        invariant St().Left() < old(St()).Left()
        invariant LevelRest(depth, n, Valued(val1, St())) == was
        decreases St().Left()
      {
        LevelGoesOn(depth, n, Valued(val1, St()));
        var op := curtok.op;
        var val2 :- RightOperand(n + 1, false);
        val1 := Arith(op, val1, val2);
        lasttok := Num;
      }
      LevelRestIs(depth, n, Valued(val1, St()));
      return Ok(val1);
    }

    /** `expmuldiv` */
    method Expmuldiv() returns (r: Checked<Intmax>)
      requires Valid()
      modifies this
      ensures Did(Level(old(depth), 12, old(St())), r, old(expression), old(stack))
      decreases MAX_DEPTH - depth, St().Left(), 6
    {
      hide Inert, Next, Powers, Level, LevelRest, LevelStep, OfLevel, Arith, Operand;
      LevelIs(depth, 12, St());
      LevelIs(depth, 13, St());
      var val1 :- Exppower();
      ghost var was := Level(old(depth), 12, old(St()));
      while OfLevel(curtok, 12)
        invariant Valid() && expression == old(expression) && stack == old(stack)
        invariant St().Left() < old(St()).Left()
        invariant LevelRest(depth, 12, Valued(val1, St())) == was
        decreases St().Left()
      {
        LevelGoesOn(depth, 12, Valued(val1, St()));
        var op := curtok.op;
        var val2 :- RightOperand(13, false);
        MinByMinusOne();
        if (op == Div || op == Mod) && val2 == 0 {
          if noeval == 0 {
            return Err(DivisionByZero);
          } else {
            val2 := 1;
          }
        } else if op == Mod && val1 == INTMAX_MIN && val2 == -1 {
          val1 := 0;
          continue;
        } else if op == Div && val1 == INTMAX_MIN && val2 == -1 {
          val2 := 1;
        }
        val1 := Arith(op, val1, val2);
        lasttok := Num;
      }
      LevelRestIs(depth, 12, Valued(val1, St()));
      return Ok(val1);
    }

    /** `exppower` */
    method Exppower() returns (r: Checked<Intmax>)
      requires Valid()
      modifies this
      ensures Did(Powers(old(depth), old(St())), r, old(expression), old(stack))
      decreases MAX_DEPTH - depth, St().Left(), 4
    {
      hide Inert, Next, Unaries, Wrap, ExprNumbers.Power;
      var val1 :- Expunary();
      ghost var was := Powers(old(depth), old(St()));
      while curtok == Power
        invariant Valid() && expression == old(expression) && stack == old(stack)
        invariant St().Left() < old(St()).Left()
        invariant PowerRest(depth, Valued(val1, St())) == was
        decreases St().Left()
      {
        var _ :- Readtok();
        var val2 :- Exppower();
        lasttok := Num;
        if noeval == 0 {
          if val2 == 0 {
            PowerZero(val1);
            return Ok(1);
          }
          if val2 < 0 {
            return Err(NegativeExponent);
          }
          val1 := Ipow(val1, val2);
        } else {
          val1 := 1;
        }
      }
      return Ok(val1);
    }

    /** `expunary` */
    method Expunary() returns (r: Checked<Intmax>)
      requires Valid()
      modifies this
      ensures Did(Unaries(old(depth), old(St())), r, old(expression), old(stack))
      decreases MAX_DEPTH - depth, St().Left(), 3
    {
      hide Inert, Next, Primary, Wrap;
      if curtok == Not || curtok == Bnot || curtok == Bin(Minus) || curtok == Bin(Plus) {
        var op := curtok;
        var _ :- Readtok();
        var val :- Expunary();
        lasttok := Num;
        return Ok(UnaryValue(op, val));
      }
      r := Exp0();
    }

    /** `exp0` */
    method Exp0() returns (r: Checked<Intmax>)
      requires Valid()
      modifies this
      ensures Did(Primary(old(depth), old(St())), r, old(expression), old(stack))
      decreases MAX_DEPTH - depth, St().Left(), 2
    {
      hide Inert, Next, Commas, Passed, Bumped;
      if curtok == PreInc || curtok == PreDec {
        var stok := curtok;
        lasttok := curtok;
        var _ :- Readtok();
        if curtok != Str {
          return Err(IdentifierExpected);
        }
        r := Bump(stok == PreInc, tokval);
      } else if curtok == Lpar {
        var _ :- Readtok();
        var val :- Expcomma();
        if curtok != Rpar {
          return Err(MissingParen);
        }
        r := Pass(val);
      } else if curtok == Num {
        r := Pass(tokval);
      } else if curtok == Str {
        r := ExpName(tokval);
      } else {
        return Err(OperandExpected);
      }
    }

    /** Reads on behind an operand. */
    method Pass(val: Intmax) returns (r: Checked<Intmax>)
      requires Valid() && curtok != End
      modifies this
      ensures Did(Passed(old(depth), old(St()), val), r, old(expression), old(stack))
      decreases MAX_DEPTH - depth, |tp|, 3
    {
      hide Inert, Next, Passed;
      PassedIs(depth, St(), val);
      var _ :- Readtok();
      return Ok(val);
    }

    /** Binds the current name to v plus or minus one; counting it as a number makes `x++=7` an error. */
    method Bump(up: bool, v: Intmax) returns (r: Checked<Intmax>)
      requires Valid() && curtok != End
      modifies this
      ensures Did(Bumped(old(depth), old(St()), up, v), r, old(expression), old(stack))
      decreases MAX_DEPTH - depth, |tp|, 4
    {
      hide Inert, Next, Passed, Bumped, Wrap, Itos;
      BumpedIs(depth, St(), up, v);
      var v2 := Wrap(if up then v + 1 else v - 1);
      if noeval == 0 && tokstr.Some? {
        env := env[tokstr.value := Itos(v2)];
      }
      curtok := Num;
      r := Pass(v2);
    }

    /** The bump of a name whose look ahead found `++` or `--`. */
    method BumpBehind(up: bool, v: Intmax) returns (r: Checked<Intmax>)
      requires Valid() && curtok != End
      modifies this
      ensures Did(BumpedBehind(old(depth), old(St()), up, v), r, old(expression), old(stack))
      decreases MAX_DEPTH - depth, |tp|, 5
    {
      hide Inert, Next, Passed, Bumped;
      var _ :- Bump(up, v);
      return Ok(v);
    }

    /** The look ahead behind a name, with evaluation off: only `++` and `--` stay read. */
    method LookBehind() returns (r: Checked<Token>)
      requires Valid() && curtok == Str
      modifies this
      ensures Valid()
      ensures match Next(old(depth), old(St()).(name := None, noeval := 1))
              case Err(e) => r == Err(e.kind) && env == e.env
              case Ok(p) =>
                && r == Ok(p.cur) && expression == old(expression) && stack == old(stack)
                && if p.cur == PostInc || p.cur == PostDec
                   then St() == p.(name := old(tokstr), noeval := old(noeval), last := Str)
                   else St() == old(St())
      decreases MAX_DEPTH - depth, |tp|, 4
    {
      hide Inert, Next;
      var cp, last, val := tp, lasttok, tokval;
      var stok :- LookAhead();
      lasttok := Str;
      if stok != PostInc && stok != PostDec {
        tp, curtok, lasttok, tokval := cp, Str, last, val;
      }
      return Ok(stok);
    }

    /** The variable case of exp0: a second look ahead for `++` and `--`. */
    method ExpName(val: Intmax) returns (r: Checked<Intmax>)
      requires Valid() && curtok == Str && val == tokval
      modifies this
      ensures Did(Primary(old(depth), old(St())), r, old(expression), old(stack))
      decreases MAX_DEPTH - depth, St().Left(), 1
    {
      hide Inert, Next, Primary, Passed, BumpedBehind;
      PrimaryNameIs(depth, St());
      var stok :- LookBehind();
      if stok == PostInc || stok == PostDec {
        r := BumpBehind(stok == PostInc, val);
      } else {
        r := Pass(val);
      }
    }
  }
}
