/** Texts that are no expressions, and the error each gives.  A part that fails when it is evaluated fails
    first. */
module ExprRejects {
  import opened Chars
  import opened ExprErrors
  import opened ExprLiterals
  import opened ExprTokens
  import opened ExprSpec
  import opened ExprTree
  import opened ExprReading
  import opened ExprMeaning
  import opened ExprLaws

  /** What is left to say of a text in which the tree t is evaluated first. */
  ghost predicate FailsBehind(d: nat, t: Tree, kind: Error, text: string, env: Env)
    requires d < MAX_DEPTH && WellFormed(t)
  {
    var m := Meaning(d + 1, t, env);
    Subexpr(d, text, 0, env) == if m.Err? then Err(m.error) else Err(Fault(kind, m.value.env))
  }

  lemma StartReady(t: Tree, n: nat, text: string, env: Env, tail: Tail, d: nat)
    requires d < MAX_DEPTH && n <= 15 && WellFormed(t) && Fine(tail) && Allowed(Token1(tail), n)
    requires Token1(tail) != Eq && text == Print(t, n) + Text(tail)
    ensures Due(d + 1, t, n, Start(text, env), tail)
    ensures Expect(d + 1, t, Start(text, env)) == Meaning(d + 1, t, env)
  {
    hide Print, Text, Meaning, WellFormed, Fine, Allowed;
  }

  /** A text whose evaluation fails at some level fails. */
  lemma Failing(d: nat, text: string, env: Env, e: Fault)
    requires d < MAX_DEPTH && Fails(d + 1, 0, Start(text, env), e) && SkipBlanks(text) != ""
    ensures Subexpr(d, text, 0, env) == Err(e)
  {
    hide Subexpr, Step, SkipBlanks;
    SubexprIs(d, text, env);
  }

  lemma FailsLower(d: nat, m: nat, n: nat, p: State, e: Fault)
    requires d <= MAX_DEPTH && n <= m <= 15 && Fails(d, m, p, e)
    requires Next(d, p).Ok? && n < m == 15 ==> !IsUnary(Next(d, p).value.cur)
    ensures Fails(d, n, p, e)
  {
    hide Next, Run;
    if Next(d, p).Ok? {
      LowerError(d, m, n, Next(d, p).value, e);
    }
  }

  /** An operator that cannot go on where an expression has ended is a syntax error: a closing parenthesis
      or a colon. */
  lemma SignTooMany(d: nat, t: Tree, sign: Token, rest: string, env: Env)
    requires d < MAX_DEPTH && WellFormed(t) && (sign == Rpar || sign == Col) && Apart(rest)
    ensures FailsBehind(d, t, SyntaxError, Print(t, 0) + (Word(Sign(sign)) + rest), env)
  {
    hide *;
    var tail := More(sign, rest);
    var text := Print(t, 0) + (Word(Sign(sign)) + rest);
    Closing(sign, rest);
    StartReady(t, 0, text, env, tail, d);
    var p := Start(text, env);
    var x := Evaluate(d + 1, t, 0, p, tail);
    NotBlank(d + 1, p);
    StartIs(text, env);
    SubexprIs(d, text, env);
    CorrectIs(d + 1, t, 0, p, tail, x);
    if Meaning(d + 1, t, env).Ok? {
      EndsAt(d + 1, p, tail, x, Meaning(d + 1, t, env).value.env);
    } else {
      FailsMeans(d + 1, 0, p, Meaning(d + 1, t, env).error);
    }
    FailsBehindIs(d, t, SyntaxError, text, env);
  }

  lemma FailsBehindIs(d: nat, t: Tree, kind: Error, text: string, env: Env)
    requires d < MAX_DEPTH && WellFormed(t)
    ensures FailsBehind(d, t, kind, text, env) <==>
      Subexpr(d, text, 0, env) ==
        if Meaning(d + 1, t, env).Err? then Err(Meaning(d + 1, t, env).error)
        else Err(Fault(kind, Meaning(d + 1, t, env).value.env))
  {
    hide Subexpr, Meaning, WellFormed;
  }

  lemma Closing(sign: Token, rest: string)
    requires (sign == Rpar || sign == Col) && Apart(rest)
    ensures var tail := More(sign, rest);
      Fine(tail) && Allowed(Token1(tail), 0) && Token1(tail) == sign && Text(tail) == Word(Sign(sign)) + rest &&
      FollowLevel(Token1(tail)) < 0
  {
  }

  lemma EndsAt(d: nat, p: State, tail: Tail, x: Valued, env: Env)
    requires Gives(d, 0, p, tail, x, env) && FollowLevel(Token1(tail)) < 0
    ensures d <= MAX_DEPTH && Step(d, 0, p) == Ok(x) && x.st.cur == Token1(tail) && x.st.env == env
  {
    hide Next, Step, RestOf;
    RestStops(d, 0, x);
  }

  /** An opening parenthesis whose closing one is missing. */
  lemma ParenMissing(d: nat, t: Tree, env: Env)
    requires d < MAX_DEPTH && WellFormed(t)
    ensures FailsBehind(d, t, MissingParen, Word("(") + Print(t, 0), env)
  {
    hide *;
    var text := Word("(") + Print(t, 0);
    var p := Start(text, env);
    StartIs(text, env);
    PrintedApart(t);
    LparPlain();
    NextPlain(d + 1, p, Lpar, Print(t, 0));
    var s := Next(d + 1, p).value;
    InnerReady(d + 1, t, s);
    var x := Evaluate(d + 1, t, 0, s, Nothing);
    CorrectIs(d + 1, t, 0, s, Nothing, x);
    var e := if Meaning(d + 1, t, env).Err? then Meaning(d + 1, t, env).error
             else Fault(MissingParen, Meaning(d + 1, t, env).value.env);
    if Meaning(d + 1, t, env).Ok? {
      EndsAtEnd(d + 1, s, x, Meaning(d + 1, t, env).value.env);
      PrimaryOpen(d + 1, s, x);
    } else {
      PrimaryParenFails(d + 1, s, e);
    }
    OperandFails(d + 1, p, e);
    ParenBlank(Print(t, 0));
    NotUnary(Lpar);
    FailsLower(d + 1, 15, 0, p, e);
    Failing(d, text, env, e);
    FailsBehindIs(d, t, MissingParen, text, env);
  }

  lemma PrintedApart(t: Tree)
    ensures Apart(Print(t, 0))
  {
    PrintApart(t, 0);
    hide Print;
  }

  lemma LparPlain()
    ensures Plain(Lpar) && Sign(Lpar) == "("
  {
  }

  lemma NotUnary(t: Token)
    requires t == Lpar || t == Num
    ensures !IsUnary(t)
  {
  }

  lemma ParenBlank(u: string)
    ensures SkipBlanks(Word("(") + u) != ""
  {
    assert (Word("(") + u)[1..] == "(" + u;
  }

  lemma InnerReady(d: nat, t: Tree, s: State)
    requires d <= MAX_DEPTH && WellFormed(t) && s.cur == Lpar && s.last == End && s.noeval == 0
    requires s.rest == Print(t, 0)
    ensures Due(d, t, 0, s, Nothing) && Expect(d, t, s) == Meaning(d, t, s.env)
  {
    hide Print, Meaning, WellFormed;
    assert Print(t, 0) + "" == Print(t, 0);
  }

  lemma EndsAtEnd(d: nat, p: State, x: Valued, env: Env)
    requires Gives(d, 0, p, Nothing, x, env)
    ensures d <= MAX_DEPTH && Step(d, 0, p) == Ok(x) && x.st.cur == End && x.st.env == env
  {
    hide Next, Step, RestOf;
    RestStops(d, 0, x);
  }

  lemma PrimaryOpen(d: nat, s: State, x: Valued)
    requires d <= MAX_DEPTH && s.cur == Lpar && Step(d, 0, s) == Ok(x) && x.st.cur != Rpar
    ensures Primary(d, s) == Err(Fault(MissingParen, x.st.env))
  {
    hide Next;
  }

  /** A binary operator with nothing behind it. */
  lemma OperandMissing(d: nat, t: Tree, op: BinOp, env: Env)
    requires d < MAX_DEPTH && WellFormed(t)
    ensures FailsBehind(d, t, OperandExpected, Print(t, LevelOf(op)) + Word(BinSign(op)), env)
  {
    hide *;
    var n, tail := LevelOf(op), More(Bin(op), "");
    var text := Print(t, n) + Word(BinSign(op));
    OperatorTail(op);
    var p := Start(text, env);
    StartReady(t, n, text, env, tail, d);
    var x := Evaluate(d + 1, t, n, p, tail);
    CorrectIs(d + 1, t, n, p, tail, x);
    NotBlank(d + 1, p);
    StartIs(text, env);
    var e := if Meaning(d + 1, t, env).Err? then Meaning(d + 1, t, env).error
             else Fault(OperandExpected, Meaning(d + 1, t, env).value.env);
    if Meaning(d + 1, t, env).Ok? {
      NoOperand(d + 1, n, p, tail, x, Meaning(d + 1, t, env).value.env);
      BinaryFails(d + 1, op, p, "", x, Meaning(d + 1, t, env).value.env, e);
    }
    FailsLower(d + 1, n, 0, p, e);
    Failing(d, text, env, e);
    FailsBehindIs(d, t, OperandExpected, text, env);
  }

  lemma OperatorTail(op: BinOp)
    ensures var tail := More(Bin(op), "");
      && Fine(tail) && Allowed(Token1(tail), LevelOf(op)) && Token1(tail) == Bin(op)
      && Text(tail) == Word(BinSign(op)) && Rest1(tail) == "" && 5 <= LevelOf(op) <= 12
  {
    assert Word(BinSign(op)) + "" == Word(BinSign(op));
  }

  /** At the end of the text every level misses an operand. */
  lemma NoOperand(d: nat, n: nat, p: State, tail: Tail, x: Valued, env: Env)
    requires Gives(d, n, p, tail, x, env) && 5 <= n <= 12 && Rest1(tail) == ""
    ensures Fails(d, n + 1, x.st, Fault(OperandExpected, env))
  {
    hide Next, Run, RestOf, Step;
    NextEnd(d, x.st);
    var s := Next(d, x.st).value;
    PrimaryEnd(d, s);
    LowerError(d, 15, n + 1, s, Fault(OperandExpected, env));
    StepIs(d, n + 1, x.st);
  }

  lemma StepIs(d: nat, n: nat, p: State)
    requires d <= MAX_DEPTH && n <= 15
    ensures Step(d, n, p) == var s := Next(d, p); if s.Err? then Err(s.error) else Run(d, n, s.value)
  {
    hide Next, Run;
  }

  lemma PrimaryEnd(d: nat, s: State)
    requires d <= MAX_DEPTH && s.cur == End
    ensures Run(d, 15, s) == Err(Fault(OperandExpected, s.env)) && !IsUnary(s.cur)
  {
  }

  /** An assignment to a number. */
  lemma NumberAssigned(d: nat, num: string, tok: Token, rest: string, env: Env)
    requires d < MAX_DEPTH && Literal(num) && Apart(rest) && (tok == Eq || (tok.OpAssign? && Updating(tok.op)))
    ensures Subexpr(d, Word(num) + (Word(Sign(tok)) + rest), 0, env) == Err(Fault(NotVariable, env))
  {
    hide *;
    var tail := More(tok, rest);
    var text := Word(num) + (Word(Sign(tok)) + rest);
    var p := Start(text, env);
    StartIs(text, env);
    AssignTail(tok, rest);
    NextLiteral(d + 1, p, num, Text(tail));
    var s := Next(d + 1, p).value;
    PassedIs(d + 1, s, s.val);
    NextTail(d + 1, s, tail);
    PrimaryNumber(d + 1, s);
    var x := Valued(s.val, Behind(s, tail));
    BehindNumber(s, tail);
    AtOperand(d + 1, s, x);
    NotUnary(Num);
    AllowedTwo(tok, x.st.cur);
    Lower(d + 1, 15, 2, s, x);
    RestStops(d + 1, 2, x);
    AssignFails(d + 1, s, x);
    StepIs(d + 1, 1, p);
    AtStep(d + 1, 1, p, Fault(NotVariable, env));
    FailsLower(d + 1, 1, 0, p, Fault(NotVariable, env));
    NumberBlank(num, Word(Sign(tok)) + rest);
    Failing(d, text, env, Fault(NotVariable, env));
  }

  lemma AtStep(d: nat, n: nat, p: State, e: Fault)
    requires d <= MAX_DEPTH && n <= 15 && Step(d, n, p) == Err(e)
    ensures Fails(d, n, p, e)
  {
    hide Step;
  }

  lemma AssignTail(tok: Token, rest: string)
    requires Apart(rest) && (tok == Eq || (tok.OpAssign? && Updating(tok.op)))
    ensures Fine(More(tok, rest)) && Text(More(tok, rest)) == Word(Sign(tok)) + rest && Apart(Text(More(tok, rest)))
  {
    hide Sign;
  }

  lemma BehindNumber(s: State, tail: Tail)
    requires s.cur == Num
    ensures Behind(s, tail).cur == Token1(tail) && Behind(s, tail).last == Num && Behind(s, tail).env == s.env
    ensures tail.More? ==> Token1(tail) == tail.tok
  {
  }

  lemma AllowedTwo(tok: Token, cur: Token)
    requires (tok == Eq || tok.OpAssign?) && cur == tok
    ensures Allowed(cur, 2) && FollowLevel(cur) < 2
  {
  }

  lemma AssignFails(d: nat, s: State, x: Valued)
    requires d <= MAX_DEPTH && Run(d, 2, s) == Ok(x) && (x.st.cur == Eq || x.st.cur.OpAssign?) && x.st.last != Str
    ensures Run(d, 1, s) == Err(Fault(NotVariable, x.st.env))
  {
    hide Next, Conditional, Stored;
    AssignIs(d, s);
  }

  lemma NumberBlank(num: string, u: string)
    requires Literal(num)
    ensures SkipBlanks(Word(num) + u) != ""
  {
    assert (Word(num) + u)[1..] == num + u;
    assert (num + u)[0] == num[0];
    hide LiteralValue;
  }

  /** A conditional that ends behind its first branch, without a colon. */
  lemma ColonMissing(d: nat, c: Tree, t: Tree, env: Env)
    requires d < MAX_DEPTH && WellFormed(c) && WellFormed(t)
    ensures var text := Print(c, 3) + (Word("?") + Print(t, 0));
      var m := Meaning(d + 1, c, env);
      if m.Err? then Subexpr(d, text, 0, env) == Err(m.error)
      else if m.value.value == 0 then Subexpr(d, text, 0, env) == Err(Fault(ColonExpected, m.value.env))
      else FailsBetween(d, t, m.value.env, text, env)
  {
    hide *;
    var tail := More(Ques, Print(t, 0));
    var text := Print(c, 3) + (Word("?") + Print(t, 0));
    PrintedApart(t);
    QuesTail(Print(t, 0));
    var p := Start(text, env);
    StartReady(c, 3, text, env, tail, d);
    var x := Evaluate(d + 1, c, 3, p, tail);
    CorrectIs(d + 1, c, 3, p, tail, x);
    NotBlank(d + 1, p);
    StartIs(text, env);
    if Meaning(d + 1, c, env).Err? {
      FailsLower(d + 1, 3, 0, p, Meaning(d + 1, c, env).error);
      Failing(d, text, env, Meaning(d + 1, c, env).error);
    } else {
      var m := Meaning(d + 1, c, env).value;
      Tested(d + 1, p, Print(t, 0), x, m.env);
      var q := Muted(x.st, x.value == 0);
      ThenReady(d + 1, t, x, q, m.value == 0);
      var y := Evaluate(d + 1, t, 0, q, Nothing);
      CorrectIs(d + 1, t, 0, q, Nothing, y);
      ThenIs(d + 1, x);
      IfThenIs(d + 1, p, x);
      var e := if Expect(d + 1, t, q).Err? then Expect(d + 1, t, q).error
               else Fault(ColonExpected, Expect(d + 1, t, q).value.env);
      if Expect(d + 1, t, q).Ok? {
        EndsAtEnd(d + 1, q, y, Expect(d + 1, t, q).value.env);
      } else {
        FailsMeans(d + 1, 0, q, e);
      }
      AtStep(d + 1, 2, p, e);
      FailsLower(d + 1, 2, 0, p, e);
      Failing(d, text, env, e);
      ExpectAt(d + 1, t, q);
      FailsBetweenIs(d, t, m.env, text, env);
    }
  }

  /** The same as FailsBehind where t is evaluated among variables `between`. */
  ghost predicate FailsBetween(d: nat, t: Tree, between: Env, text: string, env: Env)
    requires d < MAX_DEPTH && WellFormed(t)
  {
    var m := Meaning(d + 1, t, between);
    Subexpr(d, text, 0, env) == if m.Err? then Err(m.error) else Err(Fault(ColonExpected, m.value.env))
  }

  lemma FailsBetweenIs(d: nat, t: Tree, between: Env, text: string, env: Env)
    requires d < MAX_DEPTH && WellFormed(t)
    ensures FailsBetween(d, t, between, text, env) <==>
      Subexpr(d, text, 0, env) ==
        if Meaning(d + 1, t, between).Err? then Err(Meaning(d + 1, t, between).error)
        else Err(Fault(ColonExpected, Meaning(d + 1, t, between).value.env))
  {
    hide Subexpr, Meaning, WellFormed;
  }

  lemma ExpectAt(d: nat, t: Tree, q: State)
    requires d <= MAX_DEPTH && WellFormed(t)
    ensures Expect(d, t, q) == if q.noeval > 0 then Ok(Looked(0, q.env)) else Meaning(d, t, q.env)
  {
    hide Meaning, WellFormed;
  }

  lemma QuesTail(rest: string)
    requires Apart(rest)
    ensures var tail := More(Ques, rest);
      Fine(tail) && Allowed(Token1(tail), 3) && Token1(tail) == Ques && Text(tail) == Word("?") + rest
  {
  }

  lemma Tested(d: nat, p: State, rest: string, x: Valued, env: Env)
    requires Gives(d, 3, p, More(Ques, rest), x, env) && p.noeval == 0
    ensures Next(d, p).Ok? && Step(d, 3, p) == Ok(x)
    ensures x.st.cur == Ques && x.st.rest == rest && x.st.env == env && x.st.noeval == 0 && !Bumping(x.st.last)
  {
    hide Next, Step;
    RestStops(d, 3, x);
  }

  lemma ThenReady(d: nat, t: Tree, x: Valued, q: State, off: bool)
    requires d <= MAX_DEPTH && WellFormed(t) && q == Muted(x.st, off)
    requires x.st.cur == Ques && x.st.rest == Print(t, 0) && x.st.noeval == 0 && !Bumping(x.st.last)
    ensures Due(d, t, 0, q, Nothing) && q.env == x.st.env && q.noeval == if off then 1 else 0
  {
    hide Print, WellFormed;
    assert Print(t, 0) + "" == Print(t, 0);
  }

  /** A constant that cannot be read. */
  lemma ConstantRejected(d: nat, num: string, env: Env)
    requires d < MAX_DEPTH && num != "" && IsDigit(num[0]) && (forall k | 0 <= k < |num| :: LiteralChar(num[k]))
    requires LiteralValue(num).Err?
    ensures Subexpr(d, num, 0, env) == Err(Fault(LiteralValue(num).error, env))
  {
    WholeLiteral(num, "");
    assert num + "" == num && num[..|num|] == num;
    hide Commas, LiteralValue, LiteralLength, LiteralChar;
    assert SkipBlanks(num) == num;
    SubexprIs(d, num, env);
  }
}
