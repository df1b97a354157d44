/** Printer and evaluator agree: evaluating the printed form of a tree gives its meaning. */
module ExprMeaning {
  import opened Numbers
  import opened Wrappers
  import opened ExprErrors
  import opened ExprNumbers
  import opened ExprLiterals
  import opened ExprTokens
  import opened ExprSpec
  import opened ExprTree
  import opened ExprReading

  /** The text behind an operand: nothing, or an operator and what follows. */
  datatype Tail = Nothing | More(tok: Token, rest: string)

  /** The level of the grammar that takes an operator. */
  function FollowLevel(t: Token): int {
    match t
    case Bin(op) => LevelOf(op)
    case Power => 13
    case Land => 4
    case Lor => 3
    case Ques => 2
    case Eq | OpAssign(_) => 1
    case Comma => 0
    case Col | Rpar | End => -1
    case _ => 16
  }

  predicate Fine(tail: Tail) {
    tail.More? ==> Plain(tail.tok) && Apart(tail.rest)
  }

  function Text(tail: Tail): (u: string)
    ensures Apart(u)
  {
    if tail.Nothing? then "" else Word(Sign(tail.tok)) + tail.rest
  }

  function Token1(tail: Tail): Token {
    if tail.Nothing? then End else tail.tok
  }

  function Rest1(tail: Tail): string {
    if tail.Nothing? then "" else tail.rest
  }

  /** The levels that go on with further operators of their own. */
  predicate Looping(n: nat) {
    n == 0 || n == 3 || n == 4 || 5 <= n <= 12
  }

  /** A token that may stand behind an operand of level n. */
  predicate Allowed(t: Token, n: nat) {
    FollowLevel(t) < n || (FollowLevel(t) == n && Looping(n))
  }

  ghost function Run(d: nat, n: nat, s: State): Outcome<Valued>
    requires d <= MAX_DEPTH && n <= 15
  {
    if n == 0 then Commas(d, s)
    else if n == 1 then Assign(d, s)
    else if n == 2 then Conditional(d, s)
    else if n == 3 then Lors(d, s)
    else if n == 4 then Lands(d, s)
    else if n <= 13 then Level(d, n, s)
    else if n == 14 then Unaries(d, s)
    else Primary(d, s)
  }

  /** What a level does behind its first operand. */
  ghost function RestOf(d: nat, n: nat, x: Valued): Outcome<Valued>
    requires d <= MAX_DEPTH && n <= 15
  {
    if n == 0 then CommaRest(d, x)
    else if n == 3 then LorRest(d, x)
    else if n == 4 then LandRest(d, x)
    else if 5 <= n <= 12 then LevelRest(d, n, x)
    else Ok(x)
  }

  /** Reads a token and runs level n on it. */
  ghost function Step(d: nat, n: nat, p: State): Outcome<Valued>
    requires d <= MAX_DEPTH && n <= 15
  {
    var s := Next(d, p);
    if s.Err? then Err(s.error) else Run(d, n, s.value)
  }

  lemma RestStops(d: nat, n: nat, x: Valued)
    requires d <= MAX_DEPTH && n <= 15 && FollowLevel(x.st.cur) < n
    ensures RestOf(d, n, x) == Ok(x)
  {
  }

  /** A level hands an operand through to the next lower one if it has nothing to do with what follows. */
  lemma LowerOne(d: nat, m: nat, s: State, y: Valued)
    requires d <= MAX_DEPTH && 0 < m <= 15 && (m == 15 ==> !IsUnary(s.cur))
    requires Run(d, m, s) == RestOf(d, m, y) && FollowLevel(y.st.cur) < m && Allowed(y.st.cur, m - 1)
    ensures Run(d, m - 1, s) == RestOf(d, m - 1, y)
  {
    RestStops(d, m, y);
    hide Next, CommaRest, LorRest, LandRest, LevelRest, Level;
    if 6 <= m <= 13 {
      LevelIs(d, m - 1, s);
    }
    LevelIs(d, 13, s);
  }

  lemma LowerOneError(d: nat, m: nat, s: State, e: Fault)
    requires d <= MAX_DEPTH && 0 < m <= 15 && (m == 15 ==> !IsUnary(s.cur)) && Run(d, m, s) == Err(e)
    ensures Run(d, m - 1, s) == Err(e)
  {
    hide Next, Level;
    if 6 <= m <= 13 {
      LevelIs(d, m - 1, s);
    }
    LevelIs(d, 13, s);
  }

  lemma {:induction false} Lower(d: nat, m: nat, n: nat, s: State, y: Valued)
    requires d <= MAX_DEPTH && n <= m <= 15 && (n < m == 15 ==> !IsUnary(s.cur))
    requires Run(d, m, s) == RestOf(d, m, y) && Allowed(y.st.cur, n)
    ensures Run(d, n, s) == RestOf(d, n, y)
  {
    if n < m {
      hide Run, RestOf;
      LowerOne(d, m, s, y);
      Lower(d, m - 1, n, s, y);
    }
  }

  lemma {:induction false} LowerError(d: nat, m: nat, n: nat, s: State, e: Fault)
    requires d <= MAX_DEPTH && n <= m <= 15 && (n < m == 15 ==> !IsUnary(s.cur)) && Run(d, m, s) == Err(e)
    ensures Run(d, n, s) == Err(e)
  {
    if n < m {
      hide Run;
      LowerOneError(d, m, s, e);
      LowerError(d, m - 1, n, s, e);
    }
  }

  lemma OperatorsAre(d: nat, n: nat, x: Valued)
    requires d <= MAX_DEPTH && 5 <= n <= 12 && OfLevel(x.st.cur, n)
    ensures RestOf(d, n, x) == var y := LevelStep(d, n, x); if y.Err? then y else RestOf(d, n, y.value)
  {
    hide Next, Level;
    LevelRestIs(d, n, x);
  }

  lemma LevelStepIs(d: nat, n: nat, x: Valued)
    requires d <= MAX_DEPTH && 5 <= n <= 12 && x.st.cur.Bin?
    ensures LevelStep(d, n, x) ==
      var r := Step(d, n + 1, x.st);
      if r.Err? then r
      else
        var v := Combine(x.st.cur.op, x.value, r.value.value, r.value.st.noeval);
        if v.Err? then Err(Fault(v.error, r.value.st.env))
        else Ok(Valued(v.value, Settled(x.st.cur.op, x.value, r.value)))
  {
    hide Next, Level, Combine, Settled;
  }

  /** The state behind the token that follows. */
  ghost function Behind(s: State, tail: Tail): State {
    s.(rest := Rest1(tail), last := s.cur, cur := Token1(tail))
  }

  lemma NextTail(d: nat, s: State, tail: Tail)
    requires d <= MAX_DEPTH && Fine(tail) && s.rest == Text(tail)
    ensures Next(d, s) == Ok(Behind(s, tail))
  {
    hide Next;
    if tail.Nothing? {
      NextEnd(d, s);
    } else {
      NextPlain(d, s, tail.tok, tail.rest);
    }
  }

  predicate Bumping(t: Token) { t == PreInc || t == PreDec }

  /** A state in which an operand is due. */
  predicate Ready(p: State) {
    p.cur != Str && p.cur != Num && !Bumping(p.cur) && !Bumping(p.last)
  }

  predicate After(p: State, env: Env, tail: Tail, st: State) {
    && st.rest == Rest1(tail) && st.cur == Token1(tail) && st.env == env && st.noeval == p.noeval
    && !Bumping(st.last)
  }

  /** Level n, started at p, gets past an operand to x, with the variables in env. */
  ghost predicate Gives(d: nat, n: nat, p: State, tail: Tail, x: Valued, env: Env) {
    && d <= MAX_DEPTH && n <= 15
    && Next(d, p).Ok? && Step(d, n, p) == RestOf(d, n, x) && After(p, env, tail, x.st)
  }

  ghost predicate Fails(d: nat, n: nat, p: State, e: Fault) {
    d <= MAX_DEPTH && n <= 15 && Step(d, n, p) == Err(e)
  }

  /** What reading a tree at p should do: its meaning, or nothing while evaluation is off. */
  ghost function Expect(d: nat, t: Tree, p: State): Outcome<Looked>
    requires d <= MAX_DEPTH && WellFormed(t)
  {
    if p.noeval > 0 then Ok(Looked(0, p.env)) else Meaning(d, t, p.env)
  }

  /** Level n, started in front of the printed tree, yields the tree's value and environment, or its
      error; with evaluation off it just gets past the text. */
  ghost predicate Correct(d: nat, t: Tree, n: nat, p: State, tail: Tail, x: Valued) {
    && d <= MAX_DEPTH && WellFormed(t)
    && match Expect(d, t, p)
       case Err(e) => Fails(d, n, p, e)
       case Ok(m) => Gives(d, n, p, tail, x, m.env) && (p.noeval == 0 ==> x.value == m.value)
  }

  /** A printed tree is due to be read at level n. */
  ghost predicate Due(d: nat, t: Tree, n: nat, p: State, tail: Tail) {
    && d <= MAX_DEPTH && n <= 15 && WellFormed(t) && Ready(p) && Fine(tail)
    && Allowed(Token1(tail), n) && Token1(tail) != Eq
    && p.rest == Print(t, n) + Text(tail)
  }

  /** What an operand starts with. */
  ghost predicate Starts(d: nat, p: State) {
    d <= MAX_DEPTH && (Next(d, p).Ok? ==> Next(d, p).value.cur != End && Next(d, p).value.cur != Col)
  }

  ghost predicate StartsPlain(d: nat, p: State) {
    d <= MAX_DEPTH && (Next(d, p).Ok? ==> !IsUnary(Next(d, p).value.cur))
  }

  lemma LowerCorrect(d: nat, t: Tree, m: nat, n: nat, p: State, tail: Tail, x: Valued)
    requires d <= MAX_DEPTH && n <= m <= 15 && WellFormed(t) && Correct(d, t, m, p, tail, x)
    requires (n < m == 15 ==> StartsPlain(d, p)) && Allowed(Token1(tail), n)
    ensures Correct(d, t, n, p, tail, x)
  {
    hide Run, RestOf, Next, Meaning, Allowed;
    var s := Next(d, p);
    if s.Ok? {
      if Expect(d, t, p).Err? {
        LowerError(d, m, n, s.value, Expect(d, t, p).error);
      } else {
        Lower(d, m, n, s.value, x);
      }
    }
  }

  lemma CorrectIs(d: nat, t: Tree, n: nat, p: State, tail: Tail, x: Valued)
    requires d <= MAX_DEPTH && WellFormed(t)
    ensures Correct(d, t, n, p, tail, x) <==>
      var m := Expect(d, t, p);
      if m.Err? then Fails(d, n, p, m.error)
      else Gives(d, n, p, tail, x, m.value.env) && (p.noeval == 0 ==> x.value == m.value.value)
  {
    hide Expect, Fails, Gives, WellFormed;
  }

  lemma DueIs(d: nat, t: Tree, n: nat, p: State, tail: Tail)
    requires Due(d, t, n, p, tail)
    ensures d <= MAX_DEPTH && n <= 15 && WellFormed(t) && Ready(p) && Fine(tail)
    ensures Allowed(Token1(tail), n) && Token1(tail) != Eq && p.rest == Print(t, n) + Text(tail)
  {
    hide Print, Text, WellFormed, Ready, Fine, Allowed;
  }

  /** The operands of a tree are trees, and where it stands in the grammar. */
  lemma Operands(t: Tree)
    requires WellFormed(t)
    ensures t.Binary? || t.And? || t.Or? || t.Pow? || t.Both? ==> WellFormed(t.l) && WellFormed(t.r)
    ensures t.Unary? ==> IsUnary(t.sign) && WellFormed(t.e) && Plain(t.sign) && Prec(t) == 14
    ensures t.IfThen? ==> WellFormed(t.c) && WellFormed(t.t) && WellFormed(t.f) && Prec(t) == 2
    ensures t.Set? || t.Update? ==> Identifier(t.name) && WellFormed(t.e) && Prec(t) == 1
    ensures t.Update? ==> Plain(OpAssign(t.op)) && WellFormed(Var(t.name))
    ensures t.Binary? ==> Prec(t) == LevelOf(t.op)
    ensures t.And? ==> Prec(t) == 4
    ensures t.Or? ==> Prec(t) == 3
    ensures t.Pow? ==> Prec(t) == 13
    ensures t.Both? ==> Prec(t) == 0
  {
  }

  lemma Written(t: Tree)
    ensures t.Binary? ==> Body(t) == Print(t.l, LevelOf(t.op)) + (Word(Sign(Bin(t.op))) + Print(t.r, LevelOf(t.op) + 1))
    ensures t.And? ==> Body(t) == Print(t.l, 4) + (Word(Sign(Land)) + Print(t.r, 5))
    ensures t.Or? ==> Body(t) == Print(t.l, 3) + (Word(Sign(Lor)) + Print(t.r, 4))
    ensures t.Pow? ==> Body(t) == Print(t.l, 14) + (Word(Sign(Power)) + Print(t.r, 13))
    ensures t.Both? ==> Body(t) == Print(t.l, 0) + (Word(Sign(Comma)) + Print(t.r, 1))
    ensures t.Unary? ==> Body(t) == Word(Sign(t.sign)) + Print(t.e, 14)
    ensures t.Set? ==> Body(t) == Word(t.name) + (Word(Sign(Eq)) + Print(t.e, 1))
    ensures t.Update? ==> Body(t) == Word(t.name) + (Word(Sign(OpAssign(t.op))) + Print(t.e, 1))
  {
    hide Print, Word;
  }

  /** Operators between operands, and the levels they are taken by. */
  lemma Taken(op: BinOp)
    ensures Plain(Bin(op)) && Allowed(Bin(op), LevelOf(op)) && 5 <= LevelOf(op) <= 12
    ensures Plain(Land) && Allowed(Land, 4) && Plain(Lor) && Allowed(Lor, 3)
    ensures Plain(Power) && Allowed(Power, 14) && Plain(Comma) && Allowed(Comma, 0)
    ensures Plain(Ques) && Allowed(Ques, 3) && Plain(Col) && Allowed(Col, 0)
    ensures Plain(Lpar) && Sign(Lpar) == "(" && Plain(Rpar) && Allowed(Rpar, 0)
    ensures !Bumping(Bin(op)) && !Bumping(Land) && !Bumping(Lor) && !Bumping(Power) && !Bumping(Comma)
    ensures !Bumping(Ques) && !Bumping(Col) && !Bumping(Eq) && forall o :: !Bumping(OpAssign(o))
  {
  }

  /** What may stand behind an operator's right operand when it may stand behind the whole. */
  lemma Inner(t: Token, n: nat)
    requires Allowed(t, n) && n <= 15
    ensures FollowLevel(t) <= n && Allowed(t, n + 1)
    ensures n == 13 ==> Allowed(t, 13)
  {
  }

  lemma OperandGives(d: nat, p: State, tail: Tail, env: Env)
    requires d <= MAX_DEPTH && Next(d, p).Ok? && Primary(d, Next(d, p).value).Ok?
    requires After(p, env, tail, Primary(d, Next(d, p).value).value.st)
    ensures Gives(d, 15, p, tail, Primary(d, Next(d, p).value).value, env)
  {
    hide Next, Primary;
  }

  lemma OperandFails(d: nat, p: State, e: Fault)
    requires d <= MAX_DEPTH
    requires Next(d, p) == Err(e) || (Next(d, p).Ok? && Primary(d, Next(d, p).value) == Err(e))
    ensures Fails(d, 15, p, e)
  {
    hide Next, Primary;
  }

  /** What operands without operands mean. */
  lemma ExpectOperand(d: nat, p: State, num: string, name: string, pre: bool, up: bool)
    requires d <= MAX_DEPTH
    ensures Literal(num) ==>
      && WellFormed(Lit(num))
      && Expect(d, Lit(num), p) == Ok(Looked(if p.noeval > 0 then 0 else LiteralValue(num).value, p.env))
    ensures Identifier(name) ==> WellFormed(Var(name)) && Expect(d, Var(name), p) == Lookup(d, name, p.noeval, p.env)
    ensures Identifier(name) ==> WellFormed(Tree.Bump(pre, up, name))
    ensures Identifier(name) ==>
      var x := Lookup(d, name, p.noeval, p.env);
      var m := Expect(d, Tree.Bump(pre, up, name), p);
      if x.Err? then m == Err(x.error)
      else
        var v := Stepped(up, x.value.value);
        m.Ok? && m.value.env == Bind(x.value.env, p.noeval, name, v) &&
        (p.noeval == 0 ==> m.value.value == if pre then v else x.value.value)
  {
    hide LiteralValue, Literal, Identifier, Lookup, Wrap, Itos;
  }

  lemma PrimaryNumber(d: nat, s: State)
    requires d <= MAX_DEPTH && s.cur == Num
    ensures Primary(d, s) == Passed(d, s, s.val)
  {
    hide Next, Passed;
  }

  lemma BehindAfter(p: State, s: State, tail: Tail, env: Env)
    requires s.env == env && s.noeval == p.noeval && !Bumping(s.cur)
    ensures After(p, env, tail, Behind(s, tail)) && Behind(s, tail).last == s.cur && Behind(s, tail).name == s.name
    ensures s.cur == Num || s.cur == Str ==> !Bumping(s.cur)
  {
  }

  /** Numbers, names and `++` or `--` begin an operand, and are no signs. */
  lemma OperandStarts(d: nat, p: State)
    requires d <= MAX_DEPTH
    requires Next(d, p).Ok? ==>
      var cur := Next(d, p).value.cur; cur == Num || cur == Str || Bumping(cur)
    ensures Starts(d, p) && StartsPlain(d, p)
  {
    hide Next;
  }

  lemma NoBump()
    ensures !Bumping(Num) && !Bumping(Str) && Bumping(PreInc) && Bumping(PreDec)
  {
  }

  lemma LooksAhead(s: State, u: string)
    ensures Looking(s, u).rest == u && Looking(s, u).cur == Str
  {
  }

  lemma EvalLit(d: nat, num: string, p: State, tail: Tail) returns (x: Valued)
    requires d <= MAX_DEPTH && Literal(num) && Ready(p) && Fine(tail) && p.rest == Word(num) + Text(tail)
    ensures Correct(d, Lit(num), 15, p, tail, x) && Starts(d, p) && StartsPlain(d, p)
  {
    hide *;
    NoBump();
    ExpectOperand(d, p, num, "", true, true);
    NextLiteral(d, p, num, Text(tail));
    var s := Next(d, p).value;
    PassedIs(d, s, s.val);
    NextTail(d, s, tail);
    x := Valued(s.val, Behind(s, tail));
    PrimaryNumber(d, s);
    BehindAfter(p, s, tail, p.env);
    OperandGives(d, p, tail, p.env);
    CorrectIs(d, Lit(num), 15, p, tail, x);
    OperandStarts(d, p);
  }

  lemma PrimaryName(d: nat, s: State, tail: Tail)
    requires d <= MAX_DEPTH && s.cur == Str && Fine(tail) && s.rest == Text(tail)
    ensures Primary(d, s) == Ok(Valued(s.val, Behind(s, tail)))
  {
    hide Next, Passed;
    NextTail(d, s.(name := None, noeval := 1), tail);
    NextTail(d, s, tail);
    PassedIs(d, s, s.val);
  }

  /** Reading a name that is not assigned evaluates the variable. */
  lemma ReadVar(d: nat, name: string, p: State, tail: Tail)
    requires d <= MAX_DEPTH && Identifier(name) && Fine(tail) && p.rest == Word(name) + Text(tail) && Token1(tail) != Eq
    ensures var x := Lookup(d, name, p.noeval, p.env);
      var s1 := p.(rest := Text(tail), name := Some(name), last := p.cur, cur := Str);
      Next(d, p) == if x.Err? then Err(x.error) else Ok(s1.(val := x.value.value, env := x.value.env))
  {
    hide *;
    LooksAhead(p, Text(tail));
    NextTail(d, Looking(p, Text(tail)), tail);
    TokenBehind(Looking(p, Text(tail)), tail);
    NextName(d, p, name, Text(tail));
  }

  lemma TokenBehind(s: State, tail: Tail)
    ensures Behind(s, tail).cur == Token1(tail)
  {
  }

  lemma EvalVar(d: nat, name: string, p: State, tail: Tail) returns (x: Valued)
    requires d <= MAX_DEPTH && Identifier(name) && Ready(p) && Fine(tail) && p.rest == Word(name) + Text(tail)
    requires Token1(tail) != Eq
    ensures Correct(d, Var(name), 15, p, tail, x) && Starts(d, p) && StartsPlain(d, p)
    ensures Next(d, p).Ok? ==> x.st.last == Str && x.st.name == Some(name)
  {
    hide *;
    NoBump();
    ExpectOperand(d, p, "", name, true, true);
    x := Valued(p.val, p);
    ReadVar(d, name, p, tail);
    if Next(d, p).Ok? {
      var s := Next(d, p).value;
      PrimaryName(d, s, tail);
      BehindAfter(p, s, tail, s.env);
      x := Valued(s.val, Behind(s, tail));
      OperandGives(d, p, tail, s.env);
    } else {
      OperandFails(d, p, Next(d, p).error);
    }
    CorrectIs(d, Var(name), 15, p, tail, x);
    OperandStarts(d, p);
  }

  /** The end of `++` and `--`: bound, counted as a number, and past. */
  lemma BumpedTail(d: nat, s: State, up: bool, v: Intmax, tail: Tail)
    requires d <= MAX_DEPTH && s.cur != End && s.name.Some? && Fine(tail) && s.rest == Text(tail)
    ensures var v2 := Wrap(if up then v + 1 else v - 1);
      Bumped(d, s, up, v) ==
        Ok(Valued(v2, Behind(s.(cur := Num, env := Bind(s.env, s.noeval, s.name.value, v2)), tail)))
  {
    hide Next, Passed, Bumped;
    BumpedIs(d, s, up, v);
    var v2 := Wrap(if up then v + 1 else v - 1);
    var s2 := s.(cur := Num, env := Bind(s.env, s.noeval, s.name.value, v2));
    PassedIs(d, s2, v2);
    NextTail(d, s2, tail);
  }

  function Stepped(up: bool, v: Intmax): Intmax {
    Wrap(if up then v + 1 else v - 1)
  }

  /** What `++` or `--` leaves behind. */
  ghost predicate Bumps(s: State, v: Intmax, env: Env, tail: Tail, r: Outcome<Valued>) {
    && r.Ok? && r.value.value == v
    && r.value.st.rest == Rest1(tail) && r.value.st.cur == Token1(tail) && r.value.st.env == env
    && r.value.st.noeval == s.noeval && r.value.st.last == Num
  }

  lemma FineApart(tail: Tail)
    ensures Apart(Text(tail))
  {
  }

  lemma SteppedIs(up: bool, v: Intmax)
    ensures Stepped(up, v) == Wrap(if up then v + 1 else v - 1)
  {
  }

  lemma PrimaryPreIs(d: nat, s: State)
    requires d <= MAX_DEPTH && (s.cur == PreInc || s.cur == PreDec)
    ensures Primary(d, s) ==
      var s1 := Next(d, s.(last := s.cur));
      if s1.Err? then Err(s1.error)
      else if s1.value.cur != Str then Err(Fault(IdentifierExpected, s1.value.env))
      else Bumped(d, s1.value, s.cur == PreInc, s1.value.val)
  {
    hide Next, Bumped;
  }

  /** What is left when the variable read at s2 has been bound to v plus or minus one. */
  lemma BumpedLeaves(s: State, s2: State, up: bool, v: Intmax, value: Intmax, tail: Tail)
    requires s2.noeval == s.noeval && s2.name.Some?
    ensures var env := Bind(s2.env, s.noeval, s2.name.value, Stepped(up, v));
      var v2 := Wrap(if up then v + 1 else v - 1);
      var bound := Bind(s2.env, s2.noeval, s2.name.value, v2);
      Bumps(s, value, env, tail, Ok(Valued(value, Behind(s2.(cur := Num, env := bound), tail))))
  {
    hide Bind, Wrap;
  }

  lemma PrimaryPre(d: nat, s: State, up: bool, name: string, tail: Tail)
    requires d <= MAX_DEPTH && Identifier(name) && Fine(tail)
    requires s.cur == (if up then PreInc else PreDec) && s.rest == Word(name) + Text(tail)
    ensures var x := Lookup(d, name, s.noeval, s.env);
      if x.Err? then Primary(d, s) == Err(x.error)
      else
        var v := Stepped(up, x.value.value);
        Bumps(s, v, Bind(x.value.env, s.noeval, name, v), tail, Primary(d, s))
  {
    hide *;
    PrimaryPreIs(d, s);
    FineApart(tail);
    var s1 := s.(last := s.cur);
    var peek := Looking(s1, Text(tail));
    LooksAhead(s1, Text(tail));
    NextTail(d, peek, tail);
    NextName(d, s1, name, Text(tail));
    if Lookup(d, name, s.noeval, s.env).Ok? {
      var s2 := Next(d, s1).value;
      BumpedTail(d, s2, up, s2.val, tail);
      SteppedIs(up, s2.val);
      BumpedLeaves(s, s2, up, s2.val, Stepped(up, s2.val), tail);
    }
  }

  lemma PrimaryPost(d: nat, s: State, up: bool, tail: Tail)
    requires d <= MAX_DEPTH && Fine(tail) && s.cur == Str && s.name.Some?
    requires s.rest == Word(Twice(up)) + Text(tail)
    ensures Bumps(s, s.val, Bind(s.env, s.noeval, s.name.value, Stepped(up, s.val)), tail, Primary(d, s))
  {
    hide *;
    PrimaryNameIs(d, s);
    FineApart(tail);
    var s1 := s.(name := None, noeval := 1);
    NextPost(d, s1, up, Text(tail));
    var s2 := Next(d, s1).value.(name := s.name, noeval := s.noeval, last := Str);
    BumpedBehindIs(d, s2, up, s.val);
    BumpedTail(d, s2, up, s.val, tail);
    BumpedLeaves(s, s2, up, s.val, s.val, tail);
  }

  lemma ReadyIs(p: State)
    requires Ready(p)
    ensures p.cur != Str && p.cur != Num
  {
  }

  /** What `++` and `--` give is an operand. */
  lemma Bumped1(d: nat, p: State, s: State, tail: Tail, v: Intmax, env: Env) returns (x: Valued)
    requires d <= MAX_DEPTH && Next(d, p).Ok? && s.noeval == p.noeval
    requires Bumps(s, v, env, tail, Primary(d, Next(d, p).value))
    ensures Gives(d, 15, p, tail, x, env) && x.value == v
  {
    hide Next, Primary;
    x := Primary(d, Next(d, p).value).value;
  }

  lemma EvalPre(d: nat, up: bool, name: string, p: State, tail: Tail) returns (x: Valued)
    requires d <= MAX_DEPTH && Identifier(name) && Ready(p) && Fine(tail)
    requires p.rest == Word(Twice(up)) + (Word(name) + Text(tail))
    ensures Correct(d, Tree.Bump(true, up, name), 15, p, tail, x) && Starts(d, p) && StartsPlain(d, p)
  {
    hide *;
    NoBump();
    ReadyIs(p);
    ExpectOperand(d, p, "", name, true, up);
    NextPre(d, p, up, name, Text(tail));
    var s := Next(d, p).value;
    PrimaryPre(d, s, up, name, tail);
    if Lookup(d, name, p.noeval, p.env).Ok? {
      var y := Lookup(d, name, p.noeval, p.env).value;
      x := Bumped1(d, p, s, tail, Stepped(up, y.value), Bind(y.env, p.noeval, name, Stepped(up, y.value)));
    } else {
      x := Valued(p.val, p);
      OperandFails(d, p, Primary(d, s).error);
    }
    CorrectIs(d, Tree.Bump(true, up, name), 15, p, tail, x);
    OperandStarts(d, p);
  }

  /** Reading a name with `++` or `--` behind it, and then past both. */
  lemma ReadPost(d: nat, up: bool, name: string, p: State, tail: Tail)
    requires d <= MAX_DEPTH && Identifier(name) && Ready(p) && Fine(tail)
    requires p.rest == Word(name) + (Word(Twice(up)) + Text(tail))
    ensures var x := Lookup(d, name, p.noeval, p.env);
      if x.Err? then Next(d, p) == Err(x.error)
      else
        && Next(d, p).Ok? && Next(d, p).value.cur == Str
        && Bumps(p, x.value.value, Bind(x.value.env, p.noeval, name, Stepped(up, x.value.value)), tail,
                 Primary(d, Next(d, p).value))
  {
    hide Next, Primary, Lookup, Wrap, Bind, Twice, Text;
    var u := Word(Twice(up)) + Text(tail);
    NextPost(d, Looking(p, u), up, Text(tail));
    NextName(d, p, name, u);
    if Next(d, p).Ok? {
      PrimaryPost(d, Next(d, p).value, up, tail);
    }
  }

  lemma EvalPost(d: nat, up: bool, name: string, p: State, tail: Tail) returns (x: Valued)
    requires d <= MAX_DEPTH && Identifier(name) && Ready(p) && Fine(tail)
    requires p.rest == Word(name) + (Word(Twice(up)) + Text(tail))
    ensures Correct(d, Tree.Bump(false, up, name), 15, p, tail, x) && Starts(d, p) && StartsPlain(d, p)
  {
    hide *;
    NoBump();
    ExpectOperand(d, p, "", name, false, up);
    ReadPost(d, up, name, p, tail);
    if Lookup(d, name, p.noeval, p.env).Ok? {
      var y := Lookup(d, name, p.noeval, p.env).value;
      x := Bumped1(d, p, p, tail, y.value, Bind(y.env, p.noeval, name, Stepped(up, y.value)));
    } else {
      x := Valued(p.val, p);
      OperandFails(d, p, Next(d, p).error);
    }
    CorrectIs(d, Tree.Bump(false, up, name), 15, p, tail, x);
    OperandStarts(d, p);
  }

  lemma PrintApart(t: Tree, n: nat)
    ensures Print(t, n) != "" && Print(t, n)[0] == ' '
  {
    BodyApart(t);
  }

  lemma {:induction false} BodyApart(t: Tree)
    ensures Body(t) != "" && Body(t)[0] == ' '
  {
    match t
    case Binary(_, l, _) => BodyApart(l);
    case And(l, _) => BodyApart(l);
    case Or(l, _) => BodyApart(l);
    case Pow(l, _) => BodyApart(l);
    case IfThen(c, _, _) => BodyApart(c);
    case Both(l, _) => BodyApart(l);
    case _ =>
  }

  /** A binary operator behind its left operand x, given the right one y. */
  lemma BinaryGives(d: nat, op: BinOp, p: State, rest: string, tail: Tail, x: Valued, y: Valued, env1: Env, env2: Env)
    requires d <= MAX_DEPTH && Allowed(Token1(tail), LevelOf(op))
    requires Gives(d, LevelOf(op), p, More(Bin(op), rest), x, env1)
    requires Gives(d, LevelOf(op) + 1, x.st, tail, y, env2)
    ensures match Combine(op, x.value, y.value, p.noeval)
      case Err(e) => Fails(d, LevelOf(op), p, Fault(e, env2))
      case Ok(v) => Gives(d, LevelOf(op), p, tail, Valued(v, Settled(op, x.value, y)), env2)
  {
    hide Next, Step, Run, RestOf, LevelStep, Combine;
    OperatorsAre(d, LevelOf(op), x);
    LevelStepIs(d, LevelOf(op), x);
    RestStops(d, LevelOf(op) + 1, y);
  }

  lemma BinaryFails(d: nat, op: BinOp, p: State, rest: string, x: Valued, env1: Env, e: Fault)
    requires d <= MAX_DEPTH
    requires Gives(d, LevelOf(op), p, More(Bin(op), rest), x, env1)
    requires Fails(d, LevelOf(op) + 1, x.st, e)
    ensures Fails(d, LevelOf(op), p, e)
  {
    hide Next, Step, Run, RestOf, LevelStep, Combine;
    OperatorsAre(d, LevelOf(op), x);
    LevelStepIs(d, LevelOf(op), x);
  }

  lemma PrintBody(t: Tree, n: nat)
    requires n <= Prec(t)
    ensures Print(t, n) == Body(t)
  {
  }

  lemma Regrouped(a: string, b: string, c: string, u: string)
    ensures (a + (b + c)) + u == a + (b + (c + u))
    ensures (a + b) + u == a + (b + u)
  {
    assert (a + (b + c)) + u == a + (b + (c + u));
  }

  /** The left operand of an operator is due to be read... */
  lemma LeftDue(d: nat, l: Tree, n: nat, p: State, tok: Token, r: Tree, m: nat, tail: Tail)
    requires d <= MAX_DEPTH && n <= 15 && WellFormed(l) && Ready(p) && Plain(tok) && Allowed(tok, n) && tok != Eq
    requires p.rest == (Print(l, n) + (Word(Sign(tok)) + Print(r, m))) + Text(tail)
    ensures Due(d, l, n, p, More(tok, Print(r, m) + Text(tail)))
  {
    hide Print, Word, Sign;
    Regrouped(Print(l, n), Word(Sign(tok)), Print(r, m), Text(tail));
    PrintApart(r, m);
  }

  /** ... and behind it and the operator the right one. */
  lemma RightDue(d: nat, n: nat, p: State, tok: Token, r: Tree, m: nat, tail: Tail, x: Valued, env: Env)
    requires d <= MAX_DEPTH && m <= 15 && WellFormed(r) && Fine(tail) && Allowed(Token1(tail), m) && Token1(tail) != Eq
    requires Gives(d, n, p, More(tok, Print(r, m) + Text(tail)), x, env)
    requires tok != Str && tok != Num && !Bumping(tok)
    ensures Due(d, r, m, x.st, tail) && x.st.env == env && x.st.noeval == p.noeval
  {
    hide Next, Step, RestOf, Print, Text;
  }

  lemma ExpectBinary(d: nat, t: Tree, p: State, q: State)
    requires d <= MAX_DEPTH && WellFormed(t) && t.Binary? && q.noeval == p.noeval
    ensures Expect(d, t.l, p).Err? ==> Expect(d, t, p) == Expect(d, t.l, p)
    ensures Expect(d, t.l, p).Ok? && q.env == Expect(d, t.l, p).value.env ==>
      var r := Expect(d, t.r, q);
      if r.Err? then Expect(d, t, p) == r
      else if p.noeval > 0 then Expect(d, t, p) == Ok(Looked(0, r.value.env))
      else
        var v := Combine(t.op, Expect(d, t.l, p).value.value, r.value.value, 0);
        Expect(d, t, p) == if v.Err? then Err(Fault(v.error, r.value.env)) else Ok(Looked(v.value, r.value.env))
  {
    hide Combine;
  }

  lemma MutedIs(s: State, off: bool)
    ensures Muted(s, off).noeval == (if off then s.noeval + 1 else s.noeval)
    ensures Muted(s, off).env == s.env && Muted(s, off).rest == s.rest
  {
  }

  lemma EvalBinary(d: nat, t: Tree, p: State, tail: Tail) returns (z: Valued)
    requires t.Binary? && Due(d, t, Prec(t), p, tail)
    ensures Correct(d, t, Prec(t), p, tail, z) && Starts(d, p)
    decreases t, 0
  {
    hide *;
    DueIs(d, t, Prec(t), p, tail);
    Operands(t);
    Written(t);
    PrintBody(t, Prec(t));
    Taken(t.op);
    var n := LevelOf(t.op);
    var more := More(Bin(t.op), Print(t.r, n + 1) + Text(tail));
    LeftDue(d, t.l, n, p, Bin(t.op), t.r, n + 1, tail);
    z := Evaluate(d, t.l, n, p, more);
    CorrectIs(d, t.l, n, p, more, z);
    if Expect(d, t.l, p).Err? {
      ExpectBinary(d, t, p, p);
      CorrectIs(d, t, n, p, tail, z);
    } else {
      z := EvalRight(d, t, p, tail, z);
    }
  }

  lemma EvalRight(d: nat, t: Tree, p: State, tail: Tail, x: Valued) returns (z: Valued)
    requires t.Binary? && Due(d, t, Prec(t), p, tail) && Expect(d, t.l, p).Ok?
    requires Correct(d, t.l, Prec(t), p, More(Bin(t.op), Print(t.r, Prec(t) + 1) + Text(tail)), x)
    ensures Correct(d, t, Prec(t), p, tail, z)
    decreases t, 0, 0
  {
    hide *;
    DueIs(d, t, Prec(t), p, tail);
    Operands(t);
    Taken(t.op);
    var n := LevelOf(t.op);
    var rest := Print(t.r, n + 1) + Text(tail);
    CorrectIs(d, t.l, n, p, More(Bin(t.op), rest), x);
    Inner(Token1(tail), n);
    var env1 := Expect(d, t.l, p).value.env;
    RightDue(d, n, p, Bin(t.op), t.r, n + 1, tail, x, env1);
    var y := Evaluate(d, t.r, n + 1, x.st, tail);
    CorrectIs(d, t.r, n + 1, x.st, tail, y);
    z := y;
    ExpectBinary(d, t, p, x.st);
    if Expect(d, t.r, x.st).Ok? {
      BinaryGives(d, t.op, p, rest, tail, x, y, env1, Expect(d, t.r, x.st).value.env);
      var v := Combine(t.op, x.value, y.value, p.noeval);
      if v.Ok? {
        z := Valued(v.value, Settled(t.op, x.value, y));
      }
    } else {
      BinaryFails(d, t.op, p, rest, x, env1, Expect(d, t.r, x.st).error);
    }
    CorrectIs(d, t, n, p, tail, z);
  }

  // ---- && and || ----

  lemma AndIs(d: nat, x: Valued)
    requires d <= MAX_DEPTH && x.st.cur == Land
    ensures var r := Step(d, 5, Muted(x.st, x.value == 0));
      RestOf(d, 4, x) ==
        if r.Err? then r
        else RestOf(d, 4, Valued(Truth(x.value != 0 && r.value.value != 0),
                                 r.value.st.(noeval := x.st.noeval, last := Land)))
  {
    hide Next, Level, Truth;
    LandRestIs(d, x);
  }

  lemma OrIs(d: nat, x: Valued)
    requires d <= MAX_DEPTH && x.st.cur == Lor
    ensures var r := Step(d, 4, Muted(x.st, x.value != 0));
      RestOf(d, 3, x) ==
        if r.Err? then r
        else RestOf(d, 3, Valued(Truth(x.value != 0 || r.value.value != 0),
                                 r.value.st.(noeval := x.st.noeval, last := Lor)))
  {
    hide Next, Lands, Truth;
    LorRestIs(d, x);
  }

  /** The state in which an operand is read: evaluation goes off when off holds. */
  function Muted(s: State, off: bool): State {
    s.(noeval := if off then s.noeval + 1 else s.noeval)
  }

  lemma AndGives(d: nat, p: State, rest: string, tail: Tail, x: Valued, y: Valued, env1: Env, env2: Env)
    requires d <= MAX_DEPTH && Allowed(Token1(tail), 4) && Gives(d, 4, p, More(Land, rest), x, env1)
    requires Gives(d, 5, Muted(x.st, x.value == 0), tail, y, env2)
    ensures Gives(d, 4, p, tail,
      Valued(Truth(x.value != 0 && y.value != 0), y.st.(noeval := p.noeval, last := Land)), env2)
  {
    hide Next, Step, Run, RestOf, Truth;
    AndIs(d, x);
    RestStops(d, 5, y);
  }

  lemma OrGives(d: nat, p: State, rest: string, tail: Tail, x: Valued, y: Valued, env1: Env, env2: Env)
    requires d <= MAX_DEPTH && Allowed(Token1(tail), 3) && Gives(d, 3, p, More(Lor, rest), x, env1)
    requires Gives(d, 4, Muted(x.st, x.value != 0), tail, y, env2)
    ensures Gives(d, 3, p, tail,
      Valued(Truth(x.value != 0 || y.value != 0), y.st.(noeval := p.noeval, last := Lor)), env2)
  {
    hide Next, Step, Run, RestOf, Truth;
    OrIs(d, x);
    RestStops(d, 4, y);
  }

  lemma LogicFails(d: nat, p: State, rest: string, x: Valued, env1: Env, e: Fault)
    requires d <= MAX_DEPTH
    ensures Gives(d, 4, p, More(Land, rest), x, env1) && Fails(d, 5, Muted(x.st, x.value == 0), e) ==> Fails(d, 4, p, e)
    ensures Gives(d, 3, p, More(Lor, rest), x, env1) && Fails(d, 4, Muted(x.st, x.value != 0), e) ==> Fails(d, 3, p, e)
  {
    hide Next, Step, Run, RestOf, Truth;
    if x.st.cur == Land {
      AndIs(d, x);
    } else if x.st.cur == Lor {
      OrIs(d, x);
    }
  }

  lemma ExpectLogic(d: nat, t: Tree, p: State, q: State, v: Intmax)
    requires d <= MAX_DEPTH && WellFormed(t) && (t.And? || t.Or?)
    requires var off := t.And? == (v == 0); q.noeval == if off then p.noeval + 1 else p.noeval
    ensures Expect(d, t.l, p).Err? ==> Expect(d, t, p) == Expect(d, t.l, p)
    ensures Expect(d, t.l, p).Ok? && q.env == Expect(d, t.l, p).value.env ==>
      (p.noeval == 0 ==> v == Expect(d, t.l, p).value.value) ==>
      var r := Expect(d, t.r, q);
      if r.Err? then Expect(d, t, p) == r
      else if p.noeval > 0 then Expect(d, t, p) == Ok(Looked(0, r.value.env))
      else
        var both := if t.And? then v != 0 && r.value.value != 0 else v != 0 || r.value.value != 0;
        Expect(d, t, p) == Ok(Looked(Truth(both), r.value.env))
  {
  }

  /** Muting does not get in the way of the next operand. */
  lemma MutedDue(d: nat, t: Tree, n: nat, p: State, tail: Tail, off: bool)
    requires Due(d, t, n, p, tail)
    ensures Due(d, t, n, Muted(p, off), tail)
  {
    hide Print, Text;
  }

  lemma EvalAndRight(d: nat, t: Tree, p: State, tail: Tail, x: Valued) returns (z: Valued)
    requires t.And? && Due(d, t, 4, p, tail) && Expect(d, t.l, p).Ok?
    requires Correct(d, t.l, 4, p, More(Land, Print(t.r, 5) + Text(tail)), x)
    ensures Correct(d, t, 4, p, tail, z)
    decreases t, 0, 0
  {
    hide *;
    DueIs(d, t, 4, p, tail);
    Operands(t);
    Taken(Bor);
    Inner(Token1(tail), 4);
    var rest := Print(t.r, 5) + Text(tail);
    CorrectIs(d, t.l, 4, p, More(Land, rest), x);
    var env1 := Expect(d, t.l, p).value.env;
    RightDue(d, 4, p, Land, t.r, 5, tail, x, env1);
    MutedDue(d, t.r, 5, x.st, tail, x.value == 0);
    MutedIs(x.st, x.value == 0);
    var q := Muted(x.st, x.value == 0);
    var y := Evaluate(d, t.r, 5, q, tail);
    CorrectIs(d, t.r, 5, q, tail, y);
    ExpectLogic(d, t, p, q, x.value);
    z := y;
    if Expect(d, t.r, q).Ok? {
      AndGives(d, p, rest, tail, x, y, env1, Expect(d, t.r, q).value.env);
      z := Valued(Truth(x.value != 0 && y.value != 0), y.st.(noeval := p.noeval, last := Land));
      TruthOff(x.value, y.value, Expect(d, t.r, q).value.value);
    } else {
      LogicFails(d, p, rest, x, env1, Expect(d, t.r, q).error);
    }
    CorrectIs(d, t, 4, p, tail, z);
  }

  lemma EvalAnd(d: nat, t: Tree, p: State, tail: Tail) returns (z: Valued)
    requires t.And? && Due(d, t, Prec(t), p, tail)
    ensures Correct(d, t, Prec(t), p, tail, z) && Starts(d, p)
    decreases t, 0
  {
    hide *;
    DueIs(d, t, Prec(t), p, tail);
    Operands(t);
    Written(t);
    PrintBody(t, 4);
    Taken(Bor);
    Inner(Token1(tail), 4);
    var rest := Print(t.r, 5) + Text(tail);
    LeftDue(d, t.l, 4, p, Land, t.r, 5, tail);
    var x := Evaluate(d, t.l, 4, p, More(Land, rest));
    CorrectIs(d, t.l, 4, p, More(Land, rest), x);
    z := x;
    if Expect(d, t.l, p).Ok? {
      z := EvalAndRight(d, t, p, tail, x);
    } else {
      MutedIs(p, x.value == 0);
      ExpectLogic(d, t, p, Muted(p, x.value == 0), x.value);
      CorrectIs(d, t, 4, p, tail, z);
    }
  }

  /** With evaluation off for the right operand, its value does not matter. */
  lemma TruthOff(v: Intmax, a: Intmax, b: Intmax)
    ensures v == 0 ==> Truth(v != 0 && a != 0) == Truth(v != 0 && b != 0)
    ensures v != 0 ==> Truth(v != 0 || a != 0) == Truth(v != 0 || b != 0)
  {
  }

  lemma EvalOrRight(d: nat, t: Tree, p: State, tail: Tail, x: Valued) returns (z: Valued)
    requires t.Or? && Due(d, t, 3, p, tail) && Expect(d, t.l, p).Ok?
    requires Correct(d, t.l, 3, p, More(Lor, Print(t.r, 4) + Text(tail)), x)
    ensures Correct(d, t, 3, p, tail, z)
    decreases t, 0, 0
  {
    hide *;
    DueIs(d, t, 3, p, tail);
    Operands(t);
    Taken(Bor);
    Inner(Token1(tail), 3);
    var rest := Print(t.r, 4) + Text(tail);
    CorrectIs(d, t.l, 3, p, More(Lor, rest), x);
    var env1 := Expect(d, t.l, p).value.env;
    RightDue(d, 3, p, Lor, t.r, 4, tail, x, env1);
    MutedDue(d, t.r, 4, x.st, tail, x.value != 0);
    MutedIs(x.st, x.value != 0);
    var q := Muted(x.st, x.value != 0);
    var y := Evaluate(d, t.r, 4, q, tail);
    CorrectIs(d, t.r, 4, q, tail, y);
    ExpectLogic(d, t, p, q, x.value);
    z := y;
    if Expect(d, t.r, q).Ok? {
      OrGives(d, p, rest, tail, x, y, env1, Expect(d, t.r, q).value.env);
      z := Valued(Truth(x.value != 0 || y.value != 0), y.st.(noeval := p.noeval, last := Lor));
      TruthOff(x.value, y.value, Expect(d, t.r, q).value.value);
    } else {
      LogicFails(d, p, rest, x, env1, Expect(d, t.r, q).error);
    }
    CorrectIs(d, t, 3, p, tail, z);
  }

  lemma EvalOr(d: nat, t: Tree, p: State, tail: Tail) returns (z: Valued)
    requires t.Or? && Due(d, t, Prec(t), p, tail)
    ensures Correct(d, t, Prec(t), p, tail, z) && Starts(d, p)
    decreases t, 0
  {
    hide *;
    DueIs(d, t, Prec(t), p, tail);
    Operands(t);
    Written(t);
    PrintBody(t, 3);
    Taken(Bor);
    Inner(Token1(tail), 3);
    var rest := Print(t.r, 4) + Text(tail);
    LeftDue(d, t.l, 3, p, Lor, t.r, 4, tail);
    var x := Evaluate(d, t.l, 3, p, More(Lor, rest));
    CorrectIs(d, t.l, 3, p, More(Lor, rest), x);
    z := x;
    if Expect(d, t.l, p).Ok? {
      z := EvalOrRight(d, t, p, tail, x);
    } else {
      MutedIs(p, x.value != 0);
      ExpectLogic(d, t, p, Muted(p, x.value != 0), x.value);
      CorrectIs(d, t, 3, p, tail, z);
    }
  }

  // ---- comma ----

  lemma BothIs(d: nat, x: Valued)
    requires d <= MAX_DEPTH && x.st.cur == Comma
    ensures RestOf(d, 0, x) == var r := Step(d, 1, x.st); if r.Err? then r else RestOf(d, 0, r.value)
  {
    hide Next, Assign;
    CommaRestIs(d, x);
  }

  lemma BothGives(d: nat, p: State, rest: string, tail: Tail, x: Valued, y: Valued, env1: Env, env2: Env)
    requires d <= MAX_DEPTH && Gives(d, 0, p, More(Comma, rest), x, env1) && Gives(d, 1, x.st, tail, y, env2)
    ensures Gives(d, 0, p, tail, y, env2)
  {
    hide Next, Step, Run;
    BothIs(d, x);
  }

  lemma BothFails(d: nat, p: State, rest: string, x: Valued, env1: Env, e: Fault)
    requires d <= MAX_DEPTH && Gives(d, 0, p, More(Comma, rest), x, env1) && Fails(d, 1, x.st, e)
    ensures Fails(d, 0, p, e)
  {
    hide Next, Step, Run;
    BothIs(d, x);
  }

  lemma ExpectBoth(d: nat, t: Tree, p: State, q: State)
    requires d <= MAX_DEPTH && WellFormed(t) && t.Both? && q.noeval == p.noeval
    ensures Expect(d, t.l, p).Err? ==> Expect(d, t, p) == Expect(d, t.l, p)
    ensures Expect(d, t.l, p).Ok? && q.env == Expect(d, t.l, p).value.env ==> Expect(d, t, p) == Expect(d, t.r, q)
  {
  }

  lemma EvalBoth(d: nat, t: Tree, p: State, tail: Tail) returns (z: Valued)
    requires t.Both? && Due(d, t, Prec(t), p, tail)
    ensures Correct(d, t, Prec(t), p, tail, z) && Starts(d, p)
    decreases t, 0
  {
    hide *;
    DueIs(d, t, Prec(t), p, tail);
    Operands(t);
    Written(t);
    PrintBody(t, 0);
    Taken(Bor);
    Inner(Token1(tail), 0);
    var rest := Print(t.r, 1) + Text(tail);
    LeftDue(d, t.l, 0, p, Comma, t.r, 1, tail);
    var x := Evaluate(d, t.l, 0, p, More(Comma, rest));
    CorrectIs(d, t.l, 0, p, More(Comma, rest), x);
    z := x;
    ExpectBoth(d, t, p, p);
    if Expect(d, t.l, p).Ok? {
      var env1 := Expect(d, t.l, p).value.env;
      RightDue(d, 0, p, Comma, t.r, 1, tail, x, env1);
      z := Evaluate(d, t.r, 1, x.st, tail);
      CorrectIs(d, t.r, 1, x.st, tail, z);
      ExpectBoth(d, t, p, x.st);
      if Expect(d, t.r, x.st).Ok? {
        BothGives(d, p, rest, tail, x, z, env1, Expect(d, t.r, x.st).value.env);
      } else {
        BothFails(d, p, rest, x, env1, Expect(d, t.r, x.st).error);
      }
    }
    CorrectIs(d, t, 0, p, tail, z);
  }

  // ---- ** ----

  /** A value to the power of the operand r. */
  ghost function Raised(v: Intmax, r: Valued): Outcome<Valued> {
    var s2 := r.st.(last := Num);
    if s2.noeval > 0 then Ok(Valued(1, s2))
    else if r.value < 0 then Err(Fault(NegativeExponent, s2.env))
    else Ok(Valued(Wrap(ExprNumbers.Power(v, r.value)), s2))
  }

  lemma PowIs(d: nat, p: State, x: Valued)
    requires d <= MAX_DEPTH && Next(d, p).Ok? && Step(d, 14, p) == Ok(x) && x.st.cur == Power
    ensures Step(d, 13, p) ==
      var r := Step(d, 13, x.st); if r.Err? then r else Raised(x.value, r.value)
  {
    hide Next, Unaries, Powers, PowerStep, Level, Wrap, ExprNumbers.Power;
    LevelIs(d, 13, Next(d, p).value);
    PowersIs(d, Next(d, p).value);
    PowerStepIs(d, x);
    if Next(d, x.st).Ok? {
      LevelIs(d, 13, Next(d, x.st).value);
    }
  }

  lemma PowGives(d: nat, p: State, rest: string, tail: Tail, x: Valued, y: Valued, env1: Env, env2: Env)
    requires d <= MAX_DEPTH && Gives(d, 14, p, More(Power, rest), x, env1) && Gives(d, 13, x.st, tail, y, env2)
    ensures match Raised(x.value, y)
      case Err(e) => Fails(d, 13, p, e)
      case Ok(z) => Gives(d, 13, p, tail, z, env2)
  {
    hide Next, Step, Run, Wrap, ExprNumbers.Power;
    PowIs(d, p, x);
  }

  lemma PowFails(d: nat, p: State, rest: string, x: Valued, env1: Env, e: Fault)
    requires d <= MAX_DEPTH && Gives(d, 14, p, More(Power, rest), x, env1) && Fails(d, 13, x.st, e)
    ensures Fails(d, 13, p, e)
  {
    hide Next, Step, Run, Raised;
    PowIs(d, p, x);
  }

  lemma PowLeftFails(d: nat, p: State, e: Fault)
    requires Fails(d, 14, p, e)
    ensures Fails(d, 13, p, e)
  {
    hide Next, Unaries;
    if Next(d, p).Ok? {
      LevelIs(d, 13, Next(d, p).value);
    }
  }

  lemma ExpectPow(d: nat, t: Tree, p: State, q: State)
    requires d <= MAX_DEPTH && WellFormed(t) && t.Pow? && q.noeval == p.noeval
    ensures Expect(d, t.l, p).Err? ==> Expect(d, t, p) == Expect(d, t.l, p)
    ensures Expect(d, t.l, p).Ok? && q.env == Expect(d, t.l, p).value.env ==>
      var r := Expect(d, t.r, q);
      if r.Err? then Expect(d, t, p) == r
      else if p.noeval > 0 then Expect(d, t, p) == Ok(Looked(0, r.value.env))
      else if r.value.value < 0 then Expect(d, t, p) == Err(Fault(NegativeExponent, r.value.env))
      else
        Expect(d, t, p) ==
          Ok(Looked(Wrap(ExprNumbers.Power(Expect(d, t.l, p).value.value, r.value.value)), r.value.env))
  {
    hide Wrap, ExprNumbers.Power;
  }

  lemma RaisedIs(v: Intmax, r: Valued)
    ensures r.st.noeval > 0 ==> Raised(v, r).Ok?
    ensures r.st.noeval == 0 ==> (Raised(v, r).Err? <==> r.value < 0)
    ensures Raised(v, r).Err? ==> Raised(v, r).error == Fault(NegativeExponent, r.st.env)
    ensures r.st.noeval == 0 && r.value >= 0 ==> Raised(v, r).value.value == Wrap(ExprNumbers.Power(v, r.value))
  {
    hide Wrap, ExprNumbers.Power;
  }

  lemma EvalPowRight(d: nat, t: Tree, p: State, tail: Tail, x: Valued) returns (z: Valued)
    requires t.Pow? && Due(d, t, 13, p, tail) && Expect(d, t.l, p).Ok?
    requires Correct(d, t.l, 14, p, More(Power, Print(t.r, 13) + Text(tail)), x)
    ensures Correct(d, t, 13, p, tail, z)
    decreases t, 0, 0
  {
    hide *;
    DueIs(d, t, 13, p, tail);
    Operands(t);
    Taken(Bor);
    var rest := Print(t.r, 13) + Text(tail);
    CorrectIs(d, t.l, 14, p, More(Power, rest), x);
    var env1 := Expect(d, t.l, p).value.env;
    RightDue(d, 14, p, Power, t.r, 13, tail, x, env1);
    var y := Evaluate(d, t.r, 13, x.st, tail);
    CorrectIs(d, t.r, 13, x.st, tail, y);
    z := y;
    ExpectPow(d, t, p, x.st);
    if Expect(d, t.r, x.st).Ok? {
      var env2 := Expect(d, t.r, x.st).value.env;
      PowGives(d, p, rest, tail, x, y, env1, env2);
      GivesKeeps(d, 13, x.st, tail, y, env2);
      RaisedIs(x.value, y);
      if Raised(x.value, y).Ok? {
        z := Raised(x.value, y).value;
      }
    } else {
      PowFails(d, p, rest, x, env1, Expect(d, t.r, x.st).error);
    }
    CorrectIs(d, t, 13, p, tail, z);
  }

  lemma EvalPow(d: nat, t: Tree, p: State, tail: Tail) returns (z: Valued)
    requires t.Pow? && Due(d, t, Prec(t), p, tail)
    ensures Correct(d, t, Prec(t), p, tail, z) && Starts(d, p)
    decreases t, 0
  {
    hide *;
    DueIs(d, t, Prec(t), p, tail);
    Operands(t);
    Written(t);
    PrintBody(t, 13);
    Taken(Bor);
    var rest := Print(t.r, 13) + Text(tail);
    LeftDue(d, t.l, 14, p, Power, t.r, 13, tail);
    var x := Evaluate(d, t.l, 14, p, More(Power, rest));
    CorrectIs(d, t.l, 14, p, More(Power, rest), x);
    z := x;
    ExpectPow(d, t, p, p);
    if Expect(d, t.l, p).Err? {
      PowLeftFails(d, p, Expect(d, t.l, p).error);
      CorrectIs(d, t, 13, p, tail, z);
    } else {
      z := EvalPowRight(d, t, p, tail, x);
    }
  }

  lemma GivesKeeps(d: nat, n: nat, p: State, tail: Tail, x: Valued, env: Env)
    requires Gives(d, n, p, tail, x, env)
    ensures x.st.noeval == p.noeval && x.st.env == env
  {
    hide Next, Step;
  }

  // ---- unary operators ----

  lemma UnaryGives(d: nat, p: State, sign: Token, rest: string, tail: Tail, y: Valued, env: Env)
    requires d <= MAX_DEPTH && IsUnary(sign)
    requires Next(d, p) == Ok(p.(rest := rest, last := p.cur, cur := sign))
    requires Gives(d, 14, Next(d, p).value, tail, y, env)
    ensures Gives(d, 14, p, tail, Valued(UnaryValue(sign, y.value), y.st.(last := Num)), env)
  {
    hide Next, Primary, UnaryValue;
  }

  lemma UnaryFails(d: nat, p: State, sign: Token, rest: string, e: Fault)
    requires d <= MAX_DEPTH && IsUnary(sign)
    requires Next(d, p) == Ok(p.(rest := rest, last := p.cur, cur := sign))
    requires Fails(d, 14, Next(d, p).value, e)
    ensures Fails(d, 14, p, e)
  {
    hide Next, Primary, UnaryValue;
  }

  lemma ExpectUnary(d: nat, t: Tree, p: State, q: State)
    requires d <= MAX_DEPTH && WellFormed(t) && t.Unary? && q.noeval == p.noeval && q.env == p.env
    ensures var r := Expect(d, t.e, q);
      if r.Err? then Expect(d, t, p) == r
      else if p.noeval > 0 then Expect(d, t, p) == Ok(Looked(0, r.value.env))
      else Expect(d, t, p) == Ok(Looked(UnaryValue(t.sign, r.value.value), r.value.env))
  {
    hide UnaryValue;
  }

  lemma SignApart(t: Tree, n: nat, tail: Tail)
    ensures Apart(Print(t, n) + Text(tail))
  {
    hide Print, Text;
    PrintApart(t, n);
  }

  /** The operand of a sign is due behind it. */
  lemma UnaryDue(d: nat, t: Tree, p: State, q: State, tail: Tail)
    requires t.Unary? && WellFormed(t) && Due(d, t, 14, p, tail)
    requires q == p.(rest := Print(t.e, 14) + Text(tail), last := p.cur, cur := t.sign)
    ensures Due(d, t.e, 14, q, tail)
  {
    hide Print, Text;
  }

  lemma SignStarts(d: nat, p: State, sign: Token)
    requires d <= MAX_DEPTH && IsUnary(sign) && Next(d, p).Ok? && Next(d, p).value.cur == sign
    ensures Starts(d, p)
  {
    hide Next;
  }

  lemma EvalUnary(d: nat, t: Tree, p: State, tail: Tail) returns (z: Valued)
    requires t.Unary? && Due(d, t, Prec(t), p, tail)
    ensures Correct(d, t, Prec(t), p, tail, z) && Starts(d, p)
    decreases t, 0
  {
    hide *;
    DueIs(d, t, Prec(t), p, tail);
    Operands(t);
    Written(t);
    PrintBody(t, 14);
    var rest := Print(t.e, 14) + Text(tail);
    Regrouped(Word(Sign(t.sign)), Print(t.e, 14), "", Text(tail));
    PrintApart(t.e, 14);
    SignApart(t.e, 14, tail);
    NextPlain(d, p, t.sign, rest);
    var q := Next(d, p).value;
    UnaryDue(d, t, p, q, tail);
    z := Evaluate(d, t.e, 14, q, tail);
    CorrectIs(d, t.e, 14, q, tail, z);
    ExpectUnary(d, t, p, q);
    if Expect(d, t.e, q).Ok? {
      UnaryGives(d, p, t.sign, rest, tail, z, Expect(d, t.e, q).value.env);
      z := Valued(UnaryValue(t.sign, z.value), z.st.(last := Num));
    } else {
      UnaryFails(d, p, t.sign, rest, Expect(d, t.e, q).error);
    }
    CorrectIs(d, t, 14, p, tail, z);
    SignStarts(d, p, t.sign);
  }

  // ---- ?: ----

  lemma IfThenIs(d: nat, p: State, x: Valued)
    requires d <= MAX_DEPTH && Next(d, p).Ok? && Step(d, 3, p) == Ok(x) && x.st.cur == Ques
    ensures Step(d, 2, p) == var y := ThenPart(d, x); if y.Err? then y else ElsePart(d, x.value, y.value)
  {
    hide Next, Lors, ThenPart, ElsePart;
  }

  lemma ThenIs(d: nat, x: Valued)
    requires d <= MAX_DEPTH && x.st.cur == Ques && Starts(d, Muted(x.st, x.value == 0))
    ensures ThenPart(d, x) ==
      var r := Step(d, 0, Muted(x.st, x.value == 0));
      if r.Err? then r
      else if r.value.st.cur != Col then Err(Fault(ColonExpected, r.value.st.env))
      else Ok(Valued(r.value.value, r.value.st.(noeval := x.st.noeval)))
  {
    hide Next, Commas;
  }

  lemma ElseIs(d: nat, test: Intmax, x: Valued)
    requires d <= MAX_DEPTH && x.st.cur == Col && Starts(d, Muted(x.st, test != 0))
    ensures ElsePart(d, test, x) ==
      var r := Step(d, 2, Muted(x.st, test != 0));
      if r.Err? then r
      else Ok(Valued(if test != 0 then x.value else r.value.value,
                     r.value.st.(noeval := x.st.noeval, last := CondEnd)))
  {
    hide Next, Conditional;
  }

  /** The state behind the middle operand y of a conditional whose test was read at p. */
  function Resumed(y: Valued, p: State): Valued {
    Valued(y.value, y.st.(noeval := p.noeval))
  }

  lemma ThenGives(d: nat, p: State, restT: string, restF: string, x: Valued, y: Valued, env1: Env, env2: Env)
    requires d <= MAX_DEPTH && Gives(d, 3, p, More(Ques, restT), x, env1) && Starts(d, Muted(x.st, x.value == 0))
    requires Gives(d, 0, Muted(x.st, x.value == 0), More(Col, restF), y, env2)
    ensures Step(d, 2, p) == ElsePart(d, x.value, Resumed(y, p))
  {
    hide Next, Step, Run, RestOf, ThenPart, ElsePart, Starts;
    RestStops(d, 3, x);
    RestStops(d, 0, y);
    IfThenIs(d, p, x);
    ThenIs(d, x);
  }

  lemma ThenFails(d: nat, p: State, restT: string, x: Valued, env1: Env, e: Fault)
    requires d <= MAX_DEPTH && Gives(d, 3, p, More(Ques, restT), x, env1) && Starts(d, Muted(x.st, x.value == 0))
    requires Fails(d, 0, Muted(x.st, x.value == 0), e)
    ensures Fails(d, 2, p, e)
  {
    hide Next, Step, Run, RestOf, ThenPart, ElsePart, Starts;
    RestStops(d, 3, x);
    IfThenIs(d, p, x);
    ThenIs(d, x);
  }

  lemma TestFails(d: nat, p: State, e: Fault)
    requires Fails(d, 3, p, e)
    ensures Fails(d, 2, p, e)
  {
    hide Next, Lors;
  }

  lemma ElseGives(d: nat, p: State, test: Intmax, y: Valued, restF: string, tail: Tail, z: Valued, q1: State,
      env2: Env, env3: Env)
    requires d <= MAX_DEPTH && Next(d, p).Ok? && Gives(d, 0, q1, More(Col, restF), y, env2)
    requires Step(d, 2, p) == ElsePart(d, test, Resumed(y, p))
    requires Starts(d, Muted(Resumed(y, p).st, test != 0))
    requires Gives(d, 2, Muted(Resumed(y, p).st, test != 0), tail, z, env3)
    ensures Gives(d, 2, p, tail,
      Valued(if test != 0 then y.value else z.value, z.st.(noeval := p.noeval, last := CondEnd)), env3)
  {
    hide Next, Step, Run, ElsePart, Starts;
    ElseIs(d, test, Resumed(y, p));
  }

  lemma ElseFails(d: nat, p: State, test: Intmax, y: Valued, restF: string, q1: State, env2: Env, e: Fault)
    requires d <= MAX_DEPTH && Gives(d, 0, q1, More(Col, restF), y, env2)
    requires Step(d, 2, p) == ElsePart(d, test, Resumed(y, p))
    requires Starts(d, Muted(Resumed(y, p).st, test != 0))
    requires Fails(d, 2, Muted(Resumed(y, p).st, test != 0), e)
    ensures Fails(d, 2, p, e)
  {
    hide Next, Step, Run, ElsePart, Starts;
    ElseIs(d, test, Resumed(y, p));
  }

  /** The test has been read at p with value v, and q behind it. */
  ghost predicate Tested(d: nat, c: Tree, p: State, v: Intmax, q: State)
    requires d <= MAX_DEPTH && WellFormed(c)
  {
    Expect(d, c, p).Ok? && q.env == Expect(d, c, p).value.env && (p.noeval == 0 ==> v == Expect(d, c, p).value.value)
  }

  lemma ExpectTest(d: nat, t: Tree, p: State)
    requires d <= MAX_DEPTH && WellFormed(t) && t.IfThen?
    ensures Expect(d, t.c, p).Err? ==> Expect(d, t, p) == Expect(d, t.c, p)
  {
  }

  /** The meaning of a conditional by its parts, read at p, at q1 with evaluation off if the test v is 0,
      and at q2 with it off otherwise. */
  lemma ExpectIfThen(d: nat, t: Tree, p: State, v: Intmax, q1: State, q2: State)
    requires d <= MAX_DEPTH && WellFormed(t) && t.IfThen?
    requires q1.noeval == (if v == 0 then p.noeval + 1 else p.noeval)
    requires q2.noeval == (if v != 0 then p.noeval + 1 else p.noeval)
    ensures Expect(d, t.c, p).Err? ==> Expect(d, t, p) == Expect(d, t.c, p)
    ensures (Tested(d, t.c, p, v, q1) ==>
      var a := Expect(d, t.t, q1);
      if a.Err? then Expect(d, t, p) == a
      else if q2.env != a.value.env then true
      else
        var b := Expect(d, t.f, q2);
        if b.Err? then Expect(d, t, p) == b
        else if p.noeval > 0 then Expect(d, t, p) == Ok(Looked(0, b.value.env))
        else Expect(d, t, p) == Ok(Looked(if v != 0 then a.value.value else b.value.value, b.value.env)))
  {
  }

  /** The three operands of a conditional in turn. */
  lemma IfThenText(d: nat, t: Tree, p: State, tail: Tail)
    requires t.IfThen? && Due(d, t, 2, p, tail)
    ensures var restF := Print(t.f, 2) + Text(tail);
      var restT := Print(t.t, 0) + Text(More(Col, restF));
      Due(d, t.c, 3, p, More(Ques, restT)) && Apart(restT) && Apart(restF)
  {
    hide Print;
    PrintBodyIf(t);
    PrintApart(t.t, 0);
    PrintApart(t.f, 2);
    var restF := Print(t.f, 2) + Text(tail);
    var restT := Print(t.t, 0) + Text(More(Col, restF));
    Regrouped(Print(t.c, 3), Word("?"), Print(t.t, 0) + (Word(":") + Print(t.f, 2)), Text(tail));
    Regrouped(Print(t.t, 0), Word(":"), Print(t.f, 2), Text(tail));
  }

  lemma PrintBodyIf(t: Tree)
    requires t.IfThen?
    ensures Print(t, 2) == Print(t.c, 3) + (Word("?") + (Print(t.t, 0) + (Word(":") + Print(t.f, 2))))
  {
  }

  lemma EvalIfThen(d: nat, t: Tree, p: State, tail: Tail) returns (z: Valued)
    requires t.IfThen? && Due(d, t, 2, p, tail)
    ensures Correct(d, t, 2, p, tail, z) && Starts(d, p)
    decreases t, 0
  {
    hide *;
    DueIs(d, t, 2, p, tail);
    Operands(t);
    IfThenText(d, t, p, tail);
    var restF := Print(t.f, 2) + Text(tail);
    var restT := Print(t.t, 0) + Text(More(Col, restF));
    z := Evaluate(d, t.c, 3, p, More(Ques, restT));
    CorrectIs(d, t.c, 3, p, More(Ques, restT), z);
    if Expect(d, t.c, p).Err? {
      TestFails(d, p, Expect(d, t.c, p).error);
      ExpectTest(d, t, p);
      CorrectIs(d, t, 2, p, tail, z);
    } else {
      z := EvalBranches(d, t, p, tail, z);
    }
  }

  lemma ExpectThenFails(d: nat, t: Tree, p: State, v: Intmax, q1: State)
    requires d <= MAX_DEPTH && WellFormed(t) && t.IfThen? && Expect(d, t.c, p).Ok?
    requires q1.noeval == (if v == 0 then p.noeval + 1 else p.noeval) && q1.env == Expect(d, t.c, p).value.env
    requires p.noeval == 0 ==> v == Expect(d, t.c, p).value.value
    ensures Expect(d, t.t, q1).Err? ==> Expect(d, t, p) == Expect(d, t.t, q1)
  {
  }

  /** The part behind the colon, once test and middle part have been read. */
  lemma EvalElse(d: nat, t: Tree, p: State, tail: Tail, v: Intmax, env1: Env, q1: State, y: Valued) returns (z: Valued)
    requires t.IfThen? && Due(d, t, 2, p, tail) && Next(d, p).Ok?
    requires WellFormed(t.c) && Expect(d, t.c, p).Ok? && env1 == Expect(d, t.c, p).value.env
    requires p.noeval == 0 ==> v == Expect(d, t.c, p).value.value
    requires q1.env == env1 && q1.noeval == (if v == 0 then p.noeval + 1 else p.noeval)
    requires WellFormed(t.t) && Expect(d, t.t, q1).Ok?
    requires Correct(d, t.t, 0, q1, More(Col, Print(t.f, 2) + Text(tail)), y)
    requires Step(d, 2, p) == ElsePart(d, v, Resumed(y, p))
    ensures Correct(d, t, 2, p, tail, z)
    decreases t, 0, 0, 0
  {
    hide *;
    DueIs(d, t, 2, p, tail);
    Operands(t);
    Taken(Bor);
    var restF := Print(t.f, 2) + Text(tail);
    CorrectIs(d, t.t, 0, q1, More(Col, restF), y);
    var env2 := Expect(d, t.t, q1).value.env;
    RightDue(d, 0, q1, Col, t.f, 2, tail, y, env2);
    ResumedDue(d, t.f, y, p, tail, v != 0);
    var q2 := Muted(Resumed(y, p).st, v != 0);
    var w := Evaluate(d, t.f, 2, q2, tail);
    CorrectIs(d, t.f, 2, q2, tail, w);
    ExpectIfThen(d, t, p, v, q1, q2);
    IsTested(d, t.c, p, v, q1);
    z := w;
    if Expect(d, t.f, q2).Err? {
      ElseFails(d, p, v, y, restF, q1, env2, Expect(d, t.f, q2).error);
    } else {
      ElseGives(d, p, v, y, restF, tail, w, q1, env2, Expect(d, t.f, q2).value.env);
      z := Valued(if v != 0 then y.value else w.value, w.st.(noeval := p.noeval, last := CondEnd));
    }
    CorrectIs(d, t, 2, p, tail, z);
  }

  lemma IsTested(d: nat, c: Tree, p: State, v: Intmax, q: State)
    requires d <= MAX_DEPTH && WellFormed(c) && Expect(d, c, p).Ok? && q.env == Expect(d, c, p).value.env
    requires p.noeval == 0 ==> v == Expect(d, c, p).value.value
    ensures Tested(d, c, p, v, q)
  {
    hide Expect, WellFormed;
  }

  lemma EvalBranches(d: nat, t: Tree, p: State, tail: Tail, x: Valued) returns (z: Valued)
    requires t.IfThen? && Due(d, t, 2, p, tail) && Expect(d, t.c, p).Ok?
    requires var restT := Print(t.t, 0) + Text(More(Col, Print(t.f, 2) + Text(tail)));
      Correct(d, t.c, 3, p, More(Ques, restT), x)
    ensures Correct(d, t, 2, p, tail, z)
    decreases t, 0, 0
  {
    hide *;
    DueIs(d, t, 2, p, tail);
    Operands(t);
    Taken(Bor);
    IfThenText(d, t, p, tail);
    var restF := Print(t.f, 2) + Text(tail);
    var restT := Print(t.t, 0) + Text(More(Col, restF));
    CorrectIs(d, t.c, 3, p, More(Ques, restT), x);
    var env1 := Expect(d, t.c, p).value.env;
    FineMore(Col, restF);
    RightDue(d, 3, p, Ques, t.t, 0, More(Col, restF), x, env1);
    MutedDue(d, t.t, 0, x.st, More(Col, restF), x.value == 0);
    MutedIs(x.st, x.value == 0);
    var q1 := Muted(x.st, x.value == 0);
    var y := Evaluate(d, t.t, 0, q1, More(Col, restF));
    CorrectIs(d, t.t, 0, q1, More(Col, restF), y);
    if Expect(d, t.t, q1).Err? {
      ExpectThenFails(d, t, p, x.value, q1);
      ThenFails(d, p, restT, x, env1, Expect(d, t.t, q1).error);
      z := x;
      CorrectIs(d, t, 2, p, tail, z);
    } else {
      ThenGives(d, p, restT, restF, x, y, env1, Expect(d, t.t, q1).value.env);
      GivesNext(d, 3, p, More(Ques, restT), x, env1);
      z := EvalElse(d, t, p, tail, x.value, env1, q1, y);
    }
  }

  lemma GivesNext(d: nat, n: nat, p: State, tail: Tail, x: Valued, env: Env)
    requires Gives(d, n, p, tail, x, env)
    ensures d <= MAX_DEPTH && Next(d, p).Ok?
  {
    hide Next, Step;
  }

  lemma ResumedDue(d: nat, t: Tree, y: Valued, p: State, tail: Tail, off: bool)
    requires Due(d, t, 2, y.st, tail)
    ensures Due(d, t, 2, Muted(Resumed(y, p).st, off), tail)
    ensures Muted(Resumed(y, p).st, off).env == y.st.env
    ensures Muted(Resumed(y, p).st, off).noeval == if off then p.noeval + 1 else p.noeval
  {
    hide Print, Text;
  }

  // ---- assignment ----

  /** What an assignment needs of its left side: a name that was just read. */
  ghost predicate Target(w: Valued, name: string, tok: Token, rest: string) {
    && w.st.cur == tok && (tok == Eq || tok.OpAssign?) && w.st.rest == rest
    && w.st.last == Str && w.st.name == Some(name)
  }

  lemma TargetAssigned(d: nat, p: State, w: Valued, name: string, tok: Token, rest: string)
    requires d <= MAX_DEPTH && Next(d, p).Ok? && Step(d, 2, p) == Ok(w) && Target(w, name, tok, rest)
    ensures Step(d, 1, p) ==
      var r := Step(d, 1, w.st);
      if r.Err? then r
      else
        var s3 := r.value.st;
        var v := if tok == Eq then Ok(r.value.value) else Combine(tok.op, w.value, r.value.value, s3.noeval);
        if v.Err? then Err(Fault(v.error, s3.env))
        else Ok(Valued(v.value, s3.(env := Bind(s3.env, s3.noeval, name, v.value), name := None)))
  {
    hide Next, Conditional, Combine, Bind;
    AssignIs(d, Next(d, p).value);
    assert Step(d, 1, p) == Stored(d, w);
  }

  /** A plain `=` behind a name keeps the variable from being evaluated. */
  lemma ReadTarget(d: nat, name: string, p: State, rest: string) returns (w: Valued)
    requires d <= MAX_DEPTH && Identifier(name) && Ready(p) && Apart(rest)
    requires p.rest == Word(name) + Text(More(Eq, rest))
    ensures Next(d, p).Ok? && !IsUnary(Next(d, p).value.cur) && Starts(d, p)
    ensures Step(d, 2, p) == Ok(w) && Target(w, name, Eq, rest)
    ensures w.st.env == p.env && w.st.noeval == p.noeval && !Bumping(w.st.cur)
  {
    hide Next, Lookup, Primary, Run, Text;
    var tail := More(Eq, rest);
    NextTail(d, Looking(p, Text(tail)), tail);
    NextName(d, p, name, Text(tail));
    var s := Next(d, p).value;
    PrimaryName(d, s, tail);
    w := Valued(s.val, Behind(s, tail));
    AtOperand(d, s, w);
    Lower(d, 15, 2, s, w);
    RestStops(d, 2, w);
  }

  lemma AtOperand(d: nat, s: State, w: Valued)
    requires d <= MAX_DEPTH
    ensures Run(d, 15, s) == Primary(d, s) && RestOf(d, 15, w) == Ok(w)
  {
  }

  lemma SetGives(d: nat, p: State, w: Valued, name: string, tok: Token, rest: string, tail: Tail, y: Valued, env: Env)
    requires d <= MAX_DEPTH && Next(d, p).Ok? && Step(d, 2, p) == Ok(w) && Target(w, name, tok, rest)
    requires w.st.noeval == p.noeval && Gives(d, 1, w.st, tail, y, env)
    ensures var v := if tok == Eq then Ok(y.value) else Combine(tok.op, w.value, y.value, p.noeval);
      if v.Err? then Fails(d, 1, p, Fault(v.error, env))
      else
        var env3 := Bind(env, p.noeval, name, v.value);
        Gives(d, 1, p, tail, Valued(v.value, y.st.(env := env3, name := None)), env3)
  {
    hide Next, Step, Run, Combine, Bind;
    TargetAssigned(d, p, w, name, tok, rest);
  }

  lemma SetFails(d: nat, p: State, w: Valued, name: string, tok: Token, rest: string, e: Fault)
    requires d <= MAX_DEPTH && Next(d, p).Ok? && Step(d, 2, p) == Ok(w) && Target(w, name, tok, rest)
    requires Fails(d, 1, w.st, e)
    ensures Fails(d, 1, p, e)
  {
    hide Next, Step, Run, Combine, Bind;
    TargetAssigned(d, p, w, name, tok, rest);
  }

  lemma ExpectSet(d: nat, t: Tree, p: State, q: State)
    requires d <= MAX_DEPTH && WellFormed(t) && t.Set? && q.noeval == p.noeval && q.env == p.env
    ensures var r := Expect(d, t.e, q);
      if r.Err? then Expect(d, t, p) == r
      else if p.noeval > 0 then Expect(d, t, p) == Ok(Looked(0, r.value.env))
      else Expect(d, t, p) == Ok(Looked(r.value.value, Bind(r.value.env, 0, t.name, r.value.value)))
  {
    hide Itos;
  }

  /** The right side of an assignment is due behind the operator. */
  lemma SideDue(d: nat, w: Valued, name: string, tok: Token, e: Tree, tail: Tail)
    requires d <= MAX_DEPTH && WellFormed(e) && Fine(tail) && Allowed(Token1(tail), 1) && Token1(tail) != Eq
    requires Target(w, name, tok, Print(e, 1) + Text(tail))
    ensures Due(d, e, 1, w.st, tail)
  {
    hide Print, Text, WellFormed;
  }

  lemma FineMore(tok: Token, rest: string)
    requires Plain(tok) && Apart(rest)
    ensures Fine(More(tok, rest)) && Token1(More(tok, rest)) == tok
  {
  }

  lemma SetText(name: string, tok: Token, e: Tree, tail: Tail)
    ensures (Word(name) + (Word(Sign(tok)) + Print(e, 1))) + Text(tail)
         == Word(name) + Text(More(tok, Print(e, 1) + Text(tail)))
    ensures Apart(Print(e, 1) + Text(tail))
  {
    hide Print;
    Regrouped(Word(name), Word(Sign(tok)), Print(e, 1), Text(tail));
    PrintApart(e, 1);
  }

  lemma EvalSet(d: nat, t: Tree, p: State, tail: Tail) returns (z: Valued)
    requires t.Set? && Due(d, t, 1, p, tail)
    ensures Correct(d, t, 1, p, tail, z) && Starts(d, p)
    decreases t, 0
  {
    hide *;
    DueIs(d, t, 1, p, tail);
    Operands(t);
    Written(t);
    PrintBody(t, 1);
    SetText(t.name, Eq, t.e, tail);
    var rest := Print(t.e, 1) + Text(tail);
    var w := ReadTarget(d, t.name, p, rest);
    SideDue(d, w, t.name, Eq, t.e, tail);
    z := Evaluate(d, t.e, 1, w.st, tail);
    CorrectIs(d, t.e, 1, w.st, tail, z);
    ExpectSet(d, t, p, w.st);
    if Expect(d, t.e, w.st).Ok? {
      var env := Expect(d, t.e, w.st).value.env;
      SetGives(d, p, w, t.name, Eq, rest, tail, z, env);
      Unbound(env, p.noeval, t.name, z.value);
      z := Valued(z.value, z.st.(env := Bind(env, p.noeval, t.name, z.value), name := None));
    } else {
      SetFails(d, p, w, t.name, Eq, rest, Expect(d, t.e, w.st).error);
    }
    CorrectIs(d, t, 1, p, tail, z);
  }

  lemma Unbound(env: Env, noeval: nat, name: string, v: Intmax)
    ensures noeval > 0 ==> Bind(env, noeval, name, v) == env
  {
  }

  lemma ExpectUpdate(d: nat, t: Tree, p: State, q: State)
    requires d <= MAX_DEPTH && WellFormed(t) && t.Update? && q.noeval == p.noeval
    ensures var x := Expect(d, Var(t.name), p);
      if x.Err? then Expect(d, t, p) == x
      else if q.env != x.value.env then true
      else
        var r := Expect(d, t.e, q);
        if r.Err? then Expect(d, t, p) == r
        else if p.noeval > 0 then Expect(d, t, p) == Ok(Looked(0, r.value.env))
        else
          var v := Combine(t.op, x.value.value, r.value.value, 0);
          Expect(d, t, p) ==
            if v.Err? then Err(Fault(v.error, r.value.env))
            else Ok(Looked(v.value, Bind(r.value.env, 0, t.name, v.value)))
  {
    hide Itos, Combine, Lookup;
  }

  lemma EvalUpdateRight(d: nat, t: Tree, p: State, tail: Tail, w: Valued) returns (z: Valued)
    requires t.Update? && Due(d, t, 1, p, tail) && WellFormed(Var(t.name)) && Expect(d, Var(t.name), p).Ok?
    requires Correct(d, Var(t.name), 15, p, More(OpAssign(t.op), Print(t.e, 1) + Text(tail)), w)
    requires StartsPlain(d, p) && (Next(d, p).Ok? ==> w.st.last == Str && w.st.name == Some(t.name))
    ensures Correct(d, t, 1, p, tail, z)
    decreases t, 0, 0
  {
    hide *;
    DueIs(d, t, 1, p, tail);
    Operands(t);
    var tok := OpAssign(t.op);
    var rest := Print(t.e, 1) + Text(tail);
    var env1 := Expect(d, Var(t.name), p).value.env;
    CorrectIs(d, Var(t.name), 15, p, More(tok, rest), w);
    GivesNext(d, 15, p, More(tok, rest), w, env1);
    VarTarget(d, p, t.name, t.op, rest, w, env1);
    SideDue(d, w, t.name, tok, t.e, tail);
    z := Evaluate(d, t.e, 1, w.st, tail);
    CorrectIs(d, t.e, 1, w.st, tail, z);
    ExpectUpdate(d, t, p, w.st);
    if Expect(d, t.e, w.st).Ok? {
      var env := Expect(d, t.e, w.st).value.env;
      SetGives(d, p, w, t.name, tok, rest, tail, z, env);
      var v := Combine(t.op, w.value, z.value, p.noeval);
      if v.Ok? {
        Unbound(env, p.noeval, t.name, v.value);
        z := Valued(v.value, z.st.(env := Bind(env, p.noeval, t.name, v.value), name := None));
      }
    } else {
      SetFails(d, p, w, t.name, tok, rest, Expect(d, t.e, w.st).error);
    }
    CorrectIs(d, t, 1, p, tail, z);
  }

  lemma EvalUpdate(d: nat, t: Tree, p: State, tail: Tail) returns (z: Valued)
    requires t.Update? && Due(d, t, 1, p, tail)
    ensures Correct(d, t, 1, p, tail, z) && Starts(d, p)
    decreases t, 0
  {
    hide *;
    DueIs(d, t, 1, p, tail);
    Operands(t);
    Written(t);
    PrintBody(t, 1);
    var tok := OpAssign(t.op);
    SetText(t.name, tok, t.e, tail);
    var rest := Print(t.e, 1) + Text(tail);
    FineMore(tok, rest);
    z := EvalVar(d, t.name, p, More(tok, rest));
    CorrectIs(d, Var(t.name), 15, p, More(tok, rest), z);
    if Expect(d, Var(t.name), p).Err? {
      ExpectUpdate(d, t, p, p);
      VarFails(d, p, Expect(d, Var(t.name), p).error);
      CorrectIs(d, t, 1, p, tail, z);
    } else {
      z := EvalUpdateRight(d, t, p, tail, z);
    }
  }

  lemma VarFails(d: nat, p: State, e: Fault)
    requires Fails(d, 15, p, e) && StartsPlain(d, p)
    ensures Fails(d, 1, p, e)
  {
    hide Next, Run;
    if Next(d, p).Ok? {
      LowerError(d, 15, 1, Next(d, p).value, e);
    }
  }

  lemma VarTarget(d: nat, p: State, name: string, op: BinOp, rest: string, w: Valued, env: Env)
    requires Gives(d, 15, p, More(OpAssign(op), rest), w, env) && StartsPlain(d, p)
    requires w.st.last == Str && w.st.name == Some(name)
    ensures Next(d, p).Ok? && Step(d, 2, p) == Ok(w) && Target(w, name, OpAssign(op), rest)
    ensures w.st.noeval == p.noeval && w.st.env == env
  {
    hide Next, Run;
    AtOperand(d, Next(d, p).value, w);
    Lower(d, 15, 2, Next(d, p).value, w);
    RestStops(d, 2, w);
  }

  // ---- parentheses, and all trees ----

  lemma PrimaryParen(d: nat, s: State, y: Valued, rest: string, tail: Tail, env: Env)
    requires d <= MAX_DEPTH && s.cur == Lpar && Fine(tail) && Apart(rest) && rest == Text(tail)
    requires Gives(d, 0, s, More(Rpar, rest), y, env)
    ensures Primary(d, s) == Ok(Valued(y.value, Behind(y.st, tail)))
  {
    hide Next, Commas, Passed, CommaRest;
    RestStops(d, 0, y);
    PassedIs(d, y.st, y.value);
    NextTail(d, y.st, tail);
  }

  lemma PrimaryParenFails(d: nat, s: State, e: Fault)
    requires d <= MAX_DEPTH && s.cur == Lpar && Fails(d, 0, s, e)
    ensures Primary(d, s) == Err(e)
  {
    hide Next, Commas, Passed;
  }

  lemma ParenText(t: Tree, n: nat, tail: Tail)
    requires Prec(t) < n
    ensures Print(t, n) + Text(tail) == Word("(") + (Print(t, 0) + Text(More(Rpar, Text(tail))))
    ensures Apart(Print(t, 0) + Text(More(Rpar, Text(tail))))
  {
    PrintBody(t, 0);
    PrintApart(t, 0);
    hide Body;
    Regrouped(Word("("), Body(t), Word(")"), Text(tail));
    assert Word("(") + Body(t) + Word(")") == Word("(") + (Body(t) + Word(")"));
  }

  lemma EvalParens(d: nat, t: Tree, p: State, tail: Tail, inner: string) returns (z: Valued)
    requires d <= MAX_DEPTH && WellFormed(t) && Ready(p) && Fine(tail)
    requires p.rest == Word("(") + inner && inner == Print(t, 0) + Text(More(Rpar, Text(tail))) && Apart(inner)
    ensures Correct(d, t, 15, p, tail, z) && Starts(d, p) && StartsPlain(d, p)
    decreases t, 2
  {
    hide *;
    Taken(Bor);
    NextPlain(d, p, Lpar, inner);
    var s := Next(d, p).value;
    InnerDue(d, t, p, s, tail);
    var y := EvalBody(d, t, 0, s, More(Rpar, Text(tail)));
    CorrectIs(d, t, 0, s, More(Rpar, Text(tail)), y);
    z := y;
    SameExpect(d, t, s, p);
    if Expect(d, t, s).Ok? {
      var env := Expect(d, t, s).value.env;
      PrimaryParen(d, s, y, Text(tail), tail, env);
      ParenAfter(d, p, s, tail, y, env);
      z := Valued(y.value, Behind(y.st, tail));
      OperandGives(d, p, tail, env);
    } else {
      PrimaryParenFails(d, s, Expect(d, t, s).error);
      OperandFails(d, p, Expect(d, t, s).error);
    }
    CorrectIs(d, t, 15, p, tail, z);
    OpensOperand(d, p);
  }

  lemma SameExpect(d: nat, t: Tree, s: State, p: State)
    requires d <= MAX_DEPTH && WellFormed(t) && s.env == p.env && s.noeval == p.noeval
    ensures Expect(d, t, s) == Expect(d, t, p)
  {
  }

  lemma ParenAfter(d: nat, p: State, s: State, tail: Tail, y: Valued, env: Env)
    requires Gives(d, 0, s, More(Rpar, Text(tail)), y, env) && s.noeval == p.noeval
    ensures After(p, env, tail, Behind(y.st, tail))
  {
    hide Next, Step, Text;
  }

  /** The tree inside parentheses is due behind the opening one. */
  lemma InnerDue(d: nat, t: Tree, p: State, s: State, tail: Tail)
    requires d <= MAX_DEPTH && WellFormed(t) && Ready(p)
    requires s == p.(rest := Print(t, 0) + Text(More(Rpar, Text(tail))), last := p.cur, cur := Lpar)
    ensures Due(d, t, 0, s, More(Rpar, Text(tail)))
  {
    hide Print, Text, WellFormed;
  }

  lemma OpensOperand(d: nat, p: State)
    requires d <= MAX_DEPTH && Next(d, p).Ok? && Next(d, p).value.cur == Lpar
    ensures Starts(d, p) && StartsPlain(d, p)
  {
    hide Next;
  }

  lemma OperandLevel(t: Tree)
    ensures Prec(t) <= 15 && (Prec(t) == 15 <==> t.Lit? || t.Var? || t.Bump?)
  {
  }

  /** What is due at a looser level and needs no parentheses there is due at its own. */
  lemma DueBody(d: nat, t: Tree, n: nat, p: State, tail: Tail)
    requires n <= Prec(t) && Due(d, t, n, p, tail)
    ensures Due(d, t, Prec(t), p, tail)
  {
    hide Print, Text, WellFormed;
    PrintBody(t, n);
    PrintBody(t, Prec(t));
  }

  lemma OperandText(t: Tree)
    requires WellFormed(t)
    ensures t.Lit? ==> Literal(t.num) && Body(t) == Word(t.num)
    ensures t.Var? ==> Identifier(t.name) && Body(t) == Word(t.name)
    ensures t.Bump? ==> Identifier(t.name)
    ensures t.Bump? && t.pre ==> Body(t) == Word(Twice(t.up)) + Word(t.name)
    ensures t.Bump? && !t.pre ==> Body(t) == Word(t.name) + Word(Twice(t.up))
  {
    hide Word, Twice, Literal, Identifier;
  }

  lemma EvalOperand(d: nat, t: Tree, p: State, tail: Tail) returns (x: Valued)
    requires (t.Lit? || t.Var? || t.Bump?) && Due(d, t, 15, p, tail)
    ensures Correct(d, t, 15, p, tail, x) && Starts(d, p) && StartsPlain(d, p)
  {
    hide *;
    DueIs(d, t, 15, p, tail);
    OperandLevel(t);
    OperandText(t);
    PrintBody(t, 15);
    match t
    case Lit(num) => x := EvalLit(d, num, p, tail);
    case Var(name) => x := EvalVar(d, name, p, tail);
    case Bump(pre, up, name) =>
      Regrouped(Word(Twice(up)), Word(name), "", Text(tail));
      Regrouped(Word(name), Word(Twice(up)), "", Text(tail));
      if pre {
        x := EvalPre(d, up, name, p, tail);
      } else {
        x := EvalPost(d, up, name, p, tail);
      }
  }

  lemma EvalOperator(d: nat, t: Tree, p: State, tail: Tail) returns (x: Valued)
    requires !t.Lit? && !t.Var? && !t.Bump? && Due(d, t, Prec(t), p, tail)
    ensures Correct(d, t, Prec(t), p, tail, x) && Starts(d, p)
    decreases t, 1, 0
  {
    hide *;
    DueIs(d, t, Prec(t), p, tail);
    Operands(t);
    match t
    case Unary(_, _) => x := EvalUnary(d, t, p, tail);
    case Binary(_, _, _) => x := EvalBinary(d, t, p, tail);
    case And(_, _) => x := EvalAnd(d, t, p, tail);
    case Or(_, _) => x := EvalOr(d, t, p, tail);
    case Pow(_, _) => x := EvalPow(d, t, p, tail);
    case IfThen(_, _, _) => x := EvalIfThen(d, t, p, tail);
    case Set(_, _) => x := EvalSet(d, t, p, tail);
    case Update(_, _, _) => x := EvalUpdate(d, t, p, tail);
    case Both(_, _) => x := EvalBoth(d, t, p, tail);
  }

  /** A tree printed without parentheses. */
  lemma EvalBody(d: nat, t: Tree, n: nat, p: State, tail: Tail) returns (x: Valued)
    requires n <= Prec(t) && Due(d, t, n, p, tail)
    ensures Correct(d, t, n, p, tail, x) && Starts(d, p)
    decreases t, 1
  {
    hide *;
    DueIs(d, t, n, p, tail);
    DueBody(d, t, n, p, tail);
    OperandLevel(t);
    if t.Lit? || t.Var? || t.Bump? {
      x := EvalOperand(d, t, p, tail);
    } else {
      x := EvalOperator(d, t, p, tail);
    }
    LowerCorrect(d, t, Prec(t), n, p, tail, x);
  }

  /** The main theorem: at every level, in front of every text that may follow, the evaluator takes the
      printed tree for what it means. */
  lemma Evaluate(d: nat, t: Tree, n: nat, p: State, tail: Tail) returns (x: Valued)
    requires Due(d, t, n, p, tail)
    ensures Correct(d, t, n, p, tail, x) && Starts(d, p)
    decreases t, 3
  {
    if Prec(t) < n {
      ParenText(t, n, tail);
      hide Print, Text, Correct, Starts, StartsPlain;
      x := EvalParens(d, t, p, tail, Print(t, 0) + Text(More(Rpar, Text(tail))));
      LowerCorrect(d, t, 15, n, p, tail, x);
    } else {
      x := EvalBody(d, t, n, p, tail);
    }
  }
}
