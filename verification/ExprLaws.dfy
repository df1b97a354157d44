/** What the evaluator promises as a whole. */
module ExprLaws {
  import opened Chars
  import opened Numbers
  import opened Wrappers
  import ExprEvaluator
  import opened ExprErrors
  import opened ExprNumbers
  import opened ExprLiterals
  import opened ExprTokens
  import opened ExprSpec
  import opened ExprTree
  import opened ExprReading
  import opened ExprMeaning

  /** The state in which a text is evaluated. */
  function Start(text: string, env: Env): State {
    State(text, End, End, 0, None, 0, env)
  }

  lemma SubexprIs(d: nat, text: string, env: Env)
    requires d < MAX_DEPTH && SkipBlanks(text) != ""
    ensures Subexpr(d, text, 0, env) ==
      var r := Step(d + 1, 0, Start(text, env));
      if r.Err? then Err(r.error)
      else if r.value.st.cur != End then Err(Fault(SyntaxError, r.value.st.env))
      else Ok(Looked(r.value.value, r.value.st.env))
  {
    hide Next, Commas, SkipBlanks;
  }

  lemma NotBlank(d: nat, p: State)
    requires Starts(d, p)
    ensures SkipBlanks(p.rest) != ""
  {
  }

  lemma WholeDue(d: nat, t: Tree, p: State)
    requires d <= MAX_DEPTH && WellFormed(t) && Ready(p) && p.rest == Print(t, 0)
    ensures Due(d, t, 0, p, Nothing)
  {
    hide Print;
    assert Print(t, 0) + "" == Print(t, 0);
  }

  lemma StartIs(text: string, env: Env)
    ensures Start(text, env) == State(text, End, End, 0, None, 0, env)
  {
  }

  lemma ExpectOn(d: nat, t: Tree, p: State)
    requires d <= MAX_DEPTH && WellFormed(t) && p.noeval == 0
    ensures Expect(d, t, p) == Meaning(d, t, p.env)
  {
    hide Meaning, WellFormed;
  }

  lemma EndOfText(d: nat, p: State, x: Valued, env: Env)
    requires Gives(d, 0, p, Nothing, x, env)
    ensures d <= MAX_DEPTH && Step(d, 0, p) == Ok(x) && x.st.cur == End && x.st.env == env
  {
    hide Next, Step;
    RestStops(d, 0, x);
  }

  lemma FailsMeans(d: nat, n: nat, p: State, e: Fault)
    requires Fails(d, n, p, e)
    ensures d <= MAX_DEPTH && n <= 15 && Step(d, n, p) == Err(e)
  {
    hide Step;
  }

  lemma CorrectEnds(d: nat, t: Tree, text: string, env: Env, x: Valued)
    requires d < MAX_DEPTH && WellFormed(t)
    requires Correct(d + 1, t, 0, Start(text, env), Nothing, x) && Starts(d + 1, Start(text, env))
    ensures Subexpr(d, text, 0, env) == Meaning(d + 1, t, env)
  {
    hide *;
    StartIs(text, env);
    NotBlank(d + 1, Start(text, env));
    SubexprIs(d, text, env);
    CorrectIs(d + 1, t, 0, Start(text, env), Nothing, x);
    ExpectOn(d + 1, t, Start(text, env));
    if Meaning(d + 1, t, env).Ok? {
      EndOfText(d + 1, Start(text, env), x, Meaning(d + 1, t, env).value.env);
    } else {
      FailsMeans(d + 1, 0, Start(text, env), Meaning(d + 1, t, env).error);
    }
  }

  /** Evaluating the printed form of any tree gives its meaning: the value and the variables, or the
      error. */
  lemma Agreement(d: nat, t: Tree, env: Env)
    requires d < MAX_DEPTH && WellFormed(t)
    ensures Subexpr(d, Print(t, 0), 0, env) == Meaning(d + 1, t, env)
  {
    hide Print, Subexpr, Starts, Correct, Due, Meaning;
    var p := Start(Print(t, 0), env);
    WholeDue(d + 1, t, p);
    var x := Evaluate(d + 1, t, 0, p, Nothing);
    CorrectEnds(d, t, Print(t, 0), env, x);
  }

  /** So what `evalexp` answers to the printed form of a tree, and the variables it leaves, are those
      of the tree. */
  method EvaluatePrinted(t: Tree, env: Env) returns (r: Checked<Intmax>, after: Env)
    requires WellFormed(t)
    ensures match Meaning(1, t, env)
            case Err(e) => r == Err(e.kind) && after == e.env
            case Ok(x) => r == Ok(x.value) && after == x.env
  {
    hide Print, Subexpr, Meaning, WellFormed;
    var e := new ExprEvaluator.Evaluator(env);
    Agreement(0, t, env);
    r := e.Evalexp(Print(t, 0));
    after := e.env;
  }

  lemma DigitsAre(t: string)
    requires forall k | 0 <= k < |t| :: IsDigit(t[k])
    ensures forall k | 0 <= k < |t| :: LiteralChar(t[k])
  {
  }

  /** Reading decimal digits at the end of the text. */
  lemma NextDigits(d: nat, s: State, n: nat)
    requires d <= MAX_DEPTH && s.rest == Digits(n)
    ensures Next(d, s) == Ok(s.(rest := "", val := Wrap(n), last := s.cur, cur := Num))
    ensures SkipBlanks(Digits(n)) == Digits(n) && !NameStart(Digits(n)[0]) && Digits(n)[0] != '-'
  {
    AllDigits(n);
    DecimalRoundTrip(n);
    DigitsInBase(n);
    FirstSign(n, 10);
    hide LiteralValue, InBase, Digits;
    DigitsAre(Digits(n));
    WholeLiteral(Digits(n), "");
    assert Digits(n) + "" == Digits(n);
    assert Digits(n)[|Digits(n)|..] == "" && Digits(n)[..|Digits(n)|] == Digits(n);
    hide LiteralLength, LiteralChar;
  }

  lemma {:induction false} AllDigits(n: nat)
    ensures Digits(n) != "" && forall k | 0 <= k < |Digits(n)| :: IsDigit(Digits(n)[k])
  {
    if n >= 10 {
      AllDigits(n / 10);
    }
  }

  lemma EvalDigits(d: nat, s: State, n: nat)
    requires d <= MAX_DEPTH && s.rest == Digits(n)
    ensures var y := Valued(Wrap(n), State("", End, Num, Wrap(n), s.name, s.noeval, s.env));
      Next(d, s).Ok? && Run(d, 15, Next(d, s).value) == RestOf(d, 15, y) && Next(d, s).value.cur == Num
  {
    hide Next, Wrap, Digits;
    NextDigits(d, s, n);
    var s1 := Next(d, s).value;
    PassedIs(d, s1, s1.val);
    NextEnd(d, s1);
    AtOperand(d, s1, Valued(s1.val, Next(d, s1).value));
  }

  /** A step that leaves nothing to read is the whole evaluation. */
  lemma Whole(d: nat, text: string, env: Env, n: Intmax, st: State)
    requires d < MAX_DEPTH && SkipBlanks(text) != "" && Next(d + 1, Start(text, env)).Ok?
    requires Run(d + 1, 0, Next(d + 1, Start(text, env)).value) == RestOf(d + 1, 0, Valued(n, st))
    requires st.cur == End && st.env == env
    ensures Subexpr(d, text, 0, env) == Ok(Looked(n, env))
  {
    hide Next, Run, SkipBlanks;
    RestStops(d + 1, 0, Valued(n, st));
    SubexprIs(d, text, env);
  }

  /** The text of any machine integer evaluates to it, INTMAX_MIN included, whose digits wrap twice. */
  lemma ItosValue(d: nat, n: Intmax, env: Env)
    requires d < MAX_DEPTH
    ensures Subexpr(d, Itos(n), 0, env) == Ok(Looked(n, env))
  {
    hide Next, Run, RestOf, Digits, Subexpr, SkipBlanks, NameStart;
    if n >= 0 {
      var p := Start(Itos(n), env);
      EvalDigits(d + 1, p, n);
      NextDigits(d + 1, p, n);
      var st := State("", End, Num, Wrap(n), None, 0, env);
      Lower(d + 1, 15, 0, Next(d + 1, p).value, Valued(Wrap(n), st));
      Whole(d, Itos(n), env, n, st);
    } else {
      NegativeValue(d, n, env);
    }
  }

  lemma NegativeValue(d: nat, n: Intmax, env: Env)
    requires d < MAX_DEPTH && n < 0
    ensures Subexpr(d, Itos(n), 0, env) == Ok(Looked(n, env))
  {
    hide Next, Run, RestOf, Digits, Subexpr, SkipBlanks, Wrap;
    var m: nat := -(n as int);
    var p := Start(Itos(n), env);
    NextMinus(d + 1, p, m);
    NegatedDigits(d + 1, m, env);
    NegateTwice(n);
    Whole(d, Itos(n), env, n, State("", End, Num, Wrap(m), None, 0, env));
  }

  /** Minus and the digits of m. */
  lemma NegatedDigits(d: nat, m: nat, env: Env)
    requires d <= MAX_DEPTH
    ensures var s := State(Digits(m), Bin(Minus), End, 0, None, 0, env);
      Run(d, 0, s) == RestOf(d, 0, Valued(Wrap(-(Wrap(m) as int)), State("", End, Num, Wrap(m), None, 0, env)))
  {
    var s := State(Digits(m), Bin(Minus), End, 0, None, 0, env);
    EvalDigits(d, s, m);
    hide Next, Run, RestOf, Digits, Wrap;
    var y := Valued(Wrap(m), State("", End, Num, Wrap(m), None, 0, env));
    Lower(d, 15, 14, Next(d, s).value, y);
    RestStops(d, 14, y);
    UnaryMinus(d, s, y);
    Lower(d, 14, 0, s, Valued(Wrap(-(Wrap(m) as int)), y.st));
  }

  lemma NegateTwice(n: Intmax)
    requires n < 0
    ensures Wrap(-(Wrap(-(n as int)) as int)) == n
  {
    assert Same(-(Wrap(-(n as int)) as int), n) by {
      var k: int :| Wrap(-(n as int)) as int == -(n as int) + k * MODULUS;
      assert -(Wrap(-(n as int)) as int) == n + (-k) * MODULUS;
    }
    SameWrap(-(Wrap(-(n as int)) as int), n);
  }

  lemma NextMinus(d: nat, p: State, m: nat)
    requires d <= MAX_DEPTH && p.rest == "-" + Digits(m)
    ensures Next(d, p) == Ok(p.(rest := Digits(m), last := p.cur, cur := Bin(Minus)))
    ensures SkipBlanks(p.rest) == p.rest
  {
    NextDigits(d, p.(rest := Digits(m)), m);
    AllDigits(m);
    hide Digits;
    assert p.rest[0] == '-' && p.rest[1] == Digits(m)[0] && p.rest[1..] == Digits(m);
  }

  lemma UnaryMinus(d: nat, s: State, y: Valued)
    requires d <= MAX_DEPTH && s.cur == Bin(Minus) && Next(d, s).Ok? && Run(d, 14, Next(d, s).value) == Ok(y)
    ensures Run(d, 14, s) == Ok(Valued(Wrap(-(y.value as int)), y.st.(last := Num)))
    ensures RestOf(d, 14, Valued(Wrap(-(y.value as int)), y.st.(last := Num)))
         == Ok(Valued(Wrap(-(y.value as int)), y.st.(last := Num)))
  {
    hide Next, Primary, Wrap;
  }

  /** What was bound reads back: binding a value and looking the variable up gives the value. */
  lemma BindThenLookup(d: nat, name: string, n: Intmax, env: Env)
    requires d < MAX_DEPTH
    ensures Lookup(d, name, 0, Bind(env, 0, name, n)) == Ok(Looked(n, Bind(env, 0, name, n)))
  {
    ItosValue(d, n, Bind(env, 0, name, n));
    AllDigits(Abs(n));
    hide Subexpr, Digits;
  }

  lemma NameKept(name: string)
    requires Identifier(name)
    ensures SkipBlanks(name) == name && name != ""
  {
  }

  lemma LookupInside(d: nat, name: string, env: Env)
    requires d < MAX_DEPTH && name in env && SkipBlanks(env[name]) != ""
    ensures Lookup(d, name, 0, env) == Inside(d + 1, env[name], 0, env)
  {
    hide SkipBlanks, Inside;
    assert SkipBlanks("") == "";
  }

  lemma SelfStep(d: nat, name: string, env: Env, e: Fault)
    requires d < MAX_DEPTH && Identifier(name) && name in env && env[name] == name
    requires Lookup(d + 1, name, 0, env) == Err(e)
    ensures Lookup(d, name, 0, env) == Err(e)
  {
    hide *;
    StartIs(name, env);
    NameKept(name);
    NextSelf(d + 1, Start(name, env), name);
    InsideFails(d + 1, name, 0, env);
    LookupInside(d, name, env);
  }

  /** A variable whose value is its own name ends in the recursion error: the evaluator never loops. */
  lemma {:induction false} SelfReference(d: nat, name: string, env: Env)
    requires d <= MAX_DEPTH && Identifier(name) && name in env && env[name] == name
    ensures Lookup(d, name, 0, env) == Err(Fault(RecursionExceeded, env))
    decreases MAX_DEPTH - d
  {
    if d < MAX_DEPTH {
      hide Lookup;
      SelfReference(d + 1, name, env);
      SelfStep(d, name, env, Fault(RecursionExceeded, env));
    } else {
      NameKept(name);
      hide SkipBlanks, Identifier;
    }
  }

  /** A name that is the whole text. */
  lemma NextSelf(d: nat, s: State, name: string)
    requires d <= MAX_DEPTH && Identifier(name) && s.rest == name
    ensures var x := Lookup(d, name, s.noeval, s.env); x.Err? ==> Next(d, s) == Err(x.error)
  {
    hide Lookup;
    WholeName(name, "");
    assert name + "" == name && name[..|name|] == name && name[|name|..] == "";
    assert SkipBlanks(name) == name;
    NextEnd(d, s.(rest := "", name := Some(name)).(cur := Str, name := None, noeval := 1));
  }
}
