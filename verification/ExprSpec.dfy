/** The evaluator as functions on its state: one function for each precedence level, reading tokens
    and evaluating as it goes. */
module ExprSpec {
  import opened Chars
  import opened Numbers
  import opened Wrappers
  import opened ExprErrors
  import opened ExprNumbers
  import opened ExprLiterals
  import opened ExprTokens

  const MAX_DEPTH: nat := 1024

  /** A value and the state behind it. */
  datatype Valued = Valued(value: Intmax, st: State)

  /** The value of a variable's text, and the variables after evaluating it. */
  datatype Looked = Looked(value: Intmax, env: Env)

  /** The variables an evaluation leaves behind, normally or by an error. */
  ghost function EnvAfter(r: Outcome<Valued>): Env {
    if r.Ok? then r.value.st.env else r.error.env
  }

  /** While evaluation is off, every level binds nothing, whether it returns or ends in an error, and
      raises only errors of the text. */
  ghost predicate Inert(s: State, r: Outcome<Valued>) {
    s.noeval > 0 ==> EnvAfter(r) == s.env && (r.Err? ==> !r.error.kind.Arithmetic())
  }

  /** Every level uses up some input and leaves `noeval` as it found it. */
  ghost predicate Shrinks(s: State, r: Outcome<Valued>) {
    Inert(s, r) && (r.Ok? ==> r.value.st.noeval == s.noeval && r.value.st.Left() < s.Left())
  }

  ghost predicate NoGrowth(s: State, r: Outcome<Valued>) {
    Inert(s, r) && (r.Ok? ==> r.value.st.noeval == s.noeval && r.value.st.Left() <= s.Left())
  }

  /** `readtok`.  A name is followed by a look at the next token with evaluation off; unless that is
      `=`, the variable is evaluated at once. */
  ghost function Next(d: nat, s: State): (r: Outcome<State>)
    requires d <= MAX_DEPTH
    ensures r.Ok? ==> r.value.noeval == s.noeval && (s.noeval > 0 ==> r.value.env == s.env)
    ensures r.Ok? ==> |r.value.rest| <= |s.rest| && (r.value.cur != End ==> |r.value.rest| < |s.rest|)
    ensures r.Err? && s.noeval > 0 ==> r.error.env == s.env && !r.error.kind.Arithmetic()
    decreases MAX_DEPTH - d, |s.rest|, 0
  {
    var t := SkipBlanks(s.rest);
    if t == "" then Ok(s.(rest := "", last := s.cur, cur := End))
    else if NameStart(t[0]) then
      var n := NameLength(t);
      var s1 := s.(rest := t[n..], name := Some(t[..n]));
      if At(s1.rest, 0) == '[' then Err(Fault(BadSubscript, s.env))
      else
        var peek := Next(d, s1.(cur := Str, name := None, noeval := 1));
        if peek.Err? then Err(peek.error) else Named(d, s1, t[..n], peek.value.cur)
    else if IsDigit(t[0]) then
      var n := LiteralLength(t);
      var v := LiteralValue(t[..n]);
      if v.Err? then LiteralErrors(t[..n]); Err(Fault(v.error, s.env))
      else Ok(s.(rest := t[n..], val := v.value, last := s.cur, cur := Num))
    else
      var op := Operator(t, s.cur, s.last);
      if op.Err? then Err(Fault(op.error, s.env))
      else Ok(s.(rest := t[op.value.length..], last := s.cur, cur := op.value.token))
  }

  /** The token for a name once the token behind it is known. */
  ghost function Named(d: nat, s: State, name: string, peek: Token): (r: Outcome<State>)
    requires d <= MAX_DEPTH
    ensures r.Ok? ==> r.value.rest == s.rest && r.value.noeval == s.noeval && (s.noeval > 0 ==> r.value.env == s.env)
    ensures s.noeval > 0 ==> r.Ok?
    decreases MAX_DEPTH - d, |s.rest|, 2
  {
    if s.last == PreInc || s.last == PreDec || peek != Eq then
      var x := Lookup(d, name, s.noeval, s.env);
      if x.Err? then Err(x.error)
      else Ok(s.(val := x.value.value, env := x.value.env, last := s.cur, cur := Str))
    else Ok(s.(val := 0, last := s.cur, cur := Str))
  }

  lemma LiteralErrors(num: string)
    ensures LiteralValue(num).Err? ==> !LiteralValue(num).error.Arithmetic()
  {
    if num != "" && num[0] == '0' {
      if |num| > 1 {
        ScanErrors(if num[1] == 'x' || num[1] == 'X' then num[2..] else num[1..],
          if num[1] == 'x' || num[1] == 'X' then 16 else 8, true, 0);
      }
    } else {
      ScanErrors(num, 10, false, 0);
    }
  }

  lemma {:induction false} ScanErrors(t: string, base: int, found: bool, val: Intmax)
    ensures Scan(t, base, found, val).Err? ==> !Scan(t, base, found, val).error.Arithmetic()
  {
    if t != "" {
      if t[0] == '#' {
        ScanErrors(t[1..], val, true, 0);
      } else if ValidNumchar(t[0]) {
        ScanErrors(t[1..], base, found, Wrap(val * base + DigitWorth(t[0], base)));
      }
    }
  }

  /** `expr_streval`: the value of a variable is the value of its text. */
  ghost function Lookup(d: nat, name: string, noeval: nat, env: Env): (r: Outcome<Looked>)
    requires d <= MAX_DEPTH
    ensures noeval > 0 ==> r == Ok(Looked(0, env))
    decreases MAX_DEPTH - d, 0, 1
  {
    if noeval > 0 then Ok(Looked(0, env))
    else if name !in env || env[name] == "" then Ok(Looked(0, env))
    else Subexpr(d, env[name], noeval, env)
  }

  /** `subexpr`: a whole text, in a context of its own. */
  ghost function Subexpr(d: nat, text: string, noeval: nat, env: Env): (r: Outcome<Looked>)
    requires d <= MAX_DEPTH
    ensures noeval > 0 ==> (if r.Ok? then r.value.env else r.error.env) == env
    ensures noeval > 0 && r.Err? ==> r.error.kind == RecursionExceeded || !r.error.kind.Arithmetic()
    decreases MAX_DEPTH - d, 0, 0
  {
    if SkipBlanks(text) == "" then Ok(Looked(0, env))
    else if d >= MAX_DEPTH then Err(Fault(RecursionExceeded, env))
    else Inside(d + 1, text, noeval, env)
  }

  /** The evaluation inside the new context. */
  ghost function Inside(d: nat, text: string, noeval: nat, env: Env): (r: Outcome<Looked>)
    requires d <= MAX_DEPTH
    ensures noeval > 0 ==> (if r.Ok? then r.value.env else r.error.env) == env
    ensures noeval > 0 && r.Err? ==> r.error.kind == RecursionExceeded || !r.error.kind.Arithmetic()
    decreases MAX_DEPTH - d, |text|, 18
  {
    var s :- Next(d, State(text, End, End, 0, None, noeval, env));
    var r :- Commas(d, s);
    if r.st.cur != End then Err(Fault(SyntaxError, r.st.env)) else Ok(Looked(r.value, r.st.env))
  }

  /** `expcomma` */
  ghost function Commas(d: nat, s: State): (r: Outcome<Valued>)
    requires d <= MAX_DEPTH
    ensures Shrinks(s, r)
    decreases MAX_DEPTH - d, s.Left(), 17
  {
    var r := Assign(d, s);
    if r.Err? then r else CommaRest(d, r.value)
  }

  ghost function CommaRest(d: nat, x: Valued): (r: Outcome<Valued>)
    requires d <= MAX_DEPTH
    ensures NoGrowth(x.st, r)
    decreases MAX_DEPTH - d, x.st.Left(), 2
  {
    if x.st.cur != Comma then Ok(x)
    else
      var y := CommaStep(d, x);
      if y.Err? then y else CommaRest(d, y.value)
  }

  ghost function CommaStep(d: nat, x: Valued): (r: Outcome<Valued>)
    requires d <= MAX_DEPTH && x.st.cur == Comma
    ensures Shrinks(x.st, r)
    decreases MAX_DEPTH - d, x.st.Left(), 1
  {
    var s := Next(d, x.st);
    if s.Err? then Err(s.error) else Assign(d, s.value)
  }

  ghost function Bind(env: Env, noeval: nat, name: string, v: Intmax): Env {
    if noeval == 0 then env[name := Itos(v)] else env
  }

  /** `expassign` */
  ghost function Assign(d: nat, s: State): (r: Outcome<Valued>)
    requires d <= MAX_DEPTH
    ensures Shrinks(s, r)
    decreases MAX_DEPTH - d, s.Left(), 16
  {
    var l := Conditional(d, s);
    if l.Err? then l
    else
      var s1 := l.value.st;
      if s1.cur != Eq && !s1.cur.OpAssign? then l
      else if s1.last != Str then Err(Fault(NotVariable, s1.env))
      else if s1.name.None? then Err(Fault(NoVariable, s1.env))
      else Stored(d, l.value)
  }

  /** What an assignment does once the variable on its left is read. */
  ghost function Stored(d: nat, l: Valued): (r: Outcome<Valued>)
    requires d <= MAX_DEPTH && (l.st.cur == Eq || l.st.cur.OpAssign?) && l.st.name.Some?
    ensures Shrinks(l.st, r)
    decreases MAX_DEPTH - d, l.st.Left(), 1
  {
    var s := Next(d, l.st);
    if s.Err? then Err(s.error)
    else
      var r := Assign(d, s.value);
      if r.Err? then r else Put(l, r.value)
  }

  /** The variable on the left of an assignment gets the value of the operand on its right. */
  ghost function Put(l: Valued, r: Valued): Outcome<Valued>
    requires (l.st.cur == Eq || l.st.cur.OpAssign?) && l.st.name.Some?
  {
    var v := if l.st.cur == Eq then Ok(r.value) else Combine(l.st.cur.op, l.value, r.value, r.st.noeval);
    if v.Err? then Err(Fault(v.error, r.st.env))
    else Ok(Valued(v.value, r.st.(env := Bind(r.st.env, r.st.noeval, l.st.name.value, v.value), name := None)))
  }

  /** `expcond` */
  ghost function Conditional(d: nat, s: State): (r: Outcome<Valued>)
    requires d <= MAX_DEPTH
    ensures Shrinks(s, r)
    decreases MAX_DEPTH - d, s.Left(), 15
  {
    var c := Lors(d, s);
    if c.Err? || c.value.st.cur != Ques then c
    else
      var x := ThenPart(d, c.value);
      if x.Err? then x else ElsePart(d, c.value.value, x.value)
  }

  /** `? expr :` behind a test. */
  ghost function ThenPart(d: nat, c: Valued): (r: Outcome<Valued>)
    requires d <= MAX_DEPTH && c.st.cur == Ques
    ensures Shrinks(c.st, r) && (r.Ok? ==> r.value.st.cur == Col)
    decreases MAX_DEPTH - d, c.st.Left(), 1
  {
    var n := c.st.noeval;
    var s := Next(d, c.st.(noeval := if c.value != 0 then n else n + 1));
    if s.Err? then Err(s.error)
    else if s.value.cur == End || s.value.cur == Col then Err(Fault(ExpressionExpected, s.value.env))
    else
      var v := Commas(d, s.value);
      if v.Err? then v
      else if v.value.st.cur != Col then Err(Fault(ColonExpected, v.value.st.env))
      else Ok(Valued(v.value.value, v.value.st.(noeval := n)))
  }

  /** The part behind the colon. */
  ghost function ElsePart(d: nat, test: Intmax, x: Valued): (r: Outcome<Valued>)
    requires d <= MAX_DEPTH && x.st.cur == Col
    ensures Shrinks(x.st, r)
    decreases MAX_DEPTH - d, x.st.Left(), 1
  {
    var n := x.st.noeval;
    var s := Next(d, x.st.(noeval := if test != 0 then n + 1 else n));
    if s.Err? then Err(s.error)
    else if s.value.cur == End then Err(Fault(ExpressionExpected, s.value.env))
    else
      var v := Conditional(d, s.value);
      if v.Err? then v
      else Ok(Valued(if test != 0 then x.value else v.value.value, v.value.st.(noeval := n, last := CondEnd)))
  }

  /** `explor` */
  ghost function Lors(d: nat, s: State): (r: Outcome<Valued>)
    requires d <= MAX_DEPTH
    ensures Shrinks(s, r)
    decreases MAX_DEPTH - d, s.Left(), 14
  {
    var r := Lands(d, s);
    if r.Err? then r else LorRest(d, r.value)
  }

  ghost function LorRest(d: nat, x: Valued): (r: Outcome<Valued>)
    requires d <= MAX_DEPTH
    ensures NoGrowth(x.st, r)
    decreases MAX_DEPTH - d, x.st.Left(), 2
  {
    if x.st.cur != Lor then Ok(x)
    else
      var y := LorStep(d, x);
      if y.Err? then y else LorRest(d, y.value)
  }

  ghost function LorStep(d: nat, x: Valued): (r: Outcome<Valued>)
    requires d <= MAX_DEPTH && x.st.cur == Lor
    ensures Shrinks(x.st, r)
    decreases MAX_DEPTH - d, x.st.Left(), 1
  {
    var n := x.st.noeval;
    var s := Next(d, x.st.(noeval := if x.value != 0 then n + 1 else n));
    if s.Err? then Err(s.error)
    else
      var r := Lands(d, s.value);
      if r.Err? then r
      else Ok(Valued(Truth(x.value != 0 || r.value.value != 0), r.value.st.(noeval := n, last := Lor)))
  }

  /** `expland` */
  ghost function Lands(d: nat, s: State): (r: Outcome<Valued>)
    requires d <= MAX_DEPTH
    ensures Shrinks(s, r)
    decreases MAX_DEPTH - d, s.Left(), 13
  {
    var r := Level(d, 5, s);
    if r.Err? then r else LandRest(d, r.value)
  }

  ghost function LandRest(d: nat, x: Valued): (r: Outcome<Valued>)
    requires d <= MAX_DEPTH
    ensures NoGrowth(x.st, r)
    decreases MAX_DEPTH - d, x.st.Left(), 2
  {
    if x.st.cur != Land then Ok(x)
    else
      var y := LandStep(d, x);
      if y.Err? then y else LandRest(d, y.value)
  }

  ghost function LandStep(d: nat, x: Valued): (r: Outcome<Valued>)
    requires d <= MAX_DEPTH && x.st.cur == Land
    ensures Shrinks(x.st, r)
    decreases MAX_DEPTH - d, x.st.Left(), 1
  {
    var n := x.st.noeval;
    var s := Next(d, x.st.(noeval := if x.value == 0 then n + 1 else n));
    if s.Err? then Err(s.error)
    else
      var r := Level(d, 5, s.value);
      if r.Err? then r
      else Ok(Valued(Truth(x.value != 0 && r.value.value != 0), r.value.st.(noeval := n, last := Land)))
  }

  /** `expbor` to `expmuldiv`: the left-associative operators of level n; level 13 is `exppower`. */
  ghost function Level(d: nat, n: nat, s: State): (r: Outcome<Valued>)
    requires d <= MAX_DEPTH && 5 <= n <= 13
    ensures Shrinks(s, r)
    decreases MAX_DEPTH - d, s.Left(), 17 - n
  {
    if n == 13 then Powers(d, s)
    else
      var r := Level(d, n + 1, s);
      if r.Err? then r else LevelRest(d, n, r.value)
  }

  /** The tokens an operator loop takes. */
  predicate OfLevel(t: Token, n: nat) {
    t.Bin? && LevelOf(t.op) == n
  }

  ghost function LevelRest(d: nat, n: nat, x: Valued): (r: Outcome<Valued>)
    requires d <= MAX_DEPTH && 5 <= n <= 12
    ensures NoGrowth(x.st, r)
    decreases MAX_DEPTH - d, x.st.Left(), 2
  {
    if !OfLevel(x.st.cur, n) then Ok(x)
    else
      var y := LevelStep(d, n, x);
      if y.Err? then y else LevelRest(d, n, y.value)
  }

  ghost function LevelStep(d: nat, n: nat, x: Valued): (r: Outcome<Valued>)
    requires d <= MAX_DEPTH && 5 <= n <= 12 && x.st.cur.Bin?
    ensures Shrinks(x.st, r)
    decreases MAX_DEPTH - d, x.st.Left(), 1
  {
    var op := x.st.cur.op;
    var s := Next(d, x.st);
    if s.Err? then Err(s.error)
    else
      var r := Level(d, n + 1, s.value);
      if r.Err? then r
      else
        var v := Combine(op, x.value, r.value.value, r.value.st.noeval);
        if v.Err? then Err(Fault(v.error, r.value.st.env)) else Ok(Valued(v.value, Settled(op, x.value, r.value)))
  }

  /** The last token after a binary operation counts as a number, except after INTMAX_MIN % -1. */
  ghost function Settled(op: BinOp, a: Intmax, r: Valued): State {
    if op == Mod && a == INTMAX_MIN && r.value == -1 then r.st else r.st.(last := Num)
  }

  /** `exppower` */
  ghost function Powers(d: nat, s: State): (r: Outcome<Valued>)
    requires d <= MAX_DEPTH
    ensures Shrinks(s, r) && (r.Ok? ==> r.value.st.cur != Power)
    decreases MAX_DEPTH - d, s.Left(), 3
  {
    var r := Unaries(d, s);
    if r.Err? then r else PowerRest(d, r.value)
  }

  ghost function PowerRest(d: nat, x: Valued): (r: Outcome<Valued>)
    requires d <= MAX_DEPTH
    ensures NoGrowth(x.st, r) && (r.Ok? ==> r.value.st.cur != Power)
    decreases MAX_DEPTH - d, x.st.Left(), 2
  {
    if x.st.cur != Power then Ok(x) else PowerStep(d, x)
  }

  /** The exponent takes all further `**`, so one step is all there is. */
  ghost function PowerStep(d: nat, x: Valued): (r: Outcome<Valued>)
    requires d <= MAX_DEPTH && x.st.cur == Power
    ensures Shrinks(x.st, r) && (r.Ok? ==> r.value.st.cur != Power)
    decreases MAX_DEPTH - d, x.st.Left(), 1
  {
    var s := Next(d, x.st);
    if s.Err? then Err(s.error)
    else
      var r := Powers(d, s.value);
      if r.Err? then r
      else
        var s2 := r.value.st.(last := Num);
        if s2.noeval > 0 then Ok(Valued(1, s2))
        else if r.value.value < 0 then Err(Fault(NegativeExponent, s2.env))
        else Ok(Valued(Wrap(ExprNumbers.Power(x.value, r.value.value)), s2))
  }

  function UnaryValue(t: Token, v: Intmax): Intmax
    requires t == Not || t == Bnot || t == Bin(Minus) || t == Bin(Plus)
  {
    var n: int := v;
    if t == Not then Truth(n == 0)
    else if t == Bnot then Wrap(-n - 1)
    else if t == Bin(Minus) then Wrap(-n)
    else n
  }

  ghost predicate IsUnary(t: Token) {
    t == Not || t == Bnot || t == Bin(Minus) || t == Bin(Plus)
  }

  /** `expunary` */
  ghost function Unaries(d: nat, s: State): (r: Outcome<Valued>)
    requires d <= MAX_DEPTH
    ensures Shrinks(s, r)
    decreases MAX_DEPTH - d, s.Left(), 2
  {
    if !IsUnary(s.cur) then Primary(d, s)
    else
      var s1 := Next(d, s);
      if s1.Err? then Err(s1.error)
      else
        var r := Unaries(d, s1.value);
        if r.Err? then r
        else Ok(Valued(UnaryValue(s.cur, r.value.value), r.value.st.(last := Num)))
  }

  /** `exp0` */
  ghost function Primary(d: nat, s: State): (r: Outcome<Valued>)
    requires d <= MAX_DEPTH
    ensures Shrinks(s, r)
    decreases MAX_DEPTH - d, s.Left(), 1
  {
    if s.cur == PreInc || s.cur == PreDec then
      var s1 := Next(d, s.(last := s.cur));
      if s1.Err? then Err(s1.error)
      else if s1.value.cur != Str then Err(Fault(IdentifierExpected, s1.value.env))
      else Bumped(d, s1.value, s.cur == PreInc, s1.value.val)
    else if s.cur == Lpar then
      var s1 := Next(d, s);
      if s1.Err? then Err(s1.error)
      else
        var r := Commas(d, s1.value);
        if r.Err? then r
        else if r.value.st.cur != Rpar then Err(Fault(MissingParen, r.value.st.env))
        else Passed(d, r.value.st, r.value.value)
    else if s.cur == Num then Passed(d, s, s.val)
    else if s.cur == Str then
      var peek := Next(d, s.(name := None, noeval := 1));
      if peek.Err? then Err(peek.error)
      else if peek.value.cur == PostInc || peek.value.cur == PostDec then
        BumpedBehind(d, peek.value.(name := s.name, noeval := s.noeval, last := Str),
                     peek.value.cur == PostInc, s.val)
      else Passed(d, s, s.val)
    else Err(Fault(OperandExpected, s.env))
  }

  /** Reads on behind an operand. */
  ghost function Passed(d: nat, s: State, v: Intmax): (r: Outcome<Valued>)
    requires d <= MAX_DEPTH && s.cur != End
    ensures Shrinks(s, r)
    decreases MAX_DEPTH - d, s.Left(), 0, 1
  {
    var s1 := Next(d, s);
    if s1.Err? then Err(s1.error) else Ok(Valued(v, s1.value))
  }

  /** Binds the variable just read to v plus or minus one, counts it as a number and reads on. */
  ghost function Bumped(d: nat, s: State, up: bool, v: Intmax): (r: Outcome<Valued>)
    requires d <= MAX_DEPTH && s.cur != End
    ensures Shrinks(s, r)
    decreases MAX_DEPTH - d, s.Left(), 0, 2
  {
    var v2 := Wrap(if up then v + 1 else v - 1);
    var env := if s.name.Some? then Bind(s.env, s.noeval, s.name.value, v2) else s.env;
    Passed(d, s.(cur := Num, env := env), v2)
  }

  /** A bump behind a name: the value is the one before it. */
  ghost function BumpedBehind(d: nat, s: State, up: bool, v: Intmax): (r: Outcome<Valued>)
    requires d <= MAX_DEPTH && s.cur != End
    ensures Shrinks(s, r)
    decreases MAX_DEPTH - d, s.Left(), 0, 3
  {
    var r := Bumped(d, s, up, v);
    if r.Err? then r else Ok(Valued(v, r.value.st))
  }

  lemma CommasIs(d: nat, s: State)
    requires d <= MAX_DEPTH
    ensures Commas(d, s) == var r := Assign(d, s); if r.Err? then r else CommaRest(d, r.value)
  {
  }

  lemma CommaRestIs(d: nat, x: Valued)
    requires d <= MAX_DEPTH
    ensures CommaRest(d, x) ==
      if x.st.cur != Comma then Ok(x)
      else var y := CommaStep(d, x); if y.Err? then y else CommaRest(d, y.value)
  {
  }

  lemma ElsePartIs(d: nat, test: Intmax, x: Valued)
    requires d <= MAX_DEPTH && x.st.cur == Col
    ensures ElsePart(d, test, x) ==
      var n := x.st.noeval;
      var s := Next(d, x.st.(noeval := if test != 0 then n + 1 else n));
      if s.Err? then Err(s.error)
      else if s.value.cur == End then Err(Fault(ExpressionExpected, s.value.env))
      else
        var v := Conditional(d, s.value);
        if v.Err? then v
        else Ok(Valued(if test != 0 then x.value else v.value.value, v.value.st.(noeval := n, last := CondEnd)))
  {
  }

  lemma LorsIs(d: nat, s: State)
    requires d <= MAX_DEPTH
    ensures Lors(d, s) == var r := Lands(d, s); if r.Err? then r else LorRest(d, r.value)
  {
  }

  lemma LorRestIs(d: nat, x: Valued)
    requires d <= MAX_DEPTH
    ensures LorRest(d, x) ==
      if x.st.cur != Lor then Ok(x)
      else var y := LorStep(d, x); if y.Err? then y else LorRest(d, y.value)
  {
  }

  lemma LandsIs(d: nat, s: State)
    requires d <= MAX_DEPTH
    ensures Lands(d, s) == var r := Level(d, 5, s); if r.Err? then r else LandRest(d, r.value)
  {
  }

  lemma LandRestIs(d: nat, x: Valued)
    requires d <= MAX_DEPTH
    ensures LandRest(d, x) ==
      if x.st.cur != Land then Ok(x)
      else var y := LandStep(d, x); if y.Err? then y else LandRest(d, y.value)
  {
  }

  lemma LevelIs(d: nat, n: nat, s: State)
    requires d <= MAX_DEPTH && 5 <= n <= 13
    ensures Level(d, n, s) ==
      if n == 13 then Powers(d, s)
      else var r := Level(d, n + 1, s); if r.Err? then r else LevelRest(d, n, r.value)
  {
  }

  lemma LevelRestIs(d: nat, n: nat, x: Valued)
    requires d <= MAX_DEPTH && 5 <= n <= 12
    ensures LevelRest(d, n, x) ==
      if !OfLevel(x.st.cur, n) then Ok(x)
      else var y := LevelStep(d, n, x); if y.Err? then y else LevelRest(d, n, y.value)
  {
  }

  lemma BumpedIs(d: nat, s: State, up: bool, v: Intmax)
    requires d <= MAX_DEPTH && s.cur != End
    ensures var v2 := Wrap(if up then v + 1 else v - 1);
      var env := if s.name.Some? then Bind(s.env, s.noeval, s.name.value, v2) else s.env;
      Bumped(d, s, up, v) == Passed(d, s.(cur := Num, env := env), v2)
  {
  }

  lemma BumpedBehindIs(d: nat, s: State, up: bool, v: Intmax)
    requires d <= MAX_DEPTH && s.cur != End
    ensures BumpedBehind(d, s, up, v) ==
      var r := Bumped(d, s, up, v); if r.Err? then r else Ok(Valued(v, r.value.st))
  {
  }

  lemma PassedIs(d: nat, s: State, v: Intmax)
    requires d <= MAX_DEPTH && s.cur != End
    ensures Passed(d, s, v) == var s1 := Next(d, s); if s1.Err? then Err(s1.error) else Ok(Valued(v, s1.value))
  {
  }

  lemma PowersIs(d: nat, s: State)
    requires d <= MAX_DEPTH
    ensures Powers(d, s) ==
      var r := Unaries(d, s);
      if r.Err? then r else if r.value.st.cur != Power then r else PowerStep(d, r.value)
  {
  }

  lemma PowerStepIs(d: nat, x: Valued)
    requires d <= MAX_DEPTH && x.st.cur == Power
    ensures PowerStep(d, x) ==
      var s := Next(d, x.st);
      if s.Err? then Err(s.error)
      else
        var r := Powers(d, s.value);
        if r.Err? then r
        else
          var s2 := r.value.st.(last := Num);
          if s2.noeval > 0 then Ok(Valued(1, s2))
          else if r.value.value < 0 then Err(Fault(NegativeExponent, s2.env))
          else Ok(Valued(Wrap(ExprNumbers.Power(x.value, r.value.value)), s2))
  {
  }

  lemma PrimaryNameIs(d: nat, s: State)
    requires d <= MAX_DEPTH && s.cur == Str
    ensures Primary(d, s) ==
      var peek := Next(d, s.(name := None, noeval := 1));
      if peek.Err? then Err(peek.error)
      else if peek.value.cur == PostInc || peek.value.cur == PostDec then
        BumpedBehind(d, peek.value.(name := s.name, noeval := s.noeval, last := Str),
                     peek.value.cur == PostInc, s.val)
      else Passed(d, s, s.val)
  {
  }

  lemma AssignIs(d: nat, s: State)
    requires d <= MAX_DEPTH
    ensures Assign(d, s) ==
      var l := Conditional(d, s);
      if l.Err? then l
      else if l.value.st.cur != Eq && !l.value.st.cur.OpAssign? then l
      else if l.value.st.last != Str then Err(Fault(NotVariable, l.value.st.env))
      else if l.value.st.name.None? then Err(Fault(NoVariable, l.value.st.env))
      else Stored(d, l.value)
  {
  }

  /** Reads a token and then an operand of level n, with evaluation off if asked. */
  ghost function Operand(d: nat, n: nat, off: bool, s: State): (r: Outcome<Valued>)
    requires d <= MAX_DEPTH && 4 <= n <= 13
    ensures r.Ok? ==> r.value.st.Left() < s.Left() || s.cur == End
    ensures r.Ok? ==> r.value.st.noeval == s.noeval
  {
    var s1 := Next(d, s.(noeval := if off then s.noeval + 1 else s.noeval));
    if s1.Err? then Err(s1.error)
    else
      var r := if n == 4 then Lands(d, s1.value) else Level(d, n, s1.value);
      if r.Err? then r else Ok(Valued(r.value.value, r.value.st.(noeval := s.noeval)))
  }

  lemma LevelGoesOn(d: nat, n: nat, x: Valued)
    requires d <= MAX_DEPTH && 5 <= n <= 12 && OfLevel(x.st.cur, n)
    ensures x.st.cur.Bin? && (n <= 11 ==> x.st.cur.op != Div && x.st.cur.op != Mod)
    ensures LevelRest(d, n, x) ==
      var r := Operand(d, n + 1, false, x.st);
      if r.Err? then r
      else
        var v := Combine(x.st.cur.op, x.value, r.value.value, r.value.st.noeval);
        if v.Err? then Err(Fault(v.error, r.value.st.env))
        else LevelRest(d, n, Valued(v.value, Settled(x.st.cur.op, x.value, r.value)))
  {
    hide Next, Level, Combine, Settled;
    LevelRestIs(d, n, x);
  }

  lemma LorGoesOn(d: nat, x: Valued)
    requires d <= MAX_DEPTH && x.st.cur == Lor
    ensures LorRest(d, x) ==
      var r := Operand(d, 4, x.value != 0, x.st);
      if r.Err? then r
      else LorRest(d, Valued(Truth(x.value != 0 || r.value.value != 0), r.value.st.(last := Lor)))
  {
    hide Next, Lands, Truth;
    LorRestIs(d, x);
  }

  lemma LandGoesOn(d: nat, x: Valued)
    requires d <= MAX_DEPTH && x.st.cur == Land
    ensures LandRest(d, x) ==
      var r := Operand(d, 5, x.value == 0, x.st);
      if r.Err? then r
      else LandRest(d, Valued(Truth(x.value != 0 && r.value.value != 0), r.value.st.(last := Land)))
  {
    hide Next, Level, Truth;
    LandRestIs(d, x);
  }

  lemma InsideFails(d: nat, text: string, noeval: nat, env: Env)
    requires d <= MAX_DEPTH
    ensures var s := Next(d, State(text, End, End, 0, None, noeval, env));
      s.Err? ==> Inside(d, text, noeval, env) == Err(s.error)
  {
  }
}
