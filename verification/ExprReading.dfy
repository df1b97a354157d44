/** Reading printed text back token by token. */
module ExprReading {
  import opened Chars
  import opened Wrappers
  import opened ExprErrors
  import opened ExprLiterals
  import opened ExprTokens
  import opened ExprSpec
  import opened ExprTree

  /** Text behind a token: the end, or a space. */
  predicate Apart(u: string) {
    u == "" || u[0] == ' '
  }

  /** Operators whose reading does not depend on what is around them. */
  predicate Plain(t: Token) {
    match t
    case Bin(_) => true
    case OpAssign(op) => Updating(op)
    case Eq | Land | Lor | Power | Not | Bnot | Lpar | Rpar | Ques | Col | Comma => true
    case _ => false
  }

  /** The operators of one character. */
  lemma SingleSigns()
    ensures SingleOp('*') == Some(Bin(Mul)) && SingleOp('/') == Some(Bin(Div)) && SingleOp('%') == Some(Bin(Mod))
    ensures SingleOp('+') == Some(Bin(Plus)) && SingleOp('-') == Some(Bin(Minus))
    ensures SingleOp('<') == Some(Bin(Lt)) && SingleOp('>') == Some(Bin(Gt))
    ensures SingleOp('&') == Some(Bin(Band)) && SingleOp('^') == Some(Bin(Bxor)) && SingleOp('|') == Some(Bin(Bor))
    ensures SingleOp('=') == Some(Eq) && SingleOp('!') == Some(Not) && SingleOp('~') == Some(Bnot)
    ensures SingleOp('(') == Some(Lpar) && SingleOp(')') == Some(Rpar) && SingleOp(',') == Some(Comma)
    ensures SingleOp('?') == Some(Ques) && SingleOp(':') == Some(Col)
  {
  }

  lemma ReadBin(op: BinOp, u: string, cur: Token, last: Token)
    requires Apart(u)
    ensures Operator(BinSign(op) + u, cur, last) == Ok(Lexeme(Bin(op), |BinSign(op)|))
  {
    var t, sign := BinSign(op) + u, BinSign(op);
    hide SkipBlanks, NameStart, SingleOp;
    assert t[0] == sign[0] && At(t, 1) == if |sign| == 2 then sign[1] else At(u, 0);
    assert |sign| == 2 ==> At(t, 2) == At(u, 0);
    SingleSigns();
  }

  lemma ShiftUpdate(t: string, op: BinOp, cur: Token, last: Token)
    requires (op == Lsh && "<<=" <= t) || (op == Rsh && ">>=" <= t)
    ensures Operator(t, cur, last) == Ok(Lexeme(OpAssign(op), 3))
  {
    hide SkipBlanks, NameStart, SingleOp;
  }

  lemma OneUpdate(t: string, op: BinOp, cur: Token, last: Token)
    requires |t| > 1 && t[1] == '=' && t[0] != '=' && t[0] != '!' && t[0] != '<' && t[0] != '>'
    requires SingleOp(t[0]) == Some(Bin(op)) && AssignOp(op)
    ensures Operator(t, cur, last) == Ok(Lexeme(OpAssign(op), 2))
  {
    hide SkipBlanks, NameStart, SingleOp, AssignOp;
  }

  lemma ReadUpdate(op: BinOp, u: string, cur: Token, last: Token)
    requires Apart(u) && Updating(op)
    ensures Operator(BinSign(op) + "=" + u, cur, last) == Ok(Lexeme(OpAssign(op), |BinSign(op)| + 1))
  {
    hide Operator, SingleOp;
    SingleSigns();
    if op == Lsh || op == Rsh {
      ShiftUpdate(BinSign(op) + "=" + u, op, cur, last);
    } else {
      OneUpdate(BinSign(op) + "=" + u, op, cur, last);
    }
  }

  lemma SignFirst(op: BinOp)
    ensures BinSign(op) != "" && (BinSign(op) + "=")[0] == BinSign(op)[0]
    ensures !NameStart(BinSign(op)[0]) && !IsDigit(BinSign(op)[0]) && !IsBlank(BinSign(op)[0])
  {
  }

  lemma ReadOther(t: Token, u: string, cur: Token, last: Token)
    requires Apart(u) && Plain(t) && !t.Bin? && !t.OpAssign?
    ensures Operator(Sign(t) + u, cur, last) == Ok(Lexeme(t, |Sign(t)|))
  {
    var s, sign := Sign(t) + u, Sign(t);
    hide SkipBlanks, NameStart, SingleOp;
    assert s[0] == sign[0] && At(s, 1) == if |sign| == 2 then sign[1] else At(u, 0);
    SingleSigns();
  }

  lemma ReadPlain(t: Token, u: string, cur: Token, last: Token)
    requires Apart(u) && Plain(t)
    ensures Operator(Sign(t) + u, cur, last) == Ok(Lexeme(t, |Sign(t)|))
    ensures Sign(t) != "" && !NameStart(Sign(t)[0]) && !IsDigit(Sign(t)[0]) && !IsBlank(Sign(t)[0])
  {
    if t.Bin? {
      ReadBin(t.op, u, cur, last);
      SignFirst(t.op);
      hide Operator, BinSign;
    } else if t.OpAssign? {
      ReadUpdate(t.op, u, cur, last);
      SignFirst(t.op);
      hide Operator, BinSign;
    } else {
      ReadOther(t, u, cur, last);
      hide Operator;
    }
  }

  lemma SkipOne(t: string)
    requires t != "" && !IsBlank(t[0])
    ensures SkipBlanks(" " + t) == t
  {
    assert (" " + t)[1..] == t;
  }

  lemma NextAtOperator(d: nat, s: State, t: string)
    requires d <= MAX_DEPTH && SkipBlanks(s.rest) == t && t != "" && !NameStart(t[0]) && !IsDigit(t[0])
    ensures var op := Operator(t, s.cur, s.last);
      Next(d, s) == if op.Err? then Err(Fault(op.error, s.env))
                    else Ok(s.(rest := t[op.value.length..], last := s.cur, cur := op.value.token))
  {
    hide SkipBlanks, Operator, NameStart;
  }

  /** A word and what stands apart from it. */
  lemma WordSplit(w: string, u: string)
    requires w != "" && !IsBlank(w[0])
    ensures w + u != "" && (w + u)[0] == w[0] && (w + u)[..|w|] == w && (w + u)[|w|..] == u
    ensures SkipBlanks(Word(w) + u) == w + u
  {
    assert Word(w) + u == " " + (w + u);
    SkipOne(w + u);
  }

  /** Reading an operator in front of the rest of the text. */
  lemma NextPlain(d: nat, s: State, t: Token, u: string)
    requires d <= MAX_DEPTH && Plain(t) && Apart(u) && s.rest == Word(Sign(t)) + u
    ensures Next(d, s) == Ok(s.(rest := u, last := s.cur, cur := t))
  {
    hide *;
    ReadPlain(t, u, s.cur, s.last);
    WordSplit(Sign(t), u);
    NextAtOperator(d, s, Sign(t) + u);
  }

  lemma NextEnd(d: nat, s: State)
    requires d <= MAX_DEPTH && s.rest == ""
    ensures Next(d, s) == Ok(s.(last := s.cur, cur := End))
  {
  }

  lemma {:induction false} WholeName(name: string, u: string)
    requires (forall k | 0 <= k < |name| :: NameChar(name[k])) && Apart(u)
    ensures NameLength(name + u) == |name|
  {
    if name != "" {
      assert (name + u)[1..] == name[1..] + u;
      WholeName(name[1..], u);
    } else {
      assert name + u == u;
    }
  }

  lemma {:induction false} WholeLiteral(num: string, u: string)
    requires (forall k | 0 <= k < |num| :: LiteralChar(num[k])) && Apart(u)
    ensures LiteralLength(num + u) == |num|
  {
    if num != "" {
      assert (num + u)[1..] == num[1..] + u;
      WholeLiteral(num[1..], u);
    } else {
      assert num + u == u;
    }
  }

  lemma NextLiteral(d: nat, s: State, num: string, u: string)
    requires d <= MAX_DEPTH && Literal(num) && Apart(u) && s.rest == Word(num) + u
    ensures Next(d, s) == Ok(s.(rest := u, val := LiteralValue(num).value, last := s.cur, cur := Num))
  {
    WordSplit(num, u);
    WholeLiteral(num, u);
    hide SkipBlanks, LiteralLength, LiteralValue, LiteralChar, Word;
  }

  /** The state that looks ahead behind a name. */
  ghost function Looking(s: State, u: string): State {
    s.(rest := u, cur := Str, name := None, noeval := 1)
  }

  lemma NextAtName(d: nat, s: State, t: string, n: nat)
    requires d <= MAX_DEPTH && SkipBlanks(s.rest) == t && t != "" && NameStart(t[0])
    requires n == NameLength(t) <= |t| && At(t[n..], 0) != '['
    ensures var peek := Next(d, Looking(s, t[n..]));
      Next(d, s) == if peek.Err? then Err(peek.error)
                    else Named(d, s.(rest := t[n..], name := Some(t[..n])), t[..n], peek.value.cur)
  {
    hide SkipBlanks, NameLength, NameStart, Operator, Named;
    assert Looking(s, t[n..]) == s.(rest := t[n..], name := Some(t[..n])).(cur := Str, name := None, noeval := 1);
  }

  lemma NamedIs(d: nat, s: State, name: string, peek: Token)
    requires d <= MAX_DEPTH
    ensures Named(d, s, name, peek) ==
      if s.last == PreInc || s.last == PreDec || peek != Eq then
        var x := Lookup(d, name, s.noeval, s.env);
        if x.Err? then Err(x.error)
        else Ok(s.(val := x.value.value, env := x.value.env, last := s.cur, cur := Str))
      else Ok(s.(val := 0, last := s.cur, cur := Str))
  {
    hide Lookup;
  }

  lemma NameFirst(name: string, u: string)
    requires Identifier(name) && Apart(u)
    ensures name != "" && NameStart(name[0]) && !IsBlank(name[0]) && (forall k | 0 <= k < |name| :: NameChar(name[k]))
    ensures At(u, 0) != '['
  {
    hide NameChar;
  }

  /** Reading a name: the token behind it decides whether the variable is evaluated. */
  lemma NextName(d: nat, s: State, name: string, u: string)
    requires d <= MAX_DEPTH && Identifier(name) && Apart(u) && s.rest == Word(name) + u
    requires Next(d, Looking(s, u)).Ok?
    ensures var evaluated := s.last == PreInc || s.last == PreDec || Next(d, Looking(s, u)).value.cur != Eq;
      var s1 := s.(rest := u, name := Some(name), last := s.cur, cur := Str);
      if evaluated then
        var x := Lookup(d, name, s.noeval, s.env);
        Next(d, s) == if x.Err? then Err(x.error) else Ok(s1.(val := x.value.value, env := x.value.env))
      else Next(d, s) == Ok(s1.(val := 0))
  {
    hide *;
    NameFirst(name, u);
    WordSplit(name, u);
    WholeName(name, u);
    NextAtName(d, s, name + u, |name|);
    NamedIs(d, s.(rest := u, name := Some(name)), name, Next(d, Looking(s, u)).value.cur);
  }

  lemma ReadTwice(up: bool, v: string, cur: Token, last: Token)
    requires v != "" && v[0] == ' '
    ensures var t := Twice(up) + v;
      && t[0] == Twice(up)[0] && t[1] == t[0] && t[2..] == v && !IsBlank(t[0]) && !NameStart(t[0]) && !IsDigit(t[0])
      && (cur == Str ==> Operator(t, cur, last) == Ok(Lexeme(if up then PostInc else PostDec, 2)))
      && (cur != Str && cur != Num && NameStart(At(SkipBlanks(v), 0)) ==>
            Operator(t, cur, last) == Ok(Lexeme(if up then PreInc else PreDec, 2)))
  {
    var t := Twice(up) + v;
    assert t[0] == Twice(up)[0] && t[1] == Twice(up)[1] && t[2..] == v;
    hide SkipBlanks, NameStart, SingleOp;
  }

  lemma ReadTwiceEnd(up: bool, last: Token)
    ensures Operator(Twice(up), Str, last) == Ok(Lexeme(if up then PostInc else PostDec, 2))
  {
    hide SkipBlanks, NameStart, SingleOp;
  }

  lemma TwiceFirst(up: bool)
    ensures |Twice(up)| == 2 && !NameStart(Twice(up)[0]) && !IsDigit(Twice(up)[0]) && !IsBlank(Twice(up)[0])
  {
  }

  lemma NameFirst1(name: string)
    requires Identifier(name)
    ensures name != "" && NameStart(name[0]) && !IsBlank(name[0])
  {
  }

  lemma WordFirst(w: string, u: string)
    ensures Word(w) + u != "" && (Word(w) + u)[0] == ' '
    ensures w != "" ==> At(w + u, 0) == w[0]
  {
  }

  lemma ApartFirst(u: string)
    requires Apart(u)
    ensures u == "" || u[0] == ' '
  {
  }

  /** `++` or `--` in front of a name... */
  lemma NextPre(d: nat, s: State, up: bool, name: string, u: string)
    requires d <= MAX_DEPTH && s.cur != Str && s.cur != Num && Identifier(name)
    requires s.rest == Word(Twice(up)) + (Word(name) + u)
    ensures Next(d, s) == Ok(s.(rest := Word(name) + u, last := s.cur, cur := if up then PreInc else PreDec))
  {
    hide *;
    var v := Word(name) + u;
    NameFirst1(name);
    WordSplit(name, u);
    TwiceFirst(up);
    WordSplit(Twice(up), v);
    WordFirst(name, u);
    ReadTwice(up, v, s.cur, s.last);
    NextAtOperator(d, s, Twice(up) + v);
  }

  /** ... and behind one. */
  lemma NextPost(d: nat, s: State, up: bool, u: string)
    requires d <= MAX_DEPTH && s.cur == Str && Apart(u)
    requires s.rest == Word(Twice(up)) + u
    ensures Next(d, s) == Ok(s.(rest := u, last := s.cur, cur := if up then PostInc else PostDec))
  {
    hide *;
    TwiceFirst(up);
    WordSplit(Twice(up), u);
    ApartFirst(u);
    if u == "" {
      assert Twice(up) + u == Twice(up);
      ReadTwiceEnd(up, s.last);
    } else {
      ReadTwice(up, u, s.cur, s.last);
    }
    NextAtOperator(d, s, Twice(up) + u);
  }
}
