/** What the operators do that assign, choose or follow one another, read off the text as in ExprText. */
module ExprEffects {
  import opened Numbers
  import opened ExprErrors
  import opened ExprNumbers
  import opened ExprTokens
  import opened ExprSpec
  import opened ExprTree
  import opened ExprLaws
  import opened ExprText

  /** The operators that have an assignment form. */
  predicate Assigning(s: string) {
    s == "*" || s == "/" || s == "%" || s == "+" || s == "-" || s == "<<" || s == ">>" ||
    s == "&" || s == "^" || s == "|"
  }

  lemma SetPrinted(x: string, y: string, z: string)
    ensures Print(Set(x, Var(y)), 0) == Two(x, "=", y)
    ensures Print(Set(x, Set(y, Var(z))), 0) == Three(x, "=", y, "=", z)
  {
    VarPrinted(y, 1);
    VarPrinted(z, 1);
    Unbracketed(Set(x, Var(y)), 0);
    Unbracketed(Set(y, Var(z)), 1);
    Unbracketed(Set(x, Set(y, Var(z))), 0);
    hide Print;
  }

  /** `x = y` stores the value of y and has it; the old value of x does not matter. */
  lemma Assigned(d: nat, x: string, y: string, b: Intmax, env: Env)
    requires d + 1 < MAX_DEPTH && Identifier(x) && Holds(env, y, b)
    ensures Subexpr(d, Two(x, "=", y), 0, env) == Ok(Looked(b, env[x := Itos(b)]))
  {
    hide Subexpr, Lookup, Itos, Print, Two;
    HeldValue(d + 1, y, b, env);
    SetPrinted(x, y, y);
    Agreement(d, Set(x, Var(y)), env);
  }

  /** `x = y = z` stores the value of z in both. */
  lemma AssignedTwice(d: nat, x: string, y: string, z: string, c: Intmax, env: Env)
    requires d + 1 < MAX_DEPTH && Identifier(x) && Identifier(y) && Holds(env, z, c)
    ensures Subexpr(d, Three(x, "=", y, "=", z), 0, env) == Ok(Looked(c, env[y := Itos(c)][x := Itos(c)]))
  {
    hide Subexpr, Lookup, Itos, Print, Three;
    HeldValue(d + 1, z, c, env);
    SetPrinted(x, y, z);
    SetMeans(d + 1, y, Var(z), c, env, env);
    SetMeans(d + 1, x, Set(y, Var(z)), c, env, env[y := Itos(c)]);
    Agreement(d, Set(x, Set(y, Var(z))), env);
  }

  lemma SetMeans(d: nat, x: string, e: Tree, v: Intmax, env: Env, after: Env)
    requires d <= MAX_DEPTH && Identifier(x) && WellFormed(e) && Meaning(d, e, env) == Ok(Looked(v, after))
    ensures WellFormed(Set(x, e)) && Meaning(d, Set(x, e), env) == Ok(Looked(v, after[x := Itos(v)]))
  {
    hide Lookup, Itos, Identifier;
  }

  lemma UpdatePrinted(x: string, s: string, y: string)
    requires Assigning(s)
    ensures Updating(OpOf(s)) && Known(s) && s != "**"
    ensures Print(Update(OpOf(s), x, Var(y)), 0) == Two(x, s + "=", y)
  {
    SignOf(s);
    VarPrinted(y, 1);
    hide OpOf, BinSign;
    Unbracketed(Update(OpOf(s), x, Var(y)), 0);
    hide Print;
  }

  /** `x op= y` stores what the operator makes of both values, and has it; an error stores nothing. */
  lemma Updated(d: nat, x: string, s: string, y: string, a: Intmax, b: Intmax, env: Env)
    returns (r: Checked<Intmax>)
    requires d + 1 < MAX_DEPTH && Assigning(s) && Holds(env, x, a) && Holds(env, y, b)
    ensures Gives(s, a, b, r)
    ensures Subexpr(d, Two(x, s + "=", y), 0, env)
         == Answer(r, if r.Ok? then env[x := Itos(r.value)] else env)
  {
    UpdateOf(s);
    hide Subexpr, Lookup, Itos, Print, Two, OpOf, Denotes, Combine, Gives, Updating, Assigning, Rank;
    HeldValue(d + 1, x, a, env);
    HeldValue(d + 1, y, b, env);
    CombineGives(s, a, b);
    r := Combine(OpOf(s), a, b, 0);
    UpdatePrinted(x, s, y);
    Agreement(d, Update(OpOf(s), x, Var(y)), env);
  }

  lemma UpdateOf(s: string)
    requires Assigning(s)
    ensures Updating(OpOf(s)) && Known(s) && s != "**"
  {
  }

  /** `++ x` and `-- x` store and have the number one up or down; `x ++` and `x --` store it, and have the
      old one. */
  lemma Bumps(d: nat, up: bool, x: string, a: Intmax, env: Env) returns (v: Intmax)
    requires d + 1 < MAX_DEPTH && Holds(env, x, a)
    ensures Same(v, if up then a as int + 1 else a as int - 1)
    ensures var sign := if up then "++" else "--";
      && Subexpr(d, Word(sign) + Word(x), 0, env) == Ok(Looked(v, env[x := Itos(v)]))
      && Subexpr(d, Word(x) + Word(sign), 0, env) == Ok(Looked(a, env[x := Itos(v)]))
  {
    v := Wrap(if up then a + 1 else a - 1);
    BumpPrinted(up, x);
    hide Subexpr, Lookup, Itos, Print, Wrap;
    HeldValue(d + 1, x, a, env);
    Agreement(d, Bump(true, up, x), env);
    Agreement(d, Bump(false, up, x), env);
  }

  lemma BumpPrinted(up: bool, x: string)
    ensures Print(Bump(true, up, x), 0) == Word(if up then "++" else "--") + Word(x)
    ensures Print(Bump(false, up, x), 0) == Word(x) + Word(if up then "++" else "--")
  {
  }

  /** `x ? y : z` has the value of y if x is not zero, and otherwise of z. */
  lemma Chosen(d: nat, x: string, y: string, z: string, a: Intmax, b: Intmax, c: Intmax, env: Env)
    requires d + 1 < MAX_DEPTH && Holds(env, x, a) && Holds(env, y, b) && Holds(env, z, c)
    ensures Subexpr(d, Three(x, "?", y, ":", z), 0, env) == Ok(Looked(if a != 0 then b else c, env))
  {
    hide Subexpr, Lookup, Itos, Print, Three;
    HeldValue(d + 1, x, a, env);
    HeldValue(d + 1, y, b, env);
    HeldValue(d + 1, z, c, env);
    ChoicePrinted(x, y, z);
    Agreement(d, IfThen(Var(x), Var(y), Var(z)), env);
  }

  lemma ChoicePrinted(x: string, y: string, z: string)
    ensures Print(IfThen(Var(x), Var(y), Var(z)), 0) == Three(x, "?", y, ":", z)
  {
    VarPrinted(x, 3);
    VarPrinted(y, 0);
    VarPrinted(z, 2);
    Unbracketed(IfThen(Var(x), Var(y), Var(z)), 0);
    hide Print;
  }

  /** Only the branch chosen is evaluated: an assignment in the other one does not happen. */
  lemma ChosenAlone(d: nat, x: string, y: string, z: string, a: Intmax, c: Intmax, env: Env)
    requires d + 1 < MAX_DEPTH && Holds(env, x, a) && Identifier(y) && Holds(env, z, c)
    ensures var sets := Word(y) + (Word("=") + Word(z));
      && Subexpr(d, Word(x) + (Word("?") + (sets + (Word(":") + Word(z)))), 0, env)
         == Ok(Looked(c, if a != 0 then env[y := Itos(c)] else env))
      && Subexpr(d, Word(x) + (Word("&&") + (Word("(") + sets + Word(")"))), 0, env)
         == Ok(Looked(if a != 0 && c != 0 then 1 else 0, if a != 0 then env[y := Itos(c)] else env))
      && Subexpr(d, Word(x) + (Word("||") + (Word("(") + sets + Word(")"))), 0, env)
         == Ok(Looked(if a != 0 || c != 0 then 1 else 0, if a == 0 then env[y := Itos(c)] else env))
  {
    GuardedPrinted(x, y, z);
    hide Subexpr, Lookup, Itos, Print;
    HeldValue(d + 1, x, a, env);
    HeldValue(d + 1, z, c, env);
    SetMeans(d + 1, y, Var(z), c, env, env);
    Agreement(d, IfThen(Var(x), Set(y, Var(z)), Var(z)), env);
    Agreement(d, And(Var(x), Set(y, Var(z))), env);
    Agreement(d, Or(Var(x), Set(y, Var(z))), env);
  }

  lemma GuardedPrinted(x: string, y: string, z: string)
    ensures var sets := Word(y) + (Word("=") + Word(z));
      && Print(IfThen(Var(x), Set(y, Var(z)), Var(z)), 0) == Word(x) + (Word("?") + (sets + (Word(":") + Word(z))))
      && Print(And(Var(x), Set(y, Var(z))), 0) == Word(x) + (Word("&&") + (Word("(") + sets + Word(")")))
      && Print(Or(Var(x), Set(y, Var(z))), 0) == Word(x) + (Word("||") + (Word("(") + sets + Word(")")))
  {
    VarPrinted(x, 3);
    VarPrinted(x, 4);
    VarPrinted(z, 1);
    VarPrinted(z, 2);
    var e := Set(y, Var(z));
    assert Body(e) == Word(y) + (Word("=") + Print(Var(z), 1));
    assert Print(e, 0) == Body(e);
    assert Print(e, 4) == Print(e, 5) == Word("(") + Body(e) + Word(")");
    Unbracketed(IfThen(Var(x), e, Var(z)), 0);
    Unbracketed(And(Var(x), e), 0);
    Unbracketed(Or(Var(x), e), 0);
    hide Print;
  }

  /** `x = y , z` assigns first and has the value of z, which sees the assignment. */
  lemma Followed(d: nat, x: string, y: string, b: Intmax, env: Env)
    requires d + 1 < MAX_DEPTH && Identifier(x) && Holds(env, y, b)
    ensures Subexpr(d, Three(x, "=", y, ",", x), 0, env) == Ok(Looked(b, env[x := Itos(b)]))
  {
    hide Subexpr, Lookup, Itos, Print, Three;
    HeldValue(d + 1, y, b, env);
    HeldValue(d + 1, x, b, env[x := Itos(b)]);
    SetMeans(d + 1, x, Var(y), b, env, env);
    FollowPrinted(x, y);
    Agreement(d, Both(Set(x, Var(y)), Var(x)), env);
  }

  lemma FollowPrinted(x: string, y: string)
    ensures Print(Both(Set(x, Var(y)), Var(x)), 0) == Three(x, "=", y, ",", x)
  {
    SetPrinted(x, y, y);
    VarPrinted(x, 1);
    Unbracketed(Both(Set(x, Var(y)), Var(x)), 0);
    hide Print;
  }
}
