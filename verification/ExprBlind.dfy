/** While evaluation is off, variables are not looked at: what an expression gives, the tokens it takes
    and the error it ends in are the same whatever the variables are and however deep the context is. */
module ExprBlind {
  import opened ExprErrors
  import opened ExprTokens
  import opened ExprSpec
  import opened ExprLiterals
  import opened Wrappers
  import opened Numbers
  import opened ExprNumbers

  /** The same outcome among other variables. */
  ghost function Moved(r: Outcome<Valued>, env: Env): Outcome<Valued> {
    if r.Ok? then Ok(Elsewhere(r.value, env)) else Err(Fault(r.error.kind, env))
  }

  ghost function MovedState(r: Outcome<State>, env: Env): Outcome<State> {
    if r.Ok? then Ok(r.value.(env := env)) else Err(Fault(r.error.kind, env))
  }

  ghost function Elsewhere(x: Valued, env: Env): Valued {
    Valued(x.value, x.st.(env := env))
  }

  /** Reading a token. */
  lemma {:induction false} NextBlind(d: nat, e: nat, s: State, env: Env)
    requires d <= MAX_DEPTH && e <= MAX_DEPTH && s.noeval > 0
    ensures Next(e, s.(env := env)) == MovedState(Next(d, s), env)
    decreases |s.rest|
  {
    var t := SkipBlanks(s.rest);
    hide SkipBlanks, Operator, LiteralValue, NameLength, LiteralLength;
    if t != "" && NameStart(t[0]) {
      var n := NameLength(t);
      var s1 := s.(rest := t[n..], cur := Str, name := None, noeval := 1);
      NextBlind(d, e, s1, env);
      assert s.(env := env).(rest := t[n..], name := Some(t[..n])).(cur := Str, name := None, noeval := 1)
          == s1.(env := env);
    }
  }

  /** `expcomma` */
  lemma {:induction false} CommasBlind(d: nat, e: nat, s: State, env: Env)
    requires d <= MAX_DEPTH && e <= MAX_DEPTH && s.noeval > 0
    ensures Commas(e, s.(env := env)) == Moved(Commas(d, s), env)
    decreases s.Left(), 17
  {
    hide Next, Assign, Commas, CommaRest;
    CommasIs(d, s);
    CommasIs(e, s.(env := env));
    AssignBlind(d, e, s, env);
    if Assign(d, s).Ok? {
      CommaRestBlind(d, e, Assign(d, s).value, env);
    }
  }

  lemma {:induction false} CommaRestBlind(d: nat, e: nat, x: Valued, env: Env)
    requires d <= MAX_DEPTH && e <= MAX_DEPTH && x.st.noeval > 0
    ensures CommaRest(e, Elsewhere(x, env)) == Moved(CommaRest(d, x), env)
    decreases x.st.Left(), 2
  {
    hide Next, CommaStep, CommaRest;
    if x.st.cur == Comma {
      CommaStepBlind(d, e, x, env);
      if CommaStep(d, x).Ok? {
        CommaRestBlind(d, e, CommaStep(d, x).value, env);
      }
    }
    CommaRestIs(d, x);
    CommaRestIs(e, Elsewhere(x, env));
  }

  lemma {:induction false} CommaStepBlind(d: nat, e: nat, x: Valued, env: Env)
    requires d <= MAX_DEPTH && e <= MAX_DEPTH && x.st.noeval > 0 && x.st.cur == Comma
    ensures CommaStep(e, Elsewhere(x, env)) == Moved(CommaStep(d, x), env)
    decreases x.st.Left(), 1
  {
    hide Next, Assign;
    NextBlind(d, e, x.st, env);
    if Next(d, x.st).Ok? {
      AssignBlind(d, e, Next(d, x.st).value, env);
    }
  }

  /** `expassign` */
  lemma {:induction false} AssignBlind(d: nat, e: nat, s: State, env: Env)
    requires d <= MAX_DEPTH && e <= MAX_DEPTH && s.noeval > 0
    ensures Assign(e, s.(env := env)) == Moved(Assign(d, s), env)
    decreases s.Left(), 16
  {
    hide Next, Conditional, Combine;
    ConditionalBlind(d, e, s, env);
    var l := Conditional(d, s);
    if l.Ok? && (l.value.st.cur == Eq || l.value.st.cur.OpAssign?) {
      var s1 := l.value.st;
      NextBlind(d, e, s1, env);
      if s1.last == Str && s1.name.Some? && Next(d, s1).Ok? {
        AssignBlind(d, e, Next(d, s1).value, env);
      }
    }
  }

  /** `expcond` */
  lemma {:induction false} ConditionalBlind(d: nat, e: nat, s: State, env: Env)
    requires d <= MAX_DEPTH && e <= MAX_DEPTH && s.noeval > 0
    ensures Conditional(e, s.(env := env)) == Moved(Conditional(d, s), env)
    decreases s.Left(), 15
  {
    hide Next, Lors, ThenPart, ElsePart;
    LorsBlind(d, e, s, env);
    var c := Lors(d, s);
    if c.Ok? && c.value.st.cur == Ques {
      ThenBlind(d, e, c.value, env);
      if ThenPart(d, c.value).Ok? {
        ElseBlind(d, e, c.value.value, ThenPart(d, c.value).value, env);
      }
    }
  }

  lemma {:induction false} ThenBlind(d: nat, e: nat, x: Valued, env: Env)
    requires d <= MAX_DEPTH && e <= MAX_DEPTH && x.st.noeval > 0 && x.st.cur == Ques
    ensures ThenPart(e, Elsewhere(x, env)) == Moved(ThenPart(d, x), env)
    decreases x.st.Left(), 1
  {
    hide Next, Commas;
    var s := x.st.(noeval := if x.value != 0 then x.st.noeval else x.st.noeval + 1);
    NextBlind(d, e, s, env);
    if Next(d, s).Ok? && Next(d, s).value.cur != End {
      CommasBlind(d, e, Next(d, s).value, env);
    }
  }

  lemma {:induction false} ElseBlind(d: nat, e: nat, test: Intmax, x: Valued, env: Env)
    requires d <= MAX_DEPTH && e <= MAX_DEPTH && x.st.noeval > 0 && x.st.cur == Col
    ensures ElsePart(e, test, Elsewhere(x, env)) == Moved(ElsePart(d, test, x), env)
    decreases x.st.Left(), 1
  {
    hide Next, Conditional;
    var s := x.st.(noeval := if test != 0 then x.st.noeval + 1 else x.st.noeval);
    NextBlind(d, e, s, env);
    if Next(d, s).Ok? && Next(d, s).value.cur != End {
      ConditionalBlind(d, e, Next(d, s).value, env);
    }
  }

  /** `explor` */
  lemma {:induction false} LorsBlind(d: nat, e: nat, s: State, env: Env)
    requires d <= MAX_DEPTH && e <= MAX_DEPTH && s.noeval > 0
    ensures Lors(e, s.(env := env)) == Moved(Lors(d, s), env)
    decreases s.Left(), 14
  {
    hide Next, Lors, Lands, LorRest;
    LandsBlind(d, e, s, env);
    LorsIs(d, s);
    LorsIs(e, s.(env := env));
    if Lands(d, s).Ok? {
      LorRestBlind(d, e, Lands(d, s).value, env);
    }
  }

  lemma {:induction false} LorRestBlind(d: nat, e: nat, x: Valued, env: Env)
    requires d <= MAX_DEPTH && e <= MAX_DEPTH && x.st.noeval > 0
    ensures LorRest(e, Elsewhere(x, env)) == Moved(LorRest(d, x), env)
    decreases x.st.Left(), 2
  {
    hide Next, LorStep, LorRest;
    if x.st.cur == Lor {
      LorStepBlind(d, e, x, env);
      if LorStep(d, x).Ok? {
        LorRestBlind(d, e, LorStep(d, x).value, env);
      }
    }
    LorRestIs(d, x);
    LorRestIs(e, Elsewhere(x, env));
  }

  lemma {:induction false} LorStepBlind(d: nat, e: nat, x: Valued, env: Env)
    requires d <= MAX_DEPTH && e <= MAX_DEPTH && x.st.noeval > 0 && x.st.cur == Lor
    ensures LorStep(e, Elsewhere(x, env)) == Moved(LorStep(d, x), env)
    decreases x.st.Left(), 1
  {
    hide Next, Lands, Truth;
    var s := x.st.(noeval := if x.value != 0 then x.st.noeval + 1 else x.st.noeval);
    NextBlind(d, e, s, env);
    if Next(d, s).Ok? {
      LandsBlind(d, e, Next(d, s).value, env);
    }
  }

  /** `expland` */
  lemma {:induction false} LandsBlind(d: nat, e: nat, s: State, env: Env)
    requires d <= MAX_DEPTH && e <= MAX_DEPTH && s.noeval > 0
    ensures Lands(e, s.(env := env)) == Moved(Lands(d, s), env)
    decreases s.Left(), 13
  {
    hide Next, Lands, Level, LandRest;
    LevelBlind(d, e, 5, s, env);
    LandsIs(d, s);
    LandsIs(e, s.(env := env));
    if Level(d, 5, s).Ok? {
      LandRestBlind(d, e, Level(d, 5, s).value, env);
    }
  }

  lemma {:induction false} LandRestBlind(d: nat, e: nat, x: Valued, env: Env)
    requires d <= MAX_DEPTH && e <= MAX_DEPTH && x.st.noeval > 0
    ensures LandRest(e, Elsewhere(x, env)) == Moved(LandRest(d, x), env)
    decreases x.st.Left(), 2
  {
    hide Next, LandStep, LandRest;
    if x.st.cur == Land {
      LandStepBlind(d, e, x, env);
      if LandStep(d, x).Ok? {
        LandRestBlind(d, e, LandStep(d, x).value, env);
      }
    }
    LandRestIs(d, x);
    LandRestIs(e, Elsewhere(x, env));
  }

  lemma {:induction false} LandStepBlind(d: nat, e: nat, x: Valued, env: Env)
    requires d <= MAX_DEPTH && e <= MAX_DEPTH && x.st.noeval > 0 && x.st.cur == Land
    ensures LandStep(e, Elsewhere(x, env)) == Moved(LandStep(d, x), env)
    decreases x.st.Left(), 1
  {
    hide Next, Level, Truth;
    var s := x.st.(noeval := if x.value == 0 then x.st.noeval + 1 else x.st.noeval);
    NextBlind(d, e, s, env);
    if Next(d, s).Ok? {
      LevelBlind(d, e, 5, Next(d, s).value, env);
    }
  }

  /** `expbor` to `expmuldiv` */
  lemma {:induction false} LevelBlind(d: nat, e: nat, n: nat, s: State, env: Env)
    requires d <= MAX_DEPTH && e <= MAX_DEPTH && s.noeval > 0 && 5 <= n <= 13
    ensures Level(e, n, s.(env := env)) == Moved(Level(d, n, s), env)
    decreases s.Left(), 17 - n
  {
    hide Next, Level, LevelRest, Powers;
    LevelIs(d, n, s);
    LevelIs(e, n, s.(env := env));
    if n == 13 {
      PowersBlind(d, e, s, env);
    } else {
      LevelBlind(d, e, n + 1, s, env);
      if Level(d, n + 1, s).Ok? {
        LevelRestBlind(d, e, n, Level(d, n + 1, s).value, env);
      }
    }
  }

  lemma {:induction false} LevelRestBlind(d: nat, e: nat, n: nat, x: Valued, env: Env)
    requires d <= MAX_DEPTH && e <= MAX_DEPTH && x.st.noeval > 0 && 5 <= n <= 12
    ensures LevelRest(e, n, Elsewhere(x, env)) == Moved(LevelRest(d, n, x), env)
    decreases x.st.Left(), 2
  {
    hide Next, LevelStep, LevelRest;
    if OfLevel(x.st.cur, n) {
      LevelStepBlind(d, e, n, x, env);
      if LevelStep(d, n, x).Ok? {
        LevelRestBlind(d, e, n, LevelStep(d, n, x).value, env);
      }
    }
    LevelRestIs(d, n, x);
    LevelRestIs(e, n, Elsewhere(x, env));
  }

  lemma {:induction false} LevelStepBlind(d: nat, e: nat, n: nat, x: Valued, env: Env)
    requires d <= MAX_DEPTH && e <= MAX_DEPTH && x.st.noeval > 0 && 5 <= n <= 12 && x.st.cur.Bin?
    ensures LevelStep(e, n, Elsewhere(x, env)) == Moved(LevelStep(d, n, x), env)
    decreases x.st.Left(), 1
  {
    hide Next, Level, Combine;
    NextBlind(d, e, x.st, env);
    if Next(d, x.st).Ok? {
      LevelBlind(d, e, n + 1, Next(d, x.st).value, env);
    }
  }

  /** `exppower` */
  lemma {:induction false} PowersBlind(d: nat, e: nat, s: State, env: Env)
    requires d <= MAX_DEPTH && e <= MAX_DEPTH && s.noeval > 0
    ensures Powers(e, s.(env := env)) == Moved(Powers(d, s), env)
    decreases s.Left(), 3
  {
    hide Next, Powers, Unaries, PowerStep;
    UnariesBlind(d, e, s, env);
    PowersIs(d, s);
    PowersIs(e, s.(env := env));
    if Unaries(d, s).Ok? && Unaries(d, s).value.st.cur == Power {
      PowerStepBlind(d, e, Unaries(d, s).value, env);
    }
  }

  lemma {:induction false} PowerStepBlind(d: nat, e: nat, x: Valued, env: Env)
    requires d <= MAX_DEPTH && e <= MAX_DEPTH && x.st.noeval > 0 && x.st.cur == Power
    ensures PowerStep(e, Elsewhere(x, env)) == Moved(PowerStep(d, x), env)
    decreases x.st.Left(), 1
  {
    hide Next, Powers, PowerStep;
    NextBlind(d, e, x.st, env);
    PowerStepIs(d, x);
    PowerStepIs(e, Elsewhere(x, env));
    if Next(d, x.st).Ok? {
      PowersBlind(d, e, Next(d, x.st).value, env);
    }
  }

  /** `expunary` */
  lemma {:induction false} UnariesBlind(d: nat, e: nat, s: State, env: Env)
    requires d <= MAX_DEPTH && e <= MAX_DEPTH && s.noeval > 0
    ensures Unaries(e, s.(env := env)) == Moved(Unaries(d, s), env)
    decreases s.Left(), 2
  {
    hide Next, Primary, UnaryValue;
    if IsUnary(s.cur) {
      NextBlind(d, e, s, env);
      if Next(d, s).Ok? {
        UnariesBlind(d, e, Next(d, s).value, env);
      }
    } else {
      PrimaryBlind(d, e, s, env);
    }
  }

  /** `exp0` */
  lemma {:induction false} PrimaryBlind(d: nat, e: nat, s: State, env: Env)
    requires d <= MAX_DEPTH && e <= MAX_DEPTH && s.noeval > 0
    ensures Primary(e, s.(env := env)) == Moved(Primary(d, s), env)
    decreases s.Left(), 1
  {
    hide Next, Commas, Passed, Bumped;
    if s.cur == PreInc || s.cur == PreDec {
      var s1 := s.(last := s.cur);
      NextBlind(d, e, s1, env);
      if Next(d, s1).Ok? && Next(d, s1).value.cur == Str {
        BumpedBlind(d, e, s.cur == PreInc, Next(d, s1).value.val, Next(d, s1).value, env);
      }
    } else if s.cur == Lpar {
      NextBlind(d, e, s, env);
      if Next(d, s).Ok? {
        CommasBlind(d, e, Next(d, s).value, env);
        var r := Commas(d, Next(d, s).value);
        if r.Ok? && r.value.st.cur == Rpar {
          PassedBlind(d, e, r.value.value, r.value.st, env);
        }
      }
    } else if s.cur == Num {
      PassedBlind(d, e, s.val, s, env);
    } else if s.cur == Str {
      PrimaryNameBlind(d, e, s, env);
    }
  }

  lemma PrimaryNameBlind(d: nat, e: nat, s: State, env: Env)
    requires d <= MAX_DEPTH && e <= MAX_DEPTH && s.noeval > 0 && s.cur == Str
    ensures Primary(e, s.(env := env)) == Moved(Primary(d, s), env)
  {
    hide Next, Primary, Passed, Bumped;
    PrimaryNameIs(d, s);
    PrimaryNameIs(e, s.(env := env));
    var s1 := s.(name := None, noeval := 1);
    assert s.(env := env).(name := None, noeval := 1) == s1.(env := env);
    NextBlind(d, e, s1, env);
    PassedBlind(d, e, s.val, s, env);
    var peek := Next(d, s1);
    if peek.Ok? && (peek.value.cur == PostInc || peek.value.cur == PostDec) {
      BumpedBlind(d, e, peek.value.cur == PostInc, s.val,
                  peek.value.(name := s.name, noeval := s.noeval, last := Str), env);
    }
  }

  lemma PassedBlind(d: nat, e: nat, v: Intmax, s: State, env: Env)
    requires d <= MAX_DEPTH && e <= MAX_DEPTH && s.noeval > 0 && s.cur != End
    ensures Passed(e, s.(env := env), v) == Moved(Passed(d, s, v), env)
  {
    hide Next, Passed;
    PassedIs(d, s, v);
    PassedIs(e, s.(env := env), v);
    NextBlind(d, e, s, env);
  }

  lemma BumpedBlind(d: nat, e: nat, up: bool, v: Intmax, s: State, env: Env)
    requires d <= MAX_DEPTH && e <= MAX_DEPTH && s.noeval > 0 && s.cur != End
    ensures Bumped(e, s.(env := env), up, v) == Moved(Bumped(d, s, up, v), env)
  {
    hide Next, Passed, Bumped, Wrap;
    BumpedIs(d, s, up, v);
    BumpedIs(e, s.(env := env), up, v);
    var v2 := Wrap(if up then v + 1 else v - 1);
    PassedBlind(d, e, v2, s.(cur := Num), env);
  }
}
