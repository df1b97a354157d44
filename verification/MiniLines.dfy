/** Which lines the minishell grammar accepts: exactly the spellings of correct trees. */
module MiniLines {
  import opened Wrappers
  import opened MiniGrammar

  /** A line with the spaces that matter: one between two pieces of text that are not one word, and no
      other.  `text`: a piece of text stands in front; `gap`: and spaces behind it. */
  function Normal(ts: seq<Token>, text: bool, gap: bool): seq<Token> {
    if ts == [] then []
    else if ts[0] == Space then Normal(ts[1..], text, true)
    else if ts[0].Text? then (if text && gap then [Space] else []) + [ts[0]] + Normal(ts[1..], true, false)
    else [ts[0]] + Normal(ts[1..], false, false)
  }

  /** The tokens in front of the first newline. */
  function UpToNewline(ts: seq<Token>): seq<Token> {
    if ts == [] || ts[0] == Newline then [] else [ts[0]] + UpToNewline(ts[1..])
  }

  /** ts is the tree c as somebody may write it. */
  predicate Spells(ts: seq<Token>, c: Commands) {
    CommandsFine(c) && Normal(ts, false, false) == Normal(PrintCommands(c), false, false)
  }

  // ---- normal forms ----

  lemma {:induction false} SkipNormal(ts: seq<Token>, text: bool, gap: bool)
    ensures Normal(ts, text, gap) == Normal(Skip(ts), text, gap || (ts != [] && ts[0] == Space))
    decreases |ts|
  {
    if ts != [] && ts[0] == Space {
      SkipNormal(ts[1..], text, true);
    }
  }

  /** Without text in front, or with something else behind, spaces do not matter. */
  lemma GapFree(ts: seq<Token>, text: bool, gap: bool)
    ensures !text || !Cur(Skip(ts)).Text? ==> Normal(ts, text, gap) == Normal(Skip(ts), false, false)
  {
    SkipNormal(ts, text, gap);
  }

  /** Lines with the same front and with backs that look alike behind it look alike. */
  predicate Alike(x: seq<Token>, y: seq<Token>) {
    forall text, gap :: Normal(x, text, gap) == Normal(y, text, gap)
  }

  lemma {:induction false} Behind(a: seq<Token>, x: seq<Token>, y: seq<Token>)
    requires Alike(x, y)
    ensures Alike(a + x, a + y)
    decreases |a|
  {
    if a == [] {
      assert a + x == x && a + y == y;
    } else {
      Behind(a[1..], x, y);
      assert (a + x)[1..] == a[1..] + x && (a + y)[1..] == a[1..] + y;
      forall text, gap ensures Normal(a + x, text, gap) == Normal(a + y, text, gap) {
      }
    }
  }

  /** Behind something that is no text spaces do not matter. */
  lemma AfterSign(t: Token, x: seq<Token>)
    requires t != Space && !t.Text?
    ensures Alike([t] + x, [t] + Skip(x)) && Alike([t] + x, [t] + ([Space] + Skip(x)))
  {
    assert ([t] + x)[1..] == x && ([t] + Skip(x))[1..] == Skip(x);
    assert ([t] + ([Space] + Skip(x)))[1..] == [Space] + Skip(x) && ([Space] + Skip(x))[1..] == Skip(x);
    GapFree(x, false, false);
    GapFree([Space] + Skip(x), false, false);
    SkipNormal(Skip(x), false, true);
    forall text, gap
      ensures Normal([t] + x, text, gap) == Normal([t] + Skip(x), text, gap)
      ensures Normal([t] + x, text, gap) == Normal([t] + ([Space] + Skip(x)), text, gap)
    {
    }
  }

  /** In front of something that is no text they do not either. */
  lemma BeforeSign(x: seq<Token>)
    requires !Cur(Skip(x)).Text?
    ensures Alike(x, Skip(x)) && Alike(x, [Space] + Skip(x))
  {
    assert ([Space] + Skip(x))[1..] == Skip(x);
    forall text, gap
      ensures Normal(x, text, gap) == Normal(Skip(x), text, gap)
      ensures Normal(x, text, gap) == Normal([Space] + Skip(x), text, gap)
    {
      GapFree(x, text, gap);
      GapFree(Skip(x), text, gap);
      GapFree([Space] + Skip(x), text, gap);
      SkipTwice(x);
    }
  }

  /** Several spaces are like one. */
  lemma OneSpace(x: seq<Token>)
    requires x != [] && x[0] == Space
    ensures Alike(x, [Space] + Skip(x))
  {
    assert ([Space] + Skip(x))[1..] == Skip(x);
    forall text, gap ensures Normal(x, text, gap) == Normal([Space] + Skip(x), text, gap) {
      SkipNormal(x, text, gap);
    }
  }

  lemma AlikeTrans(x: seq<Token>, y: seq<Token>, z: seq<Token>)
    requires Alike(x, y) && Alike(y, z)
    ensures Alike(x, z)
  {
  }

  // ---- what is accepted is a spelling ----

  lemma {:induction false} StringRead(ts: seq<Token>)
    ensures var r := ParseString(ts); r.node.Some? ==> ts == PrintStr(r.node.value) + r.rest
    ensures !Cur(ParseString(ts).rest).Text?
    decreases |ts|
  {
    if Cur(ts).Text? {
      StringRead(ts[1..]);
      var r := ParseString(ts[1..]);
      StringIs(ts);
      var more := if r.node.Some? then PrintStr(r.node.value) else [];
      hide *;
      assert ts[1..] == more + r.rest;
      assert ts == [ts[0]] + ts[1..];
      OneMore(ts[0], more, r.rest);
    } else {
      NoString(ts);
    }
  }

  lemma NoString(ts: seq<Token>)
    requires !Cur(ts).Text?
    ensures ParseString(ts) == Parsed(None, false, ts)
  {
  }

  lemma StringIs(ts: seq<Token>)
    requires Cur(ts).Text?
    ensures var r := ParseString(ts[1..]);
      && ParseString(ts) == Parsed(Some(Str(ts[0].kind, ts[0].text, r.node)), false, r.rest)
      && PrintStr(ParseString(ts).node.value) == [ts[0]] + (if r.node.Some? then PrintStr(r.node.value) else [])
      && (r.node.None? ==> r.rest == ts[1..])
  {
  }

  lemma RedirectionRead(ts: seq<Token>)
    requires ParseRedirection(ts).node.Some? && !ParseRedirection(ts).error
    ensures var r := ParseRedirection(ts);
      && r.node.value.word.Some?
      && Alike(ts, [Redir(r.node.value.kind, r.node.value.fd)] + PrintStr(r.node.value.word.value) + r.rest)
      && !Cur(r.rest).Text?
  {
    var r := ParseRedirection(ts);
    StringRead(Skip(ts[1..]));
    AfterSign(ts[0], ts[1..]);
    assert ts == [ts[0]] + ts[1..];
    assert [ts[0]] + PrintStr(r.node.value.word.value) + r.rest == [ts[0]] + Skip(ts[1..]);
    hide Normal;
  }

  /** The first item of a list of arguments. */
  lemma ItemRead(ts: seq<Token>)
    requires Skip(ts) == ts && !ParseRedirection(ts).error
    requires ParseRedirection(ts).node.Some? || ParseString(ParseRedirection(ts).rest).node.Some?
    ensures var redir, word := ParseRedirection(ts), ParseString(ParseRedirection(ts).rest);
      var a := Args(word.node, redir.node, None);
      ArgsFine(a) && Alike(ts, PrintItem(a) + word.rest) && !Cur(word.rest).Text?
  {
    StringRead(ParseRedirection(ts).rest);
    if ParseRedirection(ts).node.Some? {
      RedirectionRead(ts);
    }
    hide Normal, ParseRedirection, PrintStr;
  }

  lemma {:induction false} ArgumentsRead(ts: seq<Token>)
    requires ParseArguments(ts).node.Some? && !ParseArguments(ts).error
    ensures var r := ParseArguments(ts);
      ArgsFine(r.node.value) && Alike(Skip(ts), PrintArgs(r.node.value) + r.rest)
    ensures var r := ParseArguments(ts); Skip(r.rest) == r.rest && !Cur(r.rest).Text?
    decreases |ts|
  {
    hide Normal, ParseArguments, ParseRedirection, ParseString, PrintItem, Alike, Skip;
    ArgumentsIs(ts);
    SkipTwice(ts);
    var redir := ParseRedirection(Skip(ts));
    var word := ParseString(redir.rest);
    var w := word.rest;
    var rest := ParseArguments(w);
    var a := Args(word.node, redir.node, None);
    ItemRead(Skip(ts));
    Nothing(w);
    if rest.node.Some? {
      ArgumentsRead(w);
      var more := PrintArgs(rest.node.value) + rest.rest;
      SpaceIn(w, more);
      Behind(PrintItem(a), w, [Space] + more);
      AlikeTrans(Skip(ts), PrintItem(a) + w, PrintItem(a) + ([Space] + more));
      ItemOnly(a, rest.node);
      Joined(PrintItem(a), [Space] + PrintArgs(rest.node.value), rest.rest);
      Joined([Space], PrintArgs(rest.node.value), rest.rest);
    } else {
      BeforeSign(w);
      Behind(PrintItem(a), w, Skip(w));
      AlikeTrans(Skip(ts), PrintItem(a) + w, PrintItem(a) + Skip(w));
      ItemOnly(a, None);
      assert PrintItem(a) + [] == PrintItem(a);
      SkipTwice(w);
    }
  }

  lemma ItemOnly(a: Args, rest: Option<Args>)
    requires ArgsFine(a) && (rest.Some? ==> ArgsFine(rest.value))
    ensures var b := Args(a.word, a.redirection, rest);
      ArgsFine(b) && PrintArgs(b) == PrintItem(a) + if rest.Some? then [Space] + PrintArgs(rest.value) else []
  {
  }

  lemma Nothing(w: seq<Token>)
    ensures ParseArguments(w).node.None? ==>
      !Cur(Skip(w)).Text? && ParseArguments(w) == Parsed(None, false, Skip(w))
    ensures ParseArguments(w).node.Some? && !Cur(w).Text? && Skip(w) == w ==> Cur(w).Redir?
  {
    SkipTwice(w);
    ArgumentsIs(w);
  }

  /** A space may be put in front of further arguments. */
  lemma SpaceIn(w: seq<Token>, more: seq<Token>)
    requires Alike(Skip(w), more) && !Cur(w).Text?
    ensures Alike(w, [Space] + more)
  {
    if w != [] && w[0] == Space {
      OneSpace(w);
    } else {
      BeforeSign(w);
    }
    Behind([Space], Skip(w), more);
    hide Normal;
  }

  lemma {:induction false} PipedRead(ts: seq<Token>)
    requires ParsePiped(ts).node.Some? && !ParsePiped(ts).error
    ensures var r := ParsePiped(ts);
      PipelineFine(r.node.value) && Alike(Skip(ts), PrintPipeline(r.node.value) + r.rest)
    ensures var r := ParsePiped(ts); Skip(r.rest) == r.rest && !Cur(r.rest).Text?
    decreases |ts|
  {
    hide Normal, ParseArguments, ParsePiped, PrintArgs, Alike, Skip;
    PipedIs(ts);
    ArgumentsRead(ts);
    var a := ParseArguments(ts);
    var t := a.rest;
    if Cur(t) == Pipe {
      var r := ParsePiped(Skip(t[1..]));
      PipedRead(Skip(t[1..]));
      SkipTwice(t[1..]);
      SignIn(t, PrintPipeline(r.node.value) + r.rest);
      var more := [Space, Pipe, Space] + (PrintPipeline(r.node.value) + r.rest);
      Behind(PrintArgs(a.node.value), t, more);
      AlikeTrans(Skip(ts), PrintArgs(a.node.value) + t, PrintArgs(a.node.value) + more);
      Joined(PrintArgs(a.node.value), [Space, Pipe, Space] + PrintPipeline(r.node.value), r.rest);
      Joined([Space, Pipe, Space], PrintPipeline(r.node.value), r.rest);
    } else {
      assert PrintArgs(a.node.value) + [] == PrintArgs(a.node.value);
    }
  }

  /** Spaces may be put around a bar or a semicolon. */
  lemma SignIn(t: seq<Token>, more: seq<Token>)
    requires t != [] && t[0] != Space && !t[0].Text? && Alike(Skip(t[1..]), more)
    ensures Alike(t, [Space, t[0], Space] + more) && Alike(t, [Space, t[0]] + more)
  {
    var sign := [t[0]];
    assert t == sign + t[1..] && Skip(t) == t;
    AfterSign(t[0], t[1..]);
    Behind([Space], Skip(t[1..]), more);
    Behind(sign, [Space] + Skip(t[1..]), [Space] + more);
    Behind(sign, Skip(t[1..]), more);
    AlikeTrans(t, sign + ([Space] + Skip(t[1..])), sign + ([Space] + more));
    AlikeTrans(t, sign + Skip(t[1..]), sign + more);
    BeforeSign(t);
    Behind([Space], t, sign + ([Space] + more));
    Behind([Space], t, sign + more);
    AlikeTrans(t, [Space] + t, [Space] + (sign + ([Space] + more)));
    AlikeTrans(t, [Space] + t, [Space] + (sign + more));
    assert [Space] + (sign + ([Space] + more)) == [Space, t[0], Space] + more;
    assert [Space] + (sign + more) == [Space, t[0]] + more;
    hide Normal;
  }

  lemma NoPipeline(ts: seq<Token>)
    ensures ParsePiped(ts).node.None? ==> !Cur(Skip(ts)).Text? && ParsePiped(ts) == Parsed(None, false, Skip(ts))
  {
    Nothing(ts);
    PipedIs(ts);
  }

  lemma NoneRead(ts: seq<Token>)
    ensures ParseCommands(ts).node.None? ==>
      !Cur(Skip(ts)).Text? && ParseCommands(ts) == Parsed(None, false, Skip(ts))
  {
    hide ParsePiped, Skip;
    NoPipeline(Skip(ts));
    SkipTwice(ts);
    CommandsIs(ts);
  }

  lemma {:induction false} CommandsRead(ts: seq<Token>)
    requires ParseCommands(ts).node.Some? && !ParseCommands(ts).error
    ensures var r := ParseCommands(ts);
      CommandsFine(r.node.value) && Alike(Skip(ts), PrintCommands(r.node.value) + r.rest)
    ensures var r := ParseCommands(ts); Skip(r.rest) == r.rest && !Cur(r.rest).Text?
    decreases |ts|
  {
    hide Normal, ParseCommands, ParsePiped, PrintPipeline, Alike, Skip;
    CommandsIs(ts);
    SkipTwice(ts);
    PipedRead(Skip(ts));
    var p := ParsePiped(Skip(ts));
    var t := p.rest;
    if Cur(t) == Semicolon {
      var r := ParseCommands(Skip(t[1..]));
      SkipTwice(t[1..]);
      NoneRead(Skip(t[1..]));
      if r.node.Some? {
        CommandsRead(Skip(t[1..]));
      }
      var text := if r.node.Some? then [Space] + PrintCommands(r.node.value) else [];
      if r.node.Some? {
        SignIn(t, PrintCommands(r.node.value) + r.rest);
        assert [Space, Semicolon] + (text + r.rest)
            == [Space, Semicolon, Space] + (PrintCommands(r.node.value) + r.rest);
      } else {
        AlikeSelf(r.rest);
        SignIn(t, r.rest);
        assert text + r.rest == r.rest;
      }
      Behind(PrintPipeline(p.node.value), t, [Space, Semicolon] + (text + r.rest));
      AlikeTrans(Skip(ts), PrintPipeline(p.node.value) + t,
                 PrintPipeline(p.node.value) + ([Space, Semicolon] + (text + r.rest)));
      Joined(PrintPipeline(p.node.value), [Space, Semicolon] + text, r.rest);
      Joined([Space, Semicolon], text, r.rest);
    } else {
      assert PrintPipeline(p.node.value) + [] == PrintPipeline(p.node.value);
    }
  }

  lemma AlikeSelf(x: seq<Token>)
    ensures Alike(x, x)
  {
  }

  // ---- the line in front of the newline ----

  lemma {:induction false} UpTo(ts: seq<Token>) returns (tail: seq<Token>)
    ensures Newline !in UpToNewline(ts)
    ensures Newline in ts ==> ts == UpToNewline(ts) + ([Newline] + tail)
    decreases |ts|
  {
    tail := [];
    if ts != [] {
      if ts[0] == Newline {
        tail := ts[1..];
      } else {
        tail := UpTo(ts[1..]);
        assert ts == [ts[0]] + ts[1..];
        OneMore(ts[0], UpToNewline(ts[1..]), [Newline] + tail);
      }
    }
  }

  lemma OneMore(t: Token, u: seq<Token>, v: seq<Token>)
    ensures [t] + (u + v) == ([t] + u) + v
  {
  }

  /** The normal form of a line is that of what is in front of the newline, and then of the rest. */
  lemma {:induction false} NormalLine(u: seq<Token>, tail: seq<Token>, text: bool, gap: bool)
    ensures Normal(u + ([Newline] + tail), text, gap)
         == Normal(u, text, gap) + ([Newline] + Normal(tail, false, false))
    ensures Newline !in u ==> Newline !in Normal(u, text, gap)
    decreases |u|
  {
    hide *;
    var ts := u + ([Newline] + tail);
    if u == [] {
      assert ts == [Newline] + tail;
      NormalOne(Newline, tail, text, gap);
      NormalNothing(text, gap);
      assert [] + ([Newline] + Normal(tail, false, false)) == [Newline] + Normal(tail, false, false);
    } else {
      var more := u[1..] + ([Newline] + tail);
      assert u == [u[0]] + u[1..] && ts == [u[0]] + more;
      NormalLine(u[1..], tail, text, true);
      NormalLine(u[1..], tail, u[0].Text?, false);
      NormalOne(u[0], u[1..], text, gap);
      NormalOne(u[0], more, text, gap);
      LineOne(u[0], Normal(u[1..], u[0].Text?, false), [Newline] + Normal(tail, false, false));
    }
  }

  lemma LineOne(t: Token, a: seq<Token>, b: seq<Token>)
    ensures [t] + (a + b) == ([t] + a) + b && [Space, t] + (a + b) == ([Space, t] + a) + b
    ensures Newline !in a && t != Newline ==> Newline !in [t] + a && Newline !in [Space, t] + a
  {
  }

  lemma NormalNothing(text: bool, gap: bool)
    ensures Normal([], text, gap) == []
  {
  }

  /** One token of a normal form. */
  lemma NormalOne(t: Token, ts: seq<Token>, text: bool, gap: bool)
    ensures Normal([t] + ts, text, gap) ==
      if t == Space then Normal(ts, text, true)
      else if t.Text? && text && gap then [Space, t] + Normal(ts, true, false)
      else [t] + Normal(ts, t.Text?, false)
  {
    assert ([t] + ts)[1..] == ts;
    assert t.Text? && text && gap ==> [Space] + [t] + Normal(ts, true, false) == [Space, t] + Normal(ts, true, false);
    assert [] + [t] + Normal(ts, t.Text?, false) == [t] + Normal(ts, t.Text?, false);
  }

  /** The first newline is where it is. */
  lemma {:induction false} SameFront(a: seq<Token>, b: seq<Token>, c: seq<Token>, d: seq<Token>)
    requires a + ([Newline] + b) == c + ([Newline] + d) && Newline !in a && Newline !in c
    ensures a == c
    decreases |a|
  {
    if a == [] || c == [] {
      assert (a + ([Newline] + b))[0] == (c + ([Newline] + d))[0];
    } else {
      assert a[0] == (a + ([Newline] + b))[0] == (c + ([Newline] + d))[0] == c[0];
      assert (a + ([Newline] + b))[1..] == a[1..] + ([Newline] + b);
      assert (c + ([Newline] + d))[1..] == c[1..] + ([Newline] + d);
      SameFront(a[1..], b, c[1..], d);
      assert a == [a[0]] + a[1..] && c == [c[0]] + c[1..];
    }
  }

  lemma {:induction false} StrHasNoNewline(s: Str)
    ensures Newline !in PrintStr(s)
    decreases s
  {
    if s.next.Some? {
      StrHasNoNewline(s.next.value);
    }
  }

  lemma {:induction false} ArgsHaveNoNewline(a: Args)
    requires ArgsFine(a)
    ensures Newline !in PrintArgs(a)
    decreases a
  {
    StrHasNoNewline(if a.word.Some? then a.word.value else a.redirection.value.word.value);
    if a.rest.Some? {
      ArgsHaveNoNewline(a.rest.value);
    }
  }

  lemma {:induction false} PipelineHasNoNewline(p: Pipeline)
    requires PipelineFine(p)
    ensures Newline !in PrintPipeline(p)
    decreases p
  {
    ArgsHaveNoNewline(p.command);
    if p.next.Some? {
      PipelineHasNoNewline(p.next.value);
    }
  }

  lemma {:induction false} CommandsHaveNoNewline(c: Commands)
    requires CommandsFine(c)
    ensures Newline !in PrintCommands(c)
    decreases c
  {
    PipelineHasNoNewline(c.pipeline);
    if c.rest.Some? {
      CommandsHaveNoNewline(c.rest.value);
    }
  }

  /** A line that is accepted ends with a newline, and what is in front of it spells the tree. */
  lemma AcceptedSpells(ts: seq<Token>, c: Commands)
    requires ParseLine(ts) == Some(c)
    ensures Newline in ts && Spells(UpToNewline(ts), c)
  {
    hide Normal, ParseCommands, PrintCommands, Skip;
    CommandsRead(ts);
    var r := ParseCommands(ts);
    var tail := r.rest[1..];
    assert r.rest == [Newline] + tail;
    GapFree(ts, false, false);
    CommandsHaveNoNewline(c);
    NormalLine(PrintCommands(c), tail, false, false);
    assert Normal(ts, false, false)
        == Normal(PrintCommands(c), false, false) + ([Newline] + Normal(tail, false, false));
    NewlineKept(ts, false, false);
    var rest := UpTo(ts);
    NormalLine(UpToNewline(ts), rest, false, false);
    SameFront(Normal(UpToNewline(ts), false, false), Normal(rest, false, false),
              Normal(PrintCommands(c), false, false), Normal(tail, false, false));
  }

  lemma {:induction false} NewlineKept(ts: seq<Token>, text: bool, gap: bool)
    ensures Newline in Normal(ts, text, gap) ==> Newline in ts
    decreases |ts|
  {
    if ts != [] {
      NewlineKept(ts[1..], text, true);
      NewlineKept(ts[1..], ts[0].Text?, false);
    }
  }

  // ---- every spelling is accepted ----

  /** Lines that look alike where a piece of text stands in front, or none. */
  predicate Same(x: seq<Token>, y: seq<Token>, text: bool) {
    Normal(x, text, false) == Normal(y, text, false)
  }

  lemma NoSpaceFirst(ts: seq<Token>)
    ensures Normal(ts, false, false) == [] || Normal(ts, false, false)[0] != Space
    ensures (Normal(ts, false, false) == [] <==> Skip(ts) == [])
    ensures Skip(ts) != [] ==>
      Normal(ts, false, false) == [Skip(ts)[0]] + Normal(Skip(ts)[1..], Skip(ts)[0].Text?, false)
  {
    GapFree(ts, false, false);
    SkipTwice(ts);
  }

  lemma Heads(x: seq<Token>, y: seq<Token>)
    requires Same(x, y, false)
    ensures (Skip(x) == [] <==> Skip(y) == []) && Cur(Skip(x)) == Cur(Skip(y))
    ensures Skip(x) != [] ==> Same(Skip(x)[1..], Skip(y)[1..], Cur(Skip(x)).Text?)
    ensures Same(Skip(x), Skip(y), false)
  {
    NoSpaceFirst(x);
    NoSpaceFirst(y);
    GapFree(x, false, false);
    GapFree(y, false, false);
    hide Normal, Skip;
    var n := Normal(x, false, false);
    if Skip(x) != [] {
      assert n[0] == Skip(x)[0] == Skip(y)[0];
      assert n[1..] == Normal(Skip(x)[1..], Skip(x)[0].Text?, false);
      assert n[1..] == Normal(Skip(y)[1..], Skip(y)[0].Text?, false);
    }
  }

  /** With text in front one sees whether there is a gap in front of further text. */
  lemma Looser(ts: seq<Token>)
    ensures Normal(ts, true, false)
         == (if Cur(Skip(ts)).Text? && !Cur(ts).Text? then [Space] else []) + Normal(ts, false, false)
  {
    SkipNormal(ts, true, false);
    GapFree(ts, false, false);
    GapFree(ts, true, false);
    assert [] + Normal(ts, false, false) == Normal(ts, false, false);
  }

  lemma BehindText(x: seq<Token>, y: seq<Token>)
    requires Same(x, y, true)
    ensures Same(x, y, false) && (Cur(x).Text? <==> Cur(y).Text?)
  {
    Looser(x);
    Looser(y);
    NoSpaceFirst(x);
    NoSpaceFirst(y);
    TextIsFirst(x);
    TextIsFirst(y);
    hide Normal, Skip;
    var u, v := Normal(x, false, false), Normal(y, false, false);
    Unspaced(if Cur(Skip(x)).Text? && !Cur(x).Text? then [Space] else [], u,
             if Cur(Skip(y)).Text? && !Cur(y).Text? then [Space] else [], v);
    Heads(x, y);
  }

  lemma Unspaced(p: seq<Token>, u: seq<Token>, q: seq<Token>, v: seq<Token>)
    requires (p == [] || p == [Space]) && (q == [] || q == [Space]) && p + u == q + v
    requires (u == [] || u[0] != Space) && (v == [] || v[0] != Space)
    ensures p == q && u == v
  {
    assert p != [] ==> (p + u)[0] == Space && (p + u)[1..] == u;
    assert q != [] ==> (q + v)[0] == Space && (q + v)[1..] == v;
    assert p == [] ==> p + u == u;
    assert q == [] ==> q + v == v;
  }

  lemma TextIsFirst(x: seq<Token>)
    ensures Cur(x).Text? ==> Skip(x) == x
  {
  }

  lemma FromText(x: seq<Token>, y: seq<Token>)
    requires Same(x, y, false) && !Cur(Skip(x)).Text?
    ensures Same(x, y, true)
  {
    Heads(x, y);
    Looser(x);
    Looser(y);
    hide Normal, Skip;
  }

  lemma {:induction false} SameString(x: seq<Token>, y: seq<Token>)
    requires Cur(x).Text? <==> Cur(y).Text?
    requires Cur(x).Text? ==> x[0] == y[0] && Same(x[1..], y[1..], true)
    ensures ParseString(x).node == ParseString(y).node
    ensures Cur(x).Text? ==> Same(ParseString(x).rest, ParseString(y).rest, true)
    decreases |x|
  {
    if Cur(x).Text? {
      BehindText(x[1..], y[1..]);
      TextIsFirst(x[1..]);
      TextIsFirst(y[1..]);
      Heads(x[1..], y[1..]);
      SameString(x[1..], y[1..]);
      StringIs(x);
      StringIs(y);
      StringStops(x[1..]);
      StringStops(y[1..]);
      hide ParseString, Normal, Skip;
    }
  }

  lemma StringStops(x: seq<Token>)
    ensures !Cur(x).Text? ==> ParseString(x) == Parsed(None, false, x)
  {
  }

  lemma RedirectionIs(x: seq<Token>)
    ensures ParseRedirection(x) ==
      if !Cur(x).Redir? then Parsed(None, false, x)
      else
        var r := ParseString(Skip(x[1..]));
        Parsed(Some(Redirection(Cur(x).redir, Cur(x).fd, r.node)), r.node.None?, r.rest)
  {
  }

  lemma SameRedirection(x: seq<Token>, y: seq<Token>)
    requires Skip(x) == x && Skip(y) == y && Same(x, y, false)
    ensures var r, q := ParseRedirection(x), ParseRedirection(y);
      && r.node == q.node && r.error == q.error
      && (r.node.Some? ==> Same(r.rest, q.rest, true) && !Cur(r.rest).Text? && !Cur(q.rest).Text?)
  {
    hide Normal, Skip, ParseString;
    RedirectionIs(x);
    RedirectionIs(y);
    Heads(x, y);
    if Cur(x).Redir? {
      Heads(x[1..], y[1..]);
      SkipTwice(x[1..]);
      SkipTwice(y[1..]);
      var u, v := Skip(x[1..]), Skip(y[1..]);
      CurEmpty(u);
      CurEmpty(v);
      SameString(u, v);
      StringRead(u);
      StringRead(v);
      StringStops(u);
      StringStops(v);
      if !Cur(u).Text? {
        FromText(u, v);
      }
    }
  }

  lemma CurEmpty(x: seq<Token>)
    ensures Cur(x).Text? ==> x != []
  {
  }

  lemma {:induction false} SameArguments(x: seq<Token>, y: seq<Token>)
    requires Same(x, y, false)
    ensures var r, q := ParseArguments(x), ParseArguments(y);
      r.node == q.node && r.error == q.error && Same(r.rest, q.rest, false)
    decreases |x|
  {
    hide Normal, Skip, ParseString, ParseRedirection, ParseArguments;
    ArgumentsIs(x);
    ArgumentsIs(y);
    Heads(x, y);
    SkipTwice(x);
    SkipTwice(y);
    var u, v := Skip(x), Skip(y);
    SameRedirection(u, v);
    CurEmpty(u);
    var u1, v1 := ParseRedirection(u).rest, ParseRedirection(v).rest;
    StringStops(u1);
    StringStops(v1);
    if ParseRedirection(u).node.None? {
      SameString(u1, v1);
    }
    var u2, v2 := ParseString(u1).rest, ParseString(v1).rest;
    if ParseRedirection(u).node.Some? || ParseString(u1).node.Some? {
      BehindText(u2, v2);
      SameArguments(u2, v2);
    }
  }

  lemma {:induction false} SamePiped(x: seq<Token>, y: seq<Token>)
    requires Same(x, y, false)
    ensures var r, q := ParsePiped(x), ParsePiped(y);
      r.node == q.node && r.error == q.error && Same(r.rest, q.rest, false)
    decreases |x|
  {
    hide Normal, Skip, ParseArguments, ParsePiped;
    PipedIs(x);
    PipedIs(y);
    SameArguments(x, y);
    var a, b := ParseArguments(x).rest, ParseArguments(y).rest;
    Heads(a, b);
    if ParseArguments(x).node.Some? && Cur(Skip(a)) == Pipe {
      Heads(Skip(a)[1..], Skip(b)[1..]);
      SamePiped(Skip(Skip(a)[1..]), Skip(Skip(b)[1..]));
    }
  }

  lemma {:induction false} SameCommands(x: seq<Token>, y: seq<Token>)
    requires Same(x, y, false)
    ensures var r, q := ParseCommands(x), ParseCommands(y);
      r.node == q.node && r.error == q.error && Same(r.rest, q.rest, false)
    decreases |x|
  {
    hide Normal, Skip, ParsePiped, ParseCommands;
    CommandsIs(x);
    CommandsIs(y);
    Heads(x, y);
    SamePiped(Skip(x), Skip(y));
    var a, b := ParsePiped(Skip(x)).rest, ParsePiped(Skip(y)).rest;
    Heads(a, b);
    if ParsePiped(Skip(x)).node.Some? && Cur(Skip(a)) == Semicolon {
      Heads(Skip(a)[1..], Skip(b)[1..]);
      SameCommands(Skip(Skip(a)[1..]), Skip(Skip(b)[1..]));
    }
  }

  lemma SpellingAccepted(ts: seq<Token>, c: Commands)
    requires Newline in ts && Spells(UpToNewline(ts), c)
    ensures ParseLine(ts) == Some(c)
  {
    hide Normal, ParseCommands, PrintCommands, Skip;
    var rest := UpTo(ts);
    var printed := PrintCommands(c) + ([Newline] + rest);
    NormalLine(UpToNewline(ts), rest, false, false);
    NormalLine(PrintCommands(c), rest, false, false);
    assert Same(ts, printed, false);
    SameCommands(ts, printed);
    Heads(ParseCommands(ts).rest, ParseCommands(printed).rest);
    LineBack(c, rest);
  }

  /** A line is accepted with a tree exactly if there is a newline and what stands in front of the first one
      spells the tree; so a redirection without a word, a bar with nothing behind it, or anything that is no
      command makes it rejected. */
  lemma AcceptedIff(ts: seq<Token>, c: Commands)
    ensures ParseLine(ts) == Some(c) <==> Newline in ts && Spells(UpToNewline(ts), c)
  {
    hide Spells, ParseLine;
    if ParseLine(ts) == Some(c) {
      AcceptedSpells(ts, c);
    }
    if Newline in ts && Spells(UpToNewline(ts), c) {
      SpellingAccepted(ts, c);
    }
  }

  // ---- what an accepted line looks like ----

  /** Every redirection is followed by text and every bar by a command, spaces aside. */
  predicate Linked(ts: seq<Token>) {
    ts != [] ==>
      var next := Cur(Skip(ts[1..]));
      && (ts[0].Redir? ==> next.Text?)
      && (ts[0] == Pipe ==> next.Text? || next.Redir?)
      && Linked(ts[1..])
  }

  lemma LinkedOne(t: Token, ts: seq<Token>)
    ensures Linked([t] + ts) <==>
      (t.Redir? ==> Cur(Skip(ts)).Text?) && (t == Pipe ==> Cur(Skip(ts)).Text? || Cur(Skip(ts)).Redir?) && Linked(ts)
  {
    assert ([t] + ts)[1..] == ts;
  }

  lemma {:induction false} LinkedNormal(ts: seq<Token>, text: bool, gap: bool)
    ensures Linked(Normal(ts, text, gap)) <==> Linked(ts)
    decreases |ts|
  {
    hide *;
    NormalNothing(text, gap);
    if ts == [] {
      assert ts == [];
    } else {
      assert ts == [ts[0]] + ts[1..];
      NormalOne(ts[0], ts[1..], text, gap);
      LinkedOne(ts[0], ts[1..]);
      if ts[0] == Space {
        LinkedNormal(ts[1..], text, true);
      } else {
        LinkedNormal(ts[1..], ts[0].Text?, false);
        var more := Normal(ts[1..], ts[0].Text?, false);
        LinkedOne(ts[0], more);
        LinkedOne(Space, [ts[0]] + more);
        assert [Space, ts[0]] + more == [Space] + ([ts[0]] + more);
        if !ts[0].Text? {
          NextNormal(ts[1..]);
        }
      }
    }
  }

  lemma NextNormal(ts: seq<Token>)
    ensures Cur(Skip(Normal(ts, false, false))) == Cur(Skip(ts))
  {
    NoSpaceFirst(ts);
    hide Normal;
  }

  lemma {:induction false} StrLinked(s: Str, tail: seq<Token>)
    requires Linked(tail)
    ensures Linked(PrintStr(s) + tail) && Cur(Skip(PrintStr(s) + tail)).Text?
    decreases s
  {
    var more := (if s.next.Some? then PrintStr(s.next.value) else []) + tail;
    assert PrintStr(s) + tail == [Text(s.kind, s.text)] + more;
    if s.next.Some? {
      StrLinked(s.next.value, tail);
    } else {
      assert more == tail;
    }
    LinkedOne(Text(s.kind, s.text), more);
    hide Linked;
  }

  lemma {:induction false} ArgsLinked(a: Args, tail: seq<Token>)
    requires ArgsFine(a) && Linked(tail)
    ensures Linked(PrintArgs(a) + tail)
    decreases a
  {
    hide Linked, Skip, PrintStr;
    var more := (if a.rest.Some? then [Space] + PrintArgs(a.rest.value) else []) + tail;
    if a.rest.Some? {
      ArgsLinked(a.rest.value, tail);
      LinkedOne(Space, PrintArgs(a.rest.value) + tail);
      Joined([Space], PrintArgs(a.rest.value), tail);
    } else {
      assert more == tail;
    }
    assert PrintArgs(a) + tail == PrintItem(a) + more;
    if a.word.Some? {
      StrLinked(a.word.value, more);
    } else {
      var word := PrintStr(a.redirection.value.word.value);
      StrLinked(a.redirection.value.word.value, more);
      LinkedOne(Redir(a.redirection.value.kind, a.redirection.value.fd), word + more);
      assert PrintItem(a) + more == [Redir(a.redirection.value.kind, a.redirection.value.fd)] + (word + more);
    }
  }

  lemma Starts(p: Pipeline, tail: seq<Token>)
    requires PipelineFine(p)
    ensures Cur(Skip(PrintPipeline(p) + tail)).Text? || Cur(Skip(PrintPipeline(p) + tail)).Redir?
  {
    PipelineStart(p, tail);
    var a := p.command;
    var s := if a.word.Some? then a.word.value else a.redirection.value.word.value;
    assert (PrintPipeline(p) + tail)[0] == PrintItem(a)[0];
    assert PrintStr(s)[0] == Text(s.kind, s.text);
  }

  lemma {:induction false} PipelineLinked(p: Pipeline, tail: seq<Token>)
    requires PipelineFine(p) && Linked(tail)
    ensures Linked(PrintPipeline(p) + tail)
    decreases p
  {
    hide Linked, Skip, PrintArgs;
    if p.next.Some? {
      var next := PrintPipeline(p.next.value) + tail;
      PipelineLinked(p.next.value, tail);
      Starts(p.next.value, tail);
      SpaceBefore(next);
      LinkedOne(Space, next);
      LinkedOne(Pipe, [Space] + next);
      LinkedOne(Space, [Pipe] + ([Space] + next));
      ArgsLinked(p.command, [Space] + ([Pipe] + ([Space] + next)));
      assert PrintPipeline(p) + tail == PrintArgs(p.command) + ([Space] + ([Pipe] + ([Space] + next)));
    } else {
      ArgsLinked(p.command, tail);
      assert PrintPipeline(p) + tail == PrintArgs(p.command) + tail;
    }
  }

  lemma {:induction false} CommandsLinked(c: Commands, tail: seq<Token>)
    requires CommandsFine(c) && Linked(tail)
    ensures Linked(PrintCommands(c) + tail)
    decreases c
  {
    hide Linked, Skip, PrintPipeline;
    if !c.delimiter {
      PipelineLinked(c.pipeline, tail);
      assert PrintCommands(c) + tail == PrintPipeline(c.pipeline) + tail;
    } else {
      var more := (if c.rest.Some? then [Space] + PrintCommands(c.rest.value) else []) + tail;
      if c.rest.Some? {
        CommandsLinked(c.rest.value, tail);
        LinkedOne(Space, PrintCommands(c.rest.value) + tail);
        Joined([Space], PrintCommands(c.rest.value), tail);
      } else {
        assert more == tail;
      }
      LinkedOne(Semicolon, more);
      LinkedOne(Space, [Semicolon] + more);
      PipelineLinked(c.pipeline, [Space] + ([Semicolon] + more));
      assert PrintCommands(c) + tail == PrintPipeline(c.pipeline) + ([Space] + ([Semicolon] + more));
    }
  }

  /** In a line that is accepted no redirection stands without a word and no bar without a command. */
  lemma AcceptedLinked(ts: seq<Token>)
    requires ParseLine(ts).Some?
    ensures Linked(UpToNewline(ts))
  {
    hide Normal, ParseLine, PrintCommands, Linked;
    var c := ParseLine(ts).value;
    AcceptedSpells(ts, c);
    NothingLinked();
    CommandsLinked(c, []);
    assert PrintCommands(c) + [] == PrintCommands(c);
    LinkedNormal(PrintCommands(c), false, false);
    LinkedNormal(UpToNewline(ts), false, false);
  }

  lemma NothingLinked()
    ensures Linked([])
  {
  }

  // ---- here-documents ----

  /** The here-documents of a line, read off its tokens: each `<<` with the text directly behind it. */
  function TokenDocs(ts: seq<Token>): seq<Redirection> {
    if ts == [] then []
    else if ts[0].Redir? && ts[0].redir == HereDoc then
      [Redirection(HereDoc, ts[0].fd, ParseString(ts[1..]).node)] + TokenDocs(ts[1..])
    else TokenDocs(ts[1..])
  }

  lemma TokenDocsOne(t: Token, ts: seq<Token>)
    ensures TokenDocs([t] + ts) ==
      (if t.Redir? && t.redir == HereDoc then [Redirection(HereDoc, t.fd, ParseString(ts).node)] else [])
      + TokenDocs(ts)
  {
    assert ([t] + ts)[1..] == ts;
  }

  lemma {:induction false} StrDocs(s: Str, tail: seq<Token>)
    ensures TokenDocs(PrintStr(s) + tail) == TokenDocs(tail)
    decreases s
  {
    var more := (if s.next.Some? then PrintStr(s.next.value) else []) + tail;
    assert PrintStr(s) + tail == [Text(s.kind, s.text)] + more;
    if s.next.Some? {
      StrDocs(s.next.value, tail);
    } else {
      assert more == tail;
    }
    TokenDocsOne(Text(s.kind, s.text), more);
    hide TokenDocs;
  }

  lemma {:induction false} ArgsInOrder(a: Args, tail: seq<Token>)
    requires ArgsFine(a) && !Cur(tail).Text?
    ensures TokenDocs(PrintArgs(a) + tail) == ArgsDocs(Some(a)) + TokenDocs(tail)
    decreases a
  {
    hide *;
    ArgsDocsAre(a);
    ArgsPrinted(a);
    var more := (if a.rest.Some? then [Space] + PrintArgs(a.rest.value) else []) + tail;
    if a.rest.Some? {
      ArgsInOrder(a.rest.value, tail);
      TokenDocsOne(Space, PrintArgs(a.rest.value) + tail);
      Joined([Space], PrintArgs(a.rest.value), tail);
      NotText(Space, PrintArgs(a.rest.value) + tail);
    } else {
      assert more == tail;
    }
    assert PrintArgs(a) + tail == PrintItem(a) + more;
    ItemDocs(a, more);
  }

  lemma NotText(t: Token, ts: seq<Token>)
    ensures Cur([t] + ts) == t
  {
  }

  lemma ArgsPrinted(a: Args)
    requires ArgsFine(a)
    ensures a.rest.Some? ==> ArgsFine(a.rest.value)
    ensures PrintArgs(a) == PrintItem(a) + if a.rest.Some? then [Space] + PrintArgs(a.rest.value) else []
    ensures a.rest.None? ==> ArgsDocs(a.rest) == []
    ensures a.rest.Some? ==> a.rest == Some(a.rest.value)
  {
  }

  lemma ItemDocs(a: Args, tail: seq<Token>)
    requires ArgsFine(a) && !Cur(tail).Text?
    ensures TokenDocs(PrintItem(a) + tail) == HereDocs(a.redirection) + TokenDocs(tail)
  {
    hide TokenDocs, PrintStr, ParseString;
    if a.word.Some? {
      StrDocs(a.word.value, tail);
    } else {
      var word := a.redirection.value.word.value;
      StrDocs(word, tail);
      StringBack(word, tail);
      TokenDocsOne(Redir(a.redirection.value.kind, a.redirection.value.fd), PrintStr(word) + tail);
      assert PrintItem(a) + tail == [Redir(a.redirection.value.kind, a.redirection.value.fd)] + (PrintStr(word) + tail);
    }
  }

  lemma {:induction false} PipelineInOrder(p: Pipeline, tail: seq<Token>)
    requires PipelineFine(p) && !Cur(tail).Text?
    ensures TokenDocs(PrintPipeline(p) + tail) == PipelineDocs(Some(p)) + TokenDocs(tail)
    decreases p
  {
    hide TokenDocs, PrintArgs, ArgsDocs, PipelineDocs;
    PipelineDocsAre(p);
    if p.next.Some? {
      var next := PrintPipeline(p.next.value) + tail;
      PipelineInOrder(p.next.value, tail);
      TokenDocsOne(Space, next);
      TokenDocsOne(Pipe, [Space] + next);
      TokenDocsOne(Space, [Pipe] + ([Space] + next));
      ArgsInOrder(p.command, [Space] + ([Pipe] + ([Space] + next)));
      assert PrintPipeline(p) + tail == PrintArgs(p.command) + ([Space] + ([Pipe] + ([Space] + next)));
    } else {
      ArgsInOrder(p.command, tail);
      assert PrintPipeline(p) + tail == PrintArgs(p.command) + tail;
    }
  }

  lemma {:induction false} CommandsInOrder(c: Commands, tail: seq<Token>)
    requires CommandsFine(c) && !Cur(tail).Text?
    ensures TokenDocs(PrintCommands(c) + tail) == CommandsDocs(Some(c)) + TokenDocs(tail)
    decreases c
  {
    hide TokenDocs, PrintPipeline, PipelineDocs, CommandsDocs;
    CommandsDocsAre(c);
    if !c.delimiter {
      PipelineInOrder(c.pipeline, tail);
      assert PrintCommands(c) + tail == PrintPipeline(c.pipeline) + tail;
    } else {
      var more := (if c.rest.Some? then [Space] + PrintCommands(c.rest.value) else []) + tail;
      if c.rest.Some? {
        CommandsInOrder(c.rest.value, tail);
        TokenDocsOne(Space, PrintCommands(c.rest.value) + tail);
        Joined([Space], PrintCommands(c.rest.value), tail);
      } else {
        assert more == tail;
      }
      TokenDocsOne(Semicolon, more);
      TokenDocsOne(Space, [Semicolon] + more);
      PipelineInOrder(c.pipeline, [Space] + ([Semicolon] + more));
      assert PrintCommands(c) + tail == PrintPipeline(c.pipeline) + ([Space] + ([Semicolon] + more));
    }
  }

  lemma NoToken()
    ensures TokenDocs([]) == [] && !Cur([]).Text?
  {
  }

  /** The here-documents of a tree are those of its printed line, in the order of the tokens. */
  lemma DocsInOrder(c: Commands)
    requires CommandsFine(c)
    ensures CommandsDocs(Some(c)) == TokenDocs(PrintCommands(c))
  {
    hide *;
    NoToken();
    CommandsInOrder(c, []);
    assert PrintCommands(c) + [] == PrintCommands(c);
  }
}
