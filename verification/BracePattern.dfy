/** Brace patterns as trees: how one is written, and which words it means. */
module BracePattern {
  import opened Chars
  import opened Text
  import opened BraceScan

  /** A pattern is a list of pieces: an ordinary byte, a backslash-escaped byte, an alternation; an opening
      brace, a closing brace or a comma that belongs to no alternation; text in quotes; a parameter. */
  datatype Pattern =
    | End
    | Chr(c: char, rest: Pattern)
    | Esc(c: char, rest: Pattern)
    | Alt(branches: Branches, rest: Pattern)
    | Open(rest: Pattern)
    | Close(rest: Pattern)
    | Comma(rest: Pattern)
    | Quot(q: char, s: string, rest: Pattern)
    | Param(name: string, rest: Pattern)

  datatype Branches = One(p: Pattern) | More(p: Pattern, others: Branches)

  /** The bytes that `sh_backslash_quote` protects (the table bstab in lib/sh/shquote.c). */
  predicate Special(c: char) {
    c == '\t' || c == '\n' || c == ' ' || c == '!' || c == DQUOTE || c == '$' || c == '&' || c == SQUOTE ||
    c == '(' || c == ')' || c == '*' || c == ',' || c == ';' || c == '<' || c == '>' || c == '?' || c == '[' ||
    c == BACKSLASH || c == ']' || c == '^' || c == BACKQUOTE || c == '{' || c == '|' || c == '}'
  }

  /** The bytes brace expansion itself gives a meaning to, and looks for. */
  predicate Syntax(c: char) {
    c == '{' || c == '}' || c == ','
  }

  /** Text that stands in quotes and has none of the bytes that are special there. */
  predicate QuotText(q: char, s: string) {
    (q == SQUOTE || q == DQUOTE || q == BACKQUOTE) &&
    forall k | 0 <= k < |s| :: s[k] != NUL && s[k] != q && s[k] != BACKSLASH && (s[k] == '$' ==> q == SQUOTE)
  }

  /** What stands in the braces of a parameter: ordinary bytes and commas. */
  predicate ParamText(s: string) {
    forall k | 0 <= k < |s| :: s[k] != NUL && (s[k] == ',' || !Special(s[k]))
  }

  /** Would an opening brace in front of p, inside `level` others, find its closing brace?  It must have met
      a comma or two dots at its own level before. */
  ghost predicate Catches(p: Pattern, level: nat, comma: bool) {
    match p
    case End => false
    case Chr(c, rest) =>
      Catches(rest, level, comma || (level == 0 && c == '.' && rest.Chr? && rest.c == '.'))
    case Open(rest) => Catches(rest, level + 1, comma)
    case Close(rest) =>
      if level > 0 then Catches(rest, level - 1, comma) else comma || Catches(rest, 0, comma)
    case Comma(rest) => Catches(rest, level, comma || level == 0)
    case _ => Catches(p.rest, level, comma)
  }

  /** Inside `level` opening braces: do all braces that belong to no alternation match, and is there no
      comma beside them? */
  ghost predicate Balanced(p: Pattern, level: nat) {
    match p
    case End => level == 0
    case Open(rest) => Balanced(rest, level + 1)
    case Close(rest) => level > 0 && Balanced(rest, level - 1)
    case Comma(_) => false
    case _ => Balanced(p.rest, level)
  }

  /** Ordinary bytes are unprotected ones, every alternation has at least two branches, and an opening brace
      that belongs to none finds no closing brace. */
  ghost predicate WellFormed(p: Pattern) {
    match p
    case End => true
    case Chr(c, rest) => c != NUL && !Special(c) && WellFormed(rest)
    case Esc(c, rest) => c != NUL && WellFormed(rest)
    case Alt(branches, rest) => branches.More? && WellFormedAll(branches) && WellFormed(rest)
    case Open(rest) => !Catches(rest, 0, false) && WellFormed(rest)
    case Close(rest) => WellFormed(rest)
    case Comma(rest) => WellFormed(rest)
    case Quot(q, s, rest) => QuotText(q, s) && WellFormed(rest)
    case Param(name, rest) => ParamText(name) && WellFormed(rest)
  }

  ghost predicate WellFormedAll(bs: Branches) {
    WellFormed(bs.p) && Balanced(bs.p, 0) && (bs.More? ==> WellFormedAll(bs.others))
  }

  function Print(p: Pattern): string {
    match p
    case End => ""
    case Chr(c, rest) => [c] + Print(rest)
    case Esc(c, rest) => [BACKSLASH] + ([c] + Print(rest))
    case Alt(branches, rest) => "{" + (PrintAll(branches) + ("}" + Print(rest)))
    case Open(rest) => "{" + Print(rest)
    case Close(rest) => "}" + Print(rest)
    case Comma(rest) => "," + Print(rest)
    case Quot(q, s, rest) => InQuotes(q, s) + Print(rest)
    case Param(name, rest) => InBraces(name) + Print(rest)
  }

  function InQuotes(q: char, s: string): string {
    [q] + (s + [q])
  }

  function InBraces(name: string): string {
    "${" + (name + "}")
  }

  function PrintAll(bs: Branches): string {
    match bs
    case One(p) => Print(p)
    case More(p, others) => Print(p) + ("," + PrintAll(others))
  }

  /** The words of a pattern, escapes kept: the cross product of its pieces, leftmost slowest. */
  function Meaning(p: Pattern): seq<string> {
    match p
    case End => [""]
    case Chr(c, rest) => Prefix([c], Meaning(rest))
    case Esc(c, rest) => Prefix([BACKSLASH, c], Meaning(rest))
    case Alt(branches, rest) => Cross(MeaningAll(branches), Meaning(rest))
    case Open(rest) => Prefix("{", Meaning(rest))
    case Close(rest) => Prefix("}", Meaning(rest))
    case Comma(rest) => Prefix(",", Meaning(rest))
    case Quot(q, s, rest) => Prefix(InQuotes(q, s), Meaning(rest))
    case Param(name, rest) => Prefix(InBraces(name), Meaning(rest))
  }

  function MeaningAll(bs: Branches): seq<string> {
    match bs
    case One(p) => Meaning(p)
    case More(p, others) => Meaning(p) + MeaningAll(others)
  }

  /** Scanning one ordinary byte. */
  lemma GobbleChr(lex: Lexer, text: string, i: nat, st: ScanState, satisfy: char)
    requires i < |text| && !Special(text[i])
    requires !st.passNext && st.quoted == NUL && Syntax(satisfy)
    ensures Gobble(lex, text, i, st, satisfy) == Gobble(lex, text, i + 1, Count(text, i, st, satisfy), satisfy)
  {
  }

  /** Scanning an escaped byte. */
  lemma GobbleEsc(lex: Lexer, text: string, i: nat, st: ScanState, satisfy: char)
    requires i + 1 < |text| && text[i] == BACKSLASH
    requires !st.passNext && st.quoted == NUL
    ensures Gobble(lex, text, i, st, satisfy) == Gobble(lex, text, i + 2, st, satisfy)
  {
    var st' := st.(passNext := true);
    assert Gobble(lex, text, i, st, satisfy) == Gobble(lex, text, i + 1, st', satisfy);
    assert st'.(passNext := false) == st;
  }

  /** Scanning a brace or comma that is not the byte looked for. */
  lemma GobbleSyntax(lex: Lexer, text: string, i: nat, st: ScanState, satisfy: char)
    requires i < |text| && Syntax(text[i])
    requires !st.passNext && st.quoted == NUL && Syntax(satisfy)
    requires text[i] != satisfy || st.level > 0
    ensures Gobble(lex, text, i, st, satisfy) == Gobble(lex, text, i + 1, Count(text, i, st, satisfy), satisfy)
  {
  }

  /** Scanning text in quotes, from the quote on ... */
  lemma GobbleQuot(lex: Lexer, text: string, i: nat, q: char, s: string, st: ScanState, satisfy: char)
    requires QuotText(q, s) && Holds(text, i, InQuotes(q, s))
    requires !st.passNext && st.quoted == NUL && Syntax(satisfy)
    ensures Gobble(lex, text, i, st, satisfy) == Gobble(lex, text, i + |s| + 2, st, satisfy)
  {
    HoldsHead(text, i, InQuotes(q, s));
    HoldsSplit(text, i, [q], s + [q]);
    HoldsSplit(text, i + 1, s, [q]);
    HoldsHead(text, i + 1 + |s|, [q]);
    hide Holds;
    var st' := st.(quoted := q);
    assert Gobble(lex, text, i, st, satisfy) == Gobble(lex, text, i + 1, st', satisfy);
    GobbleInside(lex, text, i + 1, q, s, st', satisfy);
    assert st'.(quoted := NUL) == st;
  }

  /** ... and behind it. */
  lemma {:induction false} GobbleInside(lex: Lexer, text: string, i: nat, q: char, s: string, st: ScanState,
                                        satisfy: char)
    requires QuotText(q, s) && Holds(text, i, s)
    requires !st.passNext && st.quoted == q
    ensures Gobble(lex, text, i, st, satisfy) == Gobble(lex, text, i + |s|, st, satisfy)
    decreases |s|
  {
    if s != "" {
      HoldsHead(text, i, s);
      assert s == [s[0]] + s[1..];
      HoldsSplit(text, i, [s[0]], s[1..]);
      hide Holds;
      assert Gobble(lex, text, i, st, satisfy) == Gobble(lex, text, i + 1, st, satisfy);
      GobbleInside(lex, text, i + 1, q, s[1..], st, satisfy);
    }
  }

  /** Scanning `${name}`. */
  lemma GobbleParam(lex: Lexer, text: string, i: nat, name: string, st: ScanState, satisfy: char)
    requires ParamText(name) && Holds(text, i, InBraces(name))
    requires !st.passNext && st.quoted == NUL && Syntax(satisfy)
    ensures Gobble(lex, text, i, st, satisfy) == Gobble(lex, text, i + |name| + 3, st, satisfy)
  {
    hide Gobble, Holds;
    var j := i + 2 + |name|;
    HoldsSplit(text, i, "${", name + "}");
    HoldsSplit(text, i + 2, name, "}");
    HoldsHead(text, i + 2, name + "}");
    HoldsHead(text, j, "}");
    var st1 := st.(level := st.level + 1);
    GobbleDollar(lex, text, i, st, satisfy);
    GobbleName(lex, text, i + 2, name, st1, satisfy);
    GobbleSyntax(lex, text, j, st1, satisfy);
    assert Count(text, j, st1, satisfy) == st;
  }

  lemma GobbleDollar(lex: Lexer, text: string, i: nat, st: ScanState, satisfy: char)
    requires Holds(text, i, "${") && i + 2 < |text| && !FunsubChar(text[i + 2])
    requires !st.passNext && st.quoted == NUL
    ensures Gobble(lex, text, i, st, satisfy) == Gobble(lex, text, i + 2, st.(level := st.level + 1), satisfy)
  {
    assert text[i..i + 2][0] == '$' && text[i..i + 2][1] == '{';
    var st0 := st.(level := st.level + 1, passNext := true);
    assert Gobble(lex, text, i, st, satisfy) == Gobble(lex, text, i + 1, st0, satisfy);
    assert st0.(passNext := false) == st.(level := st.level + 1);
  }

  lemma {:induction false} GobbleName(lex: Lexer, text: string, i: nat, name: string, st: ScanState, satisfy: char)
    requires ParamText(name) && Holds(text, i, name)
    requires !st.passNext && st.quoted == NUL && Syntax(satisfy) && st.level > 0
    ensures Gobble(lex, text, i, st, satisfy) == Gobble(lex, text, i + |name|, st, satisfy)
    decreases |name|
  {
    hide Gobble;
    if name != "" {
      HoldsHead(text, i, name);
      assert name == [name[0]] + name[1..];
      HoldsSplit(text, i, [name[0]], name[1..]);
      hide Holds;
      if name[0] == ',' {
        GobbleSyntax(lex, text, i, st, satisfy);
      } else {
        GobbleChr(lex, text, i, st, satisfy);
      }
      GobbleName(lex, text, i + 1, name[1..], st, satisfy);
    }
  }

  /** What a scan keeps when it passes over text that closes k braces: inside further braces, everything
      else. */
  ghost predicate Passed(before: ScanState, after: ScanState, k: nat) {
    after.level + k == before.level && !after.passNext && after.quoted == NUL &&
    after.commas >= before.commas && (before.btype == BraceComma ==> after.btype == BraceComma) &&
    (after.level > 0 ==> after.commas == before.commas && after.btype == before.btype)
  }

  /** How many braces are open behind the first piece. */
  function Inner(p: Pattern, k: nat): int {
    if p.Open? then k + 1 else if p.Close? then k - 1 else k
  }

  /** A scan that is inside braces, or does not look for `{`, passes over a whole pattern whose braces match
      up to the k open ones. */
  lemma {:induction false} GobblePattern(lex: Lexer, text: string, i: nat, p: Pattern, k: nat, st: ScanState,
                                         satisfy: char) returns (st': ScanState)
    requires WellFormed(p) && Balanced(p, k) && Holds(text, i, Print(p))
    requires !st.passNext && st.quoted == NUL && Syntax(satisfy) && k <= st.level
    requires satisfy == '{' ==> st.level > k
    ensures Passed(st, st', k)
    ensures Gobble(lex, text, i, st, satisfy) == Gobble(lex, text, i + |Print(p)|, st', satisfy)
    decreases p, 2
  {
    hide Gobble, Holds, Print, First, Width, WellFormed, Catches;
    if p.End? {
      NoPiece(p);
      st' := st;
    } else {
      Pieces(p, k);
      Printed(p);
      HoldsSplit(text, i, First(p), Print(p.rest));
      var st1 := GobblePiece(lex, text, i, p, k, st, satisfy);
      st' := GobblePattern(lex, text, i + Width(p), p.rest, Inner(p, k), st1, satisfy);
    }
  }

  lemma NoPiece(p: Pattern)
    requires p.End?
    ensures Print(p) == ""
  {
  }

  lemma Pieces(p: Pattern, k: nat)
    requires !p.End? && WellFormed(p) && Balanced(p, k)
    ensures WellFormed(p.rest) && Inner(p, k) >= 0 && Balanced(p.rest, Inner(p, k))
  {
  }

  /** Over the first piece. */
  lemma {:induction false} GobblePiece(lex: Lexer, text: string, i: nat, p: Pattern, k: nat, st: ScanState,
                                       satisfy: char) returns (st': ScanState)
    requires !p.End? && WellFormed(p) && Balanced(p, k) && Holds(text, i, First(p))
    requires !st.passNext && st.quoted == NUL && Syntax(satisfy) && k <= st.level
    requires satisfy == '{' ==> st.level > k
    ensures st'.level == st.level + Inner(p, k) - k && !st'.passNext && st'.quoted == NUL
    ensures st'.commas >= st.commas && (st.btype == BraceComma ==> st'.btype == BraceComma)
    ensures st.level > k ==> st'.commas == st.commas && st'.btype == st.btype
    ensures Gobble(lex, text, i, st, satisfy) == Gobble(lex, text, i + Width(p), st', satisfy)
    decreases p, 1
  {
    hide Gobble, Holds, PrintAll, InQuotes, InBraces, Catches, WellFormedAll, First;
    st' := st;
    Printed(p);
    FirstPiece(p);
    HoldsHead(text, i, First(p));
    if p.Alt? {
      GobbleAlt(lex, text, i, p.branches, st, satisfy);
    } else if p.Esc? {
      GobbleEscaped(lex, text, i, p.c, st, satisfy);
    } else if p.Quot? {
      GobbleQuot(lex, text, i, p.q, p.s, st, satisfy);
    } else if p.Param? {
      GobbleParam(lex, text, i, p.name, st, satisfy);
    } else if p.Chr? {
      GobbleChr(lex, text, i, st, satisfy);
      st' := Count(text, i, st, satisfy);
    } else if p.Open? || p.Close? {
      GobbleSyntax(lex, text, i, st, satisfy);
      st' := Count(text, i, st, satisfy);
    }
  }

  lemma FirstPiece(p: Pattern)
    requires !p.End?
    ensures First(p) != ""
    ensures p.Chr? ==> First(p)[0] == p.c
    ensures p.Open? ==> First(p)[0] == '{'
    ensures p.Close? ==> First(p)[0] == '}'
    ensures p.Alt? ==> First(p) == "{" + (PrintAll(p.branches) + "}")
    ensures p.Esc? ==> First(p) == [BACKSLASH, p.c]
    ensures p.Quot? ==> First(p) == InQuotes(p.q, p.s)
    ensures p.Param? ==> First(p) == InBraces(p.name)
  {
    hide PrintAll;
  }

  lemma GobbleEscaped(lex: Lexer, text: string, i: nat, c: char, st: ScanState, satisfy: char)
    requires Holds(text, i, [BACKSLASH, c]) && !st.passNext && st.quoted == NUL
    ensures Gobble(lex, text, i, st, satisfy) == Gobble(lex, text, i + 2, st, satisfy)
  {
    hide Gobble;
    assert text[i..i + 2][0] == BACKSLASH;
    GobbleEsc(lex, text, i, st, satisfy);
  }

  lemma {:induction false} GobbleAlt(lex: Lexer, text: string, i: nat, bs: Branches, st: ScanState, satisfy: char)
    requires WellFormedAll(bs) && Holds(text, i, "{" + (PrintAll(bs) + "}"))
    requires !st.passNext && st.quoted == NUL && Syntax(satisfy)
    requires satisfy == '{' ==> st.level > 0
    ensures Gobble(lex, text, i, st, satisfy) == Gobble(lex, text, i + 2 + |PrintAll(bs)|, st, satisfy)
    decreases bs, 2
  {
    hide Gobble, Holds, PrintAll, WellFormedAll;
    HoldsSplit(text, i, "{", PrintAll(bs) + "}");
    HoldsHead(text, i, "{");
    HoldsSplit(text, i + 1, PrintAll(bs), "}");
    HoldsHead(text, i + 1 + |PrintAll(bs)|, "}");
    GobbleBraces(lex, text, i, bs, st, satisfy);
  }

  /** From an opening brace to just behind the matching closing one: the scan is as it was before. */
  lemma {:induction false} GobbleBraces(lex: Lexer, text: string, i: nat, bs: Branches, st: ScanState, satisfy: char)
    requires WellFormedAll(bs) && i < |text| && text[i] == '{' && Holds(text, i + 1, PrintAll(bs))
    requires i + 1 + |PrintAll(bs)| < |text| && text[i + 1 + |PrintAll(bs)|] == '}'
    requires !st.passNext && st.quoted == NUL && Syntax(satisfy)
    requires satisfy == '{' ==> st.level > 0
    ensures Gobble(lex, text, i, st, satisfy) == Gobble(lex, text, i + 2 + |PrintAll(bs)|, st, satisfy)
    decreases bs, 1
  {
    hide Gobble, Holds, PrintAll, WellFormedAll;
    var j := i + 1 + |PrintAll(bs)|;
    GobbleSyntax(lex, text, i, st, satisfy);
    var st1 := GobbleBranches(lex, text, i + 1, bs, Count(text, i, st, satisfy), satisfy);
    GobbleSyntax(lex, text, j, st1, satisfy);
    assert Count(text, j, st1, satisfy) == st;
  }

  /** The same over the branches of an alternation; a scan for the closing brace at their own level
      counts their commas. */
  lemma {:induction false} GobbleBranches(lex: Lexer, text: string, i: nat, bs: Branches, st: ScanState, satisfy: char)
    returns (st': ScanState)
    requires WellFormedAll(bs) && Holds(text, i, PrintAll(bs))
    requires !st.passNext && st.quoted == NUL && Syntax(satisfy)
    requires st.level > 0 || satisfy == '}'
    ensures Passed(st, st', 0)
    ensures st.level == 0 && bs.More? ==> st'.commas > 0 && st'.btype == BraceComma
    ensures Gobble(lex, text, i, st, satisfy) == Gobble(lex, text, i + |PrintAll(bs)|, st', satisfy)
    decreases bs, 0
  {
    hide Gobble, Holds, Print, WellFormed;
    match bs
    case One(p) =>
      st' := GobblePattern(lex, text, i, p, 0, st, satisfy);
    case More(p, others) =>
      HoldsSplit(text, i, Print(p), "," + PrintAll(others));
      var st1 := GobblePattern(lex, text, i, p, 0, st, satisfy);
      var j := i + |Print(p)|;
      HoldsHead(text, j, "," + PrintAll(others));
      HoldsSplit(text, j, ",", PrintAll(others));
      GobbleSyntax(lex, text, j, st1, satisfy);
      st' := GobbleBranches(lex, text, j + 1, others, Count(text, j, st1, satisfy), satisfy);
  }

  lemma Cut(text: string, i: nat, a: string, b: string)
    requires i <= |text| && text[i..] == a + b
    ensures i + |a| <= |text| && Holds(text, i, a) && text[i + |a|..] == b
  {
    HoldsFront(text, i, a, b);
    FrontBack(a, b);
    DropDrop(text, i, |a|);
  }

  /** Where the first piece of a pattern stands, and where the others begin. */
  lemma Whole(text: string, i: nat, p: Pattern)
    requires i <= |text| && text[i..] == Print(p) && !p.End?
    ensures var n := Width(p); i + n <= |text| && text[i + n..] == Print(p.rest)
    ensures p.Chr? ==> text[i] == p.c
    ensures p.Esc? ==> text[i] == BACKSLASH
    ensures p.Alt? ==> text[i] == '{' && Holds(text, i + 1, PrintAll(p.branches)) && text[i + Width(p) - 1] == '}'
    ensures p.Open? ==> text[i] == '{'
    ensures p.Close? ==> text[i] == '}'
    ensures p.Comma? ==> text[i] == ','
    ensures p.Quot? ==> Holds(text, i, InQuotes(p.q, p.s))
    ensures p.Param? ==> Holds(text, i, InBraces(p.name))
  {
    hide Print, PrintAll, InQuotes, InBraces, Holds;
    if p.Alt? {
      WholeAlt(text, i, p);
    } else {
      Printed(p);
      Cut(text, i, First(p), Print(p.rest));
      HoldsHead(text, i, First(p));
    }
  }

  /** The text of the first piece. */
  function First(p: Pattern): string
    requires !p.End?
  {
    match p
    case Chr(c, _) => [c]
    case Esc(c, _) => [BACKSLASH, c]
    case Alt(branches, _) => "{" + (PrintAll(branches) + "}")
    case Open(_) => "{"
    case Close(_) => "}"
    case Comma(_) => ","
    case Quot(q, s, _) => InQuotes(q, s)
    case Param(name, _) => InBraces(name)
  }

  function Width(p: Pattern): nat
    requires !p.End?
  {
    match p
    case Chr(_, _) => 1
    case Esc(_, _) => 2
    case Alt(branches, _) => |PrintAll(branches)| + 2
    case Quot(_, s, _) => |s| + 2
    case Param(name, _) => |name| + 3
    case _ => 1
  }

  lemma Printed(p: Pattern)
    requires !p.End?
    ensures Print(p) == First(p) + Print(p.rest) && |First(p)| == Width(p)
    ensures p.Chr? ==> First(p) == [p.c]
    ensures p.Esc? ==> First(p)[0] == BACKSLASH
  {
    hide PrintAll;
    match p
    case Esc(c, rest) => ConcatAssociative([BACKSLASH], [c], Print(rest));
    case Alt(branches, rest) =>
      ConcatAssociative(PrintAll(branches), "}", Print(rest));
      ConcatAssociative("{", PrintAll(branches) + "}", Print(rest));
    case _ =>
  }

  lemma WholeAlt(text: string, i: nat, p: Pattern)
    requires p.Alt? && i <= |text| && text[i..] == Print(p)
    ensures i + Width(p) <= |text| && text[i + Width(p)..] == Print(p.rest)
    ensures text[i] == '{' && Holds(text, i + 1, PrintAll(p.branches)) && text[i + Width(p) - 1] == '}'
  {
    hide PrintAll, Holds;
    var inside := PrintAll(p.branches);
    Cut(text, i, "{", inside + ("}" + Print(p.rest)));
    HoldsHead(text, i, "{");
    Cut(text, i + 1, inside, "}" + Print(p.rest));
    Cut(text, i + 1 + |inside|, "}", Print(p.rest));
    HoldsHead(text, i + 1 + |inside|, "}");
  }

  /** A dot follows only if the next piece is one. */
  lemma NextDot(text: string, i: nat, p: Pattern)
    requires p.Chr? && WellFormed(p) && i < |text| && text[i + 1..] == Print(p.rest)
    ensures At(text, i + 1) == '.' ==> p.rest.Chr? && p.rest.c == '.'
  {
    var rest := p.rest;
    if rest.End? {
    } else {
      Printed(rest);
      assert At(text, i + 1) == First(rest)[0] by {
        assert text[i + 1..][0] == First(rest)[0];
      }
      hide Print, PrintAll, WellFormed;
    }
  }

  /** From an opening brace that catches nothing the scan for its closing brace runs to the end. */
  lemma {:induction false} GobbleAway(lex: Lexer, text: string, i: nat, p: Pattern, st: ScanState, comma: bool)
    requires WellFormed(p) && i <= |text| && text[i..] == Print(p) && !Catches(p, st.level, comma)
    requires !st.passNext && st.quoted == NUL && (st.commas > 0 ==> comma)
    ensures Gobble(lex, text, i, st, '}').i == |text|
    decreases p
  {
    hide Gobble, Holds, Print, PrintAll, InQuotes, InBraces;
    if p.End? {
      NoPiece(p);
      GobbleEnd(lex, text, st, '}');
    } else {
      Whole(text, i, p);
      var comma' := AwayPiece(lex, text, i, p, st, comma);
      var st' := if p.Chr? || p.Open? || p.Close? || p.Comma? then Count(text, i, st, '}') else st;
      GobbleAway(lex, text, i + Width(p), p.rest, st', comma');
    }
  }

  lemma AwayPiece(lex: Lexer, text: string, i: nat, p: Pattern, st: ScanState, comma: bool) returns (comma': bool)
    requires !p.End? && WellFormed(p) && i < |text| && text[i..] == Print(p) && !Catches(p, st.level, comma)
    requires i + Width(p) <= |text| && text[i + Width(p)..] == Print(p.rest)
    requires !st.passNext && st.quoted == NUL && (st.commas > 0 ==> comma)
    ensures WellFormed(p.rest)
    ensures var st' := if p.Chr? || p.Open? || p.Close? || p.Comma? then Count(text, i, st, '}') else st;
      && !Catches(p.rest, st'.level, comma') && !st'.passNext && st'.quoted == NUL && (st'.commas > 0 ==> comma')
      && Gobble(lex, text, i, st, '}') == Gobble(lex, text, i + Width(p), st', '}')
  {
    hide Gobble, Holds, Print, PrintAll, InQuotes, InBraces, WellFormedAll;
    Whole(text, i, p);
    comma' := comma;
    match p
    case Chr(c, rest) =>
      GobbleChr(lex, text, i, st, '}');
      NextDot(text, i, p);
      comma' := comma || (st.level == 0 && c == '.' && rest.Chr? && rest.c == '.');
    case Esc(_, _) => GobbleEsc(lex, text, i, st, '}');
    case Alt(bs, _) => GobbleBraces(lex, text, i, bs, st, '}');
    case Close(_) => GobbleClose(lex, text, i, st);
    case Quot(q, s, _) => GobbleQuot(lex, text, i, q, s, st, '}');
    case Param(name, _) => GobbleParam(lex, text, i, name, st, '}');
    case Comma(_) =>
      GobbleSyntax(lex, text, i, st, '}');
      comma' := comma || st.level == 0;
    case _ => GobbleSyntax(lex, text, i, st, '}');
  }

  lemma GobbleEnd(lex: Lexer, text: string, st: ScanState, satisfy: char)
    ensures Gobble(lex, text, |text|, st, satisfy) == Stop(NUL, |text|, st.btype)
  {
  }

  /** A closing brace at the level of the scan is passed over if there was no comma. */
  lemma GobbleClose(lex: Lexer, text: string, i: nat, st: ScanState)
    requires i < |text| && text[i] == '}' && !st.passNext && st.quoted == NUL
    requires st.level > 0 || st.commas == 0
    ensures Gobble(lex, text, i, st, '}') == Gobble(lex, text, i + 1, Count(text, i, st, '}'), '}')
  {
  }
}
