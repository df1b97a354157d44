/** Braces that must not expand: pairs with a single branch, braces without a partner, quoted text and
    parameters; and the one other form that does, a sequence. */
module BraceKept {
  import opened Chars
  import opened Text
  import opened Wrappers
  import opened BraceScan
  import opened BracePattern
  import opened BraceExpansion
  import opened BraceMeaning

  /** Two patterns one behind the other. */
  function Join(p: Pattern, q: Pattern): Pattern {
    match p
    case End => q
    case Chr(c, rest) => Chr(c, Join(rest, q))
    case Esc(c, rest) => Esc(c, Join(rest, q))
    case Alt(branches, rest) => Alt(branches, Join(rest, q))
    case Open(rest) => Open(Join(rest, q))
    case Close(rest) => Close(Join(rest, q))
    case Comma(rest) => Comma(Join(rest, q))
    case Quot(c, s, rest) => Quot(c, s, Join(rest, q))
    case Param(name, rest) => Param(name, Join(rest, q))
  }

  lemma {:induction false} JoinPrint(p: Pattern, q: Pattern)
    ensures Print(Join(p, q)) == Print(p) + Print(q)
  {
    hide Print, First;
    if p.End? {
      NoPiece(p);
      assert "" + Print(q) == Print(q);
    } else {
      JoinPrint(p.rest, q);
      JoinFirst(p, q);
      Printed(p);
      Printed(Join(p, q));
      ConcatAssociative(First(p), Print(p.rest), Print(q));
    }
  }

  lemma JoinFirst(p: Pattern, q: Pattern)
    requires !p.End?
    ensures !Join(p, q).End? && First(Join(p, q)) == First(p) && Join(p, q).rest == Join(p.rest, q)
  {
    hide PrintAll;
  }

  /** Words behind one another. */
  lemma {:induction false} JoinMeaning(p: Pattern, q: Pattern)
    ensures Meaning(Join(p, q)) == Cross(Meaning(p), Meaning(q))
    decreases p
  {
    hide Meaning, First, Cross, MeaningAll;
    if p.End? {
      NoMeaning();
      CrossUnitLeft(Meaning(q));
    } else if p.Alt? {
      JoinMeaning(p.rest, q);
      AltPrint(p);
      AltPrint(Join(p, q));
      CrossCross(MeaningAll(p.branches), Meaning(p.rest), Meaning(q));
    } else {
      JoinMeaning(p.rest, q);
      JoinFirst(p, q);
      FirstMeaning(p);
      FirstMeaning(Join(p, q));
      CrossPrefix(First(p), Meaning(p.rest), Meaning(q));
    }
  }

  lemma {:induction false} CrossCross(xs: seq<string>, ys: seq<string>, zs: seq<string>)
    ensures Cross(Cross(xs, ys), zs) == Cross(xs, Cross(ys, zs))
  {
    if xs != [] {
      CrossCross(xs[1..], ys, zs);
      CrossAppend(Prefix(xs[0], ys), Cross(xs[1..], ys), zs);
      CrossPrefix(xs[0], ys, zs);
    }
  }

  /** No two ordinary dots stand next to each other. */
  predicate Dotless(p: Pattern) {
    match p
    case End => true
    case Chr(c, rest) => !(c == '.' && rest.Chr? && rest.c == '.') && Dotless(rest)
    case _ => Dotless(p.rest)
  }

  /** Over a pattern whose braces match, without commas and adjacent dots beside them, nothing is caught. */
  lemma {:induction false} JoinCatches(p: Pattern, q: Pattern, k: nat)
    requires Balanced(p, k) && Dotless(p) && !q.Chr?
    ensures Catches(Join(p, q), k, false) == Catches(q, 0, false)
    decreases p
  {
    if !p.End? {
      JoinCatches(p.rest, q, Inner(p, k));
    }
  }

  lemma {:induction false} JoinWellFormed(p: Pattern, q: Pattern, k: nat)
    requires WellFormed(p) && WellFormed(q) && Balanced(p, k) && Dotless(p) && !q.Chr? && !Catches(q, 0, false)
    ensures WellFormed(Join(p, q))
    decreases p
  {
    if !p.End? {
      JoinWellFormed(p.rest, q, Inner(p, k));
      if p.Open? {
        StillNothing(p.rest, q, k);
      }
    }
    hide Catches, WellFormedAll;
  }

  /** An opening brace inside p that matches in p does not catch anything of q either. */
  lemma StillNothing(p: Pattern, q: Pattern, k: nat)
    requires Balanced(p, k + 1) && Dotless(p) && !q.Chr? && !Catches(p, 0, false) && !Catches(q, 0, false)
    ensures !Catches(Join(p, q), 0, false)
  {
    Lower(p, q, k + 1, 0);
  }

  /** The levels of a pattern that closes k braces, seen from one that stands inside only j of them. */
  lemma {:induction false} Lower(p: Pattern, q: Pattern, k: nat, j: nat)
    requires Balanced(p, k) && Dotless(p) && !q.Chr? && j <= k && !Catches(q, 0, false)
    ensures !Catches(Join(p, q), j, false)
    decreases p
  {
    if !p.End? {
      var j' := if p.Open? then j + 1 else if p.Close? && j > 0 then j - 1 else j;
      Lower(p.rest, q, Inner(p, k), if j' <= Inner(p, k) then j' else Inner(p, k));
    }
  }

  /** A pair of braces around p, and what follows. */
  function Braced(p: Pattern, rest: Pattern): Pattern {
    Open(Join(p, Close(rest)))
  }

  lemma BracedPrint(p: Pattern, rest: Pattern)
    ensures Print(Braced(p, rest)) == "{" + (Print(p) + ("}" + Print(rest)))
  {
    JoinPrint(p, Close(rest));
  }

  /** A pair of braces with a single branch stays: both braces stand around each word of the branch, whatever
      else the branch contains. */
  lemma SingleBranch(lex: Lexer, p: Pattern, rest: Pattern)
    requires WellFormed(p) && Balanced(p, 0) && Dotless(p) && WellFormed(rest) && !Catches(rest, 0, false)
    ensures Expand(lex, "{" + (Print(p) + ("}" + Print(rest))))
         == Prefix("{", Cross(Meaning(p), Prefix("}", Meaning(rest))))
    ensures WellFormed(Braced(p, rest))
  {
    hide Expand, Print, Cross, Dotless, Balanced;
    BracedPrint(p, rest);
    CloseAlone(rest);
    JoinWellFormed(p, Close(rest), 0);
    JoinCatches(p, Close(rest), 0);
    ExpandMeaning(lex, Braced(p, rest));
    JoinMeaning(p, Close(rest));
    BracedMeaning(p, rest);
  }

  lemma CloseAlone(rest: Pattern)
    ensures Catches(Close(rest), 0, false) == Catches(rest, 0, false)
    ensures Meaning(Close(rest)) == Prefix("}", Meaning(rest))
  {
  }

  lemma BracedMeaning(p: Pattern, rest: Pattern)
    ensures Meaning(Braced(p, rest)) == Prefix("{", Meaning(Join(p, Close(rest))))
  {
    hide Join;
  }

  /** The pattern of ordinary bytes. */
  function Bytes(s: string): Pattern {
    if s == "" then End else Chr(s[0], Bytes(s[1..]))
  }

  predicate Ordinary(s: string) {
    forall k | 0 <= k < |s| :: s[k] != NUL && !Special(s[k])
  }

  /** No `..` in s. */
  predicate NoDots(s: string) {
    forall k | 0 <= k < |s| - 1 :: !(s[k] == '.' && s[k + 1] == '.')
  }

  lemma {:induction false} BytesFine(s: string)
    requires Ordinary(s)
    ensures WellFormed(Bytes(s)) && Print(Bytes(s)) == s && Meaning(Bytes(s)) == [s]
    ensures Balanced(Bytes(s), 0) && (NoDots(s) ==> Dotless(Bytes(s)))
    decreases |s|
  {
    if s != "" {
      BytesFine(s[1..]);
      assert [s[0]] + s[1..] == s;
      assert Prefix([s[0]], [s[1..]]) == [s];
    }
  }

  /** `{abc}` is no expansion, ... */
  lemma PairKept(lex: Lexer, s: string)
    requires Ordinary(s) && NoDots(s)
    ensures Expand(lex, "{" + s + "}") == ["{" + s + "}"]
  {
    hide Expand, Bytes;
    BytesFine(s);
    SingleBranch(lex, Bytes(s), End);
    assert "{" + (s + ("}" + "")) == "{" + s + "}";
    OneWord(s);
  }

  lemma OneWord(s: string)
    ensures Print(End) == "" && !Catches(End, 0, false)
    ensures Prefix("{", Cross([s], Prefix("}", Meaning(End)))) == ["{" + s + "}"]
  {
    CrossSingle(s, ["}"]);
    assert "}" + "" == "}";
    assert Prefix("}", [""]) == ["}"];
    assert Prefix(s, ["}"]) == [s + "}"];
    assert "{" + (s + "}") == "{" + s + "}";
    hide Cross;
  }

  /** ... nor is an opening brace whose closing brace is missing, with any commas behind it, ... */
  lemma {:induction false} NothingCaught(p: Pattern, level: nat, comma: bool)
    requires Closeless(p)
    ensures !Catches(p, level, comma)
    decreases p
  {
    if !p.End? {
      NothingCaught(p.rest, if p.Open? then level + 1 else level,
                    if p.Comma? then comma || level == 0
                    else comma || (p.Chr? && level == 0 && p.c == '.' && p.rest.Chr? && p.rest.c == '.'));
      if p.Chr? || p.Comma? {
        NothingCaught(p.rest, level, comma);
      }
    }
  }

  /** No closing brace that belongs to no alternation. */
  predicate Closeless(p: Pattern) {
    match p
    case End => true
    case Close(_) => false
    case _ => Closeless(p.rest)
  }

  lemma UnclosedMeaning(lex: Lexer, p: Pattern)
    requires WellFormed(p) && Closeless(p)
    ensures Expand(lex, "{" + Print(p)) == Prefix("{", Meaning(p))
  {
    hide Expand;
    NothingCaught(p, 0, false);
    ExpandMeaning(lex, Open(p));
  }

  /** ... so `{a,b` stays as it is, ... */
  lemma UnclosedKept(lex: Lexer, a: string, b: string)
    requires Ordinary(a) && Ordinary(b)
    ensures Expand(lex, "{" + (a + ("," + b))) == ["{" + (a + ("," + b))]
  {
    hide Expand, Bytes;
    BytesFine(a);
    BytesFine(b);
    var p := Join(Bytes(a), Comma(Bytes(b)));
    CommaFine(a, b);
    UnclosedMeaning(lex, p);
  }

  lemma CommaFine(a: string, b: string)
    requires Ordinary(a) && Ordinary(b)
    ensures var p := Join(Bytes(a), Comma(Bytes(b)));
      WellFormed(p) && Closeless(p) && Print(p) == a + ("," + b) && Meaning(p) == [a + ("," + b)]
    decreases |a|
  {
    BytesFine(b);
    var q := Comma(Bytes(b));
    BytesClose(b);
    assert Meaning(q) == ["," + b];
    if a != "" {
      CommaFine(a[1..], b);
      assert [a[0]] + (a[1..] + ("," + b)) == a + ("," + b) by {
        assert [a[0]] + a[1..] == a;
        ConcatAssociative([a[0]], a[1..], "," + b);
      }
      assert Join(Bytes(a), q) == Chr(a[0], Join(Bytes(a[1..]), q));
    } else {
      assert "" + ("," + b) == "," + b;
    }
  }

  lemma {:induction false} BytesClose(s: string)
    ensures Closeless(Bytes(s))
    decreases |s|
  {
    if s != "" {
      BytesClose(s[1..]);
    }
  }

  /** ... and neither quoted text nor the braces of a parameter expand, whatever commas and braces are in
      them. */
  lemma QuotesKept(lex: Lexer, q: char, s: string)
    requires QuotText(q, s)
    ensures Expand(lex, InQuotes(q, s)) == [InQuotes(q, s)]
  {
    hide Expand, InQuotes;
    ExpandMeaning(lex, Quot(q, s, End));
    assert InQuotes(q, s) + "" == InQuotes(q, s);
  }

  lemma ParamKept(lex: Lexer, name: string)
    requires ParamText(name)
    ensures Expand(lex, InBraces(name)) == [InBraces(name)]
  {
    hide Expand, InBraces;
    ExpandMeaning(lex, Param(name, End));
    assert InBraces(name) + "" == InBraces(name);
  }

  // ---- sequences ----

  /** Digits behind an optional sign. */
  predicate Number(s: string) {
    s != "" && (s[0] == '+' || s[0] == '-' ==> |s| > 1) &&
    forall k | 0 <= k < |s| :: IsDigit(s[k]) || (k == 0 && (s[0] == '+' || s[0] == '-'))
  }

  predicate Letter(s: string) {
    |s| == 1 && IsAlpha(s[0])
  }

  /** Both ends of a sequence are numbers, or both are letters. */
  predicate SequenceEnds(a: string, b: string) {
    (Number(a) && Number(b)) || (Letter(a) && Letter(b))
  }

  /** One is a number and the other a letter. */
  predicate MixedEnds(a: string, b: string) {
    (Number(a) && Letter(b)) || (Letter(a) && Number(b))
  }

  function Sequence(a: string, b: string, post: string): string {
    "{" + (a + (".." + (b + ("}" + post))))
  }

  /** Where its closing brace stands. */
  function CloseOf(a: string, b: string): nat {
    |a| + |b| + 3
  }

  lemma {:induction false} GobbleOrdinary(lex: Lexer, text: string, i: nat, s: string, st: ScanState, satisfy: char)
    requires Ordinary(s) && (satisfy == '{' || (satisfy == '}' && '.' !in s)) && Holds(text, i, s)
    requires !st.passNext && st.quoted == NUL
    ensures Gobble(lex, text, i, st, satisfy) == Gobble(lex, text, i + |s|, st, satisfy)
    decreases |s|
  {
    hide Gobble;
    if s != "" {
      HoldsHead(text, i, s);
      assert s == [s[0]] + s[1..];
      HoldsSplit(text, i, [s[0]], s[1..]);
      GobbleChr(lex, text, i, st, satisfy);
      hide Holds;
      GobbleOrdinary(lex, text, i + 1, s[1..], st, satisfy);
    }
  }

  lemma EndsOrdinary(a: string, b: string)
    requires SequenceEnds(a, b) || MixedEnds(a, b)
    ensures Ordinary(a) && Ordinary(b) && '.' !in a && '.' !in b && a != "" && b != ""
  {
  }

  lemma SequenceParts(a: string, b: string, post: string)
    ensures var text, dots, close := Sequence(a, b, post), 1 + |a|, CloseOf(a, b);
      && |text| == close + 1 + |post| && text[0] == '{' && text[dots] == '.' && text[dots + 1] == '.'
      && text[close] == '}' && Holds(text, 1, a) && Holds(text, dots + 2, b)
      && text[1..close] == a + (".." + b) && text[close + 1..] == post
  {
    var text, dots, close := Sequence(a, b, post), 1 + |a|, CloseOf(a, b);
    assert text == ("{" + a) + (".." + (b + ("}" + post)));
    assert text[1..] == a + (".." + (b + ("}" + post)));
    assert text[dots..] == ".." + (b + ("}" + post)) && text[dots + 2..] == b + ("}" + post);
    assert text[close..] == "}" + post;
    assert text[1..dots] == a && text[dots + 2..dots + 2 + |b|] == b;
  }

  /** The scan from inside the brace counts the dots and stops at the closing brace. */
  lemma SequenceStop(lex: Lexer, a: string, b: string, post: string)
    requires SequenceEnds(a, b) || MixedEnds(a, b)
    ensures Gobble(lex, Sequence(a, b, post), 1, Start('}'), '}') == Stop('}', CloseOf(a, b), BraceSeq)
  {
    var text, dots := Sequence(a, b, post), 1 + |a|;
    EndsOrdinary(a, b);
    SequenceParts(a, b, post);
    hide Sequence, SequenceEnds, MixedEnds, Gobble;
    var st := Start('}');
    GobbleOrdinary(lex, text, 1, a, st, '}');
    HoldsHead(text, dots + 2, b);
    GobbleChr(lex, text, dots, st, '}');
    var st1 := Count(text, dots, st, '}');
    assert st1 == st.(btype := BraceSeq, commas := 1);
    GobbleChr(lex, text, dots + 1, st1, '}');
    assert Count(text, dots + 1, st1, '}') == st1;
    GobbleOrdinary(lex, text, dots + 2, b, st1, '}');
    GobbleStop(lex, text, CloseOf(a, b), st1, '}');
  }

  lemma {:induction false} DotsAt(text: string, i: nat, dots: nat, close: nat)
    requires i <= dots && dots + 2 <= close <= |text| && text[dots] == '.' && text[dots + 1] == '.'
    requires forall k | i <= k < dots :: text[k] != '.'
    ensures FindDots(text, i, close) == Some(dots)
    decreases dots - i
  {
    if i < dots {
      DotsAt(text, i + 1, dots, close);
    }
  }

  lemma SequenceValid(a: string, b: string, post: string)
    requires SequenceEnds(a, b) || MixedEnds(a, b)
    ensures CloseOf(a, b) < |Sequence(a, b, post)|
    ensures ValidSeqTerm(Sequence(a, b, post), 1, CloseOf(a, b)) <==> SequenceEnds(a, b)
  {
    var text, dots := Sequence(a, b, post), 1 + |a|;
    EndsOrdinary(a, b);
    SequenceParts(a, b, post);
    hide Sequence;
    HoldsHead(text, 1, a);
    HoldsHead(text, dots + 2, b);
    assert forall k | 1 <= k < dots :: text[k] == text[1..dots][k - 1];
    DotsAt(text, 1, dots, CloseOf(a, b));
    if |b| > 1 {
      assert text[dots + 2..dots + 2 + |b|][1] == text[dots + 3];
    }
    if |a| > 1 {
      assert text[1..dots][1] == text[2];
    }
  }

  /** `{x..y}` with two numbers or two letters is a sequence: it gives the words generated for `x..y`, or
      itself if there are none, each in front of the words of what follows. */
  lemma SequenceExpands(lex: Lexer, a: string, b: string, post: string)
    requires SequenceEnds(a, b)
    ensures var terms := lex.seqTerm(a + (".." + b));
      var words := if terms.Some? then terms.value else [Sequence(a, b, "")];
      Expand(lex, Sequence(a, b, post)) == if post == "" then words else Cross(words, Expand(lex, post))
  {
    hide *;
    SequenceParts(a, b, post);
    SequenceSite(lex, a, b, post);
    SequenceText(a, b, post);
    SequenceStep(lex, Sequence(a, b, post), CloseOf(a, b));
    CrossUnitLeft(if lex.seqTerm(a + (".." + b)).Some? then lex.seqTerm(a + (".." + b)).value
                  else [Sequence(a, b, "")]);
    assert post == "" <==> CloseOf(a, b) + 1 == |Sequence(a, b, post)|;
  }

  /** One expansion step at a sequence that begins the text. */
  lemma SequenceStep(lex: Lexer, text: string, close: nat)
    requires FindSite(lex, text, 0) == Site(0, close, BraceSeq)
    ensures 0 < close < |text|
    ensures var terms := lex.seqTerm(text[1..close]);
      Expand(lex, text) ==
        if close + 1 == |text| then if terms.Some? then Cross([""], terms.value) else [text]
        else
          Cross(Cross([""], if terms.Some? then terms.value else [text[0..close + 1]]), Expand(lex, text[close + 1..]))
  {
    hide FindSite, Cross, ExpandAmble;
    assert text[..0] == "";
  }

  lemma SequenceText(a: string, b: string, post: string)
    ensures CloseOf(a, b) < |Sequence(a, b, post)|
    ensures Sequence(a, b, post)[0..CloseOf(a, b) + 1] == Sequence(a, b, "")
    ensures post == "" ==> Sequence(a, b, post) == Sequence(a, b, "")
  {
    assert Sequence(a, b, post) == ("{" + (a + (".." + (b + "}")))) + post;
    assert Sequence(a, b, "") == "{" + (a + (".." + (b + "}")));
  }

  lemma SequenceSite(lex: Lexer, a: string, b: string, post: string)
    requires SequenceEnds(a, b)
    ensures FindSite(lex, Sequence(a, b, post), 0) == Site(0, CloseOf(a, b), BraceSeq)
  {
    hide Gobble, ValidSeqTerm, Sequence, SequenceEnds;
    SequenceParts(a, b, post);
    SequenceStop(lex, a, b, post);
    SequenceValid(a, b, post);
    SequenceOpens(lex, a, b, post);
  }

  lemma SequenceOpens(lex: Lexer, a: string, b: string, post: string)
    requires SequenceEnds(a, b) || MixedEnds(a, b)
    ensures Gobble(lex, Sequence(a, b, post), 0, Start('{'), '{') == Stop('{', 0, BraceNone)
  {
    EndsOrdinary(a, b);
    SequenceParts(a, b, post);
    HoldsHead(Sequence(a, b, post), 1, a);
    hide Sequence, Gobble;
    GobbleStop(lex, Sequence(a, b, post), 0, Start('{'), '{');
  }

  /** With a number and a letter for its ends it is none and stays. */
  lemma MixedKept(lex: Lexer, a: string, b: string)
    requires MixedEnds(a, b)
    ensures Expand(lex, Sequence(a, b, "")) == [Sequence(a, b, "")]
  {
    hide Gobble, ValidSeqTerm, Sequence, SequenceEnds, MixedEnds, Number;
    EndsApart(a, b);
    SequenceParts(a, b, "");
    SequenceStop(lex, a, b, "");
    SequenceValid(a, b, "");
    SequenceOpens(lex, a, b, "");
    SequenceRest(lex, a, b);
    assert FindSite(lex, Sequence(a, b, ""), 1) == NoSite;
    assert FindSite(lex, Sequence(a, b, ""), 0) == NoSite;
    hide FindSite;
    NoSites(lex, Sequence(a, b, ""));
  }

  lemma EndsApart(a: string, b: string)
    requires MixedEnds(a, b)
    ensures !SequenceEnds(a, b)
  {
  }

  lemma SequenceRest(lex: Lexer, a: string, b: string)
    requires MixedEnds(a, b)
    ensures var text := Sequence(a, b, ""); Gobble(lex, text, 1, Start('{'), '{') == Stop(NUL, |text|, BraceNone)
  {
    var text, s := Sequence(a, b, ""), a + (".." + b);
    EndsOrdinary(a, b);
    SequenceParts(a, b, "");
    hide Sequence, MixedEnds, Gobble;
    GobbleOrdinary(lex, text, 1, s, Start('{'), '{');
    GobbleSyntax(lex, text, |text| - 1, Start('{'), '{');
    GobbleEnd(lex, text, Start('{'), '{');
  }
}
