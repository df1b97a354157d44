/** Expanding the printed form of a pattern gives the words the pattern means. */
module BraceMeaning {
  import opened Chars
  import opened Text
  import opened BraceScan
  import opened BracePattern
  import opened BraceExpansion

  /** The pieces before the first alternation... */
  function Lead(p: Pattern): string {
    if p.End? || p.Alt? then "" else First(p) + Lead(p.rest)
  }

  /** ... and the pattern from there on. */
  function Tail(p: Pattern): Pattern {
    if p.End? || p.Alt? then p else Tail(p.rest)
  }

  /** The words of a pattern are those behind its first piece, with that piece in front. */
  lemma FirstMeaning(p: Pattern)
    requires !p.End? && !p.Alt?
    ensures Meaning(p) == Prefix(First(p), Meaning(p.rest))
  {
  }

  lemma WellFormedRest(p: Pattern)
    requires !p.End? && WellFormed(p)
    ensures WellFormed(p.rest) && (p.Alt? ==> p.branches.More? && WellFormedAll(p.branches))
    ensures p.Open? ==> !Catches(p.rest, 0, false)
  {
  }

  lemma {:induction false} LeadTail(p: Pattern)
    requires WellFormed(p)
    ensures WellFormed(Tail(p)) && (Tail(p).End? || Tail(p).Alt?)
    ensures Print(p) == Lead(p) + Print(Tail(p))
    ensures Meaning(p) == Prefix(Lead(p), Meaning(Tail(p)))
  {
    hide Print, Meaning, First, WellFormed;
    if p.End? || p.Alt? {
      PrefixEmpty(Meaning(p));
    } else {
      WellFormedRest(p);
      LeadTail(p.rest);
      Printed(p);
      FirstMeaning(p);
      ConcatAssociative(First(p), Lead(p.rest), Print(Tail(p)));
      PrefixConcat(First(p), Lead(p.rest), Meaning(Tail(p)));
    }
  }

  /** An alternation never prints as a lone brace: what follows `{` is neither whitespace nor `}`. */
  lemma FirstByte(bs: Branches)
    requires bs.More? && WellFormedAll(bs)
    ensures PrintAll(bs) != "" && !BraceWhitespace(PrintAll(bs)[0]) && PrintAll(bs)[0] != '}'
  {
    if !bs.p.End? {
      Printed(bs.p);
      FirstPiece(bs.p);
      assert PrintAll(bs)[0] == First(bs.p)[0];
    }
    hide Print, Catches;
  }

  lemma GobbleStop(lex: Lexer, text: string, i: nat, st: ScanState, satisfy: char)
    requires i < |text| && text[i] == satisfy && Syntax(satisfy) && !LoneBrace(text, i)
    requires !st.passNext && st.quoted == NUL && st.level == 0 && st.commas > 0
    ensures Gobble(lex, text, i, st, satisfy) == Stop(satisfy, i, st.btype)
  {
  }

  lemma GobbleLone(lex: Lexer, text: string, i: nat)
    requires i < |text| && LoneBrace(text, i)
    ensures Gobble(lex, text, i, Start('{'), '{') == Gobble(lex, text, i + 1, Start('{'), '{')
  {
  }

  /** The search goes on behind what its scan passes over. */
  lemma SameSearch(lex: Lexer, text: string, i: nat, j: nat)
    requires i <= j <= |text| && Gobble(lex, text, i, Start('{'), '{') == Gobble(lex, text, j, Start('{'), '{')
    ensures FindSite(lex, text, i) == FindSite(lex, text, j)
  {
    hide Gobble, SiteAt;
  }

  /** An opening brace that opens no expansion is passed over. */
  lemma SearchOn(lex: Lexer, text: string, i: nat)
    requires i < |text| && text[i] == '{' && Gobble(lex, text, i + 1, Start('}'), '}').i == |text|
    ensures FindSite(lex, text, i) == FindSite(lex, text, i + 1)
  {
    if LoneBrace(text, i) {
      GobbleLone(lex, text, i);
      SameSearch(lex, text, i, i + 1);
    } else {
      GobbleStop(lex, text, i, Start('{'), '{');
    }
    hide Gobble, LoneBrace, ValidSeqTerm;
  }

  /** Over a first piece that is no alternation the search goes on. */
  lemma SearchPiece(lex: Lexer, text: string, i: nat, p: Pattern)
    requires i <= |text| && text[i..] == Print(p) && WellFormed(p) && !p.End? && !p.Alt?
    ensures i + Width(p) <= |text| && text[i + Width(p)..] == Print(p.rest)
    ensures FindSite(lex, text, i) == FindSite(lex, text, i + Width(p))
  {
    hide Gobble, Holds, Print, PrintAll, InQuotes, InBraces, WellFormedAll, FindSite, Catches;
    Whole(text, i, p);
    var st := Start('{');
    if p.Open? {
      GobbleAway(lex, text, i + 1, p.rest, Start('}'), false);
      SearchOn(lex, text, i);
    } else {
      if p.Chr? {
        GobbleChr(lex, text, i, st, '{');
      } else if p.Esc? {
        GobbleEsc(lex, text, i, st, '{');
      } else if p.Quot? {
        GobbleQuot(lex, text, i, p.q, p.s, st, '{');
      } else if p.Param? {
        GobbleParam(lex, text, i, p.name, st, '{');
      } else {
        GobbleSyntax(lex, text, i, st, '{');
      }
      SameSearch(lex, text, i, i + Width(p));
    }
  }

  lemma {:induction false} SearchLead(lex: Lexer, text: string, i: nat, p: Pattern)
    requires i <= |text| && text[i..] == Print(p) && WellFormed(p)
    ensures i + |Lead(p)| <= |text| && text[i + |Lead(p)|..] == Print(Tail(p))
    ensures FindSite(lex, text, i) == FindSite(lex, text, i + |Lead(p)|)
    decreases p
  {
    hide FindSite, Print, WellFormed, First, Width;
    if !p.End? && !p.Alt? {
      Printed(p);
      WellFormedRest(p);
      SearchPiece(lex, text, i, p);
      SearchLead(lex, text, i + Width(p), p.rest);
    }
  }

  lemma NothingFound(lex: Lexer, text: string)
    ensures FindSite(lex, text, |text|) == NoSite
  {
    GobbleEnd(lex, text, Start('{'), '{');
    hide Gobble;
  }

  /** A pattern without alternation has no expansion site, whatever braces and commas it contains. */
  lemma FlatSite(lex: Lexer, p: Pattern)
    requires WellFormed(p) && Tail(p).End?
    ensures FindSite(lex, Print(p), 0) == NoSite
  {
    hide FindSite, WellFormed, Lead, Tail;
    SearchLead(lex, Print(p), 0, p);
    NoPiece(Tail(p));
    NothingFound(lex, Print(p));
  }

  /** Otherwise the site is the first alternation, and it is that of a comma-separated list. */
  lemma AltSite(lex: Lexer, p: Pattern)
    requires WellFormed(p) && Tail(p).Alt?
    ensures FindSite(lex, Print(p), 0)
         == Site(|Lead(p)|, |Lead(p)| + 1 + |PrintAll(Tail(p).branches)|, BraceComma)
  {
    hide FindSite, WellFormed, Lead, Tail, Print, PrintAll;
    var text, o, alt := Print(p), |Lead(p)|, Tail(p);
    SearchLead(lex, text, 0, p);
    LeadTail(p);
    WellFormedRest(alt);
    SiteHere(lex, text, o, alt);
  }

  lemma SiteHere(lex: Lexer, text: string, o: nat, p: Pattern)
    requires p.Alt? && WellFormedAll(p.branches) && p.branches.More? && o <= |text| && text[o..] == Print(p)
    ensures FindSite(lex, text, o) == Site(o, o + 1 + |PrintAll(p.branches)|, BraceComma)
  {
    hide Gobble, Print, PrintAll, ValidSeqTerm, WellFormedAll, Holds;
    var close := o + 1 + |PrintAll(p.branches)|;
    Whole(text, o, p);
    FirstByte(p.branches);
    HoldsHead(text, o + 1, PrintAll(p.branches));
    GobbleStop(lex, text, o, Start('{'), '{');
    var st := GobbleBranches(lex, text, o + 1, p.branches, Start('}'), '}');
    GobbleStop(lex, text, close, st, '}');
  }

  /** One expansion step at a comma-separated site. */
  lemma ExpandStep(lex: Lexer, text: string, o: nat, close: nat)
    requires FindSite(lex, text, 0) == Site(o, close, BraceComma)
    ensures Expand(lex, text)
         == if close + 1 == |text| then Cross([text[..o]], ExpandAmble(lex, text[o + 1..close], 0))
            else Cross(Cross([text[..o]], ExpandAmble(lex, text[o + 1..close], 0)), Expand(lex, text[close + 1..]))
  {
    hide FindSite, Cross, ExpandAmble;
  }

  lemma NoSites(lex: Lexer, text: string)
    requires FindSite(lex, text, 0) == NoSite
    ensures Expand(lex, text) == [text]
  {
    hide FindSite;
  }

  /** Expansion means what the pattern says. */
  lemma {:induction false} ExpandMeaning(lex: Lexer, p: Pattern)
    requires WellFormed(p)
    ensures Expand(lex, Print(p)) == Meaning(p)
    decreases |Print(p)|, 1
  {
    hide Expand, FindSite, WellFormed, Lead, Tail, Print;
    LeadTail(p);
    if Tail(p).End? {
      FlatSite(lex, p);
      NoSites(lex, Print(p));
      NoPiece(Tail(p));
      assert Lead(p) + "" == Lead(p);
      assert Prefix(Lead(p), [""]) == [Lead(p)];
    } else {
      AltMeaning(lex, p);
    }
  }

  lemma EmptyPrint(p: Pattern)
    requires Print(p) == ""
    ensures p == End
  {
    if !p.End? {
      Printed(p);
    }
  }

  lemma AltPrint(p: Pattern)
    requires p.Alt?
    ensures Print(p) == "{" + (PrintAll(p.branches) + ("}" + Print(p.rest)))
    ensures Meaning(p) == Cross(MeaningAll(p.branches), Meaning(p.rest))
  {
    hide PrintAll, MeaningAll, Cross;
  }

  lemma {:induction false} AltMeaning(lex: Lexer, p: Pattern)
    requires WellFormed(p) && Tail(p).Alt?
    ensures Expand(lex, Print(p)) == Meaning(p)
    decreases |Print(p)|, 0
  {
    hide *;
    var bs, rest := Tail(p).branches, Tail(p).rest;
    var pre, inside, post := Lead(p), PrintAll(bs), Print(rest);
    LeadTail(p);
    WellFormedRest(Tail(p));
    AltSite(lex, p);
    AltPrint(Tail(p));
    BracketedParts(pre, inside, post);
    assert Print(p) == Bracketed(pre, inside, post);
    ExpandStep(lex, Print(p), |pre|, |pre| + 1 + |inside|);
    AmbleMeaning(lex, inside, 0, bs);
    ExpandMeaning(lex, rest);
    AltWords(pre, bs, rest);
  }

  lemma AltWords(pre: string, bs: Branches, rest: Pattern)
    ensures var words := Cross([pre], MeaningAll(bs));
      Prefix(pre, Cross(MeaningAll(bs), Meaning(rest)))
      == if Print(rest) == "" then words else Cross(words, Meaning(rest))
  {
    hide Cross, MeaningAll, Meaning, Print;
    var words := Cross([pre], MeaningAll(bs));
    if Print(rest) == "" {
      EmptyPrint(rest);
      NoMeaning();
      CrossUnitRight(MeaningAll(bs));
    }
    CrossSingle(pre, MeaningAll(bs));
    CrossPrefix(pre, MeaningAll(bs), Meaning(rest));
  }

  lemma NoMeaning()
    ensures Meaning(End) == [""]
  {
  }

  /** The parts of an amble are its branches. */
  lemma {:induction false} AmbleMeaning(lex: Lexer, text: string, start: nat, bs: Branches)
    requires WellFormedAll(bs) && start <= |text| && text[start..] == PrintAll(bs)
    ensures ExpandAmble(lex, text, start) == MeaningAll(bs)
    decreases |text| - start, 2
  {
    hide Gobble, Expand, Print, Meaning, WellFormed, Balanced;
    var p := bs.p;
    var j := start + |Print(p)|;
    assert text[start..j] == Print(p);
    var st := GobblePattern(lex, text, start, p, 0, Start(','), ',');
    ExpandMeaning(lex, p);
    if bs.More? {
      assert text[j] == ',' && text[j + 1..] == PrintAll(bs.others);
      GobbleStop(lex, text, j, st, ',');
      AmbleMeaning(lex, text, j + 1, bs.others);
    } else {
      GobbleEnd(lex, text, st, ',');
    }
  }
}
