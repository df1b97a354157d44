/** Quote removal on the words of a pattern. */
module BraceUnquote {
  import opened Text
  import opened BraceScan
  import opened BracePattern
  import BraceMeaning
  import opened BraceMunge

  /** Quote removal: a backslash goes away and protects the byte behind it. */
  function Unquote(w: string): string {
    if w == "" then ""
    else if w[0] == BACKSLASH && |w| > 1 then [w[1]] + Unquote(w[2..])
    else [w[0]] + Unquote(w[1..])
  }

  /** The words of a pattern with the escapes resolved. */
  function Words(p: Pattern): seq<string> {
    match p
    case End => [""]
    case Chr(c, rest) => Prefix([c], Words(rest))
    case Esc(c, rest) => Prefix([c], Words(rest))
    case Alt(branches, rest) => Cross(WordsAll(branches), Words(rest))
    case _ => Prefix(First(p), Words(p.rest))
  }

  function WordsAll(bs: Branches): seq<string> {
    match bs
    case One(p) => Words(p)
    case More(p, others) => Words(p) + WordsAll(others)
  }

  /** Quote removal word by word. */
  function UnquoteAll(ws: seq<string>): (r: seq<string>)
    ensures |r| == |ws| && forall k | 0 <= k < |r| :: r[k] == Unquote(ws[k])
  {
    seq(|ws|, k requires 0 <= k < |ws| => Unquote(ws[k]))
  }

  /** No backslash at the end that would protect what is appended. */
  ghost predicate Closed(w: string) {
    if w == "" then true
    else if w[0] == BACKSLASH then |w| > 1 && Closed(w[2..])
    else Closed(w[1..])
  }

  ghost predicate AllClosed(ws: seq<string>) {
    forall k | 0 <= k < |ws| :: Closed(ws[k])
  }

  lemma UnquoteChr(c: char, s: string)
    requires c != BACKSLASH
    ensures Unquote([c] + s) == [c] + Unquote(s) && (Closed([c] + s) <==> Closed(s))
  {
    assert ([c] + s)[1..] == s;
  }

  lemma UnquoteEsc(c: char, s: string)
    ensures Unquote([BACKSLASH, c] + s) == [c] + Unquote(s) && (Closed([BACKSLASH, c] + s) <==> Closed(s))
  {
    assert ([BACKSLASH, c] + s)[2..] == s;
  }

  /** A closed word is empty, or an escape or an ordinary byte in front of a closed word. */
  lemma ClosedCases(w: string)
    requires Closed(w)
    ensures Unquote("") == ""
    ensures w != "" && w[0] == BACKSLASH ==> |w| > 1 && Closed(w[2..]) && w == [BACKSLASH, w[1]] + w[2..]
    ensures w != "" && w[0] != BACKSLASH ==> Closed(w[1..]) && w == [w[0]] + w[1..]
  {
  }

  lemma {:induction false} UnquoteAppend(a: string, b: string)
    requires Closed(a)
    ensures Unquote(a + b) == Unquote(a) + Unquote(b)
    ensures Closed(b) ==> Closed(a + b)
  {
    hide Unquote, Closed;
    ClosedCases(a);
    if a == "" {
      assert a + b == b && Unquote(a) + Unquote(b) == Unquote(b);
    } else if a[0] == BACKSLASH {
      var c, s := a[1], a[2..];
      UnquoteAppend(s, b);
      assert a + b == [BACKSLASH, c] + (s + b);
      UnquoteEsc(c, s);
      UnquoteEsc(c, s + b);
    } else {
      var c, s := a[0], a[1..];
      UnquoteAppend(s, b);
      assert a + b == [c] + (s + b);
      UnquoteChr(c, s);
      UnquoteChr(c, s + b);
    }
  }

  lemma UnquoteAllAppend(xs: seq<string>, ys: seq<string>)
    ensures UnquoteAll(xs + ys) == UnquoteAll(xs) + UnquoteAll(ys)
    ensures AllClosed(xs) && AllClosed(ys) ==> AllClosed(xs + ys)
  {
  }

  lemma UnquotePrefix(x: string, ys: seq<string>)
    requires Closed(x) && AllClosed(ys)
    ensures AllClosed(Prefix(x, ys)) && UnquoteAll(Prefix(x, ys)) == Prefix(Unquote(x), UnquoteAll(ys))
  {
    forall k | 0 <= k < |ys|
      ensures Closed(Prefix(x, ys)[k]) && UnquoteAll(Prefix(x, ys))[k] == Prefix(Unquote(x), UnquoteAll(ys))[k]
    {
      UnquoteAppend(x, ys[k]);
    }
  }

  lemma {:induction false} UnquoteCross(xs: seq<string>, ys: seq<string>)
    requires AllClosed(xs) && AllClosed(ys)
    ensures AllClosed(Cross(xs, ys)) && UnquoteAll(Cross(xs, ys)) == Cross(UnquoteAll(xs), UnquoteAll(ys))
  {
    if xs != [] {
      UnquotePrefix(xs[0], ys);
      UnquoteCross(xs[1..], ys);
      assert UnquoteAll(xs)[1..] == UnquoteAll(xs[1..]);
      UnquoteAllAppend(Prefix(xs[0], ys), Cross(xs[1..], ys));
    }
  }

  /** The words a well-formed pattern means, quotes removed, are its resolved words. */
  lemma {:induction false} UnquoteMeaning(p: Pattern)
    requires WellFormed(p)
    ensures AllClosed(Meaning(p)) && UnquoteAll(Meaning(p)) == Words(p)
  {
    match p
    case End =>
    case Chr(c, rest) =>
      UnquoteMeaning(rest);
      UnquoteChr(c, "");
      assert [c] + "" == [c];
      UnquotePrefix([c], Meaning(rest));
    case Esc(c, rest) =>
      UnquoteMeaning(rest);
      UnquoteEsc(c, "");
      assert [BACKSLASH, c] + "" == [BACKSLASH, c];
      UnquotePrefix([BACKSLASH, c], Meaning(rest));
    case Open(rest) => UnquoteVerbatim(p);
    case Close(rest) => UnquoteVerbatim(p);
    case Comma(rest) => UnquoteVerbatim(p);
    case Quot(_, _, rest) => UnquoteVerbatim(p);
    case Param(_, rest) => UnquoteVerbatim(p);
    case Alt(branches, rest) =>
      UnquoteMeaning(rest);
      UnquoteMeaningAll(branches);
      UnquoteCross(MeaningAll(branches), Meaning(rest));
  }

  /** Braces, commas, quotes and parameters have no backslashes and stay as they are. */
  lemma {:induction false} UnquoteVerbatim(p: Pattern)
    requires WellFormed(p) && (p.Open? || p.Close? || p.Comma? || p.Quot? || p.Param?)
    ensures AllClosed(Meaning(p)) && UnquoteAll(Meaning(p)) == Words(p)
    decreases p, 0
  {
    hide Meaning, Words, AllClosed, UnquoteAll, Unquote, Closed, WellFormed;
    BraceMeaning.WellFormedRest(p);
    UnquoteMeaning(p.rest);
    BraceMeaning.FirstMeaning(p);
    VerbatimFirst(p);
    Verbatim(First(p));
    VerbatimWords(p);
    UnquotePrefix(First(p), Meaning(p.rest));
  }

  lemma VerbatimWords(p: Pattern)
    requires p.Open? || p.Close? || p.Comma? || p.Quot? || p.Param?
    ensures Words(p) == Prefix(First(p), Words(p.rest))
  {
  }

  lemma VerbatimFirst(p: Pattern)
    requires WellFormed(p) && (p.Open? || p.Close? || p.Comma? || p.Quot? || p.Param?)
    ensures BACKSLASH !in First(p)
  {
    hide Catches, WellFormedAll;
  }

  lemma {:induction false} Verbatim(s: string)
    requires BACKSLASH !in s
    ensures Unquote(s) == s && Closed(s)
    decreases |s|
  {
    if s != "" {
      Verbatim(s[1..]);
      assert s == [s[0]] + s[1..];
    }
  }

  lemma {:induction false} UnquoteMeaningAll(bs: Branches)
    requires WellFormedAll(bs)
    ensures AllClosed(MeaningAll(bs)) && UnquoteAll(MeaningAll(bs)) == WordsAll(bs)
  {
    hide Meaning, Words, AllClosed, UnquoteAll;
    UnquoteMeaning(bs.p);
    if bs.More? {
      UnquoteMeaningAll(bs.others);
      UnquoteAllAppend(Meaning(bs.p), MeaningAll(bs.others));
    }
  }

  /** A quoted string stands for itself. */
  lemma {:induction false} QuotedWords(s: string, first: bool, tail: Pattern)
    requires NoNul(s) && WellFormed(tail)
    ensures WellFormed(Quoted(s, first, tail)) && (Balanced(tail, 0) ==> Balanced(Quoted(s, first, tail), 0))
    ensures Words(Quoted(s, first, tail)) == Prefix(s, Words(tail))
  {
    if s == "" {
      PrefixEmpty(Words(tail));
    } else {
      QuotedWords(s[1..], false, tail);
      assert [s[0]] + s[1..] == s;
      PrefixConcat([s[0]], s[1..], Words(tail));
    }
  }

  /** Braces around the branches, or none around a single one, change nothing. */
  lemma WholePattern(bs: Branches)
    requires WellFormedAll(bs)
    ensures var p := if bs.One? then bs.p else Alt(bs, End); WellFormed(p) && Words(p) == WordsAll(bs)
  {
    CrossUnitRight(WordsAll(bs));
  }

  /** Nothing in s is ever quoted. */
  ghost predicate Plain(s: string) {
    forall k | 0 <= k < |s| :: !Quotes(s[k], true)
  }

  ghost predicate Unescaped(p: Pattern) {
    match p
    case End => true
    case Chr(_, rest) => Unescaped(rest)
    case Esc(_, _) => false
    case Alt(branches, rest) => UnescapedAll(branches) && Unescaped(rest)
    case _ => Unescaped(p.rest)
  }

  ghost predicate UnescapedAll(bs: Branches) {
    Unescaped(bs.p) && (bs.More? ==> UnescapedAll(bs.others))
  }

  lemma {:induction false} UnescapedMeaning(p: Pattern)
    requires Unescaped(p)
    ensures Meaning(p) == Words(p)
  {
    match p
    case End =>
    case Chr(_, rest) => UnescapedMeaning(rest);
    case Alt(branches, rest) =>
      UnescapedMeaningAll(branches);
      UnescapedMeaning(rest);
    case Open(rest) => UnescapedMeaning(rest);
    case Close(rest) => UnescapedMeaning(rest);
    case Comma(rest) => UnescapedMeaning(rest);
    case Quot(_, _, rest) => UnescapedMeaning(rest);
    case Param(_, rest) => UnescapedMeaning(rest);
  }

  lemma {:induction false} UnescapedMeaningAll(bs: Branches)
    requires UnescapedAll(bs)
    ensures MeaningAll(bs) == WordsAll(bs)
  {
    UnescapedMeaning(bs.p);
    if bs.More? {
      UnescapedMeaningAll(bs.others);
    }
  }

  lemma {:induction false} QuotedUnescaped(s: string, first: bool, tail: Pattern)
    requires Plain(s) && Unescaped(tail)
    ensures Unescaped(Quoted(s, first, tail))
  {
    if s != "" {
      QuotedUnescaped(s[1..], false, tail);
    }
  }
}
