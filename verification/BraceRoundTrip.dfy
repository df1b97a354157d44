/** Expanding what `really_munge_braces` built gives the names back. */
module BraceRoundTrip {
  import opened Text
  import opened BraceScan
  import opened BracePattern
  import opened BraceExpansion
  import opened BraceMeaning
  import opened BraceMunge
  import opened BraceUnquote
  import opened BraceFolding
  import opened CompletionOrder

  lemma MungeMeaning(names: seq<string>, lo: nat, hi: nat)
    requires lo < hi <= |names| && Fits(names, lo, hi, 0) && AllNoNul(names)
    ensures WellFormed(MungePattern(names, lo, hi))
    ensures Words(MungePattern(names, lo, hi)) == names[lo..hi] <==> Foldable(names, lo, hi, 0)
  {
    hide Lcp, Fits, Foldable, Munge, Words, WordsAll, WellFormed, WellFormedAll, NoNul, Shares;
    MungeWords(names, lo, hi, 0);
    SharesNothing(names, lo, hi);
    WholePattern(Munge(names, lo, hi, 0));
    assert Suffixes(names, lo, hi, 0) == names[lo..hi];
  }

  /** Munge then expand: the words, quotes removed, are the names exactly when every run shares what is
      written for it. */
  lemma RoundTrip(lex: Lexer, names: seq<string>, lo: nat, hi: nat)
    requires lo < hi <= |names| && Fits(names, lo, hi, 0) && AllNoNul(names)
    ensures UnquoteAll(Expand(lex, Print(MungePattern(names, lo, hi)))) == names[lo..hi] <==> Foldable(names, lo, hi, 0)
  {
    hide *;
    MungeMeaning(names, lo, hi);
    ExpandMeaning(lex, MungePattern(names, lo, hi));
    UnquoteMeaning(MungePattern(names, lo, hi));
  }

  lemma {:induction false} MungeUnescaped(names: seq<string>, lo: nat, hi: nat, g: nat)
    requires lo < hi <= |names| && Fits(names, lo, hi, g)
    requires forall k | lo <= k < hi :: Plain(names[k])
    ensures UnescapedAll(Munge(names, lo, hi, g))
    decreases hi - lo, if Lcp(names[lo], names[hi - 1]) > g then 1 else 0, 1
  {
    hide Lcp, Fits, FitsRun, MungeRun, Munge, Unescaped, Plain, GroupEnd;
    var end := GroupEnd(names, lo, lo + 1, hi, g);
    MungeCases(names, lo, hi, g, end);
    RunUnescaped(names, lo, end, g);
    if end < hi {
      MungeUnescaped(names, end, hi, g);
    }
  }

  lemma {:induction false} RunUnescaped(names: seq<string>, lo: nat, end: nat, g: nat)
    requires lo < end <= |names|
    requires end == lo + 1 || Lcp(names[lo], names[end - 1]) > g
    requires FitsRun(names, lo, end, g)
    requires forall k | lo <= k < end :: Plain(names[k])
    ensures Unescaped(MungeRun(names, lo, end, g))
    decreases end - lo, if Lcp(names[lo], names[end - 1]) > g then 1 else 0, 0
  {
    hide Munge, Lcp, Fits;
    var gcd := RunGcd(names, lo, end);
    assert Plain(names[lo]);
    if end > lo + 1 {
      MungeUnescaped(names, lo, end, gcd);
    }
    QuotedUnescaped(names[lo][g..gcd], true, if end == lo + 1 then End else Alt(Munge(names, lo, end, gcd), End));
  }

  lemma PatternUnescaped(names: seq<string>, lo: nat, hi: nat)
    requires lo < hi <= |names| && Fits(names, lo, hi, 0)
    requires forall k | lo <= k < hi :: Plain(names[k])
    ensures Unescaped(MungePattern(names, lo, hi))
  {
    hide Fits, Munge, Plain;
    MungeUnescaped(names, lo, hi, 0);
  }

  /** Names in which nothing needs quoting come back without any quote removal. */
  lemma PlainRoundTrip(lex: Lexer, names: seq<string>, lo: nat, hi: nat)
    requires lo < hi <= |names| && Fits(names, lo, hi, 0) && AllNoNul(names)
    requires forall k | lo <= k < hi :: Plain(names[k])
    ensures Expand(lex, Print(MungePattern(names, lo, hi))) == names[lo..hi] <==> Foldable(names, lo, hi, 0)
  {
    hide *;
    MungeMeaning(names, lo, hi);
    ExpandMeaning(lex, MungePattern(names, lo, hi));
    PatternUnescaped(names, lo, hi);
    UnescapedMeaning(MungePattern(names, lo, hi));
  }

  /** Sorting is what keeps shared prefixes together. */
  lemma SortedGrouped(names: seq<string>, lo: nat, hi: nat)
    requires lo <= hi <= |names| && InOrder(names[lo..hi]) && AllCStrings(names)
    ensures Grouped(names, lo, hi)
  {
    hide Lcp, NoLater, IsCString;
    forall i, j, k | lo <= i <= j <= k < hi
      ensures Lcp(names[i], names[k]) <= Lcp(names[i], names[j])
    {
      if i == j {
        LcpAtLeast(names[i], names[i], |names[i]|);
      } else if j < k {
        assert names[lo..hi][i - lo] == names[i] && names[lo..hi][j - lo] == names[j];
        assert names[lo..hi][k - lo] == names[k];
        SortedTriple(names[i], names[j], names[k]);
      }
    }
  }

  lemma CStrings(names: seq<string>)
    requires AllCStrings(names)
    ensures AllNoNul(names)
  {
  }

  /** So sorted names can be folded. */
  lemma SortedFoldable(names: seq<string>, lo: nat, hi: nat)
    requires lo < hi <= |names| && InOrder(names[lo..hi]) && AllCStrings(names)
    ensures Fits(names, lo, hi, 0) && Foldable(names, lo, hi, 0) && AllNoNul(names)
  {
    hide *;
    CStrings(names);
    SortedGrouped(names, lo, hi);
    GroupedFoldable(names, lo, hi, 0);
    SharesNothing(names, lo, hi);
    FoldableFits(names, lo, hi, 0);
  }

  /** Names that are not sorted need not come back: the run of these three begins with `ab` by its first
      and last name, and the second one comes back as `abx`. */
  lemma NotFoldable(lex: Lexer, names: seq<string>)
    requires names == ["abc", "axx", "abd"]
    ensures Fits(names, 0, 3, 0) && !Foldable(names, 0, 3, 0)
    ensures UnquoteAll(Expand(lex, Print(MungePattern(names, 0, 3)))) != names
  {
    hide *;
    ThreeNames(names);
    assert names[0..3] == names;
    RoundTrip(lex, names, 0, 3);
  }

  lemma ThreeNames(names: seq<string>)
    requires names == ["abc", "axx", "abd"]
    ensures Fits(names, 0, 3, 0) && !Foldable(names, 0, 3, 0) && AllNoNul(names)
  {
    LcpIs(names[0], names[1], 1);
    LcpIs(names[0], names[2], 2);
    hide Lcp;
    assert GroupEnd(names, 0, 1, 3, 0) == 3 && RunGcd(names, 0, 3) == 2;
    assert GroupEnd(names, 0, 1, 3, 2) == 1;
    assert FitsRun(names, 0, 1, 2);
    LcpIs(names[1], names[2], 1);
    assert GroupEnd(names, 1, 2, 3, 2) == 2;
    assert FitsRun(names, 1, 2, 2) && FitsRun(names, 2, 3, 2);
    assert Fits(names, 2, 3, 2) && Fits(names, 1, 3, 2) && Fits(names, 0, 3, 2);
    assert FitsRun(names, 0, 3, 0);
    assert !Shares(names, 0, 3, 2) by {
      assert Lcp(names[0], names[1]) < 2;
    }
    assert !FoldableRun(names, 0, 3, 0);
  }

  /** `hack_braces_completion`: names[1..] are the completions, names[0] what they have in common.  In a
      multibyte locale they are sorted first, and the brace pattern returned expands to the sorted
      completions; in a single-byte locale it expands to the completions as they came exactly when these
      can be folded. */
  method HackBracesCompletion(lex: Lexer, names: seq<string>, multibyte: bool) returns (result: seq<string>)
    requires names != [] && AllCStrings(names)
    requires !multibyte && |names| > 1 ==> Fits(names, 1, |names|, 0)
    ensures |result| == 1
    ensures |names| == 1 ==> result[0] == Quote(names[0], true)
    ensures |names| > 1 && multibyte ==> UnquoteAll(Expand(lex, result[0])) == Qsorted(names[1..])
    ensures |names| > 1 && !multibyte ==>
      (UnquoteAll(Expand(lex, result[0])) == names[1..] <==> Foldable(names, 1, |names|, 0))
  {
    hide *;
    var list := names;
    if multibyte && |names| > 2 {
      list := [names[0]] + Qsorted(names[1..]);
    }
    SortedCompletions(names, list, multibyte);
    if |names| > 1 {
      RoundTrip(lex, list, 1, |list|);
    }
    assert list[1..|list|] == list[1..] && names[1..|names|] == names[1..];
    var temp := ReallyMungeBraces(list, 1, |list|, 0);
    result := [temp];
  }

  /** What the list of completions is when it is munged. */
  lemma SortedCompletions(names: seq<string>, list: seq<string>, multibyte: bool)
    requires names != [] && AllCStrings(names)
    requires list == if multibyte && |names| > 2 then [names[0]] + Qsorted(names[1..]) else names
    ensures |list| == |names| && list[0] == names[0] && AllNoNul(list)
    ensures multibyte ==> list[1..] == Qsorted(names[1..])
    ensures multibyte && |names| > 1 ==> Fits(list, 1, |list|, 0) && Foldable(list, 1, |list|, 0)
  {
    hide *;
    var sorted := Qsorted(names[1..]);
    CompletionsSorted(names);
    ShortSorted(names[1..]);
    if multibyte {
      assert list == [names[0]] + sorted;
      assert list[1..] == sorted;
      if |names| > 1 {
        assert list[1..|list|] == sorted;
        SortedFoldable(list, 1, |list|);
      }
    }
    CStrings(list);
  }

  lemma CompletionsSorted(names: seq<string>)
    requires names != [] && AllCStrings(names)
    ensures var sorted := Qsorted(names[1..]);
      |sorted| == |names| - 1 && InOrder(sorted) && AllCStrings([names[0]] + sorted)
  {
    hide IsCString, InOrder, Qsorted;
    assert |Qsorted(names[1..])| == |multiset(Qsorted(names[1..]))| == |names[1..]|;
    QsortedInOrder(names[1..]);
  }

  /** One name, or none, is sorted already. */
  lemma ShortSorted(names: seq<string>)
    ensures |names| <= 1 ==> Qsorted(names) == names
  {
    hide NoLater;
    if |names| == 1 {
      assert names[1..] == [] && Inserted(names[0], []) == [names[0]] + [];
    }
  }

  /** A printed pattern is a C string. */
  lemma {:induction false} PrintNoNul(p: Pattern)
    requires WellFormed(p)
    ensures NoNul(Print(p))
  {
    if p.Alt? {
      PrintAllNoNul(p.branches);
      PrintNoNul(p.rest);
      hide NoNul, WellFormed;
      AltNoNul(p);
    } else if !p.End? {
      PrintNoNul(p.rest);
      Printed(p);
      hide Catches, Print;
    }
  }

  lemma AltNoNul(p: Pattern)
    requires p.Alt? && NoNul(PrintAll(p.branches)) && NoNul(Print(p.rest))
    ensures NoNul(Print(p))
  {
    hide PrintAll;
  }

  lemma {:induction false} PrintAllNoNul(bs: Branches)
    requires WellFormedAll(bs)
    ensures NoNul(PrintAll(bs))
  {
    PrintNoNul(bs.p);
    if bs.More? {
      PrintAllNoNul(bs.others);
    }
  }

  lemma MungeNoNul(names: seq<string>, lo: nat, hi: nat)
    requires lo < hi <= |names| && Fits(names, lo, hi, 0) && AllNoNul(names)
    ensures NoNul(Print(MungePattern(names, lo, hi)))
  {
    hide *;
    MungeMeaning(names, lo, hi);
    PrintNoNul(MungePattern(names, lo, hi));
  }

  /** The two programs one after the other: brace expansion undoes `really_munge_braces` on every list that
      can be folded and on no other, up to quote removal, and without it where nothing needs quoting. */
  method MungeThenExpand(lex: Lexer, names: seq<string>, lo: nat, hi: nat) returns (words: seq<string>)
    requires lo < hi <= |names| && Fits(names, lo, hi, 0) && AllNoNul(names)
    ensures UnquoteAll(words) == names[lo..hi] <==> Foldable(names, lo, hi, 0)
    ensures (forall k | lo <= k < hi :: Plain(names[k])) ==> (words == names[lo..hi] <==> Foldable(names, lo, hi, 0))
  {
    hide *;
    MungeNoNul(names, lo, hi);
    RoundTrip(lex, names, lo, hi);
    if forall k | lo <= k < hi :: Plain(names[k]) {
      PlainRoundTrip(lex, names, lo, hi);
    }
    var pattern := ReallyMungeBraces(names, lo, hi, 0);
    words := BraceExpand(lex, pattern);
  }

  /** In particular on every sorted list of names. */
  method SortedRoundTrip(lex: Lexer, names: seq<string>) returns (words: seq<string>)
    requires names != [] && InOrder(names) && AllCStrings(names)
    ensures UnquoteAll(words) == names
    ensures (forall k | 0 <= k < |names| :: Plain(names[k])) ==> words == names
  {
    hide *;
    assert names[0..|names|] == names;
    SortedFoldable(names, 0, |names|);
    words := MungeThenExpand(lex, names, 0, |names|);
  }
}
