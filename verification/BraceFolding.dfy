/** When the trie of a list of names means the names: exactly when every run shares what is written
    for it, and so for every list that is sorted. */
module BraceFolding {
  import opened Text
  import opened BracePattern
  import opened BraceMunge
  import opened BraceUnquote

  ghost predicate AllNoNul(names: seq<string>) {
    forall k | 0 <= k < |names| :: NoNul(names[k])
  }

  /** Names lo..hi all start with the first g bytes of name lo. */
  ghost predicate Shares(names: seq<string>, lo: nat, hi: nat, g: nat) {
    hi <= |names| && forall k | lo <= k < hi :: Lcp(names[lo], names[k]) >= g
  }

  /** The prefix shared with an earlier name never grows along the list: what sorting provides. */
  ghost predicate Grouped(names: seq<string>, lo: nat, hi: nat) {
    hi <= |names| &&
    forall i, j, k | lo <= i <= j <= k < hi :: Lcp(names[i], names[k]) <= Lcp(names[i], names[j])
  }

  /** What the first and the last name of a run share, all its names share, in the runs formed at g and
      in the runs within those. */
  ghost predicate Foldable(names: seq<string>, lo: nat, hi: nat, g: nat)
    requires lo < hi <= |names|
    decreases hi - lo, if Lcp(names[lo], names[hi - 1]) > g then 1 else 0, 1
  {
    var end := GroupEnd(names, lo, lo + 1, hi, g);
    FoldableRun(names, lo, end, g) && (end < hi ==> Foldable(names, end, hi, g))
  }

  ghost predicate FoldableRun(names: seq<string>, lo: nat, end: nat, g: nat)
    requires lo < end <= |names|
    requires end == lo + 1 || Lcp(names[lo], names[end - 1]) > g
    decreases end - lo, if Lcp(names[lo], names[end - 1]) > g then 1 else 0, 0
  {
    end > lo + 1 ==> Shares(names, lo, end, RunGcd(names, lo, end)) && Foldable(names, lo, end, RunGcd(names, lo, end))
  }

  lemma SharesFirst(names: seq<string>, lo: nat, hi: nat, g: nat)
    requires lo < hi && Shares(names, lo, hi, g)
    ensures g <= |names[lo]| && forall k | lo <= k < hi :: g <= |names[k]|
  {
  }

  lemma SharesRest(names: seq<string>, lo: nat, mid: nat, hi: nat, g: nat)
    requires Shares(names, lo, hi, g) && lo <= mid < hi
    ensures Shares(names, mid, hi, g) && Shares(names, lo, mid, g)
  {
    forall k | mid <= k < hi ensures Lcp(names[mid], names[k]) >= g {
      hide Lcp;
      assert Lcp(names[lo], names[mid]) >= g;
      LcpAtLeast(names[mid], names[k], g);
    }
  }

  /** The runs a list is divided into. */
  lemma Runs(names: seq<string>, lo: nat, hi: nat, g: nat, end: nat)
    requires lo < hi <= |names| && end == GroupEnd(names, lo, lo + 1, hi, g)
    ensures lo < end <= hi && (end == lo + 1 || Lcp(names[lo], names[end - 1]) > g)
    ensures Foldable(names, lo, hi, g) <==> FoldableRun(names, lo, end, g) && (end < hi ==> Foldable(names, end, hi, g))
    ensures Fits(names, lo, hi, g) <==> FitsRun(names, lo, end, g) && (end < hi ==> Fits(names, end, hi, g))
  {
    hide FoldableRun, FitsRun, Lcp, GroupEnd;
  }

  /** Where every run shares what is written for it nothing is read behind the end of a name. */
  lemma {:induction false} FoldableFits(names: seq<string>, lo: nat, hi: nat, g: nat)
    requires lo < hi && Shares(names, lo, hi, g) && Foldable(names, lo, hi, g)
    ensures Fits(names, lo, hi, g)
    decreases hi - lo, if Lcp(names[lo], names[hi - 1]) > g then 1 else 0, 1
  {
    var end := GroupEnd(names, lo, lo + 1, hi, g);
    hide Lcp, GroupEnd, Foldable, Fits, Shares;
    SharesFirst(names, lo, hi, g);
    Runs(names, lo, hi, g, end);
    if end > lo + 1 {
      FoldableFits(names, lo, end, RunGcd(names, lo, end));
    }
    if end < hi {
      SharesRest(names, lo, end, hi, g);
      FoldableFits(names, end, hi, g);
    }
  }

  /** A run of a grouped list shares what its first and last names share. */
  lemma RunShares(names: seq<string>, lo: nat, end: nat)
    requires lo < end && Grouped(names, lo, end)
    ensures end > lo + 1 ==> Shares(names, lo, end, RunGcd(names, lo, end))
  {
    hide Lcp;
  }

  lemma GroupedPart(names: seq<string>, lo: nat, mid: nat, hi: nat)
    requires lo <= mid <= hi && Grouped(names, lo, hi)
    ensures Grouped(names, lo, mid) && Grouped(names, mid, hi)
  {
    hide Lcp;
  }

  lemma {:induction false} GroupedFoldable(names: seq<string>, lo: nat, hi: nat, g: nat)
    requires lo < hi && Grouped(names, lo, hi)
    ensures Foldable(names, lo, hi, g)
    decreases hi - lo, if Lcp(names[lo], names[hi - 1]) > g then 1 else 0, 1
  {
    var end := GroupEnd(names, lo, lo + 1, hi, g);
    assert hi <= |names|;
    hide Lcp, GroupEnd, Foldable, Shares, Grouped;
    Runs(names, lo, hi, g, end);
    GroupedPart(names, lo, end, hi);
    RunShares(names, lo, end);
    if end > lo + 1 {
      GroupedFoldable(names, lo, end, RunGcd(names, lo, end));
    }
    if end < hi {
      GroupedFoldable(names, end, hi, g);
    }
  }

  /** Names lo..hi without their first g bytes. */
  ghost function Suffixes(names: seq<string>, lo: nat, hi: nat, g: nat): (r: seq<string>)
    requires lo <= hi <= |names| && forall k | lo <= k < hi :: g <= |names[k]|
    ensures |r| == hi - lo && forall k | 0 <= k < |r| :: r[k] == names[lo + k][g..]
  {
    seq(hi - lo, k requires 0 <= k < hi - lo => names[lo + k][g..])
  }

  /** Two lists of words in front of one another are the names exactly when each is its part of them. */
  lemma PartsEqual(a: seq<string>, b: seq<string>, names: seq<string>, lo: nat, mid: nat, hi: nat, g: nat)
    requires lo <= mid <= hi <= |names| && forall k | lo <= k < hi :: g <= |names[k]|
    requires |a| == mid - lo && |b| == hi - mid
    ensures a + b == Suffixes(names, lo, hi, g) <==>
      a == Suffixes(names, lo, mid, g) && b == Suffixes(names, mid, hi, g)
  {
    var c, d := Suffixes(names, lo, mid, g), Suffixes(names, mid, hi, g);
    assert c + d == Suffixes(names, lo, hi, g);
    assert (a + b)[..|a|] == a && (a + b)[|a|..] == b;
    assert (c + d)[..|c|] == c && (c + d)[|c|..] == d;
  }

  lemma WordsJoin(p: Pattern, bs: Branches)
    ensures WordsAll(More(p, bs)) == Words(p) + WordsAll(bs) && WordsAll(One(p)) == Words(p)
    ensures WellFormedAll(More(p, bs)) <==> WellFormed(p) && Balanced(p, 0) && WellFormedAll(bs)
    ensures WellFormedAll(One(p)) <==> WellFormed(p) && Balanced(p, 0)
  {
  }

  /** The trie of names has a word for each of them, and the words are the names exactly when the names
      can be folded. */
  lemma {:induction false} MungeWords(names: seq<string>, lo: nat, hi: nat, g: nat)
    requires lo < hi <= |names| && Fits(names, lo, hi, g) && AllNoNul(names)
    ensures WellFormedAll(Munge(names, lo, hi, g)) && |WordsAll(Munge(names, lo, hi, g))| == hi - lo
    ensures Shares(names, lo, hi, g) ==>
      (forall k | lo <= k < hi :: g <= |names[k]|) &&
      (WordsAll(Munge(names, lo, hi, g)) == Suffixes(names, lo, hi, g) <==> Foldable(names, lo, hi, g))
    decreases hi - lo, if Lcp(names[lo], names[hi - 1]) > g then 1 else 0, 1
  {
    var end := GroupEnd(names, lo, lo + 1, hi, g);
    hide *;
    MungeCases(names, lo, hi, g, end);
    Runs(names, lo, hi, g, end);
    RunWords(names, lo, end, g);
    var p := MungeRun(names, lo, end, g);
    WordsJoin(p, One(p));
    if Shares(names, lo, hi, g) {
      SharesFirst(names, lo, hi, g);
      SharesRest(names, lo, if end < hi then end else lo, hi, g);
    }
    if end < hi {
      MungeWords(names, end, hi, g);
      var bs := Munge(names, end, hi, g);
      WordsJoin(p, bs);
      if Shares(names, lo, hi, g) {
        PartsEqual(Words(p), WordsAll(bs), names, lo, end, hi, g);
      }
    }
  }

  lemma {:induction false} RunWords(names: seq<string>, lo: nat, end: nat, g: nat)
    requires lo < end <= |names| && AllNoNul(names)
    requires end == lo + 1 || Lcp(names[lo], names[end - 1]) > g
    requires FitsRun(names, lo, end, g)
    ensures WellFormed(MungeRun(names, lo, end, g)) && Balanced(MungeRun(names, lo, end, g), 0)
    ensures |Words(MungeRun(names, lo, end, g))| == end - lo
    ensures Shares(names, lo, end, g) ==>
      (forall k | lo <= k < end :: g <= |names[k]|) &&
      (Words(MungeRun(names, lo, end, g)) == Suffixes(names, lo, end, g) <==> FoldableRun(names, lo, end, g))
    decreases end - lo, if Lcp(names[lo], names[end - 1]) > g then 1 else 0, 0
  {
    var gcd := RunGcd(names, lo, end);
    var common := names[lo][g..gcd];
    hide Lcp, Munge, Words, WordsAll, WellFormed, Balanced, Quoted, Shares, Fits, Foldable;
    assert NoNul(common);
    if Shares(names, lo, end, g) {
      SharesFirst(names, lo, end, g);
    }
    if end == lo + 1 {
      SingleWord(common);
      assert common == names[lo][g..];
    } else {
      MungeWords(names, lo, end, gcd);
      CommonWords(common, Munge(names, lo, end, gcd));
      if Shares(names, lo, end, g) {
        CommonSuffixes(names, lo, end, g, gcd, WordsAll(Munge(names, lo, end, gcd)));
      }
    }
  }

  lemma SingleWord(s: string)
    requires NoNul(s)
    ensures WellFormed(Quoted(s, true, End)) && Balanced(Quoted(s, true, End), 0) && Words(Quoted(s, true, End)) == [s]
  {
    QuotedWords(s, true, End);
    assert s + "" == s;
  }

  lemma CommonWords(s: string, bs: Branches)
    requires NoNul(s) && WellFormedAll(bs) && bs.More?
    ensures WellFormed(Quoted(s, true, Alt(bs, End))) && Balanced(Quoted(s, true, Alt(bs, End)), 0)
    ensures Words(Quoted(s, true, Alt(bs, End))) == Prefix(s, WordsAll(bs))
  {
    assert Balanced(Alt(bs, End), 0);
    QuotedWords(s, true, Alt(bs, End));
    CrossUnitRight(WordsAll(bs));
  }

  /** Words behind the prefix of a run are the names of the run exactly when all names have the prefix and
      the words are what follows it. */
  lemma CommonSuffixes(names: seq<string>, lo: nat, end: nat, g: nat, gcd: nat, ws: seq<string>)
    requires lo < end <= |names| && Shares(names, lo, end, g) && g <= gcd <= |names[lo]| && |ws| == end - lo
    ensures forall k | lo <= k < end :: g <= |names[k]|
    ensures Shares(names, lo, end, gcd) ==> forall k | lo <= k < end :: gcd <= |names[k]|
    ensures Prefix(names[lo][g..gcd], ws) == Suffixes(names, lo, end, g)
        <==> Shares(names, lo, end, gcd) && ws == Suffixes(names, lo, end, gcd)
  {
    hide Lcp;
    SharesFirst(names, lo, end, g);
    var common := names[lo][g..gcd];
    forall k | lo <= k < end
      ensures common + ws[k - lo] == names[k][g..] <==> Lcp(names[lo], names[k]) >= gcd && ws[k - lo] == names[k][gcd..]
    {
      CommonSuffix(names[lo], names[k], g, gcd, ws[k - lo]);
    }
    if Prefix(common, ws) == Suffixes(names, lo, end, g) {
      forall k | lo <= k < end ensures Lcp(names[lo], names[k]) >= gcd && ws[k - lo] == names[k][gcd..] {
        assert Prefix(common, ws)[k - lo] == Suffixes(names, lo, end, g)[k - lo];
      }
      assert ws == Suffixes(names, lo, end, gcd);
    }
    if Shares(names, lo, end, gcd) {
      SharesFirst(names, lo, end, gcd);
      if ws == Suffixes(names, lo, end, gcd) {
        forall k | 0 <= k < end - lo ensures Prefix(common, ws)[k] == Suffixes(names, lo, end, g)[k] {
          assert Lcp(names[lo], names[lo + k]) >= gcd && ws[k] == names[lo + k][gcd..];
        }
      }
    }
  }

  lemma CommonSuffix(a: string, b: string, g: nat, gcd: nat, w: string)
    requires g <= gcd <= |a| && Lcp(a, b) >= g
    ensures a[g..gcd] + w == b[g..] <==> Lcp(a, b) >= gcd && w == b[gcd..]
  {
    hide Lcp;
    if a[g..gcd] + w == b[g..] {
      assert |b| >= gcd;
      forall k | 0 <= k < gcd ensures a[k] == b[k] {
        if k >= g {
          assert (a[g..gcd] + w)[k - g] == b[g..][k - g];
        }
      }
      LcpAtLeast(a, b, gcd);
      assert w == (a[g..gcd] + w)[gcd - g..] == b[g..][gcd - g..] == b[gcd..];
    }
    if Lcp(a, b) >= gcd && w == b[gcd..] {
      assert a[g..gcd] == b[g..gcd] && b[g..] == b[g..gcd] + b[gcd..];
    }
  }

  lemma SharesNothing(names: seq<string>, lo: nat, hi: nat)
    requires hi <= |names|
    ensures Shares(names, lo, hi, 0)
  {
  }
}
