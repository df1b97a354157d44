/** Folding a list of names into one brace pattern (`really_munge_braces`), and the quoting it
    applies (`sh_backslash_quote`). */
module BraceMunge {
  import opened Text
  import opened BraceScan
  import opened BracePattern

  /** Is byte c backslash-quoted?  A `#` only at the start of a string. */
  predicate Quotes(c: char, first: bool) {
    Special(c) || (first && c == '#')
  }

  /** The bytes that are quoted everywhere, as they stand in the table. */
  const QUOTED := "\t\n !\"$&'()*,;<>?[\\]^`{|}"

  lemma QuotedBytes(c: char)
    ensures Quotes(c, false) <==> c in QUOTED
    ensures Quotes(c, true) <==> c in QUOTED || c == '#'
  {
  }

  function Quote(s: string, first: bool): string {
    if s == "" then ""
    else (if Quotes(s[0], first) then [BACKSLASH] + ([s[0]] + Quote(s[1..], false))
          else [s[0]] + Quote(s[1..], false))
  }

  /** The pattern of a quoted string followed by a pattern. */
  function Quoted(s: string, first: bool, tail: Pattern): Pattern {
    if s == "" then tail
    else if Quotes(s[0], first) then Esc(s[0], Quoted(s[1..], false, tail))
    else Chr(s[0], Quoted(s[1..], false, tail))
  }

  /** `sh_backslash_quote` without a table of its own and without flags. */
  method BackslashQuote(s: string) returns (result: string)
    ensures result == Quote(s, true)
  {
    result := "";
    for i := 0 to |s|
      invariant result + Quote(s[i..], i == 0) == Quote(s, true)
    {
      assert s[i..][1..] == s[i + 1..];
      var c := s[i];
      if Quotes(c, i == 0) {
        result := result + [BACKSLASH];
      }
      result := result + [c];
    }
  }

  /** Length of the longest common prefix. */
  function Lcp(a: string, b: string): (r: nat)
    ensures r <= |a| && r <= |b| && forall k | 0 <= k < r :: a[k] == b[k]
    ensures r < |a| && r < |b| ==> a[r] != b[r]
  {
    if a != "" && b != "" && a[0] == b[0] then
      var r := Lcp(a[1..], b[1..]);
      assert forall k | 1 <= k < r + 1 :: a[k] == a[1..][k - 1] == b[1..][k - 1] == b[k];
      assert r + 1 < |a| && r + 1 < |b| ==> a[r + 1] == a[1..][r] && b[r + 1] == b[1..][r];
      r + 1
    else 0
  }

  /** Strings that agree up to n have a common prefix of at least n. */
  lemma LcpAtLeast(a: string, b: string, n: nat)
    requires n <= |a| && n <= |b| && forall k | 0 <= k < n :: a[k] == b[k]
    ensures Lcp(a, b) >= n
  {
    hide Lcp;
    var r := Lcp(a, b);
  }

  /** `string_gcd`. */
  method StringGcd(s1: string, s2: string) returns (i: nat)
    ensures i == Lcp(s1, s2)
  {
    i := 0;
    while i < |s1| && i < |s2|
      invariant i <= |s1| && i <= |s2| && forall k | 0 <= k < i :: s1[k] == s2[k]
    {
      if s1[i] != s2[i] {
        break;
      }
      i := i + 1;
    }
    LcpAtLeast(s1, s2, i);
  }

  /** End of the run of names, from `start` on, that share more than g bytes with it. */
  function GroupEnd(names: seq<string>, start: nat, end: nat, hi: nat, g: nat): (r: nat)
    requires start < end <= hi <= |names|
    ensures end <= r <= hi
    ensures forall k | end <= k < r :: Lcp(names[start], names[k]) > g
    ensures r < hi ==> Lcp(names[start], names[r]) <= g
    decreases hi - end
  {
    if end < hi && Lcp(names[start], names[end]) > g then GroupEnd(names, start, end + 1, hi, g) else end
  }

  /** How much a run of names shares by its first and last one; a single name shares all of itself. */
  function RunGcd(names: seq<string>, lo: nat, end: nat): nat
    requires lo < end <= |names|
  {
    if end == lo + 1 then |names[lo]| else Lcp(names[lo], names[end - 1])
  }

  /** Nothing is read behind the end of a name: every name that begins a run is at least as long as the
      prefix already written, in the runs formed at g and in the runs within those. */
  ghost predicate Fits(names: seq<string>, lo: nat, hi: nat, g: nat)
    requires lo < hi <= |names|
    decreases hi - lo, if Lcp(names[lo], names[hi - 1]) > g then 1 else 0, 1
  {
    var end := GroupEnd(names, lo, lo + 1, hi, g);
    FitsRun(names, lo, end, g) && (end < hi ==> Fits(names, end, hi, g))
  }

  ghost predicate FitsRun(names: seq<string>, lo: nat, end: nat, g: nat)
    requires lo < end <= |names|
    requires end == lo + 1 || Lcp(names[lo], names[end - 1]) > g
    decreases end - lo, if Lcp(names[lo], names[end - 1]) > g then 1 else 0, 0
  {
    g <= |names[lo]| && (end > lo + 1 ==> Fits(names, lo, end, RunGcd(names, lo, end)))
  }

  /** The trie of names lo..hi below the first g bytes: a branch for each run of names that share more
      than that with the first of them. */
  ghost function Munge(names: seq<string>, lo: nat, hi: nat, g: nat): (r: Branches)
    requires lo < hi <= |names| && Fits(names, lo, hi, g)
    ensures lo + 1 < hi && Lcp(names[lo], names[hi - 1]) <= g ==> r.More?
    decreases hi - lo, if Lcp(names[lo], names[hi - 1]) > g then 1 else 0, 1
  {
    var end := GroupEnd(names, lo, lo + 1, hi, g);
    if end == hi then One(MungeRun(names, lo, end, g))
    else More(MungeRun(names, lo, end, g), Munge(names, end, hi, g))
  }

  /** The branch of a run: what its first and last name share, then the trie of the rest. */
  ghost function MungeRun(names: seq<string>, lo: nat, end: nat, g: nat): Pattern
    requires lo < end <= |names|
    requires end == lo + 1 || Lcp(names[lo], names[end - 1]) > g
    requires FitsRun(names, lo, end, g)
    decreases end - lo, if Lcp(names[lo], names[end - 1]) > g then 1 else 0, 0
  {
    var gcd := RunGcd(names, lo, end);
    Quoted(names[lo][g..gcd], true, if end == lo + 1 then End else Alt(Munge(names, lo, end, gcd), End))
  }

  /** The whole pattern for names lo..hi: braces around it unless one prefix is common to all. */
  ghost function MungePattern(names: seq<string>, lo: nat, hi: nat): Pattern
    requires lo < hi <= |names| && Fits(names, lo, hi, 0)
  {
    var bs := Munge(names, lo, hi, 0);
    if bs.One? then bs.p else Alt(bs, End)
  }

  /** Printing a quoted string and what follows it. */
  lemma {:induction false} QuotedPrint(s: string, first: bool, tail: Pattern)
    ensures Print(Quoted(s, first, tail)) == Quote(s, first) + Print(tail)
  {
    if s == "" {
      assert Quote(s, first) + Print(tail) == Print(tail);
    } else {
      QuotedPrint(s[1..], false, tail);
      ConcatAssociative([s[0]], Quote(s[1..], false), Print(tail));
      ConcatAssociative([BACKSLASH], [s[0]] + Quote(s[1..], false), Print(tail));
    }
  }

  /** What the outer loop still has to write when it stands at `lo`: every term ends in a comma. */
  ghost function Remaining(names: seq<string>, lo: nat, hi: nat, g: nat): string
    requires lo <= hi <= |names| && (lo < hi ==> Fits(names, lo, hi, g))
  {
    if lo < hi then PrintAll(Munge(names, lo, hi, g)) + "," else ""
  }

  /** The first run and the rest. */
  lemma MungeCases(names: seq<string>, lo: nat, hi: nat, g: nat, end: nat)
    requires lo < hi <= |names| && Fits(names, lo, hi, g)
    requires end == GroupEnd(names, lo, lo + 1, hi, g)
    ensures lo < end <= hi && (end == lo + 1 || Lcp(names[lo], names[end - 1]) > g)
    ensures FitsRun(names, lo, end, g) && (end < hi ==> Fits(names, end, hi, g))
    ensures Munge(names, lo, hi, g)
         == if end == hi then One(MungeRun(names, lo, end, g))
            else More(MungeRun(names, lo, end, g), Munge(names, end, hi, g))
  {
    hide FitsRun, MungeRun, Lcp, GroupEnd;
  }

  lemma RemainingStep(names: seq<string>, lo: nat, hi: nat, g: nat, end: nat)
    requires lo < hi <= |names| && Fits(names, lo, hi, g)
    requires end == GroupEnd(names, lo, lo + 1, hi, g)
    ensures lo < end <= hi && (end == lo + 1 || Lcp(names[lo], names[end - 1]) > g)
    ensures FitsRun(names, lo, end, g) && (end < hi ==> Fits(names, end, hi, g))
    ensures Remaining(names, lo, hi, g) == Print(MungeRun(names, lo, end, g)) + ("," + Remaining(names, end, hi, g))
    ensures Munge(names, lo, hi, g).More? <==> end < hi
  {
    hide Fits, FitsRun, Munge, MungeRun, Print, Lcp, GroupEnd;
    MungeCases(names, lo, hi, g, end);
    var run := Print(MungeRun(names, lo, end, g));
    if end < hi {
      var rest := PrintAll(Munge(names, end, hi, g));
      ConcatAssociative(run, "," + rest, ",");
      ConcatAssociative(",", rest, ",");
    } else {
      assert "," + "" == ",";
    }
  }

  /** The inner loop of `really_munge_braces`: the names from `start` on that share more than
      gcdZero bytes with it, and how much the last of them shares. */
  method FindGroup(names: seq<string>, start: nat, realEnd: nat, gcdZero: nat) returns (end: nat, gcd: nat)
    requires start < realEnd <= |names|
    ensures end == GroupEnd(names, start, start + 1, realEnd, gcdZero)
    ensures gcd == RunGcd(names, start, end)
  {
    gcd := |names[start]|;
    end := start + 1;
    while end < realEnd
      invariant start < end <= realEnd
      invariant GroupEnd(names, start, end, realEnd, gcdZero) == GroupEnd(names, start, start + 1, realEnd, gcdZero)
      invariant gcd == RunGcd(names, start, end)
    {
      var temp := StringGcd(names[start], names[end]);
      if temp <= gcdZero {
        break;
      }
      gcd := temp;
      end := end + 1;
    }
  }

  /** The term for one run, as the body of the outer loop builds it. */
  method MungeGroup(names: seq<string>, start: nat, end: nat, gcd: nat, gcdZero: nat) returns (subterm: string)
    requires start < end <= |names| && (end == start + 1 || Lcp(names[start], names[end - 1]) > gcdZero)
    requires FitsRun(names, start, end, gcdZero) && gcd == RunGcd(names, start, end)
    ensures subterm == Print(MungeRun(names, start, end, gcdZero))
    decreases end - start, if Lcp(names[start], names[end - 1]) > gcdZero then 1 else 0, 0
  {
    hide Fits, Munge, Print, PrintAll, Lcp, Quote;
    if end == start + 1 {
      subterm := BackslashQuote(names[start][gcdZero..]);
      PrintEnd();
      assert names[start][gcdZero..] == names[start][gcdZero..gcd];
      assert Quote(names[start][gcdZero..], true) + "" == Quote(names[start][gcdZero..], true);
      QuotedPrint(names[start][gcdZero..], true, End);
    } else {
      var x := BackslashQuote(names[start][gcdZero..gcd]);
      subterm := ReallyMungeBraces(names, start, end, gcd);
      ghost var bs := Munge(names, start, end, gcd);
      ReplaceLast(PrintAll(bs), '}');
      subterm := subterm[|subterm| - 1 := '}'];
      subterm := x + "{" + subterm;
      PrintPattern(bs);
      QuotedPrint(names[start][gcdZero..gcd], true, Alt(bs, End));
      ConcatAssociative(x, "{", PrintAll(bs) + "}");
      ConcatAssociative("{", PrintAll(bs), "}");
    }
  }

  /** `really_munge_braces` over names[realStart..realEnd], in an array that ends in a null pointer. */
  method ReallyMungeBraces(names: seq<string>, realStart: nat, realEnd: nat, gcdZero: nat) returns (result: string)
    requires realStart <= realEnd <= |names| && names != []
    requires realStart < realEnd ==> Fits(names, realStart, realEnd, gcdZero)
    requires realStart == realEnd < |names| ==> gcdZero <= |names[realStart]|
    ensures realStart == realEnd ==>
      result == if realStart < |names| then Quote(names[realStart][gcdZero..], true) else Quote(names[0], true)
    ensures realStart < realEnd && gcdZero > 0 ==>
      result == PrintAll(Munge(names, realStart, realEnd, gcdZero)) + ","
    ensures realStart < realEnd && gcdZero == 0 ==>
      result == Print(MungePattern(names, realStart, realEnd))
    decreases realEnd - realStart,
              if realStart < realEnd && Lcp(names[realStart], names[realEnd - 1]) > gcdZero then 1 else 0, 1
  {
    hide *;
    if realStart == realEnd {
      if realStart < |names| {
        result := BackslashQuote(names[realStart][gcdZero..]);
      } else {
        result := BackslashQuote(names[0]);
      }
      return;
    }
    var flag := false;
    result := "";
    var start := realStart;
    ghost var bs := Munge(names, realStart, realEnd, gcdZero);
    RemainingEnds(names, realStart, realEnd, gcdZero);
    while start < realEnd
      invariant realStart <= start <= realEnd && (start < realEnd ==> Fits(names, start, realEnd, gcdZero))
      invariant result + Remaining(names, start, realEnd, gcdZero)
             == (if flag then "{" else "") + (PrintAll(bs) + ",")
      invariant start == realStart ==> !flag && result == ""
      invariant start > realStart ==> (flag <==> gcdZero == 0 && bs.More?)
    {
      var end, gcd := FindGroup(names, start, realEnd, gcdZero);
      RemainingStep(names, start, realEnd, gcdZero, end);
      if gcdZero == 0 && start == realStart && end != realEnd {
        result := "{";
        flag := true;
      }
      var subterm := MungeGroup(names, start, end, gcd, gcdZero);
      AppendTerm(result, subterm, Remaining(names, end, realEnd, gcdZero));
      result := result + subterm + ",";
      start := end;
    }
    LoopDone(result, flag, PrintAll(bs));
    if gcdZero == 0 {
      WholePrinted(names, realStart, realEnd);
      result := if flag then result[|result| - 1 := '}'] else result[..|result| - 1];
    }
  }

  /** Before and behind all runs. */
  lemma RemainingEnds(names: seq<string>, lo: nat, hi: nat, g: nat)
    requires lo < hi <= |names| && Fits(names, lo, hi, g)
    ensures Remaining(names, lo, hi, g) == PrintAll(Munge(names, lo, hi, g)) + ","
    ensures "" + Remaining(names, lo, hi, g) == "" + (PrintAll(Munge(names, lo, hi, g)) + ",")
    ensures Remaining(names, hi, hi, g) == ""
  {
    hide Fits, Munge, PrintAll;
  }

  /** The last comma is overwritten by the brace, or dropped. */
  lemma LoopDone(result: string, flag: bool, printed: string)
    requires result + "" == (if flag then "{" else "") + (printed + ",")
    ensures result != ""
    ensures flag ==> result[|result| - 1 := '}'] == "{" + printed + "}"
    ensures !flag ==> result == printed + "," && result[..|result| - 1] == printed
  {
    assert result + "" == result;
    if flag {
      ConcatAssociative("{", printed, ",");
      ReplaceLast("{" + printed, '}');
    } else {
      assert "" + (printed + ",") == printed + ",";
      ReplaceLast(printed, '}');
    }
  }

  lemma WholePrinted(names: seq<string>, lo: nat, hi: nat)
    requires lo < hi <= |names| && Fits(names, lo, hi, 0)
    ensures var bs := Munge(names, lo, hi, 0);
      Print(MungePattern(names, lo, hi)) == if bs.More? then "{" + PrintAll(bs) + "}" else PrintAll(bs)
  {
    hide Fits, Munge, Print, PrintAll;
    PrintPattern(Munge(names, lo, hi, 0));
  }

  lemma PrintEnd()
    ensures Print(End) == ""
  {
  }

  lemma PrintPattern(bs: Branches)
    ensures Print(Alt(bs, End)) == "{" + PrintAll(bs) + "}"
    ensures bs.One? ==> PrintAll(bs) == Print(bs.p)
  {
  }
}
