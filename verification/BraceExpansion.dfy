/** Brace expansion: `brace_gobbler`, `array_concat`, `expand_amble` and `brace_expand` as the
    shell runs them, the functions they compute, and what expansion means for printed patterns. */
module BraceExpansion {
  import opened Chars
  import opened Text
  import opened Wrappers
  import opened BraceScan

  /** The first brace expansion of a text: its braces and its type. */
  datatype Site = NoSite | Site(open: nat, close: nat, btype: BraceType)

  /** Could text[start..close] be the `x..y` of a sequence?  The bytes behind it are looked at too. */
  predicate ValidSeqTerm(text: string, start: nat, close: nat)
    requires start <= close <= |text|
  {
    match FindDots(text, start, close)
    case None => false
    case Some(dots) =>
      var rhs := dots + 2;
      At(text, start) != '.' && At(text, rhs) != '}' &&
      (if StartsInteger(text, start) then StartsInteger(text, rhs)
       else IsAlpha(At(text, start)) && At(text, start + 1) == '.' &&
            IsAlpha(At(text, rhs)) && (At(text, rhs + 1) == '}' || At(text, rhs + 1) == '.'))
  }

  /** The first `..` inside text[i..close]. */
  function FindDots(text: string, i: nat, close: nat): Option<nat>
    requires i <= close <= |text|
    decreases close - i
  {
    if close - i < 2 then None
    else if text[i] == '.' && text[i + 1] == '.' then Some(i)
    else FindDots(text, i + 1, close)
  }

  predicate StartsInteger(text: string, i: nat) {
    IsDigit(At(text, i)) || ((At(text, i) == '+' || At(text, i) == '-') && IsDigit(At(text, i + 1)))
  }

  /** The expansion opened by the brace at `open`, if it opens one. */
  function SiteAt(lex: Lexer, text: string, open: nat): (r: Site)
    requires open < |text|
    ensures r.Site? ==> r.open == open < r.close < |text| && text[r.close] == '}'
  {
    var stop := Gobble(lex, text, open + 1, Start('}'), '}');
    if stop.i < |text| && !(stop.btype == BraceSeq && !ValidSeqTerm(text, open + 1, stop.i)) then
      Site(open, stop.i, stop.btype)
    else NoSite
  }

  function FindSite(lex: Lexer, text: string, i: nat): (r: Site)
    requires i <= |text|
    ensures r.Site? ==> i <= r.open < r.close < |text| && text[r.open] == '{' && text[r.close] == '}'
    decreases |text| - i
  {
    var stop := Gobble(lex, text, i, Start('{'), '{');
    if stop.i == |text| then NoSite
    else
      var site := SiteAt(lex, text, stop.i);
      if site.Site? then site else FindSite(lex, text, stop.i + 1)
  }

  /** The words of a text.  A term `{x..y}` that generates nothing stands for itself. */
  function Expand(lex: Lexer, text: string): seq<string>
    decreases |text|, 0, 0
  {
    match FindSite(lex, text, 0)
    case NoSite => [text]
    case Site(open, close, btype) =>
      var amble := text[open + 1..close];
      var seqWords := if btype == BraceSeq then lex.seqTerm(amble) else None;
      if btype == BraceSeq && seqWords.None? && close + 1 == |text| then [text]
      else
        var tack := if btype != BraceSeq then ExpandAmble(lex, amble, 0)
                    else if seqWords.Some? then seqWords.value
                    else [text[open..close + 1]];
        var result := Cross([text[..open]], tack);
        if close + 1 == |text| then result else Cross(result, Expand(lex, text[close + 1..]))
  }

  /** The words of the comma-separated parts of a text, from position `start` on. */
  function ExpandAmble(lex: Lexer, text: string, start: nat): seq<string>
    requires start <= |text|
    decreases |text|, 1, |text| - start
  {
    var stop := Gobble(lex, text, start, Start(','), ',');
    var partial := Expand(lex, text[start..stop.i]);
    if stop.i == |text| then partial else partial + ExpandAmble(lex, text, stop.i + 1)
  }

  /** `brace_gobbler`: on return c is the byte that stopped the scan (NUL at the end), i its position. */
  method BraceGobbler(lex: Lexer, text: string, indx: nat, satisfy: char)
    returns (c: char, i: nat, btype: BraceType)
    requires indx <= |text| && NoNul(text)
    ensures Stop(c, i, btype) == Gobble(lex, text, indx, Start(satisfy), satisfy)
  {
    var level, quoted, passNext := 0, NUL, false;
    btype := BraceNone;
    var commas := if satisfy == '}' then 0 else 1;
    i := indx;
    c := At(text, i);
    while c != NUL
      invariant i <= |text| && c == At(text, i)
      invariant Gobble(lex, text, i, ScanState(level, quoted, commas, passNext, btype), satisfy)
             == Gobble(lex, text, indx, Start(satisfy), satisfy)
      decreases |text| - i
    {
      var command := false;
      if passNext {
        passNext := false;
        i := i + 1;
      } else if c == BACKSLASH && (quoted == NUL || quoted == DQUOTE || quoted == BACKQUOTE) {
        passNext := true;
        i := i + 1;
      } else if c == '$' && At(text, i + 1) == '{' && quoted != SQUOTE {
        if FunsubChar(At(text, i + 2)) {
          i := i + 2 + lex.funsubSpan(text, i + 2) + 1;
          if i > |text| {
            i, c := |text|, NUL;
            break;
          }
        } else {
          passNext := true;
          i := i + 1;
          if quoted == NUL {
            level := level + 1;
          }
        }
      } else if quoted != NUL {
        if c == quoted {
          quoted := NUL;
        }
        if quoted == DQUOTE && c == '$' && At(text, i + 1) == '(' {
          command := true;
        } else {
          i := i + 1;
        }
      } else if c == DQUOTE || c == SQUOTE || c == BACKQUOTE {
        quoted := c;
        i := i + 1;
      } else if OpensSubstitution(text, i) {
        command := true;
      } else if c == satisfy && level == 0 && commas > 0 {
        if !LoneBrace(text, i) {
          break;
        }
        i := i + 1;
      } else {
        if c == '{' {
          level := level + 1;
        } else if c == '}' && level > 0 {
          level := level - 1;
        } else if satisfy == '}' && c == ',' && level == 0 {
          btype := BraceComma;
          commas := commas + 1;
        } else if satisfy == '}' && c == '.' && At(text, i + 1) == '.' && At(text, i + 2) != satisfy
                  && level == 0 && btype == BraceNone {
          btype := BraceSeq;
          commas := commas + 1;
        }
        i := i + 1;
      }
      if command {
        i := i + 2 + lex.commandSpan(text, i + 2) + 1;
        if i > |text| {
          i, c := |text|, NUL;
          break;
        }
      }
      c := At(text, i);
    }
  }

  /** `array_concat`: two short cuts, then the general product written slot by slot. */
  method ArrayConcat(arr1: seq<string>, arr2: seq<string>) returns (r: seq<string>)
    ensures r == Cross(arr1, arr2)
  {
    if |arr1| == 1 && arr1[0] == "" {
      CrossUnitLeft(arr2);
      assert arr1 == [""];
      return arr2;
    }
    if |arr2| == 1 && arr2[0] == "" {
      CrossUnitRight(arr1);
      assert arr2 == [""];
      return arr1;
    }
    hide Cross;
    CrossLength(arr1[..0], arr2);
    var result := new string[|arr1| * |arr2|];
    for i := 0 to |arr1|
      invariant i * |arr2| <= result.Length && result[..i * |arr2|] == Cross(arr1[..i], arr2)
    {
      CrossRow(arr1, i, arr2);
      RowFits(i, |arr1|, |arr2|);
      WriteRow(result, i * |arr2|, arr1[i], arr2);
    }
    assert arr1[..|arr1|] == arr1;
    return result[..];
  }

  /** The inner loop of `array_concat`: x + arr2[0], x + arr2[1], ... from slot `len` on. */
  method WriteRow(result: array<string>, len: nat, x: string, arr2: seq<string>)
    requires len + |arr2| <= result.Length
    modifies result
    ensures result[..len + |arr2|] == old(result[..len]) + Prefix(x, arr2)
  {
    for j := 0 to |arr2|
      invariant result[..len + j] == old(result[..len]) + Prefix(x, arr2)[..j]
    {
      result[len + j] := x + arr2[j];
    }
  }

  /** The loop that opens `brace_expand`: skip open braces that begin no expansion. */
  method FindOpenBrace(lex: Lexer, text: string) returns (c: char, i: nat)
    requires NoNul(text)
    ensures if c == '{' then i < |text| && SiteAt(lex, text, i).Site? else i == |text|
    ensures FindSite(lex, text, 0) == (if c == '{' then SiteAt(lex, text, i) else NoSite)
  {
    hide Gobble, ValidSeqTerm;
    i := 0;
    var j, etype, c1;
    while true
      invariant i <= |text| && FindSite(lex, text, i) == FindSite(lex, text, 0)
      decreases |text| - i
    {
      c, i, etype := BraceGobbler(lex, text, i, '{');
      if i >= |text| {
        break;
      }
      c1 := c;
      c, j, etype := BraceGobbler(lex, text, i + 1, '}');
      if etype == BraceSeq && !ValidSeqTerm(text, i + 1, j) {
        c := NUL;
      }
      if c == NUL {
        i := i + 1;
      } else {
        c := c1;
        break;
      }
    }
  }

  /** `brace_expand`. */
  method BraceExpand(lex: Lexer, text: string) returns (result: seq<string>)
    requires NoNul(text)
    ensures result == Expand(lex, text)
    decreases |text|, 0
  {
    hide Gobble, ValidSeqTerm, Cross, ExpandAmble;
    var c, i := FindOpenBrace(lex, text);
    var preamble := text[..i];
    result := [preamble];
    if c != '{' {
      assert text[..i] == text;
      return;
    }
    var start := i + 1;
    var etype;
    c, i, etype := BraceGobbler(lex, text, start, '}');
    // The source also answers for a missing closing brace here; there never is one.
    assert c == '}';
    var amble := text[start..i];
    var tack;
    var seqWords := if etype == BraceSeq then lex.seqTerm(amble) else None;
    if etype == BraceSeq && seqWords.Some? {
      tack := seqWords.value;
    } else if etype == BraceSeq && i + 1 < |text| {
      tack := [text[start - 1..i + 1]];
    } else if etype == BraceSeq {
      result := [text];
      return;
    } else {
      tack := ExpandAmbleWords(lex, amble);
    }
    result := ArrayConcat(result, tack);
    var postamble := text[i + 1..];
    if postamble != "" {
      tack := BraceExpand(lex, postamble);
      result := ArrayConcat(result, tack);
    }
  }

  /** `expand_amble`. */
  method ExpandAmbleWords(lex: Lexer, text: string) returns (result: seq<string>)
    requires NoNul(text)
    ensures result == ExpandAmble(lex, text, 0)
    decreases |text|, 1
  {
    hide Gobble, Expand;
    result := [];
    var start, i := 0, 0;
    var c := ',';
    while c != NUL
      invariant start == i <= |text| + 1
      invariant c != NUL ==> i <= |text| && result + ExpandAmble(lex, text, i) == ExpandAmble(lex, text, 0)
      invariant c == NUL ==> result == ExpandAmble(lex, text, 0)
      decreases |text| + 1 - i
    {
      var btype;
      c, i, btype := BraceGobbler(lex, text, i, ',');
      var partial := BraceExpand(lex, text[start..i]);
      result := result + partial;
      i := i + 1;
      start := i;
    }
  }
}
