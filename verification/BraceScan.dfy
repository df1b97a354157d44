/** The scanner of brace expansion: `brace_gobbler`, and the search for the first brace
    that really opens an expansion. */
module BraceScan {
  import opened Chars
  import opened Wrappers

  const BACKSLASH := '\\'
  const SQUOTE := '\''
  const DQUOTE := '\"'
  const BACKQUOTE := '`'

  /** What kind of expansion the text between two braces looks like. */
  datatype BraceType = BraceNone | BraceComma | BraceSeq

  /** The parts of the shell that brace expansion calls and that are not modelled here: how much
      text a `$(...)`, `<(...)` or `>(...)` starting at a position spans, how much a `${ ...;}`
      spans, and what a `{x..y}` term generates. */
  datatype Lexer = Lexer(commandSpan: (string, nat) -> nat,
                         funsubSpan: (string, nat) -> nat,
                         seqTerm: string -> Option<seq<string>>)

  /** The local variables of `brace_gobbler` that change as it scans. */
  datatype ScanState = ScanState(level: nat, quoted: char, commas: nat, passNext: bool, btype: BraceType)

  /** Where a scan stopped, at which byte (NUL: at the end), and what it saw on the way. */
  datatype Stop = Stop(c: char, i: nat, btype: BraceType)

  predicate BraceWhitespace(c: char) {
    c == NUL || c == ' ' || c == '\t' || c == '\n'
  }

  predicate FunsubChar(c: char) {
    c == ' ' || c == '\t' || c == '\n' || c == '|'
  }

  function Start(satisfy: char): ScanState {
    ScanState(0, NUL, if satisfy == '}' then 0 else 1, false, BraceNone)
  }

  /** An open brace that stands alone between whitespace, or is followed by `}` after whitespace,
      opens nothing. */
  predicate LoneBrace(text: string, i: nat)
    requires i < |text|
  {
    text[i] == '{' &&
    (i == 0 || BraceWhitespace(text[i - 1])) &&
    (BraceWhitespace(At(text, i + 1)) || At(text, i + 1) == '}')
  }

  predicate OpensSubstitution(text: string, i: nat)
    requires i < |text|
  {
    (text[i] == '$' || text[i] == '<' || text[i] == '>') && At(text, i + 1) == '('
  }

  /** Bookkeeping for a byte that neither stops the scan nor is quoted. */
  function Count(text: string, i: nat, st: ScanState, satisfy: char): ScanState
    requires i < |text|
  {
    var c := text[i];
    if c == '{' then st.(level := st.level + 1)
    else if c == '}' && st.level > 0 then st.(level := st.level - 1)
    else if satisfy == '}' && c == ',' && st.level == 0 then st.(btype := BraceComma, commas := st.commas + 1)
    else if satisfy == '}' && c == '.' && At(text, i + 1) == '.' && At(text, i + 2) != satisfy
            && st.level == 0 && st.btype == BraceNone then
      st.(btype := BraceSeq, commas := st.commas + 1)
    else st
  }

  /** The scan from position i in state st for an unquoted `satisfy` outside inner braces. */
  function Gobble(lex: Lexer, text: string, i: nat, st: ScanState, satisfy: char): (r: Stop)
    requires i <= |text|
    ensures i <= r.i <= |text|
    ensures r.i == |text| ==> r.c == NUL
    ensures r.i < |text| ==> r.c == satisfy == text[r.i]
    decreases |text| - i
  {
    if i == |text| then Stop(NUL, |text|, st.btype)
    else
      var c := text[i];
      if st.passNext then
        Gobble(lex, text, i + 1, st.(passNext := false), satisfy)
      else if c == BACKSLASH && (st.quoted == NUL || st.quoted == DQUOTE || st.quoted == BACKQUOTE) then
        Gobble(lex, text, i + 1, st.(passNext := true), satisfy)
      else if c == '$' && At(text, i + 1) == '{' && st.quoted != SQUOTE then
        if FunsubChar(At(text, i + 2)) then
          var next := i + 2 + lex.funsubSpan(text, i + 2) + 1;
          if next > |text| then Stop(NUL, |text|, st.btype) else Gobble(lex, text, next, st, satisfy)
        else
          Gobble(lex, text, i + 1,
                 st.(passNext := true, level := if st.quoted == NUL then st.level + 1 else st.level), satisfy)
      else if st.quoted != NUL then
        var st' := if c == st.quoted then st.(quoted := NUL) else st;
        if st'.quoted == DQUOTE && c == '$' && At(text, i + 1) == '(' then
          GobbleCommand(lex, text, i, st', satisfy)
        else
          Gobble(lex, text, i + 1, st', satisfy)
      else if c == DQUOTE || c == SQUOTE || c == BACKQUOTE then
        Gobble(lex, text, i + 1, st.(quoted := c), satisfy)
      else if OpensSubstitution(text, i) then
        GobbleCommand(lex, text, i, st, satisfy)
      else if c == satisfy && st.level == 0 && st.commas > 0 then
        if LoneBrace(text, i) then Gobble(lex, text, i + 1, st, satisfy) else Stop(c, i, st.btype)
      else
        Gobble(lex, text, i + 1, Count(text, i, st, satisfy), satisfy)
  }

  /** Step over a `$(...)`, `<(...)` or `>(...)` that starts at i. */
  function GobbleCommand(lex: Lexer, text: string, i: nat, st: ScanState, satisfy: char): (r: Stop)
    requires i < |text|
    ensures i <= r.i <= |text|
    ensures r.i == |text| ==> r.c == NUL
    ensures r.i < |text| ==> r.c == satisfy == text[r.i]
    decreases |text| - i, 0
  {
    var next := i + 2 + lex.commandSpan(text, i + 2) + 1;
    if next > |text| then Stop(NUL, |text|, st.btype) else Gobble(lex, text, next, st, satisfy)
  }
}
