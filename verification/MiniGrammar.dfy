/** The command-line grammar of minishell: tokens, trees, their printed form, and the parser as
    functions on the tokens still to be read. */
module MiniGrammar {
  import opened Wrappers

  datatype TextKind = NonExpandable | Expandable | ExpandableQuoted

  datatype RedirKind = Input | HereDoc | Output | Appending

  datatype Token =
    | Text(kind: TextKind, text: string)
    | Redir(redir: RedirKind, fd: int)
    | Pipe | Semicolon | Newline | Space | Eof | Bad

  /** A word: pieces of text with no space between them. */
  datatype Str = Str(kind: TextKind, text: string, next: Option<Str>)

  datatype Redirection = Redirection(kind: RedirKind, fd: int, word: Option<Str>)

  datatype Args = Args(word: Option<Str>, redirection: Option<Redirection>, rest: Option<Args>)

  datatype Pipeline = Pipeline(command: Args, next: Option<Pipeline>)

  datatype Commands = Commands(pipeline: Pipeline, delimiter: bool, rest: Option<Commands>)

  /** A node if there is one, its error flag, and the tokens left. */
  datatype Parsed<+T> = Parsed(node: Option<T>, error: bool, rest: seq<Token>)

  function Cur(ts: seq<Token>): Token {
    if ts == [] then Eof else ts[0]
  }

  /** `parse_skip_spaces` */
  function Skip(ts: seq<Token>): (r: seq<Token>)
    ensures |r| <= |ts| && Cur(r) != Space
  {
    if Cur(ts) == Space then Skip(ts[1..]) else ts
  }

  /** Every part of the parser uses up tokens when it finds something. */
  predicate Advances<T>(ts: seq<Token>, r: Parsed<T>) {
    |r.rest| <= |ts| && (r.node.Some? ==> |r.rest| < |ts|) && (r.node.None? ==> !r.error)
  }

  /** `parse_string` */
  function ParseString(ts: seq<Token>): (r: Parsed<Str>)
    ensures Advances(ts, r) && !r.error && (r.node.None? ==> r.rest == ts)
  {
    if !Cur(ts).Text? then Parsed(None, false, ts)
    else
      var r := ParseString(ts[1..]);
      Parsed(Some(Str(Cur(ts).kind, Cur(ts).text, r.node)), false, r.rest)
  }

  /** `parse_redirection`: a redirection without a word is an error. */
  function ParseRedirection(ts: seq<Token>): (r: Parsed<Redirection>)
    ensures Advances(ts, r) && (r.node.None? ==> r.rest == ts)
  {
    if !Cur(ts).Redir? then Parsed(None, false, ts)
    else
      var r := ParseString(Skip(ts[1..]));
      Parsed(Some(Redirection(Cur(ts).redir, Cur(ts).fd, r.node)), r.node.None?, r.rest)
  }

  /** `parse_arguments` */
  function ParseArguments(ts: seq<Token>): (r: Parsed<Args>)
    ensures Advances(ts, r)
    decreases |ts|
  {
    var redir := ParseRedirection(Skip(ts));
    var word := ParseString(redir.rest);
    if redir.node.None? && word.node.None? then Parsed(None, false, word.rest)
    else
      var rest := ParseArguments(word.rest);
      Parsed(Some(Args(word.node, redir.node, rest.node)), redir.error || rest.error, rest.rest)
  }

  /** `parse_piped_commands`: a `|` with no command behind it is an error. */
  function ParsePiped(ts: seq<Token>): (r: Parsed<Pipeline>)
    ensures Advances(ts, r)
    decreases |ts|
  {
    var a := ParseArguments(ts);
    if a.node.None? then Parsed(None, false, a.rest)
    else
      var t := Skip(a.rest);
      if Cur(t) != Pipe then Parsed(Some(Pipeline(a.node.value, None)), a.error, t)
      else
        var r := ParsePiped(Skip(t[1..]));
        Parsed(Some(Pipeline(a.node.value, r.node)), r.node.None? || a.error || r.error, r.rest)
  }

  /** `parse_sequential_commands` */
  function ParseCommands(ts: seq<Token>): (r: Parsed<Commands>)
    ensures Advances(ts, r)
    decreases |ts|
  {
    var p := ParsePiped(Skip(ts));
    if p.node.None? then Parsed(None, false, p.rest)
    else
      var t := Skip(p.rest);
      if Cur(t) != Semicolon then Parsed(Some(Commands(p.node.value, false, None)), p.error, t)
      else
        var r := ParseCommands(Skip(t[1..]));
        Parsed(Some(Commands(p.node.value, true, r.node)), p.error || r.error, r.rest)
  }

  /** `parse_command_line`: everything up to the newline, and no error. */
  function ParseLine(ts: seq<Token>): Option<Commands> {
    var r := ParseCommands(ts);
    if r.node.Some? && Cur(Skip(r.rest)) == Newline && !r.error then r.node else None
  }

  // ---- here-documents ----

  function HereDocs(r: Option<Redirection>): seq<Redirection> {
    if r.Some? && r.value.kind == HereDoc then [r.value] else []
  }

  /** The `<<` redirections of a tree in source order. */
  function ArgsDocs(a: Option<Args>): seq<Redirection>
    decreases a
  {
    if a.None? then [] else HereDocs(a.value.redirection) + ArgsDocs(a.value.rest)
  }

  function PipelineDocs(p: Option<Pipeline>): seq<Redirection>
    decreases p
  {
    if p.None? then [] else ArgsDocs(Some(p.value.command)) + PipelineDocs(p.value.next)
  }

  function CommandsDocs(c: Option<Commands>): seq<Redirection>
    decreases c
  {
    if c.None? then [] else PipelineDocs(Some(c.value.pipeline)) + CommandsDocs(c.value.rest)
  }

  lemma ArgumentsIs(ts: seq<Token>)
    ensures ParseArguments(ts) ==
      var redir := ParseRedirection(Skip(ts));
      var word := ParseString(redir.rest);
      if redir.node.None? && word.node.None? then Parsed(None, false, word.rest)
      else
        var rest := ParseArguments(word.rest);
        Parsed(Some(Args(word.node, redir.node, rest.node)), redir.error || rest.error, rest.rest)
  {
    hide ParseRedirection, ParseString, Skip;
  }

  lemma PipedIs(ts: seq<Token>)
    ensures ParsePiped(ts) ==
      var a := ParseArguments(ts);
      if a.node.None? then Parsed(None, false, a.rest)
      else
        var t := Skip(a.rest);
        if Cur(t) != Pipe then Parsed(Some(Pipeline(a.node.value, None)), a.error, t)
        else
          var r := ParsePiped(Skip(t[1..]));
          Parsed(Some(Pipeline(a.node.value, r.node)), r.node.None? || a.error || r.error, r.rest)
  {
    hide ParseArguments, Skip;
  }

  lemma CommandsIs(ts: seq<Token>)
    ensures ParseCommands(ts) ==
      var p := ParsePiped(Skip(ts));
      if p.node.None? then Parsed(None, false, p.rest)
      else
        var t := Skip(p.rest);
        if Cur(t) != Semicolon then Parsed(Some(Commands(p.node.value, false, None)), p.error, t)
        else
          var r := ParseCommands(Skip(t[1..]));
          Parsed(Some(Commands(p.node.value, true, r.node)), p.error || r.error, r.rest)
  {
    hide ParsePiped, Skip;
  }

  /** The here-documents of a node are those of its parts. */
  lemma ArgsDocsAre(a: Args)
    ensures ArgsDocs(None) == [] && ArgsDocs(Some(a)) == HereDocs(a.redirection) + ArgsDocs(a.rest)
  {
  }

  lemma PipelineDocsAre(p: Pipeline)
    ensures PipelineDocs(None) == [] && PipelineDocs(Some(p)) == ArgsDocs(Some(p.command)) + PipelineDocs(p.next)
  {
  }

  lemma CommandsDocsAre(c: Commands)
    ensures CommandsDocs(None) == [] && CommandsDocs(Some(c)) == PipelineDocs(Some(c.pipeline)) + CommandsDocs(c.rest)
  {
  }

  // ---- printing ----

  predicate ArgsFine(a: Args)
    decreases a
  {
    && (a.word.Some? <==> a.redirection.None?)
    && (a.redirection.Some? ==> a.redirection.value.word.Some?)
    && (a.rest.Some? ==> ArgsFine(a.rest.value))
  }

  predicate PipelineFine(p: Pipeline)
    decreases p
  {
    ArgsFine(p.command) && (p.next.Some? ==> PipelineFine(p.next.value))
  }

  predicate CommandsFine(c: Commands)
    decreases c
  {
    PipelineFine(c.pipeline) && (c.rest.Some? ==> c.delimiter && CommandsFine(c.rest.value))
  }

  function PrintStr(s: Str): (r: seq<Token>)
    ensures r != []
    decreases s
  {
    [Text(s.kind, s.text)] + if s.next.Some? then PrintStr(s.next.value) else []
  }

  function PrintItem(a: Args): (r: seq<Token>)
    requires ArgsFine(a)
  {
    if a.word.Some? then PrintStr(a.word.value)
    else [Redir(a.redirection.value.kind, a.redirection.value.fd)] + PrintStr(a.redirection.value.word.value)
  }

  function PrintArgs(a: Args): (r: seq<Token>)
    requires ArgsFine(a)
    decreases a
  {
    PrintItem(a) + if a.rest.Some? then [Space] + PrintArgs(a.rest.value) else []
  }

  function PrintPipeline(p: Pipeline): (r: seq<Token>)
    requires PipelineFine(p)
    decreases p
  {
    PrintArgs(p.command) + if p.next.Some? then [Space, Pipe, Space] + PrintPipeline(p.next.value) else []
  }

  function PrintCommands(c: Commands): (r: seq<Token>)
    requires CommandsFine(c)
    decreases c
  {
    PrintPipeline(c.pipeline) +
      if !c.delimiter then []
      else [Space, Semicolon] + if c.rest.Some? then [Space] + PrintCommands(c.rest.value) else []
  }

  // ---- parsing undoes printing ----

  lemma {:induction false} StringBack(s: Str, tail: seq<Token>)
    requires !Cur(tail).Text?
    ensures ParseString(PrintStr(s) + tail) == Parsed(Some(s), false, tail)
    decreases s
  {
    var ts := PrintStr(s) + tail;
    if s.next.Some? {
      StringBack(s.next.value, tail);
      assert ts[1..] == PrintStr(s.next.value) + tail;
    } else {
      assert ts[1..] == tail;
    }
  }

  /** What may stand behind a command: spaces, and then nothing that could belong to it. */
  predicate Closes(tail: seq<Token>) {
    !Cur(tail).Text? && !Cur(Skip(tail)).Text? && !Cur(Skip(tail)).Redir?
  }

  lemma ItemBack(a: Args, tail: seq<Token>)
    requires ArgsFine(a) && !Cur(tail).Text?
    ensures var ts := PrintItem(a) + tail;
      && Skip(ts) == ts
      && ParseRedirection(ts).node == a.redirection && !ParseRedirection(ts).error
      && ParseString(ParseRedirection(ts).rest) == Parsed(a.word, false, tail)
  {
    var ts := PrintItem(a) + tail;
    if a.word.Some? {
      StringBack(a.word.value, tail);
      assert ts[0] == PrintStr(a.word.value)[0];
    } else {
      var word := a.redirection.value.word.value;
      StringBack(word, tail);
      assert ts[1..] == PrintStr(word) + tail;
      assert ts[1..][0] == PrintStr(word)[0];
    }
  }

  lemma ArgumentsStep(ts: seq<Token>, a: Args, u: seq<Token>)
    requires ArgsFine(a) && Skip(ts) == ts
    requires ParseRedirection(ts).node == a.redirection && !ParseRedirection(ts).error
    requires ParseString(ParseRedirection(ts).rest) == Parsed(a.word, false, u)
    ensures var rest := ParseArguments(u);
      ParseArguments(ts) == Parsed(Some(Args(a.word, a.redirection, rest.node)), rest.error, rest.rest)
  {
    hide Skip, ParseRedirection, ParseString;
  }

  lemma Joined(x: seq<Token>, y: seq<Token>, z: seq<Token>)
    ensures (x + y) + z == x + (y + z)
  {
  }

  lemma {:induction false} ArgumentsBack(a: Args, tail: seq<Token>)
    requires ArgsFine(a) && Closes(tail)
    ensures ParseArguments(PrintArgs(a) + tail) == Parsed(Some(a), false, Skip(tail))
    decreases a
  {
    hide ParseArguments, ParseRedirection, ParseString, PrintItem, Skip;
    if a.rest.Some? {
      var more := PrintArgs(a.rest.value) + tail;
      var after := [Space] + more;
      Joined(PrintItem(a), [Space] + PrintArgs(a.rest.value), tail);
      Joined([Space], PrintArgs(a.rest.value), tail);
      ItemBack(a, after);
      ArgumentsStep(PrintItem(a) + after, a, after);
      ArgumentsBack(a.rest.value, tail);
      SpaceBefore(more);
    } else {
      Joined(PrintItem(a), [], tail);
      assert [] + tail == tail;
      ItemBack(a, tail);
      ArgumentsStep(PrintItem(a) + tail, a, tail);
      NothingLeft(tail);
    }
  }

  lemma SpaceBefore(ts: seq<Token>)
    ensures ParseArguments([Space] + ts) == ParseArguments(ts) && Skip([Space] + ts) == Skip(ts)
  {
    assert ([Space] + ts)[1..] == ts;
  }

  lemma NothingLeft(tail: seq<Token>)
    requires Closes(tail)
    ensures ParseArguments(tail) == Parsed(None, false, Skip(tail))
  {
  }

  /** What may stand behind a pipeline. */
  predicate Ends(tail: seq<Token>) {
    Closes(tail) && Cur(Skip(tail)) != Pipe
  }

  lemma SkipTwice(ts: seq<Token>)
    ensures Skip(Skip(ts)) == Skip(ts)
  {
  }

  lemma PipedStep(ts: seq<Token>, a: Args, u: seq<Token>)
    requires ParseArguments(ts) == Parsed(Some(a), false, u)
    ensures var t := Skip(u);
      ParsePiped(ts) ==
        if Cur(t) != Pipe then Parsed(Some(Pipeline(a, None)), false, t)
        else
          var r := ParsePiped(Skip(t[1..]));
          Parsed(Some(Pipeline(a, r.node)), r.node.None? || r.error, r.rest)
  {
    hide ParseArguments, Skip;
  }

  lemma BarAhead(more: seq<Token>)
    ensures Closes([Space, Pipe, Space] + more)
    ensures Skip([Space, Pipe, Space] + more) == [Pipe, Space] + more
    ensures ([Pipe, Space] + more)[1..] == [Space] + more
  {
    assert ([Space, Pipe, Space] + more)[1..] == [Pipe, Space] + more;
  }

  lemma {:induction false} PipelineBack(p: Pipeline, tail: seq<Token>)
    requires PipelineFine(p) && Ends(tail)
    ensures ParsePiped(PrintPipeline(p) + tail) == Parsed(Some(p), false, Skip(tail))
    decreases p
  {
    hide ParseArguments, ParsePiped, PrintArgs, Skip, Closes;
    if p.next.Some? {
      var more := PrintPipeline(p.next.value) + tail;
      var after := [Space, Pipe, Space] + more;
      Joined(PrintArgs(p.command), [Space, Pipe, Space] + PrintPipeline(p.next.value), tail);
      Joined([Space, Pipe, Space], PrintPipeline(p.next.value), tail);
      BarAhead(more);
      ArgumentsBack(p.command, after);
      PipedStep(PrintArgs(p.command) + after, p.command, Skip(after));
      SkipTwice(after);
      SpaceBefore(more);
      PipelineStart(p.next.value, tail);
      PipelineBack(p.next.value, tail);
    } else {
      Joined(PrintArgs(p.command), [], tail);
      assert [] + tail == tail;
      ArgumentsBack(p.command, tail);
      PipedStep(PrintArgs(p.command) + tail, p.command, Skip(tail));
      SkipTwice(tail);
    }
  }

  lemma PipelineStart(p: Pipeline, tail: seq<Token>)
    requires PipelineFine(p)
    ensures Skip(PrintPipeline(p) + tail) == PrintPipeline(p) + tail
  {
    var a := p.command;
    var s := if a.word.Some? then a.word.value else a.redirection.value.word.value;
    assert (PrintPipeline(p) + tail)[0] == PrintItem(a)[0];
    assert PrintStr(s)[0] == Text(s.kind, s.text);
  }

  /** What may stand behind a sequence of commands. */
  predicate Finishes(tail: seq<Token>) {
    Ends(tail) && Cur(Skip(tail)) != Semicolon
  }

  lemma CommandsStep(ts: seq<Token>, p: Pipeline, u: seq<Token>)
    requires ParsePiped(Skip(ts)) == Parsed(Some(p), false, u)
    ensures var t := Skip(u);
      ParseCommands(ts) ==
        if Cur(t) != Semicolon then Parsed(Some(Commands(p, false, None)), false, t)
        else
          var r := ParseCommands(Skip(t[1..]));
          Parsed(Some(Commands(p, true, r.node)), r.error, r.rest)
  {
    hide ParsePiped, Skip;
  }

  lemma SemicolonAhead(more: seq<Token>)
    ensures Ends([Space, Semicolon] + more)
    ensures Skip([Space, Semicolon] + more) == [Semicolon] + more
    ensures ([Semicolon] + more)[1..] == more
  {
    assert ([Space, Semicolon] + more)[1..] == [Semicolon] + more;
  }

  lemma {:induction false} CommandsBack(c: Commands, tail: seq<Token>)
    requires CommandsFine(c) && Finishes(tail)
    ensures ParseCommands(PrintCommands(c) + tail) == Parsed(Some(c), false, Skip(tail))
    decreases c
  {
    if !c.delimiter {
      hide ParsePiped, ParseCommands, PrintPipeline, Skip, Ends;
      Joined(PrintPipeline(c.pipeline), [], tail);
      assert [] + tail == tail;
      PipelineStart(c.pipeline, tail);
      PipelineBack(c.pipeline, tail);
      CommandsStep(PrintPipeline(c.pipeline) + tail, c.pipeline, Skip(tail));
      SkipTwice(tail);
    } else {
      CommandsBackDelimited(c, tail);
    }
  }

  lemma {:induction false} CommandsBackDelimited(c: Commands, tail: seq<Token>)
    requires CommandsFine(c) && Finishes(tail) && c.delimiter
    ensures ParseCommands(PrintCommands(c) + tail) == Parsed(Some(c), false, Skip(tail))
    decreases c, 0
  {
    var text := if c.rest.Some? then [Space] + PrintCommands(c.rest.value) else [];
    hide ParsePiped, ParseCommands, PrintPipeline, Skip, Ends, Closes;
    var after := [Space, Semicolon] + (text + tail);
    Joined(PrintPipeline(c.pipeline), [Space, Semicolon] + text, tail);
    Joined([Space, Semicolon], text, tail);
    SemicolonAhead(text + tail);
    PipelineStart(c.pipeline, after);
    PipelineBack(c.pipeline, after);
    CommandsStep(PrintPipeline(c.pipeline) + after, c.pipeline, Skip(after));
    SkipTwice(after);
    if c.rest.Some? {
      Joined([Space], PrintCommands(c.rest.value), tail);
      SpaceBefore(PrintCommands(c.rest.value) + tail);
      CommandsBack(c.rest.value, tail);
      CommandsSkip(PrintCommands(c.rest.value) + tail);
    } else {
      assert [] + tail == tail;
      SkipTwice(tail);
      FinishesPlain(tail);
      NoCommands(Skip(tail));
    }
  }

  lemma FinishesPlain(tail: seq<Token>)
    requires Finishes(tail)
    ensures !Cur(Skip(tail)).Text? && !Cur(Skip(tail)).Redir?
  {
  }

  lemma CommandsSkip(ts: seq<Token>)
    ensures ParseCommands(Skip(ts)) == ParseCommands(ts)
  {
    SkipTwice(ts);
  }

  lemma NoCommands(ts: seq<Token>)
    requires Skip(ts) == ts && !Cur(ts).Text? && !Cur(ts).Redir?
    ensures ParseCommands(ts) == Parsed(None, false, ts)
  {
  }

  /** Parsing a printed command line and its newline gives the tree back, without error. */
  lemma LineBack(c: Commands, tail: seq<Token>)
    requires CommandsFine(c)
    ensures ParseLine(PrintCommands(c) + ([Newline] + tail)) == Some(c)
  {
    CommandsBack(c, [Newline] + tail);
  }
}
