/** The parser of minishell, with the here-document lists that it splices together in place. */
module MiniParser {
  import opened Wrappers
  import opened MiniGrammar
  import MiniLines

  /** A cell of a here-document list. */
  class Cell {
    const redirection: Redirection
    var next: Cell?

    constructor (redirection: Redirection)
      ensures this.redirection == redirection && next == null
    {
      this.redirection := redirection;
      next := null;
    }
  }

  /** A node as the parser hands it up: its content, its error flag and its here-document list. */
  datatype Ast<+T> = Ast(node: T, error: bool, heredocs: Cell?)

  /** cells is the null-terminated list that starts at head. */
  ghost predicate Chain(cells: seq<Cell>, head: Cell?)
    reads cells
  {
    && (cells == [] <==> head == null)
    && (cells != [] ==> head == cells[0] && cells[|cells| - 1].next == null)
    && (forall j, k | 0 <= j < k < |cells| :: cells[j] != cells[k])
    && (forall k {:trigger cells[k].next} | 0 <= k < |cells| - 1 :: cells[k].next == cells[k + 1])
  }

  ghost function Docs(cells: seq<Cell>): (r: seq<Redirection>)
    ensures |r| == |cells| && forall k | 0 <= k < |r| :: r[k] == cells[k].redirection
  {
    seq(|cells|, (k: int) requires 0 <= k < |cells| => cells[k].redirection)
  }

  lemma DocsOf(h: seq<Cell>, t: seq<Cell>)
    ensures Docs(h + t) == Docs(h) + Docs(t)
  {
  }

  /** The heredocs field of a node that may be missing. */
  function ListOf<T>(a: Option<Ast<T>>): Cell? {
    if a.Some? then a.value.heredocs else null
  }

  /** The node is the one of the specification, and its list holds docs, each once and in order. */
  ghost predicate Built<T>(r: Option<Ast<T>>, spec: Parsed<T>, cells: seq<Cell>, docs: seq<Redirection>)
    reads cells
  {
    && (r.Some? <==> spec.node.Some?)
    && (r.Some? ==> r.value.node == spec.node.value && r.value.error == spec.error)
    && Chain(cells, ListOf(r)) && Docs(cells) == docs
  }

  /** `parse_concat_heredocs`: hangs the tail's list onto the end of the head's. */
  method ConcatHeredocs(head: Cell?, tail: Cell?, ghost h: seq<Cell>, ghost t: seq<Cell>) returns (r: Cell?)
    requires Chain(h, head) && Chain(t, tail) && forall j, k | 0 <= j < |h| && 0 <= k < |t| :: h[j] != t[k]
    modifies h
    ensures Chain(h + t, r)
  {
    if head == null {
      assert h + t == t;
      return tail;
    }
    var list := head;
    ghost var i := 0;
    while list.next != null
      invariant 0 <= i < |h| && list == h[i] && Chain(h, head) && Chain(t, tail)
      decreases |h| - i
    {
      list, i := list.next, i + 1;
    }
    list.next := tail;
    return head;
  }

  class Parser {
    /** The tokens still to be read, the current one first. */
    var input: seq<Token>

    constructor (tokens: seq<Token>)
      ensures input == tokens
    {
      input := tokens;
    }

    /** `lex_get_token` */
    method GetToken()
      requires input != []
      modifies this
      ensures input == old(input)[1..]
    {
      input := input[1..];
    }

    method SkipSpaces()
      modifies this
      ensures input == Skip(old(input))
    {
      while Cur(input) == Space
        invariant Skip(input) == Skip(old(input))
        decreases |input|
      {
        GetToken();
      }
    }

    method String() returns (r: Option<Str>)
      modifies this
      ensures var p := ParseString(old(input)); r == p.node && input == p.rest
      decreases |input|
    {
      var tok := Cur(input);
      if !tok.Text? {
        return None;
      }
      GetToken();
      var next := String();
      return Some(Str(tok.kind, tok.text, next));
    }

    method Redirected() returns (r: Option<Ast<Redirection>>, ghost cells: seq<Cell>)
      modifies this
      ensures fresh(cells) && input == ParseRedirection(old(input)).rest
      ensures Built(r, ParseRedirection(old(input)), cells, HereDocs(ParseRedirection(old(input)).node))
      ensures r.Some? <==> Cur(old(input)).Redir?
      ensures r.Some? ==> (r.value.error <==> r.value.node.word.None?)
    {
      hide ParseString;
      cells := [];
      var tok := Cur(input);
      if !tok.Redir? {
        return None, [];
      }
      GetToken();
      SkipSpaces();
      var word := String();
      var redirection := Redirection(tok.redir, tok.fd, word);
      var heredocs: Cell? := null;
      if tok.redir == HereDoc {
        var cell := new Cell(redirection);
        heredocs, cells := cell, [cell];
      }
      r := Some(Ast(redirection, word.None?, heredocs));
    }

    method Arguments() returns (r: Option<Ast<Args>>, ghost cells: seq<Cell>)
      modifies this
      ensures fresh(cells) && input == ParseArguments(old(input)).rest
      ensures Built(r, ParseArguments(old(input)), cells, ArgsDocs(ParseArguments(old(input)).node))
      decreases |input|
    {
      hide ParseArguments, ParseString, ParseRedirection, Skip, Chain, Docs, HereDocs, ArgsDocs;
      ArgumentsIs(input);
      SkipSpaces();
      ghost var h, t;
      var redir, word, rest;
      redir, h := Redirected();
      word := String();
      if redir.None? && word.None? {
        NoDocs();
        return None, h;
      }
      rest, t := Arguments();
      DocsOf(h, t);
      var heredocs := ConcatHeredocs(ListOf(redir), ListOf(rest), h, t);
      var node := Args(word, if redir.Some? then Some(redir.value.node) else None,
                       if rest.Some? then Some(rest.value.node) else None);
      ArgsDocsAre(node);
      var error := (redir.Some? && redir.value.error) || (rest.Some? && rest.value.error);
      return Some(Ast(node, error, heredocs)), h + t;
    }

    method PipedCommands() returns (r: Option<Ast<Pipeline>>, ghost cells: seq<Cell>)
      modifies this
      ensures fresh(cells) && input == ParsePiped(old(input)).rest
      ensures Built(r, ParsePiped(old(input)), cells, PipelineDocs(ParsePiped(old(input)).node))
      decreases |input|
    {
      hide ParsePiped, ParseArguments, Skip, Chain, Docs, ArgsDocs, PipelineDocs;
      PipedIs(input);
      ghost var h, t := [], [];
      var command, rest: Option<Ast<Pipeline>>;
      command, h := Arguments();
      if command.None? {
        NoDocs();
        return None, h;
      }
      rest := None;
      var error := false;
      SkipSpaces();
      if Cur(input) == Pipe {
        GetToken();
        SkipSpaces();
        rest, t := PipedCommands();
        error := rest.None?;
      } else {
        NoCells();
      }
      DocsOf(h, t);
      var heredocs := ConcatHeredocs(ListOf(command), ListOf(rest), h, t);
      var node := Pipeline(command.value.node, if rest.Some? then Some(rest.value.node) else None);
      PipelineDocsAre(node);
      error := error || command.value.error || (rest.Some? && rest.value.error);
      return Some(Ast(node, error, heredocs)), h + t;
    }

    lemma NoDocs()
      ensures HereDocs(None) == [] && ArgsDocs(None) == [] && PipelineDocs(None) == [] && CommandsDocs(None) == []
    {
    }

    lemma NoCells()
      ensures Chain([], null) && Docs([]) == []
    {
    }

    method SequentialCommands() returns (r: Option<Ast<Commands>>, ghost cells: seq<Cell>)
      modifies this
      ensures fresh(cells) && input == ParseCommands(old(input)).rest
      ensures Built(r, ParseCommands(old(input)), cells, CommandsDocs(ParseCommands(old(input)).node))
      decreases |input|
    {
      hide ParseCommands, ParsePiped, Skip, Chain, Docs, PipelineDocs, CommandsDocs;
      CommandsIs(input);
      ghost var h, t := [], [];
      var piped, rest: Option<Ast<Commands>>;
      SkipSpaces();
      piped, h := PipedCommands();
      if piped.None? {
        NoDocs();
        return None, h;
      }
      SkipSpaces();
      var delimiter := Cur(input) == Semicolon;
      NoCells();
      rest, t := AfterDelimiter(delimiter);
      DocsOf(h, t);
      var heredocs := ConcatHeredocs(ListOf(piped), ListOf(rest), h, t);
      var node := Commands(piped.value.node, delimiter, if rest.Some? then Some(rest.value.node) else None);
      CommandsDocsAre(node);
      var error := piped.value.error || (rest.Some? && rest.value.error);
      return Some(Ast(node, error, heredocs)), h + t;
    }

    /** What follows a pipeline: behind a delimiter further commands, or nothing. */
    method AfterDelimiter(delimiter: bool) returns (rest: Option<Ast<Commands>>, ghost t: seq<Cell>)
      requires delimiter ==> input != []
      modifies this
      ensures fresh(t)
      ensures !delimiter ==> rest == None && t == [] && input == old(input)
      ensures delimiter ==>
        var r := ParseCommands(Skip(old(input)[1..]));
        input == r.rest && Built(rest, r, t, CommandsDocs(r.node))
      decreases |input|, 0
    {
      hide ParseCommands, Skip, Chain, Docs, CommandsDocs;
      rest, t := None, [];
      if delimiter {
        GetToken();
        SkipSpaces();
        rest, t := SequentialCommands();
      }
    }

    /** The root of the tree: nothing unless the whole line was read without error.  Its list holds
        exactly the `<<` redirections of the tree, each once and in source order. */
    method CommandLine() returns (r: Option<Ast<Commands>>, ghost cells: seq<Cell>)
      modifies this
      ensures fresh(cells)
      ensures r.Some? <==> ParseLine(old(input)).Some?
      ensures r.Some? ==>
        && r.value.node == ParseLine(old(input)).value && !r.value.error
        && Chain(cells, r.value.heredocs) && Docs(cells) == CommandsDocs(Some(r.value.node))
    {
      hide ParseCommands, Skip, Chain, Docs, CommandsDocs;
      r, cells := SequentialCommands();
      if r.None? {
        return None, cells;
      }
      SkipSpaces();
      if Cur(input) != Newline || r.value.error {
        return None, cells;
      }
    }
  }

  /** Reading a printed command line gives the tree back, with its here-documents in order. */
  method ReadBack(c: Commands, tail: seq<Token>) returns (r: Option<Ast<Commands>>, ghost cells: seq<Cell>)
    requires CommandsFine(c)
    ensures r.Some? && r.value.node == c && !r.value.error
    ensures Chain(cells, r.value.heredocs) && Docs(cells) == CommandsDocs(Some(c))
  {
    LineBack(c, tail);
    var parser := new Parser(PrintCommands(c) + ([Newline] + tail));
    r, cells := parser.CommandLine();
  }

  /** Reading any line: a tree is returned exactly if what stands in front of the first newline spells a
      tree, which is then that one, and its list holds the `<<` redirections in the order of the tokens. */
  method ReadAny(tokens: seq<Token>) returns (r: Option<Ast<Commands>>, ghost cells: seq<Cell>)
    ensures r.Some? ==>
      && Newline in tokens && MiniLines.Spells(MiniLines.UpToNewline(tokens), r.value.node)
      && CommandsFine(r.value.node) && Chain(cells, r.value.heredocs)
      && Docs(cells) == MiniLines.TokenDocs(PrintCommands(r.value.node))
    ensures r.None? ==> Newline !in tokens || forall c :: !MiniLines.Spells(MiniLines.UpToNewline(tokens), c)
  {
    hide ParseLine, MiniLines.Spells, MiniLines.UpToNewline, MiniLines.TokenDocs, CommandsDocs, Chain, Docs;
    var parser := new Parser(tokens);
    r, cells := parser.CommandLine();
    if r.Some? {
      MiniLines.AcceptedIff(tokens, r.value.node);
      Fine(MiniLines.UpToNewline(tokens), r.value.node);
      MiniLines.DocsInOrder(r.value.node);
    }
    forall c | true ensures ParseLine(tokens) == Some(c) <==>
      Newline in tokens && MiniLines.Spells(MiniLines.UpToNewline(tokens), c)
    {
      MiniLines.AcceptedIff(tokens, c);
    }
  }

  lemma Fine(ts: seq<Token>, c: Commands)
    requires MiniLines.Spells(ts, c)
    ensures CommandsFine(c)
  {
  }
}
