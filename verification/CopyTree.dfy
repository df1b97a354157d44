/** Copying command trees (`copy_cmd.c`): what a function call runs is a copy of the stored body. */
module CopyTree {
  import opened CommandTree

  /** No ignore bit is set. */
  ghost predicate Clean(c: Live)
    reads Cells(c)
    decreases c
  {
    if c.Null? then true else
      !c.flags.ignore && !c.flags.inner &&
      match c
      case Simple(_, _, _) => true
      case Connection(_, _, _, first, second) => Clean(first) && Clean(second)
      case Group(_, _, body) => Clean(body)
      case If(_, _, test, trueCase, falseCase) => Clean(test) && Clean(trueCase) && Clean(falseCase)
      case While(_, _, _, test, body) => Clean(test) && Clean(body)
      case For(_, _, _, body) => Clean(body)
      case Case(_, _, clauses) => CleanClauses(clauses)
  }

  ghost predicate CleanClauses(cl: Clauses<Flags>)
    reads ClauseCells(cl)
    decreases cl
  {
    cl.Clause? ==> Clean(cl.body) && CleanClauses(cl.next)
  }

  /** Two trees of the same shape have the same ignore bits, node by node. */
  ghost predicate SameBits(c: Live, copy: Live)
    requires Erase(c) == Erase(copy)
    reads Cells(c), Cells(copy)
    decreases c
  {
    if c.Null? then true else
      c.flags.ignore == copy.flags.ignore && c.flags.inner == copy.flags.inner &&
      match c
      case Simple(_, _, _) => true
      case Connection(_, _, _, first, second) => SameBits(first, copy.first) && SameBits(second, copy.second)
      case Group(_, _, body) => SameBits(body, copy.body)
      case If(_, _, test, trueCase, falseCase) =>
        SameBits(test, copy.test) && SameBits(trueCase, copy.trueCase) && SameBits(falseCase, copy.falseCase)
      case While(_, _, _, test, body) => SameBits(test, copy.test) && SameBits(body, copy.body)
      case For(_, _, _, body) => SameBits(body, copy.body)
      case Case(_, _, clauses) => SameClauseBits(clauses, copy.clauses)
  }

  ghost predicate SameClauseBits(cl: Clauses<Flags>, copy: Clauses<Flags>)
    requires EraseClauses(cl) == EraseClauses(copy)
    reads ClauseCells(cl), ClauseCells(copy)
    decreases cl
  {
    cl.Clause? ==> SameBits(cl.body, copy.body) && SameClauseBits(cl.next, copy.next)
  }

  /** So a copy of an unmarked tree is unmarked. */
  lemma {:induction false} SameClean(c: Live, copy: Live)
    requires Erase(c) == Erase(copy) && SameBits(c, copy) && Clean(c)
    ensures Clean(copy)
    decreases c
  {
    match c
    case Null =>
    case Simple(_, _, _) =>
    case Connection(_, _, _, first, second) =>
      SameClean(first, copy.first);
      SameClean(second, copy.second);
    case Group(_, _, body) => SameClean(body, copy.body);
    case If(_, _, test, trueCase, falseCase) =>
      SameClean(test, copy.test);
      SameClean(trueCase, copy.trueCase);
      SameClean(falseCase, copy.falseCase);
    case While(_, _, _, test, body) =>
      SameClean(test, copy.test);
      SameClean(body, copy.body);
    case For(_, _, _, body) => SameClean(body, copy.body);
    case Case(_, _, clauses) => SameCleanClauses(clauses, copy.clauses);
  }

  lemma {:induction false} SameCleanClauses(cl: Clauses<Flags>, copy: Clauses<Flags>)
    requires EraseClauses(cl) == EraseClauses(copy) && SameClauseBits(cl, copy) && CleanClauses(cl)
    ensures CleanClauses(copy)
    decreases cl
  {
    if cl.Clause? {
      SameClean(cl.body, copy.body);
      SameCleanClauses(cl.next, copy.next);
    }
  }

  /** The copy has the same shape and the same bits, and no flag word twice. */
  ghost predicate Copied(c: Live, copy: Live)
    reads Cells(c), Cells(copy)
  {
    Erase(c) == Erase(copy) && Distinct(copy) && SameBits(c, copy)
  }

  /** The flag words of a command are its own and those of its parts. */
  lemma Parts(c: Live)
    ensures c.Connection? ==> Cells(c) == {c.flags} + Cells(c.first) + Cells(c.second)
    ensures c.Group? ==> Cells(c) == {c.flags} + Cells(c.body)
    ensures c.If? ==> Cells(c) == {c.flags} + Cells(c.test) + Cells(c.trueCase) + Cells(c.falseCase)
    ensures c.While? ==> Cells(c) == {c.flags} + Cells(c.test) + Cells(c.body)
    ensures c.For? ==> Cells(c) == {c.flags} + Cells(c.body)
  {
  }

  /** `copy_command`: the copy has the same shape and the same bits, and shares no cell with anything
      that was there before. */
  method CopyCommand(c: Live) returns (copy: Live)
    ensures Copied(c, copy) && (copy.Null? <==> c.Null?) && fresh(Cells(copy))
    decreases c, 1
  {
    match c
    case Null => copy := Null;
    case Simple(_, invert, action) =>
      var flags := new Flags(c.flags.ignore, c.flags.inner);
      copy := Simple(flags, invert, action);
    case Connection(_, _, _, _, _) => copy := CopyConnection(c);
    case Group(_, _, _) => copy := CopyGroup(c);
    case If(_, _, _, _, _) => copy := CopyIf(c);
    case While(_, _, _, _, _) => copy := CopyWhile(c);
    case For(_, _, _, _) => copy := CopyFor(c);
    case Case(_, _, _) => copy := CopyCase(c);
  }

  method CopyConnection(c: Live) returns (copy: Live)
    requires c.Connection?
    ensures Copied(c, copy) && !copy.Null? && fresh(Cells(copy))
    decreases c, 0
  {
    hide *;
    assert allocated(Cells(c));
    Parts(c);
    var flags := new Flags(c.flags.ignore, c.flags.inner);
    assert allocated(Cells(c.first));
    assert allocated(Cells(c.second));
    var first := CopyCommand(c.first);
    assert allocated(Cells(first));
    var second := CopyCommand(c.second);
    assert allocated(Cells(second));
    copy := Connection(flags, c.invert, c.connector, first, second);
    Parts(copy);
    CopyConnectionParts(c, copy);
  }

  lemma CopyConnectionParts(c: Live, copy: Live)
    requires c.Connection? && copy.Connection? && copy.invert == c.invert && copy.connector == c.connector
    requires copy.flags.ignore == c.flags.ignore && copy.flags.inner == c.flags.inner
    requires Copied(c.first, copy.first) && Copied(c.second, copy.second)
    requires copy.flags !in Cells(copy.first) && copy.flags !in Cells(copy.second)
    requires Cells(copy.first) !! Cells(copy.second)
    ensures Copied(c, copy)
  {
    hide Cells;
  }

  method CopyGroup(c: Live) returns (copy: Live)
    requires c.Group?
    ensures Copied(c, copy) && !copy.Null? && fresh(Cells(copy))
    decreases c, 0
  {
    hide *;
    assert allocated(Cells(c));
    Parts(c);
    var flags := new Flags(c.flags.ignore, c.flags.inner);
    assert allocated(Cells(c.body));
    var body := CopyCommand(c.body);
    assert allocated(Cells(body));
    copy := Group(flags, c.invert, body);
    Parts(copy);
    CopyGroupParts(c, copy);
  }

  lemma CopyGroupParts(c: Live, copy: Live)
    requires c.Group? && copy.Group? && copy.invert == c.invert
    requires copy.flags.ignore == c.flags.ignore && copy.flags.inner == c.flags.inner
    requires Copied(c.body, copy.body)
    requires copy.flags !in Cells(copy.body)
    ensures Copied(c, copy)
  {
    hide Cells;
  }

  method CopyIf(c: Live) returns (copy: Live)
    requires c.If?
    ensures Copied(c, copy) && !copy.Null? && fresh(Cells(copy))
    decreases c, 0
  {
    hide *;
    assert allocated(Cells(c));
    Parts(c);
    var flags := new Flags(c.flags.ignore, c.flags.inner);
    assert allocated(Cells(c.test));
    assert allocated(Cells(c.trueCase));
    assert allocated(Cells(c.falseCase));
    var test := CopyCommand(c.test);
    assert allocated(Cells(test));
    var trueCase := CopyCommand(c.trueCase);
    assert allocated(Cells(trueCase));
    var falseCase := CopyCommand(c.falseCase);
    assert allocated(Cells(falseCase));
    copy := If(flags, c.invert, test, trueCase, falseCase);
    Parts(copy);
    CopyIfParts(c, copy);
  }

  lemma CopyIfParts(c: Live, copy: Live)
    requires c.If? && copy.If? && copy.invert == c.invert
    requires copy.flags.ignore == c.flags.ignore && copy.flags.inner == c.flags.inner
    requires Copied(c.test, copy.test) && Copied(c.trueCase, copy.trueCase) && Copied(c.falseCase, copy.falseCase)
    requires copy.flags !in Cells(copy.test) && copy.flags !in Cells(copy.trueCase)
    requires copy.flags !in Cells(copy.falseCase)
    requires Cells(copy.test) !! Cells(copy.trueCase) && Cells(copy.test) !! Cells(copy.falseCase)
    requires Cells(copy.trueCase) !! Cells(copy.falseCase)
    ensures Copied(c, copy)
  {
    hide Cells;
  }

  method CopyWhile(c: Live) returns (copy: Live)
    requires c.While?
    ensures Copied(c, copy) && !copy.Null? && fresh(Cells(copy))
    decreases c, 0
  {
    hide *;
    assert allocated(Cells(c));
    Parts(c);
    var flags := new Flags(c.flags.ignore, c.flags.inner);
    assert allocated(Cells(c.test));
    assert allocated(Cells(c.body));
    var test := CopyCommand(c.test);
    assert allocated(Cells(test));
    var body := CopyCommand(c.body);
    assert allocated(Cells(body));
    copy := While(flags, c.invert, c.until, test, body);
    Parts(copy);
    CopyWhileParts(c, copy);
  }

  lemma CopyWhileParts(c: Live, copy: Live)
    requires c.While? && copy.While? && copy.invert == c.invert && copy.until == c.until
    requires copy.flags.ignore == c.flags.ignore && copy.flags.inner == c.flags.inner
    requires Copied(c.test, copy.test) && Copied(c.body, copy.body)
    requires copy.flags !in Cells(copy.test) && copy.flags !in Cells(copy.body) && Cells(copy.test) !! Cells(copy.body)
    ensures Copied(c, copy)
  {
    hide Cells;
  }

  method CopyFor(c: Live) returns (copy: Live)
    requires c.For?
    ensures Copied(c, copy) && !copy.Null? && fresh(Cells(copy))
    decreases c, 0
  {
    hide *;
    assert allocated(Cells(c));
    Parts(c);
    var flags := new Flags(c.flags.ignore, c.flags.inner);
    assert allocated(Cells(c.body));
    var body := CopyCommand(c.body);
    assert allocated(Cells(body));
    copy := For(flags, c.invert, c.words, body);
    Parts(copy);
    CopyForParts(c, copy);
  }

  lemma CopyForParts(c: Live, copy: Live)
    requires c.For? && copy.For? && copy.invert == c.invert && copy.words == c.words
    requires copy.flags.ignore == c.flags.ignore && copy.flags.inner == c.flags.inner
    requires Copied(c.body, copy.body)
    requires copy.flags !in Cells(copy.body)
    ensures Copied(c, copy)
  {
    hide Cells;
  }

  method CopyCase(c: Live) returns (copy: Live)
    requires c.Case?
    ensures Copied(c, copy) && !copy.Null? && fresh(Cells(copy))
    decreases c, 0
  {
    hide SameClauseBits, DistinctClauses, ClauseCells;
    assert allocated(Cells(c)) && allocated(ClauseCells(c.clauses));
    var flags := new Flags(c.flags.ignore, c.flags.inner);
    var clauses := CopyCaseClauses(c.clauses);
    copy := Case(flags, c.invert, clauses);
  }

  /** A list of clauses turned round, in front of another one. */
  function Turned<F>(cl: Clauses<F>, tail: Clauses<F>): Clauses<F> {
    if cl.NoClause? then tail else Turned(cl.next, Clause(cl.pattern, cl.body, cl.terminator, tail))
  }

  /** Turning round keeps every clause and its cells. */
  lemma {:induction false} TurnedKeeps(cl: Clauses<Flags>, tail: Clauses<Flags>)
    requires DistinctClauses(cl) && DistinctClauses(tail) && ClauseCells(cl) !! ClauseCells(tail)
    ensures DistinctClauses(Turned(cl, tail)) && ClauseCells(Turned(cl, tail)) == ClauseCells(cl) + ClauseCells(tail)
  {
    hide Distinct, Cells;
    if cl.Clause? {
      TurnedKeeps(cl.next, Clause(cl.pattern, cl.body, cl.terminator, tail));
    }
  }

  /** Turning two equal lists round gives equal lists. */
  lemma {:induction false} TurnedSame(cl: Clauses<Flags>, tail: Clauses<Flags>,
                                     cl': Clauses<Flags>, tail': Clauses<Flags>)
    requires EraseClauses(cl) == EraseClauses(cl') && SameClauseBits(cl, cl')
    requires EraseClauses(tail) == EraseClauses(tail') && SameClauseBits(tail, tail')
    ensures EraseClauses(Turned(cl, tail)) == EraseClauses(Turned(cl', tail'))
    ensures SameClauseBits(Turned(cl, tail), Turned(cl', tail'))
    decreases cl
  {
    hide SameBits, Erase, Cells;
    if cl.Clause? {
      TurnedSame(cl.next, Clause(cl.pattern, cl.body, cl.terminator, tail),
                 cl'.next, Clause(cl'.pattern, cl'.body, cl'.terminator, tail'));
    }
  }

  /** `list_reverse` on clauses. */
  method ReverseClauses(list: Clauses<Flags>) returns (reversed: Clauses<Flags>)
    ensures reversed == Turned(list, NoClause)
  {
    reversed := NoClause;
    var rest := list;
    while rest.Clause?
      invariant Turned(rest, reversed) == Turned(list, NoClause)
      decreases rest
    {
      reversed, rest := Clause(rest.pattern, rest.body, rest.terminator, reversed), rest.next;
    }
  }

  /** `copy_case_clauses`: the copies are put in front of one another, then turned round. */
  method CopyCaseClauses(cl: Clauses<Flags>) returns (copy: Clauses<Flags>)
    ensures EraseClauses(copy) == EraseClauses(cl) && DistinctClauses(copy) && fresh(ClauseCells(copy))
    ensures SameClauseBits(cl, copy)
    decreases cl, 1
  {
    hide SameBits, Erase, Distinct, Cells;
    var newList: Clauses<Flags> := NoClause;
    var rest := cl;
    ghost var seen: Clauses<Flags> := NoClause;
    while rest.Clause?
      invariant (rest == cl || rest < cl) && Turned(seen, rest) == cl
      invariant EraseClauses(seen) == EraseClauses(newList) && SameClauseBits(seen, newList)
      invariant DistinctClauses(newList) && fresh(ClauseCells(newList))
      decreases rest
    {
      assert allocated(Cells(rest.body)) && allocated(ClauseCells(newList)) && allocated(ClauseCells(seen));
      var body := CopyCommand(rest.body);
      assert allocated(Cells(body));
      newList := Clause(rest.pattern, body, rest.terminator, newList);
      seen := Clause(rest.pattern, rest.body, rest.terminator, seen);
      rest := rest.next;
    }
    TurnedKeeps(newList, NoClause);
    assert allocated(ClauseCells(newList)) && allocated(ClauseCells(seen));
    copy := ReverseClauses(newList);
    TurnedSame(seen, NoClause, newList, NoClause);
  }
}
