/** Command trees.  The shape of a tree never changes while it runs; what does change is the flag
    word in each node, so a tree is a datatype whose nodes carry a flag word of type F: heap cells
    for the tree the shell runs, nothing for the tree the semantics talks about. */
module CommandTree {

  /** The two CMD_IGNORE_RETURN bits of a node: `command->flags` and `command->value.X->flags`. */
  class Flags {
    var ignore: bool
    var inner: bool

    constructor (ignore: bool, inner: bool)
      ensures this.ignore == ignore && this.inner == inner
    {
      this.ignore, this.inner := ignore, inner;
    }
  }

  /** A simple command: an ordinary one, known by a number; `break n`; `continue n`; a call of
      function f. */
  datatype Action = Plain(id: nat) | Break(n: int) | Continue(n: int) | Call(f: nat)

  datatype Connector = Semicolon | AndAnd | OrOr

  /** How a case clause ends: `;;`, `;&` or `;;&`. */
  datatype Terminator = Stop | FallThrough | TestNext

  /** Null is a null pointer.  `invert` is CMD_INVERT_RETURN; the parser sets it on every kind of
      command except AND-OR lists.  Words to loop over and patterns to match are known by number. */
  datatype Command<F> =
    | Null
    | Simple(flags: F, invert: bool, action: Action)
    | Connection(flags: F, invert: bool, connector: Connector, first: Command<F>, second: Command<F>)
    | Group(flags: F, invert: bool, body: Command<F>)
    | If(flags: F, invert: bool, test: Command<F>, trueCase: Command<F>, falseCase: Command<F>)
    | While(flags: F, invert: bool, until: bool, test: Command<F>, body: Command<F>)
    | For(flags: F, invert: bool, words: nat, body: Command<F>)
    | Case(flags: F, invert: bool, clauses: Clauses<F>)

  datatype Clauses<F> = NoClause | Clause(pattern: nat, body: Command<F>, terminator: Terminator, next: Clauses<F>)

  type Tree = Command<()>
  type Live = Command<Flags>

  /** What the executor dereferences without asking is there, and AND-OR lists are not inverted. */
  predicate WellFormed(c: Tree) {
    match c
    case Null => true
    case Simple(_, _, _) => true
    case Connection(_, invert, connector, first, second) =>
      (connector.Semicolon? || !invert) && WellFormed(first) && WellFormed(second)
    case Group(_, _, body) => WellFormed(body)
    case If(_, _, test, trueCase, falseCase) =>
      !test.Null? && WellFormed(test) && WellFormed(trueCase) && WellFormed(falseCase)
    case While(_, _, _, test, body) => !test.Null? && !body.Null? && WellFormed(test) && WellFormed(body)
    case For(_, _, _, body) => !body.Null? && WellFormed(body)
    case Case(_, _, clauses) => WellFormedClauses(clauses)
  }

  predicate WellFormedClauses(cl: Clauses<()>) {
    cl.Clause? ==> WellFormed(cl.body) && WellFormedClauses(cl.next)
  }

  /** The shape of a tree. */
  function Erase(c: Live): Tree {
    match c
    case Null => Null
    case Simple(_, invert, action) => Simple((), invert, action)
    case Connection(_, invert, connector, first, second) =>
      Connection((), invert, connector, Erase(first), Erase(second))
    case Group(_, invert, body) => Group((), invert, Erase(body))
    case If(_, invert, test, trueCase, falseCase) =>
      If((), invert, Erase(test), Erase(trueCase), Erase(falseCase))
    case While(_, invert, until, test, body) => While((), invert, until, Erase(test), Erase(body))
    case For(_, invert, words, body) => For((), invert, words, Erase(body))
    case Case(_, invert, clauses) => Case((), invert, EraseClauses(clauses))
  }

  function EraseClauses(cl: Clauses<Flags>): Clauses<()> {
    match cl
    case NoClause => NoClause
    case Clause(pattern, body, terminator, next) => Clause(pattern, Erase(body), terminator, EraseClauses(next))
  }

  /** The flag cells of a tree. */
  ghost function Cells(c: Live): set<Flags> {
    match c
    case Null => {}
    case Simple(flags, _, _) => {flags}
    case Connection(flags, _, _, first, second) => {flags} + Cells(first) + Cells(second)
    case Group(flags, _, body) => {flags} + Cells(body)
    case If(flags, _, test, trueCase, falseCase) => {flags} + Cells(test) + Cells(trueCase) + Cells(falseCase)
    case While(flags, _, _, test, body) => {flags} + Cells(test) + Cells(body)
    case For(flags, _, _, body) => {flags} + Cells(body)
    case Case(flags, _, clauses) => {flags} + ClauseCells(clauses)
  }

  ghost function ClauseCells(cl: Clauses<Flags>): set<Flags> {
    match cl
    case NoClause => {}
    case Clause(_, body, _, next) => Cells(body) + ClauseCells(next)
  }

  /** No cell serves two nodes. */
  ghost predicate Distinct(c: Live) {
    match c
    case Null => true
    case Simple(_, _, _) => true
    case Connection(flags, _, _, first, second) =>
      flags !in Cells(first) && flags !in Cells(second) && Cells(first) !! Cells(second) &&
      Distinct(first) && Distinct(second)
    case Group(flags, _, body) => flags !in Cells(body) && Distinct(body)
    case If(flags, _, test, trueCase, falseCase) =>
      flags !in Cells(test) && flags !in Cells(trueCase) && flags !in Cells(falseCase) &&
      Cells(test) !! Cells(trueCase) && Cells(test) !! Cells(falseCase) && Cells(trueCase) !! Cells(falseCase) &&
      Distinct(test) && Distinct(trueCase) && Distinct(falseCase)
    case While(flags, _, _, test, body) =>
      flags !in Cells(test) && flags !in Cells(body) && Cells(test) !! Cells(body) &&
      Distinct(test) && Distinct(body)
    case For(flags, _, _, body) => flags !in Cells(body) && Distinct(body)
    case Case(flags, _, clauses) => flags !in ClauseCells(clauses) && DistinctClauses(clauses)
  }

  ghost predicate DistinctClauses(cl: Clauses<Flags>) {
    cl.Clause? ==>
      Distinct(cl.body) && DistinctClauses(cl.next) && Cells(cl.body) !! ClauseCells(cl.next)
  }

  /** Is failure ignored inside a command, given that it is ignored around it? */
  predicate Under(c: Tree, ign: bool)
    requires !c.Null?
  {
    ign || c.invert
  }
}
