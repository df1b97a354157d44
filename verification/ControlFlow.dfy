/** What control flow means: a semantics in which `break n` and `continue n` are signals that travel
    outwards and "failure is ignored here" is an argument passed downwards. */
module ControlFlow {
  import opened CommandTree

  /** What a run leaves behind: simple commands run, loop variables set, functions entered. */
  datatype Event = Ran(id: nat) | Bound(words: nat, k: nat) | Entered(f: nat)

  /** Everything control flow asks the rest of the shell.  Each answer may depend on all that happened
      before: the status of the simple command that just ran, whether `set -e` is on, how many words
      a list expands to, whether a pattern matches.  Function bodies are fixed. */
  datatype World = World(status: seq<Event> -> nat, errexit: seq<Event> -> bool,
                         count: (seq<Event>, nat) -> nat, matches: (seq<Event>, nat) -> bool,
                         bodies: seq<Tree>)

  /** A run is cut off after `clock` loop iterations and function calls. */
  datatype State = State(trace: seq<Event>, clock: nat)

  /** How a command ends: normally, on its way out of n loops, on its way to the next iteration of
      the n-th loop, by the exit `set -e` demands, or cut off. */
  datatype Outcome = Normal | Breaking(n: nat) | Continuing(n: nat) | Exited | OutOfClock

  datatype Result = Result(st: State, status: nat, out: Outcome)

  const SUCCESS: nat := 0
  const FAILURE: nat := 1
  const NOTFOUND: nat := 127

  predicate Aborted(out: Outcome) {
    out.Exited? || out.OutOfClock?
  }

  /** A signal inside d loops stays within them. */
  predicate Bounded(out: Outcome, d: nat) {
    (out.Breaking? || out.Continuing?) ==> 1 <= out.n <= d
  }

  function Invert(status: nat): nat {
    if status == SUCCESS then FAILURE else SUCCESS
  }

  /** The `!` of a command acts on its status, and not at all when the run is over. */
  function Finish(c: Tree, r: Result): Result
    requires !c.Null?
  {
    if c.invert && !Aborted(r.out) then r.(status := Invert(r.status)) else r
  }

  /** A signal that leaves a loop has one loop less to go. */
  function Leave(out: Outcome): Outcome {
    match out
    case Breaking(n) => if n <= 1 then Normal else Breaking(n - 1)
    case Continuing(n) => if n <= 1 then Normal else Continuing(n - 1)
    case _ => out
  }

  /** Does the loop whose body or test ended this way start another iteration? */
  predicate Again(out: Outcome) {
    out.Normal? || out == Continuing(1)
  }

  /** `break n` and `continue n` inside d loops: n is cut to d; outside loops they do nothing; a
      non-positive n fails and leaves all loops. */
  function Jump(action: Action, d: nat): (nat, Outcome)
    requires action.Break? || action.Continue?
  {
    if d == 0 then (SUCCESS, Normal)
    else if action.n <= 0 then (FAILURE, Breaking(d))
    else
      var n: nat := if action.n > d then d else action.n;
      (SUCCESS, if action.Break? then Breaking(n) else Continuing(n))
  }

  /** Failure of a simple command ends the shell under `set -e` unless it is ignored. */
  function CheckErrexit(w: World, c: Tree, ign: bool, r: Result): Result
    requires !c.Null?
  {
    if !Aborted(r.out) && !Under(c, ign) && w.errexit(r.st.trace) && r.status != SUCCESS then r.(out := Exited) else r
  }

  /** Does c stand where failure is ignored, or ignore it itself?  (`!` in front of an AND-OR list would
      not reach its last part; the parser puts none there.) */
  predicate Shielded(c: Tree, ign: bool)
    requires !c.Null?
  {
    ign || (c.invert && !(c.Connection? && !c.connector.Semicolon?))
  }

  /** Is there a simple command in c at which `set -e` can end the shell?  It must not stand in the test
      of an `if` or a loop, in an AND-OR list except as its last part, or under a `!`. */
  predicate Exposed(c: Tree, ign: bool) {
    match c
    case Null => false
    case Simple(_, _, _) => !Under(c, ign)
    case Connection(_, _, connector, first, second) =>
      if connector.Semicolon? then Exposed(first, Under(c, ign)) || Exposed(second, Under(c, ign))
      else Exposed(second, ign)
    case Group(_, _, body) => Exposed(body, Under(c, ign))
    case If(_, _, _, trueCase, falseCase) => Exposed(trueCase, Under(c, ign)) || Exposed(falseCase, Under(c, ign))
    case While(_, _, _, _, body) => Exposed(body, Under(c, ign))
    case For(_, _, _, body) => Exposed(body, Under(c, ign))
    case Case(_, _, clauses) => ExposedClauses(clauses, Under(c, ign))
  }

  predicate ExposedClauses(cl: Clauses<()>, ign: bool) {
    cl.Clause? && (Exposed(cl.body, ign) || ExposedClauses(cl.next, ign))
  }

  /** Run c inside d loops of the current function; `ign`: failure is ignored around c. */
  function Run(w: World, c: Tree, ign: bool, d: nat, st: State): (r: Result)
    ensures r.st.clock <= st.clock && st.trace <= r.st.trace && Bounded(r.out, d)
    ensures !c.Null? && Shielded(c, ign) ==> !r.out.Exited?
    ensures r.out.Exited? ==> Exposed(c, ign)
    ensures c.Null? ==> r.out.Normal?
    decreases st.clock, c, 3
  {
    if c.Null? then Result(st, SUCCESS, Normal) else Finish(c, RunPlain(w, c, ign, d, st))
  }

  /** The same without the effect of `!` on the status. */
  function RunPlain(w: World, c: Tree, ign: bool, d: nat, st: State): (r: Result)
    requires !c.Null?
    ensures r.st.clock <= st.clock && st.trace <= r.st.trace && Bounded(r.out, d)
    ensures Shielded(c, ign) ==> !r.out.Exited?
    ensures r.out.Exited? ==> Exposed(c, ign)
    decreases st.clock, c, 2
  {
    match c
    case Simple(_, _, action) => CheckErrexit(w, c, ign, RunAction(w, c, ign, d, st))
    case Group(_, _, body) => Run(w, body, Under(c, ign), d, st)
    case Connection(_, _, Semicolon, first, second) =>
      var r := Run(w, first, Under(c, ign), d, st);
      if !r.out.Normal? then r else Run(w, second, Under(c, ign), d, r.st)
    case Connection(_, _, connector, first, second) =>
      var r := Run(w, first, true, d, st);
      if !r.out.Normal? || (connector.AndAnd? <==> r.status != SUCCESS) then r
      else Run(w, second, ign, d, r.st)
    case If(_, _, test, trueCase, falseCase) =>
      var r := Run(w, test, true, d, st);
      if !r.out.Normal? then r
      else Run(w, if r.status == SUCCESS then trueCase else falseCase, Under(c, ign), d, r.st)
    case While(_, _, _, _, _) => RunWhile(w, c, ign, d, st, SUCCESS)
    case For(_, _, words, _) => RunFor(w, c, ign, d, st, 0, w.count(st.trace, words), SUCCESS)
    case Case(_, _, clauses) => RunClauses(w, clauses, Under(c, ign), d, st, SUCCESS)
  }

  function RunAction(w: World, c: Tree, ign: bool, d: nat, st: State): (r: Result)
    requires c.Simple?
    ensures r.st.clock <= st.clock && st.trace <= r.st.trace && Bounded(r.out, d)
    ensures Under(c, ign) ==> !r.out.Exited?
    ensures (c.action.Break? || c.action.Continue?) && c.action.n > 0 && d > 0 ==>
      var n: nat := if c.action.n > d then d else c.action.n;
      r == Result(st, 0, if c.action.Continue? then Continuing(n) else Breaking(n))
    decreases st.clock, c, 0
  {
    match c.action
    case Plain(id) =>
      var st' := st.(trace := st.trace + [Ran(id)]);
      Result(st', w.status(st'.trace), Normal)
    case Call(f) =>
      if f >= |w.bodies| then Result(st, NOTFOUND, Normal)
      else if st.clock == 0 then Result(st, SUCCESS, OutOfClock)
      else Run(w, w.bodies[f], Under(c, ign), 0, State(st.trace + [Entered(f)], st.clock - 1))
    case _ =>
      var (status, out) := Jump(c.action, d);
      Result(st, status, out)
  }

  /** The iterations of a while or until loop; `status` is that of the last body. */
  function RunWhile(w: World, c: Tree, ign: bool, d: nat, st: State, status: nat): (r: Result)
    requires c.While?
    ensures r.st.clock <= st.clock && st.trace <= r.st.trace && Bounded(r.out, d)
    ensures Under(c, ign) ==> !r.out.Exited?
    ensures r.out.Exited? ==> Exposed(c, ign)
    decreases st.clock, c, 1
  {
    var (r, again) := WhileStep(w, c, ign, d, st, status);
    if again then RunWhile(w, c, ign, d, r.st, r.status) else r
  }

  /** One iteration: the test, and if it says so the body.  A signal in the test skips the body.  Is
      there another iteration? */
  function WhileStep(w: World, c: Tree, ign: bool, d: nat, st: State, status: nat): (r: (Result, bool))
    requires c.While?
    ensures r.0.st.clock <= st.clock && st.trace <= r.0.st.trace && Bounded(r.0.out, d)
    ensures Under(c, ign) ==> !r.0.out.Exited?
    ensures r.0.out.Exited? ==> Exposed(c, ign)
    ensures r.1 ==> r.0.st.clock < st.clock && r.0.out.Normal?
    decreases st.clock, c, 0
  {
    if st.clock == 0 then (Result(st, status, OutOfClock), false)
    else
      var t := Run(w, c.test, true, d + 1, st.(clock := st.clock - 1));
      if Aborted(t.out) then (t, false)
      else if c.until <==> t.status == SUCCESS then (Result(t.st, status, Leave(t.out)), false)
      else
        var r := if t.out.Normal? then Run(w, c.body, Under(c, ign), d + 1, t.st) else t;
        (r.(out := Leave(r.out)), Again(r.out))
  }

  /** The iterations of a for loop from the k-th of n words on. */
  function RunFor(w: World, c: Tree, ign: bool, d: nat, st: State, k: nat, n: nat, status: nat): (r: Result)
    requires c.For?
    ensures r.st.clock <= st.clock && st.trace <= r.st.trace && Bounded(r.out, d)
    ensures Under(c, ign) ==> !r.out.Exited?
    ensures r.out.Exited? ==> Exposed(c, ign)
    decreases st.clock, c, 1
  {
    if k >= n then Result(st, status, Normal)
    else
      var (r, again) := ForStep(w, c, ign, d, st, k, status);
      if again then RunFor(w, c, ign, d, r.st, k + 1, n, r.status) else r
  }

  function ForStep(w: World, c: Tree, ign: bool, d: nat, st: State, k: nat, status: nat): (r: (Result, bool))
    requires c.For?
    ensures r.0.st.clock <= st.clock && st.trace <= r.0.st.trace && Bounded(r.0.out, d)
    ensures Under(c, ign) ==> !r.0.out.Exited?
    ensures r.0.out.Exited? ==> Exposed(c, ign)
    ensures r.1 ==> r.0.st.clock < st.clock && r.0.out.Normal?
    decreases st.clock, c, 0
  {
    if st.clock == 0 then (Result(st, status, OutOfClock), false)
    else
      var r := Run(w, c.body, Under(c, ign), d + 1, State(st.trace + [Bound(c.words, k)], st.clock - 1));
      (r.(out := Leave(r.out)), Again(r.out))
  }

  /** Look for a matching clause; `status` is that of the last clause run. */
  function RunClauses(w: World, cl: Clauses<()>, ign: bool, d: nat, st: State, status: nat): (r: Result)
    ensures r.st.clock <= st.clock && st.trace <= r.st.trace && Bounded(r.out, d)
    ensures ign ==> !r.out.Exited?
    ensures r.out.Exited? ==> ExposedClauses(cl, ign)
    decreases st.clock, cl, 1
  {
    if cl.NoClause? then Result(st, status, Normal)
    else if w.matches(st.trace, cl.pattern) then RunMatched(w, cl, ign, d, st)
    else RunClauses(w, cl.next, ign, d, st, status)
  }

  /** Run a clause that matched, or that the clause before falls through to. */
  function RunMatched(w: World, cl: Clauses<()>, ign: bool, d: nat, st: State): (r: Result)
    requires cl.Clause?
    ensures r.st.clock <= st.clock && st.trace <= r.st.trace && Bounded(r.out, d)
    ensures ign ==> !r.out.Exited?
    ensures r.out.Exited? ==> ExposedClauses(cl, ign)
    decreases st.clock, cl, 0
  {
    var r := Run(w, cl.body, ign, d, st);
    if !r.out.Normal? then r
    else
      match cl.terminator
      case Stop => r
      case FallThrough => if cl.next.NoClause? then r else RunMatched(w, cl.next, ign, d, r.st)
      case TestNext => RunClauses(w, cl.next, ign, d, r.st, r.status)
  }
}
