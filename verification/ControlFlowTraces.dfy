/** What runs leave in the history, said with concrete events: which commands run, in which order and
    how often, where `break` and `continue` lead, and when `set -e` ends the shell. */
module ControlFlowTraces {
  import opened CommandTree
  import opened ControlFlow

  function Do(action: Action): Tree {
    Simple((), false, action)
  }

  function Then(first: Tree, second: Tree): Tree {
    Connection((), false, Semicolon, first, second)
  }

  /** A command that was run inside others: its place is reached after the plain commands in front of it,
      and nothing around it ignores failure or is a loop. */
  datatype Place =
    | Here
    | Inside(place: Place)
    | First(place: Place, rest: Tree)
    | Behind(id: nat, place: Place)
    | AndThen(id: nat, place: Place)
    | OrElse(id: nat, place: Place)
    | TrueCase(id: nat, place: Place, falseCase: Tree)
    | FalseCase(id: nat, trueCase: Tree, place: Place)
    | Matched(pattern: nat, place: Place, terminator: Terminator, next: Clauses<()>)

  /** The command that the outermost layer of a place makes of c. */
  function Wrap(p: Place, c: Tree): Tree {
    match p
    case Here => c
    case Inside(_) => Group((), false, c)
    case First(_, rest) => Then(c, rest)
    case Behind(id, _) => Then(Do(Plain(id)), c)
    case AndThen(id, _) => Connection((), false, AndAnd, Do(Plain(id)), c)
    case OrElse(id, _) => Connection((), false, OrOr, Do(Plain(id)), c)
    case TrueCase(id, _, falseCase) => If((), false, Do(Plain(id)), c, falseCase)
    case FalseCase(id, trueCase, _) => If((), false, Do(Plain(id)), trueCase, c)
    case Matched(pattern, _, terminator, next) => Case((), false, Clause(pattern, c, terminator, next))
  }

  /** The command with c at that place. */
  function Fill(p: Place, c: Tree): Tree {
    if p.Here? then c else Wrap(p, Fill(p.place, c))
  }

  /** What has run when the place is reached. */
  function Before(p: Place): seq<Event> {
    match p
    case Here => []
    case Inside(q) => Before(q)
    case First(q, _) => Before(q)
    case Behind(id, q) => [Ran(id)] + Before(q)
    case AndThen(id, q) => [Ran(id)] + Before(q)
    case OrElse(id, q) => [Ran(id)] + Before(q)
    case TrueCase(id, q, _) => [Ran(id)] + Before(q)
    case FalseCase(id, _, q) => [Ran(id)] + Before(q)
    case Matched(_, q, _, _) => Before(q)
  }

  /** Do the commands in front end so that the place is reached?  `&&` and `then` need a zero, `||` and
      `else` a non-zero status; a failing command in front of `;` must not end the shell. */
  predicate Reached(w: World, p: Place, ign: bool, trace: seq<Event>) {
    match p
    case Here => true
    case Inside(q) => Reached(w, q, ign, trace)
    case First(q, _) => Reached(w, q, ign, trace)
    case Behind(id, q) =>
      var t := trace + [Ran(id)];
      (w.status(t) == 0 || ign || !w.errexit(t)) && Reached(w, q, ign, t)
    case AndThen(id, q) => w.status(trace + [Ran(id)]) == 0 && Reached(w, q, ign, trace + [Ran(id)])
    case OrElse(id, q) => w.status(trace + [Ran(id)]) != 0 && Reached(w, q, ign, trace + [Ran(id)])
    case TrueCase(id, q, _) => w.status(trace + [Ran(id)]) == 0 && Reached(w, q, ign, trace + [Ran(id)])
    case FalseCase(id, _, q) => w.status(trace + [Ran(id)]) != 0 && Reached(w, q, ign, trace + [Ran(id)])
    case Matched(pattern, q, _, _) => w.matches(trace, pattern) && Reached(w, q, ign, trace)
  }

  lemma Simply(w: World, action: Action, ign: bool, d: nat, st: State)
    ensures Run(w, Do(action), ign, d, st)
         == CheckErrexit(w, Do(action), ign, RunAction(w, Do(action), ign, d, st))
  {
    hide RunAction, Exposed;
    assert Run(w, Do(action), ign, d, st) == RunPlain(w, Do(action), ign, d, st);
  }

  /** A plain command is run once and gives its status. */
  lemma PlainRuns(w: World, id: nat, ign: bool, d: nat, st: State)
    ensures var t := st.trace + [Ran(id)];
      Run(w, Do(Plain(id)), ign, d, st) ==
      Result(State(t, st.clock), w.status(t), if w.status(t) != 0 && w.errexit(t) && !ign then Exited else Normal)
  {
    Simply(w, Plain(id), ign, d, st);
  }

  lemma BreakRuns(w: World, n: int, ign: bool, d: nat, st: State)
    requires n >= 1 && d >= 1
    ensures Run(w, Do(Break(n)), ign, d, st) == Result(st, 0, Breaking(if n > d then d else n))
  {
    Simply(w, Break(n), ign, d, st);
  }

  lemma ContinueRuns(w: World, n: int, ign: bool, d: nat, st: State)
    requires n >= 1 && d >= 1
    ensures Run(w, Do(Continue(n)), ign, d, st) == Result(st, 0, Continuing(if n > d then d else n))
  {
    Simply(w, Continue(n), ign, d, st);
  }

  /** Outside loops both do nothing; a count that is not positive fails and leaves every loop. */
  lemma IdleJumps(w: World, n: int, ign: bool, d: nat, st: State)
    ensures Run(w, Do(Break(n)), ign, 0, st) == Result(st, 0, Normal)
    ensures Run(w, Do(Continue(n)), ign, 0, st) == Result(st, 0, Normal)
    ensures n <= 0 < d && (ign || !w.errexit(st.trace)) ==>
      Run(w, Do(Break(n)), ign, d, st) == Result(st, 1, Breaking(d)) &&
      Run(w, Do(Continue(n)), ign, d, st) == Result(st, 1, Breaking(d))
  {
    Simply(w, Break(n), ign, 0, st);
    Simply(w, Continue(n), ign, 0, st);
    Simply(w, Break(n), ign, d, st);
    Simply(w, Continue(n), ign, d, st);
  }

  /** A signal or an exit at a place reaches the outside of everything around the place as it is, and
      nothing behind the place runs. */
  lemma {:induction false} GoesOut(w: World, p: Place, c: Tree, ign: bool, d: nat, st: State)
    requires Reached(w, p, ign, st.trace)
    requires !Run(w, c, ign, d, State(st.trace + Before(p), st.clock)).out.Normal?
    ensures Run(w, Fill(p, c), ign, d, st) == Run(w, c, ign, d, State(st.trace + Before(p), st.clock))
  {
    if p.Here? {
      assert st.trace + Before(p) == st.trace;
    } else if p.Inside? || p.First? || p.Matched? {
      GoesOut(w, p.place, c, ign, d, st);
      Outwards(w, p, Fill(p.place, c), ign, d, st);
    } else {
      var t := st.trace + [Ran(p.id)];
      assert st.trace + Before(p) == t + Before(p.place);
      GoesOut(w, p.place, c, ign, d, State(t, st.clock));
      Onwards(w, p, Fill(p.place, c), ign, d, st);
    }
  }

  lemma Outwards(w: World, p: Place, c: Tree, ign: bool, d: nat, st: State)
    requires (p.Inside? || p.First? || p.Matched?) && (p.Matched? ==> w.matches(st.trace, p.pattern))
    requires !Run(w, c, ign, d, st).out.Normal?
    ensures Run(w, Wrap(p, c), ign, d, st) == Run(w, c, ign, d, st)
  {
    hide Exposed, ExposedClauses, RunAction;
    assert Run(w, Wrap(p, c), ign, d, st) == RunPlain(w, Wrap(p, c), ign, d, st);
    if p.Matched? {
      var cl := Clause(p.pattern, c, p.terminator, p.next);
      assert RunClauses(w, cl, ign, d, st, SUCCESS) == RunMatched(w, cl, ign, d, st);
    }
  }

  lemma Onwards(w: World, p: Place, c: Tree, ign: bool, d: nat, st: State)
    requires !p.Here? && !p.Inside? && !p.First? && !p.Matched?
    requires Reached(w, p, ign, st.trace)
    ensures Run(w, Wrap(p, c), ign, d, st) == Run(w, c, ign, d, State(st.trace + [Ran(p.id)], st.clock))
  {
    hide Exposed, ExposedClauses, RunAction, Run;
    PlainRuns(w, p.id, ign, d, st);
    PlainRuns(w, p.id, true, d, st);
    Unnegated(w, Wrap(p, c), ign, d, st);
  }

  lemma Unnegated(w: World, c: Tree, ign: bool, d: nat, st: State)
    requires !c.Null? && !c.invert
    ensures Run(w, c, ign, d, st) == RunPlain(w, c, ign, d, st)
  {
    hide RunPlain, Exposed;
  }

  // ---- loops ----

  /** How a jump over n loops, raised inside one of d + 1, goes on behind that loop. */
  function Beyond(n: int, d: nat): nat
    requires n >= 1
  {
    if n - 1 > d then d else n - 1
  }

  lemma LoopRuns(w: World, c: Tree, ign: bool, d: nat, st: State)
    requires (c.For? || c.While?) && !c.invert
    ensures c.For? ==> Run(w, c, ign, d, st) == RunFor(w, c, ign, d, st, 0, w.count(st.trace, c.words), 0)
    ensures c.While? ==> Run(w, c, ign, d, st) == RunWhile(w, c, ign, d, st, 0)
  {
    hide RunFor, RunWhile, Exposed;
    assert Run(w, c, ign, d, st) == RunPlain(w, c, ign, d, st);
  }

  /** A body that ends with a signal or for good in the first round of a for loop. */
  lemma FirstWord(w: World, words: nat, body: Tree, ign: bool, d: nat, st: State, r: Result)
    requires st.clock > 0 && w.count(st.trace, words) > 0
    requires r == Run(w, body, ign, d + 1, State(st.trace + [Bound(words, 0)], st.clock - 1)) && !Again(r.out)
    ensures Run(w, For((), false, words, body), ign, d, st) == r.(out := Leave(r.out))
  {
    hide Run, Exposed;
    LoopRuns(w, For((), false, words, body), ign, d, st);
  }

  lemma FirstTest(w: World, until: bool, test: nat, body: Tree, ign: bool, d: nat, st: State, r: Result)
    requires st.clock > 0 && (until <==> w.status(st.trace + [Ran(test)]) != 0)
    requires r == Run(w, body, ign, d + 1, State(st.trace + [Ran(test)], st.clock - 1)) && !Again(r.out)
    ensures Run(w, While((), false, until, Do(Plain(test)), body), ign, d, st) == r.(out := Leave(r.out))
  {
    hide Run, Exposed;
    LoopRuns(w, While((), false, until, Do(Plain(test)), body), ign, d, st);
    PlainRuns(w, test, true, d + 1, State(st.trace, st.clock - 1));
  }

  lemma Left(n: int, d: nat)
    requires n >= 1
    ensures var m := if n > d + 1 then d + 1 else n;
      !Again(Breaking(m)) && Leave(Breaking(m)) == (if Beyond(n, d) == 0 then Normal else Breaking(Beyond(n, d)))
    ensures n >= 2 && d >= 1 ==>
      var m := if n > d + 1 then d + 1 else n;
      !Again(Continuing(m)) && Leave(Continuing(m)) == Continuing(Beyond(n, d))
  {
  }

  /** `break n` anywhere in the body of a for loop: the first word is bound, what stands in front of the
      `break` runs, and nothing else does.  One loop is left, and n - 1 around it, if there are so many. */
  lemma BreakLeavesFor(w: World, words: nat, p: Place, n: int, ign: bool, d: nat, st: State)
    requires n >= 1 && st.clock > 0 && w.count(st.trace, words) > 0
    requires Reached(w, p, ign, st.trace + [Bound(words, 0)])
    ensures Run(w, For((), false, words, Fill(p, Do(Break(n)))), ign, d, st)
         == Result(State(st.trace + [Bound(words, 0)] + Before(p), st.clock - 1), 0,
                   if Beyond(n, d) == 0 then Normal else Breaking(Beyond(n, d)))
  {
    hide *;
    var st1 := State(st.trace + [Bound(words, 0)], st.clock - 1);
    BreakRuns(w, n, ign, d + 1, State(st1.trace + Before(p), st1.clock));
    GoesOut(w, p, Do(Break(n)), ign, d + 1, st1);
    Left(n, d);
    FirstWord(w, words, Fill(p, Do(Break(n))), ign, d, st, Run(w, Fill(p, Do(Break(n))), ign, d + 1, st1));
  }

  /** The same for while and until loops: the test is run once. */
  lemma BreakLeavesWhile(w: World, until: bool, test: nat, p: Place, n: int, ign: bool, d: nat, st: State)
    requires n >= 1 && st.clock > 0
    requires until <==> w.status(st.trace + [Ran(test)]) != 0
    requires Reached(w, p, ign, st.trace + [Ran(test)])
    ensures Run(w, While((), false, until, Do(Plain(test)), Fill(p, Do(Break(n)))), ign, d, st)
         == Result(State(st.trace + [Ran(test)] + Before(p), st.clock - 1), 0,
                   if Beyond(n, d) == 0 then Normal else Breaking(Beyond(n, d)))
  {
    hide *;
    var st1 := State(st.trace + [Ran(test)], st.clock - 1);
    BreakRuns(w, n, ign, d + 1, State(st1.trace + Before(p), st1.clock));
    GoesOut(w, p, Do(Break(n)), ign, d + 1, st1);
    Left(n, d);
    FirstTest(w, until, test, Fill(p, Do(Break(n))), ign, d, st, Run(w, Fill(p, Do(Break(n))), ign, d + 1, st1));
  }

  /** `break n` in the test of a loop leaves it without running the body, whichever kind of loop it is, and
      so does a `continue` in the test of an until loop, whose test it makes succeed. */
  lemma JumpInTest(w: World, until: bool, p: Place, body: Tree, n: int, ign: bool, d: nat, st: State)
    requires n >= 1 && st.clock > 0 && Reached(w, p, true, st.trace)
    ensures Run(w, While((), false, until, Fill(p, Do(Break(n))), body), ign, d, st)
         == Result(State(st.trace + Before(p), st.clock - 1), 0,
                   if Beyond(n, d) == 0 then Normal else Breaking(Beyond(n, d)))
    ensures Run(w, While((), false, true, Fill(p, Do(Continue(1))), body), ign, d, st)
         == Result(State(st.trace + Before(p), st.clock - 1), 0, Normal)
  {
    hide *;
    var st1 := State(st.trace, st.clock - 1);
    BreakRuns(w, n, true, d + 1, State(st.trace + Before(p), st1.clock));
    GoesOut(w, p, Do(Break(n)), true, d + 1, st1);
    ContinueRuns(w, 1, true, d + 1, State(st.trace + Before(p), st1.clock));
    GoesOut(w, p, Do(Continue(1)), true, d + 1, st1);
    Left(n, d);
    NotAborted(if n > d + 1 then d + 1 else n);
    NotAborted(1);
    TestLeaves(w, While((), false, until, Fill(p, Do(Break(n))), body), ign, d, st);
    TestLeaves(w, While((), false, true, Fill(p, Do(Continue(1))), body), ign, d, st);
  }

  lemma NotAborted(n: nat)
    requires n >= 1
    ensures !Aborted(Breaking(n)) && !Aborted(Continuing(n)) && Leave(Continuing(1)) == Normal
  {
  }

  lemma TestLeaves(w: World, c: Tree, ign: bool, d: nat, st: State)
    requires c.While? && !c.invert && st.clock > 0
    requires var t := Run(w, c.test, true, d + 1, State(st.trace, st.clock - 1));
      t.status == 0 && !t.out.Normal? && !Aborted(t.out) && (c.until || !Again(t.out))
    ensures var t := Run(w, c.test, true, d + 1, State(st.trace, st.clock - 1));
      Run(w, c, ign, d, st) == t.(out := Leave(t.out))
  {
    hide Run, Exposed;
    LoopRuns(w, c, ign, d, st);
  }

  /** `continue n` over more than one loop leaves this one like `break n`, on its way to the next
      iteration of an outer one. */
  lemma ContinueLeavesFor(w: World, words: nat, p: Place, n: int, ign: bool, d: nat, st: State)
    requires n >= 2 && d >= 1 && st.clock > 0 && w.count(st.trace, words) > 0
    requires Reached(w, p, ign, st.trace + [Bound(words, 0)])
    ensures Run(w, For((), false, words, Fill(p, Do(Continue(n)))), ign, d, st)
         == Result(State(st.trace + [Bound(words, 0)] + Before(p), st.clock - 1), 0, Continuing(Beyond(n, d)))
  {
    hide *;
    var st1 := State(st.trace + [Bound(words, 0)], st.clock - 1);
    ContinueRuns(w, n, ign, d + 1, State(st1.trace + Before(p), st1.clock));
    GoesOut(w, p, Do(Continue(n)), ign, d + 1, st1);
    Left(n, d);
    FirstWord(w, words, Fill(p, Do(Continue(n))), ign, d, st, Run(w, Fill(p, Do(Continue(n))), ign, d + 1, st1));
  }

  /** The history of n rounds: each binds its word, in order, and leaves `events`. */
  function Rounds(words: nat, events: seq<Event>, n: nat): seq<Event> {
    if n == 0 then [] else Rounds(words, events, n - 1) + [Bound(words, n - 1)] + events
  }

  /** The state at the start of round k, if every round takes `step` off the clock. */
  function Round(words: nat, events: seq<Event>, step: nat, st: State, k: nat): State
    requires k * step <= st.clock
  {
    State(st.trace + Rounds(words, events, k), st.clock - k * step)
  }

  /** One round: the word is bound, then the body leaves `events` and lets the loop go on. */
  ghost predicate GoesOn(w: World, c: Tree, ign: bool, d: nat, st: State, k: nat, events: seq<Event>, step: nat)
    requires c.For?
  {
    1 <= step <= st.clock &&
    var t := st.trace + [Bound(c.words, k)];
    var r := Run(w, c.body, Under(c, ign), d + 1, State(t, st.clock - 1));
    (r.out.Normal? || r.out == Continuing(1)) && r.st == State(t + events, st.clock - step)
  }

  function RoundStatus(w: World, c: Tree, ign: bool, d: nat, s: State, k: nat): nat
    requires c.For? && s.clock > 0
  {
    Run(w, c.body, Under(c, ign), d + 1, State(s.trace + [Bound(c.words, k)], s.clock - 1)).status
  }

  lemma NoRounds(words: nat, events: seq<Event>, step: nat, st: State)
    ensures Round(words, events, step, st, 0) == st
  {
  }

  lemma RoundStep(words: nat, events: seq<Event>, step: nat, st: State, k: nat)
    requires (k + 1) * step <= st.clock
    ensures k * step + step == (k + 1) * step <= st.clock
    ensures Round(words, events, step, st, k + 1)
         == State(Round(words, events, step, st, k).trace + [Bound(words, k)] + events,
                  Round(words, events, step, st, k).clock - step)
  {
    assert st.trace + (Rounds(words, events, k) + [Bound(words, k)] + events)
        == (st.trace + Rounds(words, events, k)) + [Bound(words, k)] + events;
  }

  lemma Fewer(k: nat, n: nat, step: nat, clock: nat)
    requires k <= n && n * step <= clock
    ensures k * step <= clock
  {
    assert n * step == k * step + (n - k) * step;
  }

  /** If every round lets the loop go on, every word is bound. */
  lemma {:induction false} AllRounds(w: World, c: Tree, ign: bool, d: nat, st: State, k: nat, n: nat, status: nat,
                                     events: seq<Event>, step: nat) returns (last: nat)
    requires c.For? && k <= n && n * step <= st.clock && k * step <= st.clock
    requires forall j | k <= j < n ::
      j * step <= st.clock && GoesOn(w, c, ign, d, Round(c.words, events, step, st, j), j, events, step)
    ensures RunFor(w, c, ign, d, Round(c.words, events, step, st, k), k, n, status)
         == Result(Round(c.words, events, step, st, n), last, Normal)
    ensures k == n ==> last == status
    ensures k < n ==>
      0 <= (n - 1) * step < st.clock &&
      last == RoundStatus(w, c, ign, d, Round(c.words, events, step, st, n - 1), n - 1)
    decreases n - k
  {
    hide *;
    last := status;
    NoMore(w, c, ign, d, Round(c.words, events, step, st, k), k, n, status);
    if k < n {
      Fewer(k + 1, n, step, st.clock);
      RoundStep(c.words, events, step, st, k);
      var s := Round(c.words, events, step, st, k);
      ClockOn(w, c, ign, d, s, k, events, step);
      NextWord(w, c, ign, d, s, k, n, status, events, step);
      last := AllRounds(w, c, ign, d, st, k + 1, n, RoundStatus(w, c, ign, d, s, k), events, step);
      Fewer(n - 1, n, step, st.clock);
      RoundStep(c.words, events, step, st, n - 1);
      ClockOn(w, c, ign, d, Round(c.words, events, step, st, n - 1), n - 1, events, step);
    }
  }

  lemma NoMore(w: World, c: Tree, ign: bool, d: nat, s: State, k: nat, n: nat, status: nat)
    requires c.For?
    ensures k >= n ==> RunFor(w, c, ign, d, s, k, n, status) == Result(s, status, Normal)
  {
    hide Run, Exposed;
  }

  lemma ClockOn(w: World, c: Tree, ign: bool, d: nat, s: State, k: nat, events: seq<Event>, step: nat)
    requires c.For? && GoesOn(w, c, ign, d, s, k, events, step)
    ensures 1 <= step <= s.clock
  {
  }

  lemma NextWord(w: World, c: Tree, ign: bool, d: nat, s: State, k: nat, n: nat, status: nat,
                 events: seq<Event>, step: nat)
    requires c.For? && k < n && GoesOn(w, c, ign, d, s, k, events, step)
    ensures 1 <= step <= s.clock
    ensures RunFor(w, c, ign, d, s, k, n, status)
         == RunFor(w, c, ign, d, State(s.trace + [Bound(c.words, k)] + events, s.clock - step), k + 1, n,
                   RoundStatus(w, c, ign, d, s, k))
  {
    hide Run, Exposed;
  }

  /** One round that ends with a `continue` of this loop. */
  ghost predicate Continued(w: World, c: Tree, ign: bool, d: nat, s: State, k: nat, events: seq<Event>, step: nat)
    requires c.For?
  {
    1 <= step <= s.clock &&
    var t := s.trace + [Bound(c.words, k)];
    Run(w, c.body, Under(c, ign), d + 1, State(t, s.clock - 1))
    == Result(State(t + events, s.clock - step), 0, Continuing(1))
  }

  lemma ContinuedGoesOn(w: World, c: Tree, ign: bool, d: nat, s: State, k: nat, events: seq<Event>, step: nat)
    requires c.For? && Continued(w, c, ign, d, s, k, events, step)
    ensures GoesOn(w, c, ign, d, s, k, events, step) && s.clock > 0 && RoundStatus(w, c, ign, d, s, k) == 0
  {
    hide Run, Exposed;
  }

  lemma AllContinued(w: World, c: Tree, ign: bool, d: nat, st: State, n: nat, events: seq<Event>, step: nat)
    requires c.For? && !c.invert && n * step <= st.clock && n == w.count(st.trace, c.words)
    requires forall k | 0 <= k < n ::
      k * step <= st.clock && Continued(w, c, ign, d, Round(c.words, events, step, st, k), k, events, step)
    ensures Run(w, c, ign, d, st)
         == Result(State(st.trace + Rounds(c.words, events, n), st.clock - n * step), 0, Normal)
  {
    hide *;
    forall k | 0 <= k < n
      ensures k * step <= st.clock && GoesOn(w, c, ign, d, Round(c.words, events, step, st, k), k, events, step)
    {
      ContinuedGoesOn(w, c, ign, d, Round(c.words, events, step, st, k), k, events, step);
    }
    LoopRuns(w, c, ign, d, st);
    NoRounds(c.words, events, step, st);
    RoundIs(c.words, events, step, st, n);
    var last := AllRounds(w, c, ign, d, st, 0, n, 0, events, step);
    if n > 0 {
      ContinuedGoesOn(w, c, ign, d, Round(c.words, events, step, st, n - 1), n - 1, events, step);
    }
  }

  lemma RoundIs(words: nat, events: seq<Event>, step: nat, st: State, k: nat)
    requires k * step <= st.clock
    ensures Round(words, events, step, st, k) == State(st.trace + Rounds(words, events, k), st.clock - k * step)
  {
  }

  lemma RoundContinues(w: World, c: Tree, ign: bool, d: nat, s: State, k: nat, events: seq<Event>, step: nat)
    requires c.For? && !c.invert && 1 <= step <= s.clock
    requires Run(w, c.body, ign, d + 1, State(s.trace + [Bound(c.words, k)], s.clock - 1))
          == Result(State(s.trace + [Bound(c.words, k)] + events, s.clock - step), 0, Continuing(1))
    ensures Continued(w, c, ign, d, s, k, events, step)
  {
    hide Run, Exposed;
  }

  /** `continue` anywhere in the body of a for loop: every word is bound, in order, each time what stands
      in front of the `continue` runs, and never what stands behind it. */
  lemma ContinueTakesEveryWord(w: World, words: nat, p: Place, ign: bool, d: nat, st: State)
    requires w.count(st.trace, words) <= st.clock
    requires forall k | 0 <= k < w.count(st.trace, words) ::
      Reached(w, p, ign, st.trace + Rounds(words, Before(p), k) + [Bound(words, k)])
    ensures Run(w, For((), false, words, Fill(p, Do(Continue(1)))), ign, d, st)
         == Result(State(st.trace + Rounds(words, Before(p), w.count(st.trace, words)),
                         st.clock - w.count(st.trace, words)), 0, Normal)
  {
    hide *;
    var n := w.count(st.trace, words);
    var c := For((), false, words, Fill(p, Do(Continue(1))));
    forall k | 0 <= k < n
      ensures k * 1 <= st.clock && Continued(w, c, ign, d, Round(words, Before(p), 1, st, k), k, Before(p), 1)
    {
      RoundIs(words, Before(p), 1, st, k);
      var s := State(st.trace + Rounds(words, Before(p), k), st.clock - k);
      var st1 := State(s.trace + [Bound(words, k)], s.clock - 1);
      ContinueRuns(w, 1, ign, d + 1, State(st1.trace + Before(p), st1.clock));
      GoesOut(w, p, Do(Continue(1)), ign, d + 1, st1);
      RoundContinues(w, c, ign, d, s, k, Before(p), 1);
    }
    AllContinued(w, c, ign, d, st, n, Before(p), 1);
  }

  /** In round k of the outer loop the inner one is reached, has a word, and in it the jump is reached. */
  predicate InnerReached(w: World, q: Place, inner: nat, p: Place, ign: bool, t: seq<Event>) {
    Reached(w, q, ign, t) && w.count(t + Before(q), inner) > 0 &&
    Reached(w, p, ign, t + Before(q) + [Bound(inner, 0)])
  }

  function InnerEvents(q: Place, inner: nat, p: Place): seq<Event> {
    Before(q) + [Bound(inner, 0)] + Before(p)
  }

  /** `continue 2` in an inner loop: the outer loop takes every word and the inner one only its first, and
      what stands behind the inner loop never runs. */
  lemma ContinueOuter(w: World, words: nat, q: Place, inner: nat, p: Place, ign: bool, d: nat, st: State)
    requires 2 * w.count(st.trace, words) <= st.clock
    requires forall k | 0 <= k < w.count(st.trace, words) ::
      InnerReached(w, q, inner, p, ign, st.trace + Rounds(words, InnerEvents(q, inner, p), k) + [Bound(words, k)])
    ensures Run(w, For((), false, words, Fill(q, For((), false, inner, Fill(p, Do(Continue(2)))))), ign, d, st)
         == Result(State(st.trace + Rounds(words, InnerEvents(q, inner, p), w.count(st.trace, words)),
                         st.clock - 2 * w.count(st.trace, words)), 0, Normal)
  {
    hide *;
    var n := w.count(st.trace, words);
    var events := InnerEvents(q, inner, p);
    var c := For((), false, words, Fill(q, For((), false, inner, Fill(p, Do(Continue(2))))));
    forall k | 0 <= k < n
      ensures k * 2 <= st.clock && Continued(w, c, ign, d, Round(words, events, 2, st, k), k, events, 2)
    {
      RoundIs(words, events, 2, st, k);
      var s := State(st.trace + Rounds(words, events, k), st.clock - k * 2);
      InnerLoop(w, q, inner, p, ign, d, State(s.trace + [Bound(words, k)], s.clock - 1));
      RoundContinues(w, c, ign, d, s, k, events, 2);
    }
    AllContinued(w, c, ign, d, st, n, events, 2);
  }

  lemma InnerLoop(w: World, q: Place, inner: nat, p: Place, ign: bool, d: nat, st: State)
    requires st.clock > 0 && InnerReached(w, q, inner, p, ign, st.trace)
    ensures Run(w, Fill(q, For((), false, inner, Fill(p, Do(Continue(2))))), ign, d + 1, st)
         == Result(State(st.trace + InnerEvents(q, inner, p), st.clock - 1), 0, Continuing(1))
  {
    var st2 := State(st.trace + Before(q), st.clock);
    hide Run, Exposed, Reached, Before, Fill;
    ContinueLeavesFor(w, inner, p, 2, ign, d + 1, st2);
    GoesOut(w, q, For((), false, inner, Fill(p, Do(Continue(2)))), ign, d + 1, st);
    assert st.trace + InnerEvents(q, inner, p) == st.trace + Before(q) + [Bound(inner, 0)] + Before(p);
  }

  /** A plain body is run for every word, in order, and the loop has the status of its last run. */
  lemma PlainTakesEveryWord(w: World, words: nat, id: nat, ign: bool, d: nat, st: State)
    requires w.count(st.trace, words) <= st.clock && (ign || forall t :: !w.errexit(t))
    ensures var n := w.count(st.trace, words);
      var t := st.trace + Rounds(words, [Ran(id)], n);
      Run(w, For((), false, words, Do(Plain(id))), ign, d, st)
      == Result(State(t, st.clock - n), if n == 0 then 0 else w.status(t), Normal)
  {
    hide *;
    var n := w.count(st.trace, words);
    var c := For((), false, words, Do(Plain(id)));
    forall k | 0 <= k < n
      ensures k * 1 <= st.clock && GoesOn(w, c, ign, d, Round(words, [Ran(id)], 1, st, k), k, [Ran(id)], 1)
    {
      RoundIs(words, [Ran(id)], 1, st, k);
      PlainRound(w, words, id, ign, d, Round(words, [Ran(id)], 1, st, k), k);
    }
    LoopRuns(w, c, ign, d, st);
    NoRounds(words, [Ran(id)], 1, st);
    RoundIs(words, [Ran(id)], 1, st, n);
    var last := AllRounds(w, c, ign, d, st, 0, n, 0, [Ran(id)], 1);
    if n > 0 {
      RoundIs(words, [Ran(id)], 1, st, n - 1);
      RoundStep(words, [Ran(id)], 1, st, n - 1);
      PlainRound(w, words, id, ign, d, Round(words, [Ran(id)], 1, st, n - 1), n - 1);
    }
  }

  lemma PlainRound(w: World, words: nat, id: nat, ign: bool, d: nat, s: State, k: nat)
    requires s.clock > 0 && (ign || forall t :: !w.errexit(t))
    ensures var c := For((), false, words, Do(Plain(id)));
      GoesOn(w, c, ign, d, s, k, [Ran(id)], 1) &&
      RoundStatus(w, c, ign, d, s, k) == w.status(s.trace + [Bound(words, k)] + [Ran(id)])
  {
    PlainRuns(w, id, ign, d + 1, State(s.trace + [Bound(words, k)], s.clock - 1));
    hide Run, Exposed;
  }

  /** The history of n laps of a while loop: the test, then what the body leaves. */
  function Laps(test: nat, events: seq<Event>, n: nat): seq<Event> {
    if n == 0 then [] else Laps(test, events, n - 1) + [Ran(test)] + events
  }

  /** One lap: the test lets the body run, which leaves `events` and lets the loop go on. */
  ghost predicate LapGoesOn(w: World, c: Tree, test: nat, ign: bool, d: nat, s: State, events: seq<Event>)
    requires c.While?
  {
    var t := s.trace + [Ran(test)];
    (c.until <==> w.status(t) != 0) && s.clock > 0 &&
    var r := Run(w, c.body, Under(c, ign), d + 1, State(t, s.clock - 1));
    (r.out.Normal? || r.out == Continuing(1)) && r.st == State(t + events, s.clock - 1)
  }

  function LapStatus(w: World, c: Tree, test: nat, ign: bool, d: nat, s: State): nat
    requires c.While? && s.clock > 0
  {
    Run(w, c.body, Under(c, ign), d + 1, State(s.trace + [Ran(test)], s.clock - 1)).status
  }

  lemma NextLap(w: World, c: Tree, test: nat, ign: bool, d: nat, s: State, status: nat, events: seq<Event>)
    requires c.While? && c.test == Do(Plain(test)) && LapGoesOn(w, c, test, ign, d, s, events)
    ensures s.clock > 0
    ensures RunWhile(w, c, ign, d, s, status)
         == RunWhile(w, c, ign, d, State(s.trace + [Ran(test)] + events, s.clock - 1),
                     LapStatus(w, c, test, ign, d, s))
  {
    PlainRuns(w, test, true, d + 1, State(s.trace, s.clock - 1));
    hide Run, Exposed;
  }

  lemma LastLap(w: World, c: Tree, test: nat, ign: bool, d: nat, s: State, status: nat)
    requires c.While? && c.test == Do(Plain(test)) && s.clock > 0
    requires c.until <==> w.status(s.trace + [Ran(test)]) == 0
    ensures RunWhile(w, c, ign, d, s, status) == Result(State(s.trace + [Ran(test)], s.clock - 1), status, Normal)
  {
    PlainRuns(w, test, true, d + 1, State(s.trace, s.clock - 1));
    hide Run, Exposed;
  }

  /** The state before lap k. */
  function Lap(test: nat, events: seq<Event>, st: State, k: nat): State
    requires k <= st.clock
  {
    State(st.trace + Laps(test, events, k), st.clock - k)
  }

  lemma LapStep(test: nat, events: seq<Event>, st: State, k: nat)
    requires k < st.clock
    ensures Lap(test, events, st, 0) == st
    ensures Lap(test, events, st, k + 1)
         == State(Lap(test, events, st, k).trace + [Ran(test)] + events, Lap(test, events, st, k).clock - 1)
  {
    assert st.trace + (Laps(test, events, k) + [Ran(test)] + events)
        == (st.trace + Laps(test, events, k)) + [Ran(test)] + events;
  }

  lemma {:induction false} AllLaps(w: World, c: Tree, test: nat, ign: bool, d: nat, st: State, k: nat, n: nat,
                                   status: nat, events: seq<Event>) returns (last: nat)
    requires c.While? && c.test == Do(Plain(test)) && k <= n < st.clock
    requires forall j | k <= j < n :: LapGoesOn(w, c, test, ign, d, Lap(test, events, st, j), events)
    requires c.until <==> w.status(Lap(test, events, st, n).trace + [Ran(test)]) == 0
    ensures RunWhile(w, c, ign, d, Lap(test, events, st, k), status)
         == Result(State(Lap(test, events, st, n).trace + [Ran(test)], st.clock - n - 1), last, Normal)
    ensures k == n ==> last == status
    ensures k < n ==> Lap(test, events, st, n - 1).clock > 0 &&
                      last == LapStatus(w, c, test, ign, d, Lap(test, events, st, n - 1))
    decreases n - k
  {
    hide RunWhile, LapGoesOn, LapStatus, Laps, Do, Exposed;
    last := status;
    if k == n {
      LastLap(w, c, test, ign, d, Lap(test, events, st, k), status);
    } else {
      var s := Lap(test, events, st, k);
      NextLap(w, c, test, ign, d, s, status, events);
      LapStep(test, events, st, k);
      last := AllLaps(w, c, test, ign, d, st, k + 1, n, LapStatus(w, c, test, ign, d, s), events);
    }
  }

  /** `continue` anywhere in the body of a while or until loop: the test is run again each time, and the
      loop ends with status zero when the test says so. */
  lemma ContinueTestsAgain(w: World, until: bool, test: nat, p: Place, n: nat, ign: bool, d: nat, st: State)
    requires n < st.clock
    requires forall k | 0 <= k < n ::
      var t := st.trace + Laps(test, Before(p), k) + [Ran(test)];
      (until <==> w.status(t) != 0) && Reached(w, p, ign, t)
    requires until <==> w.status(st.trace + Laps(test, Before(p), n) + [Ran(test)]) == 0
    ensures Run(w, While((), false, until, Do(Plain(test)), Fill(p, Do(Continue(1)))), ign, d, st)
         == Result(State(st.trace + Laps(test, Before(p), n) + [Ran(test)], st.clock - n - 1), 0, Normal)
  {
    var c := While((), false, until, Do(Plain(test)), Fill(p, Do(Continue(1))));
    hide RunWhile, Run, LapGoesOn, LapStatus, Laps, Do, Exposed, Reached, Before, Fill;
    forall k | 0 <= k < n
      ensures LapGoesOn(w, c, test, ign, d, Lap(test, Before(p), st, k), Before(p))
      ensures Lap(test, Before(p), st, k).clock > 0 &&
              LapStatus(w, c, test, ign, d, Lap(test, Before(p), st, k)) == 0
    {
      ContinueLap(w, until, test, p, ign, d, Lap(test, Before(p), st, k));
    }
    LoopRuns(w, c, ign, d, st);
    LapStep(test, Before(p), st, 0);
    var last := AllLaps(w, c, test, ign, d, st, 0, n, 0, Before(p));
  }

  lemma ContinueLap(w: World, until: bool, test: nat, p: Place, ign: bool, d: nat, s: State)
    requires s.clock > 0 && (until <==> w.status(s.trace + [Ran(test)]) != 0)
    requires Reached(w, p, ign, s.trace + [Ran(test)])
    ensures var c := While((), false, until, Do(Plain(test)), Fill(p, Do(Continue(1))));
      LapGoesOn(w, c, test, ign, d, s, Before(p)) && LapStatus(w, c, test, ign, d, s) == 0
  {
    hide Run, Exposed, Reached, Before, Fill, Do;
    var st1 := State(s.trace + [Ran(test)], s.clock - 1);
    ContinueRuns(w, 1, ign, d + 1, State(st1.trace + Before(p), st1.clock));
    GoesOut(w, p, Do(Continue(1)), ign, d + 1, st1);
  }

  /** A plain test and a plain body take turns: a while loop goes on as long as the test gives zero, an until
      loop as long as it does not, and the status is that of the last body, or zero. */
  lemma PlainTakesTurns(w: World, until: bool, test: nat, id: nat, n: nat, ign: bool, d: nat, st: State)
    requires n < st.clock && (ign || forall t :: !w.errexit(t))
    requires forall k | 0 <= k < n ::
      until <==> w.status(st.trace + Laps(test, [Ran(id)], k) + [Ran(test)]) != 0
    requires until <==> w.status(st.trace + Laps(test, [Ran(id)], n) + [Ran(test)]) == 0
    ensures var t := st.trace + Laps(test, [Ran(id)], n);
      Run(w, While((), false, until, Do(Plain(test)), Do(Plain(id))), ign, d, st)
      == Result(State(t + [Ran(test)], st.clock - n - 1), if n == 0 then 0 else w.status(t), Normal)
  {
    var c := While((), false, until, Do(Plain(test)), Do(Plain(id)));
    hide RunWhile, Run, LapGoesOn, LapStatus, Laps, Do, Exposed;
    forall k | 0 <= k < n
      ensures LapGoesOn(w, c, test, ign, d, Lap(test, [Ran(id)], st, k), [Ran(id)])
      ensures Lap(test, [Ran(id)], st, k).clock > 0 &&
              LapStatus(w, c, test, ign, d, Lap(test, [Ran(id)], st, k))
              == w.status(Lap(test, [Ran(id)], st, k).trace + [Ran(test)] + [Ran(id)])
    {
      PlainLap(w, until, test, id, ign, d, Lap(test, [Ran(id)], st, k));
    }
    LoopRuns(w, c, ign, d, st);
    LapStep(test, [Ran(id)], st, 0);
    var last := AllLaps(w, c, test, ign, d, st, 0, n, 0, [Ran(id)]);
    if n > 0 {
      LapStep(test, [Ran(id)], st, n - 1);
    }
  }

  lemma PlainLap(w: World, until: bool, test: nat, id: nat, ign: bool, d: nat, s: State)
    requires s.clock > 0 && (until <==> w.status(s.trace + [Ran(test)]) != 0)
    requires ign || forall t :: !w.errexit(t)
    ensures var c := While((), false, until, Do(Plain(test)), Do(Plain(id)));
      LapGoesOn(w, c, test, ign, d, s, [Ran(id)]) &&
      LapStatus(w, c, test, ign, d, s) == w.status(s.trace + [Ran(test)] + [Ran(id)])
  {
    PlainRuns(w, id, ign, d + 1, State(s.trace + [Ran(test)], s.clock - 1));
    hide Run, Exposed;
  }
}
