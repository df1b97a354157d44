/** When `set -e` ends the shell, and what the other connections of commands run, again said with the
    events of the history. */
module ControlFlowExits {
  import opened CommandTree
  import opened ControlFlow
  import ControlFlowLaws
  import opened ControlFlowTraces

  /** Under `set -e` a plain command that fails ends the shell, wherever it stands except where failure is
      ignored: nothing behind it runs and its status is the shell's. */
  lemma FailureExits(w: World, p: Place, id: nat, d: nat, st: State)
    requires Reached(w, p, false, st.trace)
    requires var t := st.trace + Before(p) + [Ran(id)]; w.errexit(t) && w.status(t) != 0
    ensures var t := st.trace + Before(p) + [Ran(id)];
      Run(w, Fill(p, Do(Plain(id))), false, d, st) == Result(State(t, st.clock), w.status(t), Exited)
  {
    PlainRuns(w, id, false, d, State(st.trace + Before(p), st.clock));
    GoesOut(w, p, Do(Plain(id)), false, d, st);
  }

  /** It ends loops as well, in the body of a for loop ... */
  lemma FailureLeavesFor(w: World, words: nat, p: Place, id: nat, d: nat, st: State)
    requires st.clock > 0 && w.count(st.trace, words) > 0
    requires Reached(w, p, false, st.trace + [Bound(words, 0)])
    requires var t := st.trace + [Bound(words, 0)] + Before(p) + [Ran(id)]; w.errexit(t) && w.status(t) != 0
    ensures var t := st.trace + [Bound(words, 0)] + Before(p) + [Ran(id)];
      Run(w, For((), false, words, Fill(p, Do(Plain(id)))), false, d, st)
      == Result(State(t, st.clock - 1), w.status(t), Exited)
  {
    FailureExits(w, p, id, d + 1, State(st.trace + [Bound(words, 0)], st.clock - 1));
    hide Run, Reached, Fill, Before;
    var r := Run(w, Fill(p, Do(Plain(id))), false, d + 1, State(st.trace + [Bound(words, 0)], st.clock - 1));
    FirstWord(w, words, Fill(p, Do(Plain(id))), false, d, st, r);
  }

  /** ... and of a while loop, but not in its test, ... */
  lemma FailureLeavesWhile(w: World, until: bool, test: nat, p: Place, id: nat, d: nat, st: State)
    requires st.clock > 0 && (until <==> w.status(st.trace + [Ran(test)]) != 0)
    requires Reached(w, p, false, st.trace + [Ran(test)])
    requires var t := st.trace + [Ran(test)] + Before(p) + [Ran(id)]; w.errexit(t) && w.status(t) != 0
    ensures var t := st.trace + [Ran(test)] + Before(p) + [Ran(id)];
      Run(w, While((), false, until, Do(Plain(test)), Fill(p, Do(Plain(id)))), false, d, st)
      == Result(State(t, st.clock - 1), w.status(t), Exited)
  {
    FailureExits(w, p, id, d + 1, State(st.trace + [Ran(test)], st.clock - 1));
    hide Run, Reached, Fill, Before;
    var r := Run(w, Fill(p, Do(Plain(id))), false, d + 1, State(st.trace + [Ran(test)], st.clock - 1));
    FirstTest(w, until, test, Fill(p, Do(Plain(id))), false, d, st, r);
  }

  /** ... and a function that is left that way takes the shell with it. */
  lemma FailureLeavesFunction(w: World, f: nat, p: Place, id: nat, d: nat, st: State)
    requires st.clock > 0 && f < |w.bodies| && w.bodies[f] == Fill(p, Do(Plain(id)))
    requires Reached(w, p, false, st.trace + [Entered(f)])
    requires var t := st.trace + [Entered(f)] + Before(p) + [Ran(id)]; w.errexit(t) && w.status(t) != 0
    ensures var t := st.trace + [Entered(f)] + Before(p) + [Ran(id)];
      Run(w, Do(Call(f)), false, d, st) == Result(State(t, st.clock - 1), w.status(t), Exited)
  {
    FailureExits(w, p, id, 0, State(st.trace + [Entered(f)], st.clock - 1));
    Simply(w, Call(f), false, d, st);
    hide Run, Reached, Fill, Before, Exposed;
  }

  /** `!` exchanges zero and non-zero and keeps a failure from ending the shell. */
  lemma NotExchanges(w: World, id: nat, ign: bool, d: nat, st: State)
    ensures var t := st.trace + [Ran(id)];
      Run(w, Simple((), true, Plain(id)), ign, d, st)
      == Result(State(t, st.clock), if w.status(t) == 0 then 1 else 0, Normal)
  {
    var c := Simple((), true, Plain(id));
    assert RunPlain(w, c, ign, d, st) == RunAction(w, c, ign, d, st);
  }

  /** The same for a whole group, which runs as it would with failure ignored. */
  lemma NotGroup(w: World, body: Tree, ign: bool, d: nat, st: State)
    ensures var r := Run(w, body, true, d, st);
      Run(w, Group((), true, body), ign, d, st)
      == if r.out.OutOfClock? then r else r.(status := if r.status == 0 then 1 else 0)
  {
    var c := Group((), true, body);
    hide RunAction;
    assert RunPlain(w, c, ign, d, st) == Run(w, body, true, d, st);
    if !body.Null? {
      ControlFlowLaws.NothingExposed(body);
    }
  }

  /** The second part of `&&` runs exactly after a zero status, that of `||` exactly after another. */
  lemma ListRuns(w: World, a: nat, b: nat, ign: bool, d: nat, st: State)
    requires ign || forall t :: !w.errexit(t)
    ensures var t := st.trace + [Ran(a)];
      Run(w, Connection((), false, AndAnd, Do(Plain(a)), Do(Plain(b))), ign, d, st)
      == if w.status(t) == 0 then Result(State(t + [Ran(b)], st.clock), w.status(t + [Ran(b)]), Normal)
         else Result(State(t, st.clock), w.status(t), Normal)
    ensures var t := st.trace + [Ran(a)];
      Run(w, Connection((), false, OrOr, Do(Plain(a)), Do(Plain(b))), ign, d, st)
      == if w.status(t) != 0 then Result(State(t + [Ran(b)], st.clock), w.status(t + [Ran(b)]), Normal)
         else Result(State(t, st.clock), w.status(t), Normal)
    ensures var t := st.trace + [Ran(a)];
      Run(w, Then(Do(Plain(a)), Do(Plain(b))), ign, d, st)
      == Result(State(t + [Ran(b)], st.clock), w.status(t + [Ran(b)]), Normal)
  {
    var st1 := State(st.trace + [Ran(a)], st.clock);
    PlainRuns(w, a, true, d, st);
    PlainRuns(w, a, ign, d, st);
    PlainRuns(w, b, ign, d, st1);
    hide RunAction, Exposed;
    Unnegated(w, Connection((), false, AndAnd, Do(Plain(a)), Do(Plain(b))), ign, d, st);
    Unnegated(w, Connection((), false, OrOr, Do(Plain(a)), Do(Plain(b))), ign, d, st);
    Unnegated(w, Then(Do(Plain(a)), Do(Plain(b))), ign, d, st);
  }

  function Line(ids: seq<nat>): Tree {
    if ids == [] then Null else Then(Do(Plain(ids[0])), Line(ids[1..]))
  }

  /** The history once the first k commands of a line have run. */
  function Ahead(trace: seq<Event>, ids: seq<nat>, k: nat): seq<Event>
    requires k <= |ids|
  {
    trace + seq(k, i requires 0 <= i < k => Ran(ids[i]))
  }

  lemma AheadOne(trace: seq<Event>, ids: seq<nat>, k: nat)
    requires k < |ids|
    ensures Ahead(trace, ids, k + 1) == Ahead(trace + [Ran(ids[0])], ids[1..], k)
    ensures Ahead(trace, ids, 0) == trace && Ahead(trace, ids, 1) == trace + [Ran(ids[0])]
  {
  }

  /** A straight line under `set -e` runs up to its first failure, and otherwise to its end. */
  lemma {:induction false} LineRuns(w: World, ids: seq<nat>, n: nat, d: nat, st: State)
    requires n <= |ids|
    requires forall k | 1 <= k <= n :: w.status(Ahead(st.trace, ids, k)) == 0
    requires n < |ids| ==> w.status(Ahead(st.trace, ids, n + 1)) != 0 && w.errexit(Ahead(st.trace, ids, n + 1))
    ensures Run(w, Line(ids), false, d, st)
         == if n == |ids| then Result(State(Ahead(st.trace, ids, n), st.clock), 0, Normal)
            else var t := Ahead(st.trace, ids, n + 1); Result(State(t, st.clock), w.status(t), Exited)
    decreases |ids|
  {
    hide RunAction, Exposed, Ahead;
    if ids == [] {
      assert Ahead(st.trace, ids, 0) == st.trace by {
        NoneAhead(st.trace, ids);
      }
    } else {
      AheadOne(st.trace, ids, 0);
      var t := st.trace + [Ran(ids[0])];
      LineIs(w, ids, d, st);
      if n > 0 {
        assert w.status(Ahead(st.trace, ids, 1)) == 0;
        forall k | 1 <= k <= n - 1 ensures w.status(Ahead(t, ids[1..], k)) == 0 {
          AheadOne(st.trace, ids, k);
        }
        AheadOne(st.trace, ids, n - 1);
        if n < |ids| {
          AheadOne(st.trace, ids, n);
        }
        LineRuns(w, ids[1..], n - 1, d, State(t, st.clock));
      }
    }
  }

  lemma NoneAhead(trace: seq<Event>, ids: seq<nat>)
    ensures Ahead(trace, ids, 0) == trace
  {
  }

  lemma LineIs(w: World, ids: seq<nat>, d: nat, st: State)
    requires ids != []
    ensures var t := st.trace + [Ran(ids[0])];
      Run(w, Line(ids), false, d, st)
      == if w.status(t) != 0 && w.errexit(t) then Result(State(t, st.clock), w.status(t), Exited)
         else Run(w, Line(ids[1..]), false, d, State(t, st.clock))
  {
    PlainRuns(w, ids[0], false, d, st);
    Unnegated(w, Line(ids), false, d, st);
    hide RunAction, Exposed;
  }

  /** The branches of an `if`: the first exactly after a zero status of the test, even under `set -e`. */
  lemma IfRuns(w: World, test: nat, a: Tree, b: Tree, ign: bool, d: nat, st: State)
    ensures var st1 := State(st.trace + [Ran(test)], st.clock);
      Run(w, If((), false, Do(Plain(test)), a, b), ign, d, st)
      == if w.status(st1.trace) == 0 then Run(w, a, ign, d, st1) else Run(w, b, ign, d, st1)
    ensures w.status(st.trace + [Ran(test)]) != 0 ==>
      Run(w, If((), false, Do(Plain(test)), a, Null), ign, d, st)
      == Result(State(st.trace + [Ran(test)], st.clock), 0, Normal)
  {
    PlainRuns(w, test, true, d, st);
    hide RunAction, Exposed;
    Unnegated(w, If((), false, Do(Plain(test)), a, b), ign, d, st);
    Unnegated(w, If((), false, Do(Plain(test)), a, Null), ign, d, st);
  }

  /** A clause whose pattern does not match is passed over; without a match nothing runs. */
  lemma ClauseSkipped(w: World, cl: Clauses<()>, ign: bool, d: nat, st: State)
    ensures Run(w, Case((), false, NoClause), ign, d, st) == Result(st, 0, Normal)
    ensures cl.Clause? && !w.matches(st.trace, cl.pattern) ==>
      Run(w, Case((), false, cl), ign, d, st) == Run(w, Case((), false, cl.next), ign, d, st)
  {
    hide Run, RunMatched, Exposed, ExposedClauses;
    Unnegated(w, Case((), false, NoClause), ign, d, st);
    Unnegated(w, Case((), false, cl), ign, d, st);
    if cl.Clause? {
      Unnegated(w, Case((), false, cl.next), ign, d, st);
    }
  }

  /** Behind a plain clause that matched: `;;` runs no other, `;&` runs the next whatever its pattern, `;;&`
      goes on with the next one that matches then. */
  lemma ClauseRuns(w: World, pattern: nat, a: nat, q: nat, b: nat, rest: Clauses<()>, ign: bool, d: nat, st: State)
    requires w.matches(st.trace, pattern) && (ign || forall t :: !w.errexit(t))
    ensures var t := st.trace + [Ran(a)];
      Run(w, Case((), false, Clause(pattern, Do(Plain(a)), Stop, rest)), ign, d, st)
      == Result(State(t, st.clock), w.status(t), Normal)
    ensures var t := st.trace + [Ran(a)] + [Ran(b)];
      Run(w, Case((), false, Clause(pattern, Do(Plain(a)), FallThrough, Clause(q, Do(Plain(b)), Stop, rest))),
          ign, d, st)
      == Result(State(t, st.clock), w.status(t), Normal)
    ensures var t := st.trace + [Ran(a)];
      Run(w, Case((), false, Clause(pattern, Do(Plain(a)), TestNext, Clause(q, Do(Plain(b)), Stop, NoClause))),
          ign, d, st)
      == if w.matches(t, q) then Result(State(t + [Ran(b)], st.clock), w.status(t + [Ran(b)]), Normal)
         else Result(State(t, st.clock), w.status(t), Normal)
  {
    hide *;
    var st1 := State(st.trace + [Ran(a)], st.clock);
    PlainRuns(w, a, ign, d, st);
    PlainRuns(w, b, ign, d, st1);
    var c0 := Clause(pattern, Do(Plain(a)), Stop, rest);
    MatchRuns(w, c0, ign, d, st);
    CaseIs(w, c0, ign, d, st);
    var c1 := Clause(q, Do(Plain(b)), Stop, rest);
    var c2 := Clause(pattern, Do(Plain(a)), FallThrough, c1);
    MatchRuns(w, c1, ign, d, st1);
    MatchRuns(w, c2, ign, d, st);
    CaseIs(w, c2, ign, d, st);
    var c3 := Clause(q, Do(Plain(b)), Stop, NoClause);
    var c4 := Clause(pattern, Do(Plain(a)), TestNext, c3);
    MatchRuns(w, c3, ign, d, st1);
    MatchRuns(w, c4, ign, d, st);
    CaseIs(w, c4, ign, d, st);
    Search(w, c3, ign, d, st1, w.status(st1.trace));
  }

  lemma CaseIs(w: World, cl: Clauses<()>, ign: bool, d: nat, st: State)
    requires cl.Clause? && w.matches(st.trace, cl.pattern)
    ensures Run(w, Case((), false, cl), ign, d, st) == RunMatched(w, cl, ign, d, st)
  {
    Unnegated(w, Case((), false, cl), ign, d, st);
    hide Run, RunMatched, Exposed, ExposedClauses;
  }

  lemma MatchRuns(w: World, cl: Clauses<()>, ign: bool, d: nat, st: State)
    requires cl.Clause?
    ensures RunMatched(w, cl, ign, d, st) ==
      var r := Run(w, cl.body, ign, d, st);
      if !r.out.Normal? || cl.terminator.Stop? || (cl.terminator.FallThrough? && cl.next.NoClause?) then r
      else if cl.terminator.FallThrough? then RunMatched(w, cl.next, ign, d, r.st)
      else RunClauses(w, cl.next, ign, d, r.st, r.status)
  {
    hide Run, RunClauses, Exposed, ExposedClauses;
  }

  lemma Search(w: World, cl: Clauses<()>, ign: bool, d: nat, st: State, status: nat)
    requires cl.Clause? && cl.next.NoClause?
    ensures RunClauses(w, cl, ign, d, st, status)
         == if w.matches(st.trace, cl.pattern) then RunMatched(w, cl, ign, d, st) else Result(st, status, Normal)
  {
    hide Run, RunMatched, Exposed, ExposedClauses;
  }

  /** A call enters the function and runs its body outside all loops; an unknown one answers 127. */
  lemma CallRuns(w: World, f: nat, id: nat, n: int, ign: bool, d: nat, st: State)
    requires st.clock > 0 && (ign || forall t :: !w.errexit(t))
    ensures f >= |w.bodies| ==> Run(w, Do(Call(f)), ign, d, st) == Result(st, 127, Normal)
    ensures f < |w.bodies| && w.bodies[f] == Do(Plain(id)) ==>
      var t := st.trace + [Entered(f)] + [Ran(id)];
      Run(w, Do(Call(f)), ign, d, st) == Result(State(t, st.clock - 1), w.status(t), Normal)
    ensures f < |w.bodies| && (w.bodies[f] == Do(Break(n)) || w.bodies[f] == Do(Continue(n))) ==>
      Run(w, Do(Call(f)), ign, d, st) == Result(State(st.trace + [Entered(f)], st.clock - 1), 0, Normal)
  {
    Simply(w, Call(f), ign, d, st);
    var st1 := State(st.trace + [Entered(f)], st.clock - 1);
    PlainRuns(w, id, ign, 0, st1);
    IdleJumps(w, n, ign, 0, st1);
    hide Run, Exposed;
  }
}
