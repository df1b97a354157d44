/** Laws of the control-flow semantics over whole runs. */
module ControlFlowLaws {
  import opened CommandTree
  import opened ControlFlow

  /** Where the exit of `set -e` can come from: never from a command that ignores failure or is
      inverted, never from the test of an if, while or until, nor from any part of an AND-OR list but
      the last. */
  lemma ExitComesFrom(w: World, c: Tree, ign: bool, d: nat, st: State)
    requires Run(w, c, ign, d, st).out.Exited?
    ensures !c.Null? && !Shielded(c, ign)
    ensures c.Connection? && !c.connector.Semicolon? ==>
      var r := Run(w, c.first, true, d, st);
      r.out.Normal? && (c.connector.AndAnd? <==> r.status == SUCCESS) && Run(w, c.second, ign, d, r.st).out.Exited?
    ensures c.If? ==>
      var r := Run(w, c.test, true, d, st);
      r.out.Normal? && Run(w, if r.status == SUCCESS then c.trueCase else c.falseCase, ign, d, r.st).out.Exited?
    ensures c.Simple? && !c.action.Call? ==>
      var r := RunAction(w, c, ign, d, st);
      w.errexit(r.st.trace) && r.status != SUCCESS
  {
  }

  /** Where failure is ignored around a command no part of it is exposed, however deep, ... */
  lemma {:induction false} NothingExposed(c: Tree)
    ensures !Exposed(c, true)
  {
    match c
    case Null =>
    case Simple(_, _, _) =>
    case Connection(_, _, _, first, second) =>
      NothingExposed(first);
      NothingExposed(second);
    case Group(_, _, body) => NothingExposed(body);
    case If(_, _, _, trueCase, falseCase) =>
      NothingExposed(trueCase);
      NothingExposed(falseCase);
    case While(_, _, _, _, body) => NothingExposed(body);
    case For(_, _, _, body) => NothingExposed(body);
    case Case(_, _, clauses) => NoClauseExposed(clauses);
  }

  lemma {:induction false} NoClauseExposed(cl: Clauses<()>)
    ensures !ExposedClauses(cl, true)
  {
    if cl.Clause? {
      NothingExposed(cl.body);
      NoClauseExposed(cl.next);
    }
  }

  /** ... so an exit means that the command is neither ignored nor inverted, on every run. */
  lemma ExposedMeans(c: Tree, ign: bool)
    requires Exposed(c, ign)
    ensures !c.Null? && !Shielded(c, ign)
    ensures c.Connection? && !c.connector.Semicolon? ==> Exposed(c.second, ign)
  {
    NothingExposed(c);
  }

  /** A result of a run with `extra` more on the clock. */
  function Later(r: Result, extra: nat): Result {
    r.(st := r.st.(clock := r.st.clock + extra))
  }

  /** A run that ends by itself does not depend on the clock. */
  lemma {:induction false} MoreClock(w: World, c: Tree, ign: bool, d: nat, st: State, extra: nat)
    requires !Run(w, c, ign, d, st).out.OutOfClock?
    ensures Run(w, c, ign, d, st.(clock := st.clock + extra)) == Later(Run(w, c, ign, d, st), extra)
    decreases st.clock, c, 3
  {
    if !c.Null? {
      MoreClockPlain(w, c, ign, d, st, extra);
    }
  }

  lemma {:induction false} MoreClockPlain(w: World, c: Tree, ign: bool, d: nat, st: State, extra: nat)
    requires !c.Null? && !RunPlain(w, c, ign, d, st).out.OutOfClock?
    ensures RunPlain(w, c, ign, d, st.(clock := st.clock + extra)) == Later(RunPlain(w, c, ign, d, st), extra)
    decreases st.clock, c, 2
  {
    hide Exposed, ExposedClauses, Run, RunWhile, RunFor, RunClauses, RunAction;
    match c
    case Simple(_, _, _) => MoreClockSimple(w, c, ign, d, st, extra);
    case Group(_, _, body) => MoreClock(w, body, Under(c, ign), d, st, extra);
    case Connection(_, _, _, _, _) => MoreClockConnection(w, c, ign, d, st, extra);
    case If(_, _, test, trueCase, falseCase) =>
      var r := Run(w, test, true, d, st);
      MoreClock(w, test, true, d, st, extra);
      if r.out.Normal? {
        MoreClock(w, if r.status == SUCCESS then trueCase else falseCase, Under(c, ign), d, r.st, extra);
      }
    case While(_, _, _, _, _) => MoreClockWhile(w, c, ign, d, st, SUCCESS, extra);
    case For(_, _, words, _) => MoreClockFor(w, c, ign, d, st, 0, w.count(st.trace, words), SUCCESS, extra);
    case Case(_, _, clauses) => MoreClockClauses(w, clauses, Under(c, ign), d, st, SUCCESS, extra);
  }

  lemma {:induction false} MoreClockSimple(w: World, c: Tree, ign: bool, d: nat, st: State, extra: nat)
    requires c.Simple? && !RunPlain(w, c, ign, d, st).out.OutOfClock?
    ensures RunPlain(w, c, ign, d, st.(clock := st.clock + extra)) == Later(RunPlain(w, c, ign, d, st), extra)
    decreases st.clock, c, 1
  {
    hide Exposed, ExposedClauses, Run;
    if c.action.Call? && c.action.f < |w.bodies| && st.clock > 0 {
      var f := c.action.f;
      MoreClock(w, w.bodies[f], Under(c, ign), 0, State(st.trace + [Entered(f)], st.clock - 1), extra);
    }
  }

  lemma {:induction false} MoreClockConnection(w: World, c: Tree, ign: bool, d: nat, st: State, extra: nat)
    requires c.Connection? && !RunPlain(w, c, ign, d, st).out.OutOfClock?
    ensures RunPlain(w, c, ign, d, st.(clock := st.clock + extra)) == Later(RunPlain(w, c, ign, d, st), extra)
    decreases st.clock, c, 1
  {
    hide Exposed, ExposedClauses, Run;
    var inner := if c.connector.Semicolon? then Under(c, ign) else true;
    var r := Run(w, c.first, inner, d, st);
    MoreClock(w, c.first, inner, d, st, extra);
    if r.out.Normal? && (c.connector.Semicolon? || (c.connector.AndAnd? <==> r.status == SUCCESS)) {
      MoreClock(w, c.second, if c.connector.Semicolon? then Under(c, ign) else ign, d, r.st, extra);
    }
  }

  lemma {:induction false} MoreClockWhile(w: World, c: Tree, ign: bool, d: nat, st: State, status: nat, extra: nat)
    requires c.While? && !RunWhile(w, c, ign, d, st, status).out.OutOfClock?
    ensures RunWhile(w, c, ign, d, st.(clock := st.clock + extra), status)
         == Later(RunWhile(w, c, ign, d, st, status), extra)
    decreases st.clock, c, 1
  {
    hide Exposed, ExposedClauses, Run, WhileStep;
    MoreClockWhileStep(w, c, ign, d, st, status, extra);
    var (r, again) := WhileStep(w, c, ign, d, st, status);
    if again {
      MoreClockWhile(w, c, ign, d, r.st, r.status, extra);
    }
  }

  lemma {:induction false} MoreClockWhileStep(w: World, c: Tree, ign: bool, d: nat, st: State, status: nat, extra: nat)
    requires c.While? && !WhileStep(w, c, ign, d, st, status).0.out.OutOfClock?
    ensures WhileStep(w, c, ign, d, st.(clock := st.clock + extra), status)
         == (Later(WhileStep(w, c, ign, d, st, status).0, extra), WhileStep(w, c, ign, d, st, status).1)
    decreases st.clock, c, 0
  {
    hide Exposed, ExposedClauses, Run;
    var t := Run(w, c.test, true, d + 1, st.(clock := st.clock - 1));
    MoreClock(w, c.test, true, d + 1, st.(clock := st.clock - 1), extra);
    if t.out.Normal? && !(c.until <==> t.status == SUCCESS) {
      MoreClock(w, c.body, Under(c, ign), d + 1, t.st, extra);
    }
  }

  lemma {:induction false} MoreClockFor(w: World, c: Tree, ign: bool, d: nat, st: State, k: nat, n: nat, status: nat,
                                        extra: nat)
    requires c.For? && !RunFor(w, c, ign, d, st, k, n, status).out.OutOfClock?
    ensures RunFor(w, c, ign, d, st.(clock := st.clock + extra), k, n, status)
         == Later(RunFor(w, c, ign, d, st, k, n, status), extra)
    decreases st.clock, c, 1
  {
    hide Exposed, ExposedClauses, Run, ForStep;
    if k < n {
      MoreClockForStep(w, c, ign, d, st, k, status, extra);
      var (r, again) := ForStep(w, c, ign, d, st, k, status);
      if again {
        MoreClockFor(w, c, ign, d, r.st, k + 1, n, r.status, extra);
      }
    }
  }

  lemma {:induction false} MoreClockForStep(w: World, c: Tree, ign: bool, d: nat, st: State, k: nat, status: nat,
                                            extra: nat)
    requires c.For? && !ForStep(w, c, ign, d, st, k, status).0.out.OutOfClock?
    ensures ForStep(w, c, ign, d, st.(clock := st.clock + extra), k, status)
         == (Later(ForStep(w, c, ign, d, st, k, status).0, extra), ForStep(w, c, ign, d, st, k, status).1)
    decreases st.clock, c, 0
  {
    hide Exposed, ExposedClauses, Run;
    MoreClock(w, c.body, Under(c, ign), d + 1, State(st.trace + [Bound(c.words, k)], st.clock - 1), extra);
  }

  lemma {:induction false} MoreClockClauses(w: World, cl: Clauses<()>, ign: bool, d: nat, st: State, status: nat,
                                            extra: nat)
    requires !RunClauses(w, cl, ign, d, st, status).out.OutOfClock?
    ensures RunClauses(w, cl, ign, d, st.(clock := st.clock + extra), status)
         == Later(RunClauses(w, cl, ign, d, st, status), extra)
    decreases st.clock, cl, 1
  {
    hide Exposed, ExposedClauses, RunMatched;
    if cl.Clause? {
      if w.matches(st.trace, cl.pattern) {
        MoreClockMatched(w, cl, ign, d, st, extra);
      } else {
        MoreClockClauses(w, cl.next, ign, d, st, status, extra);
      }
    }
  }

  lemma {:induction false} MoreClockMatched(w: World, cl: Clauses<()>, ign: bool, d: nat, st: State, extra: nat)
    requires cl.Clause? && !RunMatched(w, cl, ign, d, st).out.OutOfClock?
    ensures RunMatched(w, cl, ign, d, st.(clock := st.clock + extra)) == Later(RunMatched(w, cl, ign, d, st), extra)
    decreases st.clock, cl, 0
  {
    hide Exposed, ExposedClauses, Run;
    var r := Run(w, cl.body, ign, d, st);
    MoreClock(w, cl.body, ign, d, st, extra);
    if r.out.Normal? && cl.terminator.FallThrough? && cl.next.Clause? {
      MoreClockMatched(w, cl.next, ign, d, r.st, extra);
    }
    if r.out.Normal? && cl.terminator.TestNext? {
      MoreClockClauses(w, cl.next, ign, d, r.st, r.status, extra);
    }
  }
}
