/** The ignore bits in a tree, and what each kind of command is made of. */
module Marking {
  import opened CommandTree
  import opened ControlFlow
  import opened CopyTree

  /** The bits of a node are set only where failure is ignored. */
  ghost predicate Own(c: Live, ign: bool)
    requires !c.Null?
    reads c.flags
  {
    c.flags.ignore || c.flags.inner ==> ign || c.invert
  }

  /** All ignore bits in a tree, set now or left by an earlier run, say something true. */
  ghost predicate Marks(c: Live, ign: bool)
    reads Cells(c)
    decreases c
  {
    if c.Null? then true else
      Own(c, ign) &&
      match c
      case Simple(_, _, _) => true
      case Connection(_, _, connector, first, second) =>
        if connector.Semicolon? then Marks(first, ign || c.invert) && Marks(second, ign || c.invert)
        else Marks(first, true) && Marks(second, ign)
      case Group(_, _, body) => Marks(body, ign || c.invert)
      case If(_, _, test, trueCase, falseCase) =>
        Marks(test, true) && Marks(trueCase, ign || c.invert) && Marks(falseCase, ign || c.invert)
      case While(_, _, _, test, body) => Marks(test, true) && Marks(body, ign || c.invert)
      case For(_, _, _, body) => Marks(body, ign || c.invert)
      case Case(_, _, clauses) => ClauseMarks(clauses, ign || c.invert)
  }

  ghost predicate ClauseMarks(cl: Clauses<Flags>, ign: bool)
    reads ClauseCells(cl)
    decreases cl
  {
    cl.Clause? ==> Marks(cl.body, ign) && ClauseMarks(cl.next, ign)
  }

  /** A tree that fits where failure is ignored (ign) or not. */
  ghost predicate Fit(c: Live, ign: bool)
    reads Cells(c)
  {
    WellFormed(Erase(c)) && Distinct(c) && Marks(c, ign)
  }

  ghost predicate FitClauses(cl: Clauses<Flags>, ign: bool)
    reads ClauseCells(cl)
  {
    WellFormedClauses(EraseClauses(cl)) && DistinctClauses(cl) && ClauseMarks(cl, ign)
  }

  /** ... and whose own bit has been set by whoever is about to run it. */
  ghost predicate Ready(c: Live, ign: bool)
    reads Cells(c)
  {
    Fit(c, ign) && (!c.Null? && ign ==> c.flags.ignore)
  }

  /** A tree without bits fits everywhere. */
  lemma {:induction false} CleanMarks(c: Live, ign: bool)
    requires Clean(c)
    ensures Marks(c, ign)
    decreases c
  {
    match c
    case Null =>
    case Simple(_, _, _) =>
    case Connection(_, _, connector, first, second) =>
      CleanMarks(first, if connector.Semicolon? then ign || c.invert else true);
      CleanMarks(second, if connector.Semicolon? then ign || c.invert else ign);
    case Group(_, _, body) => CleanMarks(body, ign || c.invert);
    case If(_, _, test, trueCase, falseCase) =>
      CleanMarks(test, true);
      CleanMarks(trueCase, ign || c.invert);
      CleanMarks(falseCase, ign || c.invert);
    case While(_, _, _, test, body) =>
      CleanMarks(test, true);
      CleanMarks(body, ign || c.invert);
    case For(_, _, _, body) => CleanMarks(body, ign || c.invert);
    case Case(_, _, clauses) => CleanClauseMarks(clauses, ign || c.invert);
  }

  lemma {:induction false} CleanClauseMarks(cl: Clauses<Flags>, ign: bool)
    requires CleanClauses(cl)
    ensures ClauseMarks(cl, ign)
    decreases cl
  {
    if cl.Clause? {
      CleanMarks(cl.body, ign);
      CleanClauseMarks(cl.next, ign);
    }
  }

  lemma CleanFit(c: Live, ign: bool)
    requires Clean(c) && WellFormed(Erase(c)) && Distinct(c)
    ensures Fit(c, ign)
  {
    CleanMarks(c, ign);
  }

  /** Set the ignore bit of a command, if there is one, where failure is ignored. */
  method Mark(c: Live, ghost ign: bool)
    requires Fit(c, ign) && (!c.Null? ==> ign || c.invert)
    modifies if c.Null? then {} else {c.flags}
    ensures Fit(c, ign) && (!c.Null? ==> c.flags.ignore && c.flags.inner == old(c.flags.inner))
  {
    if !c.Null? {
      assert allocated(Cells(c));
      c.flags.ignore := true;
    }
  }

  /** The same for the bit in the record of the command's kind. */
  method MarkInner(c: Live, ghost ign: bool)
    requires Fit(c, ign) && !c.Null? && (ign || c.invert)
    modifies c.flags
    ensures Fit(c, ign) && c.flags.inner && c.flags.ignore == old(c.flags.ignore)
  {
    assert allocated(Cells(c));
    c.flags.inner := true;
  }

  lemma OwnBits(c: Live, ign: bool)
    requires Fit(c, ign) && !c.Null?
    ensures Own(c, ign) && c.flags in Cells(c) && WellFormed(Erase(c)) && Distinct(c)
  {
  }

  lemma FlagsOwn(c: Live)
    ensures !c.Null? ==> c.flags in Cells(c)
  {
  }

  lemma NodeRun(w: World, c: Live, ign: bool, d: nat, st: State)
    ensures c.Null? ==> Run(w, Erase(c), ign, d, st) == Result(st, SUCCESS, Normal)
    ensures !c.Null? ==>
      var r := RunPlain(w, Erase(c), ign, d, st);
      Run(w, Erase(c), ign, d, st) == if c.invert && !Aborted(r.out) then r.(status := Invert(r.status)) else r
  {
  }

  // What each kind of command is made of, and how the semantics runs it.

  lemma GroupParts(c: Live, ign: bool)
    requires c.Group? && WellFormed(Erase(c)) && Distinct(c)
    ensures Cells(c) == {c.flags} + Cells(c.body)
    ensures !c.body.Null? ==> c.body.flags in Cells(c.body)
    ensures c.flags !in Cells(c.body)
    ensures Fit(c, ign) <==>
      Own(c, ign) && Fit(c.body, ign || c.invert)
  {
  }

  lemma GroupRun(w: World, c: Live, ign: bool, d: nat, st: State)
    requires c.Group?
    ensures RunPlain(w, Erase(c), ign, d, st) == Run(w, Erase(c.body), ign || c.invert, d, st)
  {
  }

  lemma ConnectionParts(c: Live, ign: bool)
    requires c.Connection? && WellFormed(Erase(c)) && Distinct(c)
    ensures Cells(c) == {c.flags} + Cells(c.first) + Cells(c.second)
    ensures !c.first.Null? ==> c.first.flags in Cells(c.first)
    ensures !c.second.Null? ==> c.second.flags in Cells(c.second)
    ensures c.flags !in Cells(c.first) && c.flags !in Cells(c.second)
    ensures Cells(c.first) !! Cells(c.second)
    ensures Fit(c, ign) <==>
      Own(c, ign) &&
      Fit(c.first, if c.connector.Semicolon? then ign || c.invert else true) &&
      Fit(c.second, if c.connector.Semicolon? then ign || c.invert else ign)
    ensures !c.connector.Semicolon? ==> !c.invert
  {
  }

  lemma ConnectionRun(w: World, c: Live, ign: bool, d: nat, st: State)
    requires c.Connection?
    ensures Erase(c).Connection?
    ensures c.connector.Semicolon? ==>
      var r := Run(w, Erase(c.first), ign || c.invert, d, st);
      RunPlain(w, Erase(c), ign, d, st)
        == if !r.out.Normal? then r else Run(w, Erase(c.second), ign || c.invert, d, r.st)
    ensures !c.connector.Semicolon? ==>
      var r := Run(w, Erase(c.first), true, d, st);
      RunPlain(w, Erase(c), ign, d, st)
        == if !r.out.Normal? || (c.connector.AndAnd? <==> r.status != SUCCESS) then r
           else Run(w, Erase(c.second), ign, d, r.st)
    ensures c.first.Null? ==> Erase(c.first).Null?
  {
  }

  lemma IfParts(c: Live, ign: bool)
    requires c.If? && WellFormed(Erase(c)) && Distinct(c)
    ensures Cells(c) == {c.flags} + Cells(c.test) + Cells(c.trueCase) + Cells(c.falseCase)
    ensures !c.test.Null? ==> c.test.flags in Cells(c.test)
    ensures !c.trueCase.Null? ==> c.trueCase.flags in Cells(c.trueCase)
    ensures !c.falseCase.Null? ==> c.falseCase.flags in Cells(c.falseCase)
    ensures c.flags !in Cells(c.test) && c.flags !in Cells(c.trueCase) && c.flags !in Cells(c.falseCase)
    ensures Cells(c.test) !! Cells(c.trueCase)
    ensures Cells(c.test) !! Cells(c.falseCase)
    ensures Cells(c.trueCase) !! Cells(c.falseCase)
    ensures Fit(c, ign) <==>
      Own(c, ign) && Fit(c.test, true) && Fit(c.trueCase, ign || c.invert) && Fit(c.falseCase, ign || c.invert)
    ensures !c.test.Null?
  {
  }

  lemma IfRun(w: World, c: Live, ign: bool, d: nat, st: State)
    requires c.If?
    ensures Erase(c).If?
    ensures var r := Run(w, Erase(c.test), true, d, st);
      RunPlain(w, Erase(c), ign, d, st)
        == if !r.out.Normal? then r
           else Run(w, Erase(if r.status == SUCCESS then c.trueCase else c.falseCase), ign || c.invert, d, r.st)
  {
  }

  lemma WhileParts(c: Live, ign: bool)
    requires c.While? && WellFormed(Erase(c)) && Distinct(c)
    ensures Cells(c) == {c.flags} + Cells(c.test) + Cells(c.body)
    ensures !c.test.Null? ==> c.test.flags in Cells(c.test)
    ensures !c.body.Null? ==> c.body.flags in Cells(c.body)
    ensures c.flags !in Cells(c.test) && c.flags !in Cells(c.body)
    ensures Cells(c.test) !! Cells(c.body)
    ensures Fit(c, ign) <==>
      Own(c, ign) && Fit(c.test, true) && Fit(c.body, ign || c.invert)
    ensures !c.test.Null? && !c.body.Null?
  {
    assert Erase(c.test).Null? <==> c.test.Null?;
    assert Erase(c.body).Null? <==> c.body.Null?;
  }

  lemma WhileRun(w: World, c: Live, ign: bool, d: nat, st: State, status: nat)
    requires c.While?
    ensures Erase(c).While?
    ensures RunPlain(w, Erase(c), ign, d, st) == RunWhile(w, Erase(c), ign, d, st, SUCCESS)
    ensures WhileStep(w, Erase(c), ign, d, st, status)
         == if st.clock == 0 then (Result(st, status, OutOfClock), false)
            else
              var t := Run(w, Erase(c.test), true, d + 1, st.(clock := st.clock - 1));
              if Aborted(t.out) then (t, false)
              else if c.until <==> t.status == SUCCESS then (Result(t.st, status, Leave(t.out)), false)
              else
                var r := if t.out.Normal? then Run(w, Erase(c.body), ign || c.invert, d + 1, t.st) else t;
                (r.(out := Leave(r.out)), Again(r.out))
  {
  }

  lemma ForParts(c: Live, ign: bool)
    requires c.For? && WellFormed(Erase(c)) && Distinct(c)
    ensures Cells(c) == {c.flags} + Cells(c.body)
    ensures !c.body.Null? ==> c.body.flags in Cells(c.body)
    ensures c.flags !in Cells(c.body)
    ensures Fit(c, ign) <==>
      Own(c, ign) && Fit(c.body, ign || c.invert)
    ensures !c.body.Null?
  {
    assert Erase(c.body).Null? <==> c.body.Null?;
  }

  lemma ForRun(w: World, c: Live, ign: bool, d: nat, st: State, k: nat, status: nat)
    requires c.For?
    ensures Erase(c).For?
    ensures RunPlain(w, Erase(c), ign, d, st) == RunFor(w, Erase(c), ign, d, st, 0, w.count(st.trace, c.words), SUCCESS)
    ensures ForStep(w, Erase(c), ign, d, st, k, status)
         == if st.clock == 0 then (Result(st, status, OutOfClock), false)
            else
              var st' := State(st.trace + [Bound(c.words, k)], st.clock - 1);
              var r := Run(w, Erase(c.body), ign || c.invert, d + 1, st');
              (r.(out := Leave(r.out)), Again(r.out))
  {
  }

  lemma SimpleRun(w: World, c: Live, ign: bool, d: nat, st: State)
    requires c.Simple?
    ensures Erase(c) == Simple((), c.invert, c.action)
    ensures RunPlain(w, Erase(c), ign, d, st) == CheckErrexit(w, Erase(c), ign, RunAction(w, Erase(c), ign, d, st))
  {
  }

  lemma CallRun(w: World, c: Live, f: nat, ign: bool, d: nat, st: State)
    requires c.Simple? && c.action == Call(f)
    ensures RunAction(w, Erase(c), ign, d, st)
         == if f >= |w.bodies| then Result(st, NOTFOUND, Normal)
            else if st.clock == 0 then Result(st, SUCCESS, OutOfClock)
            else Run(w, w.bodies[f], ign || c.invert, 0, State(st.trace + [Entered(f)], st.clock - 1))
  {
  }

  lemma CaseParts(c: Live, ign: bool)
    requires c.Case? && WellFormed(Erase(c)) && Distinct(c)
    ensures Cells(c) == {c.flags} + ClauseCells(c.clauses) && c.flags !in ClauseCells(c.clauses)
    ensures Fit(c, ign) <==> Own(c, ign) && FitClauses(c.clauses, ign || c.invert)
  {
  }

  lemma CaseRun(w: World, c: Live, ign: bool, d: nat, st: State)
    requires c.Case?
    ensures RunPlain(w, Erase(c), ign, d, st)
         == RunClauses(w, EraseClauses(c.clauses), ign || c.invert, d, st, SUCCESS)
  {
  }

  /** The actions of the clauses of a case command, in order. */
  ghost function Bodies(cl: Clauses<Flags>): seq<Live> {
    if cl.NoClause? then [] else [cl.body] + Bodies(cl.next)
  }

  /** The clauses from the n-th on. */
  ghost function From(cl: Clauses<Flags>, n: nat): Clauses<Flags> {
    if n == 0 || cl.NoClause? then cl else From(cl.next, n - 1)
  }

  lemma {:induction false} FromParts(cl: Clauses<Flags>, n: nat)
    ensures n <= |Bodies(cl)| ==> Bodies(From(cl, n)) == Bodies(cl)[n..]
    ensures From(cl, n).Clause? <==> n < |Bodies(cl)|
    ensures From(cl, n).Clause? ==> From(cl, n + 1) == From(cl, n).next && From(cl, n).body == Bodies(cl)[n]
    ensures From(cl, n).Clause? ==> From(cl, n).body < cl
  {
    if n > 0 && cl.Clause? {
      FromParts(cl.next, n - 1);
    }
  }

  lemma ClauseParts(cl: Clauses<Flags>, ign: bool)
    requires WellFormedClauses(EraseClauses(cl)) && DistinctClauses(cl)
    ensures cl.NoClause? ==> FitClauses(cl, ign) && Bodies(cl) == []
    ensures cl.Clause? ==>
      && WellFormedClauses(EraseClauses(cl.next)) && DistinctClauses(cl.next)
      && ClauseCells(cl) == Cells(cl.body) + ClauseCells(cl.next) && Cells(cl.body) !! ClauseCells(cl.next)
      && Bodies(cl) == [cl.body] + Bodies(cl.next)
      && (FitClauses(cl, ign) <==> Fit(cl.body, ign) && FitClauses(cl.next, ign))
  {
  }

  /** Clauses have no cells in common, and fit if their actions do. */
  lemma {:induction false} BodiesFit(cl: Clauses<Flags>, ign: bool)
    requires WellFormedClauses(EraseClauses(cl)) && DistinctClauses(cl)
    ensures FitClauses(cl, ign) <==> forall k | 0 <= k < |Bodies(cl)| :: Fit(Bodies(cl)[k], ign)
    ensures forall k | 0 <= k < |Bodies(cl)| :: Cells(Bodies(cl)[k]) <= ClauseCells(cl)
    ensures forall j, k | 0 <= j < k < |Bodies(cl)| :: Cells(Bodies(cl)[j]) !! Cells(Bodies(cl)[k])
  {
    hide *;
    ClauseParts(cl, ign);
    if cl.Clause? {
      BodiesFit(cl.next, ign);
      var bodies, rest := Bodies(cl), Bodies(cl.next);
      assert bodies[0] == cl.body && forall k | 0 < k < |bodies| :: bodies[k] == rest[k - 1];
      assert forall k | 0 <= k < |rest| :: rest[k] == bodies[k + 1];
    }
  }

  lemma ClausesRun(w: World, cl: Clauses<Flags>, ign: bool, d: nat, st: State, status: nat)
    ensures RunClauses(w, EraseClauses(cl), ign, d, st, status)
         == if cl.NoClause? then Result(st, status, Normal)
            else if w.matches(st.trace, cl.pattern) then RunMatched(w, EraseClauses(cl), ign, d, st)
            else RunClauses(w, EraseClauses(cl.next), ign, d, st, status)
  {
  }

  lemma MatchedRun(w: World, cl: Clauses<Flags>, ign: bool, d: nat, st: State)
    requires cl.Clause?
    ensures var r := Run(w, Erase(cl.body), ign, d, st);
      RunMatched(w, EraseClauses(cl), ign, d, st)
        == if !r.out.Normal? then r
           else match cl.terminator
             case Stop => r
             case FallThrough =>
               if cl.next.NoClause? then r else RunMatched(w, EraseClauses(cl.next), ign, d, r.st)
             case TestNext => RunClauses(w, EraseClauses(cl.next), ign, d, r.st, r.status)
  {
  }
}
