/** The executor: `execute_command_internal` and the functions it dispatches to, with the global
    counters `breaking`, `continuing` and `loop_level` and the flag bits written into the tree. */
module Interpreter {
  import opened CommandTree
  import opened ControlFlow
  import opened CopyTree
  import opened Marking

  /** What the source does by `longjmp`: leave the shell because of `set -e`; and the end of a run
      that is cut off. */
  datatype Escape = NoEscape | ErrExit | CutOff

  class Shell {
    const world: World
    const functions: seq<Live>
    var breaking: nat
    var continuing: nat
    var loopLevel: nat
    var lastStatus: nat
    var trace: seq<Event>
    var clock: nat

    constructor (world: World, functions: seq<Live>, clock: nat)
      ensures this.world == world && this.functions == functions && this.clock == clock
      ensures trace == [] && Idle() && loopLevel == 0
    {
      this.world, this.functions, this.clock := world, functions, clock;
      breaking, continuing, loopLevel, lastStatus, trace := 0, 0, 0, SUCCESS, [];
    }

    ghost function FunctionCells(): set<Flags> {
      set i, f | 0 <= i < |functions| && f in Cells(functions[i]) :: f
    }

    /** The stored functions are the ones the semantics knows, and nothing has marked them. */
    ghost predicate Valid()
      reads FunctionCells()
    {
      |functions| == |world.bodies| &&
      forall i | 0 <= i < |functions| ::
        !functions[i].Null? && Clean(functions[i]) &&
        Erase(functions[i]) == world.bodies[i] && WellFormed(world.bodies[i])
    }

    /** Nothing is on its way out of a loop. */
    predicate Idle()
      reads this
    {
      breaking == 0 && continuing == 0
    }

    function Now(): State
      reads this
    {
      State(trace, clock)
    }

    /** The state after a command is what the semantics says: same history, same status, and the
        counters carry its signal. */
    ghost predicate Agrees(r: Result, status: nat, escape: Escape, level: nat)
      reads this
    {
      Now() == r.st && (escape.ErrExit? <==> r.out.Exited?) && (escape.CutOff? <==> r.out.OutOfClock?) &&
      (!escape.CutOff? ==> status == r.status) &&
      (escape.NoEscape? ==>
        loopLevel == level &&
        breaking == (if r.out.Breaking? then r.out.n else 0) &&
        continuing == (if r.out.Continuing? then r.out.n else 0))
    }

    /** The signal the counters carry. */
    function Pending(): Outcome
      reads this
    {
      if breaking > 0 then Breaking(breaking) else if continuing > 0 then Continuing(continuing) else Normal
    }

    /** `execute_command_internal`. */
    method Execute(c: Live, ghost ign: bool) returns (status: nat, escape: Escape)
      requires Valid() && Ready(c, ign) && Cells(c) !! FunctionCells()
      modifies this, Cells(c)
      ensures Valid() && Ready(c, ign)
      ensures !old(Idle()) ==> unchanged(this) && status == lastStatus && escape.NoEscape?
      ensures old(Idle()) ==>
        Agrees(Run(world, Erase(c), ign, old(loopLevel), old(Now())), status, escape, old(loopLevel))
      ensures !c.Null? && escape.NoEscape? ==> status == lastStatus
      decreases clock, c, 3
    {
      hide Valid, FunctionCells, Fit, Cells, Erase, WellFormed, Distinct, Run, RunPlain;
      NodeRun(world, c, ign, loopLevel, Now());
      assert allocated(FunctionCells()) && allocated(Cells(c));
      if breaking != 0 || continuing != 0 {
        return lastStatus, NoEscape;
      }
      if c.Null? {
        return SUCCESS, NoEscape;
      }
      OwnBits(c, ign);
      if world.errexit(trace) && c.invert {
        Mark(c, ign);
      }
      status, escape := ExecutePlain(c, ign);
      if !escape.NoEscape? {
        return;
      }
      if c.invert {
        status := if status == SUCCESS then FAILURE else SUCCESS;
      }
      lastStatus := status;
    }

    /** Marks a part of a command if its failure is to be ignored, and runs it. */
    method ExecuteMarked(c: Live, mark: bool, ghost ign: bool) returns (status: nat, escape: Escape)
      requires Valid() && Fit(c, ign) && Cells(c) !! FunctionCells() && mark == ign
      modifies this, Cells(c)
      ensures Valid() && Ready(c, ign)
      ensures !old(Idle()) ==> unchanged(this) && status == lastStatus && escape.NoEscape?
      ensures old(Idle()) ==>
        Agrees(Run(world, Erase(c), ign, old(loopLevel), old(Now())), status, escape, old(loopLevel))
      ensures !c.Null? && escape.NoEscape? ==> status == lastStatus
      decreases clock, c, 4
    {
      FlagsOwn(c);
      hide Valid, FunctionCells, Fit, Cells, Erase, Run;
      assert allocated(FunctionCells()) && allocated(Cells(c));
      if mark {
        Mark(c, ign);
      }
      status, escape := Execute(c, ign);
    }

    /** The dispatch in `execute_command_internal`, which hands its own ignore bit down. */
    method ExecutePlain(c: Live, ghost ign: bool) returns (status: nat, escape: Escape)
      requires Valid() && Ready(c, ign) && Cells(c) !! FunctionCells() && Idle() && !c.Null?
      modifies this, Cells(c)
      ensures Valid() && Ready(c, ign)
      ensures Agrees(RunPlain(world, Erase(c), ign, old(loopLevel), old(Now())), status, escape, old(loopLevel))
      decreases clock, c, 2
    {
      hide Valid, FunctionCells, Fit, RunPlain, Cells;
      assert allocated(FunctionCells()) && allocated(Cells(c));
      OwnBits(c, ign);
      var ignoreReturn := c.flags.ignore;
      if (ignoreReturn || c.invert) && (c.Simple? || c.If? || c.While? || c.For? || c.Case?) {
        MarkInner(c, ign);
      }
      match c
      case Simple(_, _, _) => status, escape := ExecuteSimple(c, ign);
      case Connection(_, _, connector, _, _) =>
        if connector.Semicolon? {
          status, escape := ExecuteSequence(c, ign);
        } else {
          status, escape := ExecuteAndOr(c, ign);
        }
      case Group(_, _, _) => status, escape := ExecuteGroup(c, ign);
      case If(_, _, _, _, _) => status, escape := ExecuteIf(c, ign);
      case While(_, _, _, _, _) => status, escape := ExecuteWhileOrUntil(c, ign);
      case For(_, _, _, _) => status, escape := ExecuteFor(c, ign);
      case Case(_, _, _) => status, escape := ExecuteCase(c, ign);
    }

    /** `execute_connection`: the case of `;`. */
    method ExecuteSequence(c: Live, ghost ign: bool) returns (status: nat, escape: Escape)
      requires Valid() && Ready(c, ign) && Cells(c) !! FunctionCells() && Idle()
      requires c.Connection? && c.connector.Semicolon?
      modifies this, Cells(c)
      ensures Valid() && Ready(c, ign)
      ensures Agrees(RunPlain(world, Erase(c), ign, old(loopLevel), old(Now())), status, escape, old(loopLevel))
      decreases clock, c, 1
    {
      hide Valid, FunctionCells, Fit, Cells, Erase, WellFormed, Distinct, Run, RunPlain;
      assert allocated(FunctionCells()) && allocated(Cells(c));
      OwnBits(c, ign);
      ConnectionParts(c, ign);
      ConnectionRun(world, c, ign, loopLevel, Now());
      assert allocated(Cells(c.first)) && allocated(Cells(c.second));
      if c.flags.ignore || c.invert {
        Mark(c.first, ign || c.invert);
        Mark(c.second, ign || c.invert);
      }
      status, escape := Execute(c.first, ign || c.invert);
      if escape.NoEscape? {
        status, escape := Execute(c.second, ign || c.invert);
      }
      ConnectionParts(c, ign);
    }

    /** `execute_connection`: the cases of `&&` and `||`. */
    method ExecuteAndOr(c: Live, ghost ign: bool) returns (status: nat, escape: Escape)
      requires Valid() && Ready(c, ign) && Cells(c) !! FunctionCells() && Idle()
      requires c.Connection? && !c.connector.Semicolon?
      modifies this, Cells(c)
      ensures Valid() && Ready(c, ign)
      ensures Agrees(RunPlain(world, Erase(c), ign, old(loopLevel), old(Now())), status, escape, old(loopLevel))
      decreases clock, c, 1
    {
      hide Valid, FunctionCells, Fit, Cells, Erase, WellFormed, Distinct, Run, RunPlain;
      assert allocated(FunctionCells()) && allocated(Cells(c));
      OwnBits(c, ign);
      ConnectionParts(c, ign);
      ConnectionRun(world, c, ign, loopLevel, Now());
      assert allocated(Cells(c.first)) && allocated(Cells(c.second));
      status, escape := ExecuteMarked(c.first, true, true);
      if escape.NoEscape? && (c.connector.AndAnd? <==> status == SUCCESS) {
        status, escape := ExecuteMarked(c.second, c.flags.ignore, ign);
      }
      ConnectionParts(c, ign);
    }

    /** A brace group. */
    method ExecuteGroup(c: Live, ghost ign: bool) returns (status: nat, escape: Escape)
      requires Valid() && Ready(c, ign) && Cells(c) !! FunctionCells() && Idle() && c.Group?
      modifies this, Cells(c)
      ensures Valid() && Ready(c, ign)
      ensures Agrees(RunPlain(world, Erase(c), ign, old(loopLevel), old(Now())), status, escape, old(loopLevel))
      decreases clock, c, 1
    {
      hide Valid, FunctionCells, Fit, Cells, Erase, WellFormed, Distinct, Run, RunPlain;
      assert allocated(FunctionCells()) && allocated(Cells(c));
      OwnBits(c, ign);
      GroupParts(c, ign);
      GroupRun(world, c, ign, loopLevel, Now());
      assert allocated(Cells(c.body));
      status, escape := ExecuteMarked(c.body, c.flags.ignore || c.invert, ign || c.invert);
      GroupParts(c, ign);
    }

    /** `execute_if_command`. */
    method ExecuteIf(c: Live, ghost ign: bool) returns (status: nat, escape: Escape)
      requires Valid() && Ready(c, ign) && Cells(c) !! FunctionCells() && Idle() && c.If?
      requires ign || c.invert ==> c.flags.inner
      modifies this, Cells(c)
      ensures Valid() && Ready(c, ign)
      ensures Agrees(RunPlain(world, Erase(c), ign, old(loopLevel), old(Now())), status, escape, old(loopLevel))
      decreases clock, c, 1
    {
      hide Valid, FunctionCells, Fit, Cells, Erase, WellFormed, Distinct, Run, RunPlain;
      assert allocated(FunctionCells()) && allocated(Cells(c));
      OwnBits(c, ign);
      IfParts(c, ign);
      IfRun(world, c, ign, loopLevel, Now());
      assert allocated(Cells(c.test)) && allocated(Cells(c.trueCase)) && allocated(Cells(c.falseCase));
      status, escape := ExecuteMarked(c.test, true, true);
      if escape.NoEscape? {
        if status == SUCCESS {
          status, escape := ExecuteMarked(c.trueCase, c.flags.inner, ign || c.invert);
        } else {
          status, escape := ExecuteMarked(c.falseCase, c.flags.inner, ign || c.invert);
        }
      }
      IfParts(c, ign);
    }

    /** `execute_while_or_until`. */
    method ExecuteWhileOrUntil(c: Live, ghost ign: bool) returns (status: nat, escape: Escape)
      requires Valid() && Ready(c, ign) && Cells(c) !! FunctionCells() && Idle() && c.While?
      requires ign || c.invert ==> c.flags.inner
      modifies this, Cells(c)
      ensures Valid() && Ready(c, ign)
      ensures Agrees(RunPlain(world, Erase(c), ign, old(loopLevel), old(Now())), status, escape, old(loopLevel))
      decreases clock, c, 1
    {
      hide Valid, FunctionCells, Fit, Cells, Erase, WellFormed, Distinct, Run, RunPlain, RunWhile, WhileStep;
      assert allocated(FunctionCells()) && allocated(Cells(c));
      OwnBits(c, ign);
      WhileParts(c, ign);
      WhileRun(world, c, ign, loopLevel, Now(), SUCCESS);
      assert allocated(Cells(c.test)) && allocated(Cells(c.body));
      loopLevel := loopLevel + 1;
      Mark(c.test, true);
      if c.flags.inner {
        Mark(c.body, ign || c.invert);
      }
      status, escape := WhileLoop(c, ign, old(loopLevel));
      if escape.NoEscape? {
        loopLevel := loopLevel - 1;
      }
      WhileParts(c, ign);
    }

    method WhileLoop(c: Live, ghost ign: bool, ghost level: nat) returns (status: nat, escape: Escape)
      requires Valid() && c.While? && Cells(c) !! FunctionCells()
      requires WellFormed(Erase(c)) && Distinct(c) && Ready(c.test, true) && Ready(c.body, ign || c.invert)
      requires Idle() && loopLevel == level + 1
      modifies this, Cells(c.test), Cells(c.body)
      ensures Valid() && Ready(c.test, true) && Ready(c.body, ign || c.invert)
      ensures Agrees(RunWhile(world, Erase(c), ign, level, old(Now()), SUCCESS), status, escape, level + 1)
      decreases clock, c, 0, 1
    {
      WhileParts(c, ign);
      hide Valid, FunctionCells, Fit, Cells, Erase, WellFormed, Distinct, Run, RunPlain, WhileStep;
      assert allocated(FunctionCells()) && allocated(Cells(c.test)) && allocated(Cells(c.body));
      ghost var start := Now();
      status, escape := SUCCESS, NoEscape;
      var more := true;
      while more
        invariant Valid() && Ready(c.test, true) && Ready(c.body, ign || c.invert)
        invariant clock <= start.clock && (more ==> Idle() && loopLevel == level + 1 && escape.NoEscape?)
        invariant var r := RunWhile(world, Erase(c), ign, level, start, SUCCESS);
          if more then RunWhile(world, Erase(c), ign, level, Now(), status) == r
          else Agrees(r, status, escape, level + 1)
        decreases more, clock
      {
        status, escape, more := WhileIteration(c, status, ign, level);
      }
    }

    /** The body of that loop: the test, and if it says so the action.  A signal in either leaves the
        loop, or starts the next iteration, with one loop less to go. */
    method WhileIteration(c: Live, bodyStatus: nat, ghost ign: bool, ghost level: nat)
      returns (status: nat, escape: Escape, more: bool)
      requires Valid() && c.While? && Cells(c) !! FunctionCells()
      requires WellFormed(Erase(c)) && Distinct(c) && Ready(c.test, true) && Ready(c.body, ign || c.invert)
      requires Idle() && loopLevel == level + 1
      modifies this, Cells(c.test), Cells(c.body)
      ensures Valid() && Ready(c.test, true) && Ready(c.body, ign || c.invert)
      ensures var (r, again) := WhileStep(world, Erase(c), ign, level, old(Now()), bodyStatus);
        Agrees(r, status, escape, level + 1) && more == again
      decreases clock, c, 0, 0
    {
      hide Valid, FunctionCells, Fit, Cells, Erase, WellFormed, Distinct, Run, RunPlain, RunWhile, WhileStep;
      WhileParts(c, ign);
      WhileRun(world, c, ign, level, Now(), bodyStatus);
      assert allocated(FunctionCells()) && allocated(Cells(c.test)) && allocated(Cells(c.body));
      status, escape, more := bodyStatus, CutOff, false;
      if clock > 0 {
        clock := clock - 1;
        status, escape := Execute(c.test, true);
        if escape.NoEscape? {
          if c.until == (status == SUCCESS) {
            if breaking != 0 {
              breaking := breaking - 1;
            }
            if continuing != 0 {
              continuing := continuing - 1;
            }
            status := bodyStatus;
          } else {
            status, escape, more := LoopBody(c.body, ign || c.invert);
          }
        }
      }
    }

    /** The action of a loop, and what the counters make of its end: a pending signal skips the action
        and, like one raised in it, now has one loop less to go. */
    method LoopBody(body: Live, ghost ign: bool) returns (status: nat, escape: Escape, more: bool)
      requires Valid() && Ready(body, ign) && Cells(body) !! FunctionCells() && !body.Null?
      requires breaking == 0 || continuing == 0
      modifies this, Cells(body)
      ensures Valid() && Ready(body, ign)
      ensures var r := if old(Idle()) then Run(world, Erase(body), ign, old(loopLevel), old(Now()))
                       else Result(old(Now()), old(lastStatus), old(Pending()));
        Agrees(r.(out := Leave(r.out)), status, escape, old(loopLevel)) && (more <==> Again(r.out))
      decreases clock, body, 4
    {
      hide Valid, FunctionCells, Fit, Cells, Erase, Run;
      assert allocated(FunctionCells()) && allocated(Cells(body));
      status, escape := Execute(body, ign);
      more := false;
      if escape.NoEscape? {
        more := EndIteration();
      }
    }

    /** The end of every loop body: does the loop go on? */
    method EndIteration() returns (more: bool)
      requires breaking == 0 || continuing == 0
      modifies this`breaking, this`continuing
      ensures more <==> old(breaking) == 0 && old(continuing) <= 1
      ensures breaking == (if old(breaking) == 0 then 0 else old(breaking) - 1)
      ensures continuing == (if old(continuing) == 0 then 0 else old(continuing) - 1)
    {
      if breaking != 0 {
        breaking := breaking - 1;
        return false;
      }
      if continuing != 0 {
        continuing := continuing - 1;
        if continuing != 0 {
          return false;
        }
      }
      return true;
    }

    /** `execute_for_command`. */
    method ExecuteFor(c: Live, ghost ign: bool) returns (status: nat, escape: Escape)
      requires Valid() && Ready(c, ign) && Cells(c) !! FunctionCells() && Idle() && c.For?
      requires ign || c.invert ==> c.flags.inner
      modifies this, Cells(c)
      ensures Valid() && Ready(c, ign)
      ensures Agrees(RunPlain(world, Erase(c), ign, old(loopLevel), old(Now())), status, escape, old(loopLevel))
      decreases clock, c, 1
    {
      hide Valid, FunctionCells, Fit, Cells, Erase, WellFormed, Distinct, Run, RunPlain, RunFor, ForStep;
      assert allocated(FunctionCells()) && allocated(Cells(c));
      OwnBits(c, ign);
      ForParts(c, ign);
      ForRun(world, c, ign, loopLevel, Now(), 0, SUCCESS);
      assert allocated(Cells(c.body));
      loopLevel := loopLevel + 1;
      var count := world.count(trace, c.words);
      if c.flags.inner {
        Mark(c.body, ign || c.invert);
      }
      status, escape := ForLoop(c, count, ign, old(loopLevel));
      if escape.NoEscape? {
        loopLevel := loopLevel - 1;
      }
      ForParts(c, ign);
    }

    method ForLoop(c: Live, count: nat, ghost ign: bool, ghost level: nat) returns (status: nat, escape: Escape)
      requires Valid() && c.For? && Cells(c) !! FunctionCells()
      requires WellFormed(Erase(c)) && Distinct(c) && Ready(c.body, ign || c.invert)
      requires Idle() && loopLevel == level + 1
      modifies this, Cells(c.body)
      ensures Valid() && Ready(c.body, ign || c.invert)
      ensures Agrees(RunFor(world, Erase(c), ign, level, old(Now()), 0, count, SUCCESS), status, escape, level + 1)
      decreases clock, c, 0, 1
    {
      ForParts(c, ign);
      hide Valid, FunctionCells, Fit, Cells, Erase, WellFormed, Distinct, Run, RunPlain, ForStep;
      assert allocated(FunctionCells()) && allocated(Cells(c.body));
      ghost var start := Now();
      status, escape := SUCCESS, NoEscape;
      var k := 0;
      var more := true;
      while more && k < count
        invariant Valid() && Ready(c.body, ign || c.invert)
        invariant clock <= start.clock && (more ==> Idle() && loopLevel == level + 1 && escape.NoEscape? && k <= count)
        invariant var r := RunFor(world, Erase(c), ign, level, start, 0, count, SUCCESS);
          if more then RunFor(world, Erase(c), ign, level, Now(), k, count, status) == r
          else Agrees(r, status, escape, level + 1)
        decreases more, clock
      {
        status, escape, more := ForIteration(c, k, status, ign, level);
        k := k + 1;
      }
    }

    /** The body of that loop: bind the variable to the k-th word, run the action. */
    method ForIteration(c: Live, k: nat, retval: nat, ghost ign: bool, ghost level: nat)
      returns (status: nat, escape: Escape, more: bool)
      requires Valid() && c.For? && Cells(c) !! FunctionCells()
      requires WellFormed(Erase(c)) && Distinct(c) && Ready(c.body, ign || c.invert)
      requires Idle() && loopLevel == level + 1
      modifies this, Cells(c.body)
      ensures Valid() && Ready(c.body, ign || c.invert)
      ensures var (r, again) := ForStep(world, Erase(c), ign, level, old(Now()), k, retval);
        Agrees(r, status, escape, level + 1) && more == again
      decreases clock, c, 0, 0
    {
      ForParts(c, ign);
      ForRun(world, c, ign, level, Now(), k, retval);
      hide Valid, FunctionCells, Fit, Cells, Erase, WellFormed, Distinct, Run, RunPlain, RunFor, ForStep;
      assert allocated(FunctionCells()) && allocated(Cells(c.body));
      status, escape, more := retval, CutOff, false;
      if clock > 0 {
        clock := clock - 1;
        trace := trace + [Bound(c.words, k)];
        status, escape, more := LoopBody(c.body, ign || c.invert);
      }
    }

    /** A simple command: the break and continue builtins, a function, or something else. */
    method ExecuteSimple(c: Live, ghost ign: bool) returns (status: nat, escape: Escape)
      requires Valid() && Ready(c, ign) && Cells(c) !! FunctionCells() && Idle() && c.Simple?
      requires ign || c.invert ==> c.flags.inner
      modifies this, Cells(c)
      ensures Valid() && Ready(c, ign)
      ensures Agrees(RunPlain(world, Erase(c), ign, old(loopLevel), old(Now())), status, escape, old(loopLevel))
      ensures c.action.Break? || c.action.Continue? ==> trace == old(trace) && clock == old(clock)
      ensures (c.action.Break? || c.action.Continue?) && old(loopLevel) == 0 ==>
        status == 0 && breaking == 0 && continuing == 0
      ensures (c.action.Break? || c.action.Continue?) && old(loopLevel) > 0 ==>
        if c.action.n <= 0 then status == 1 && breaking == old(loopLevel) && continuing == 0
        else
          var cut := if c.action.n > old(loopLevel) then old(loopLevel) else c.action.n;
          && status == 0 && escape.NoEscape?
          && breaking == (if c.action.Break? then cut else 0)
          && continuing == (if c.action.Continue? then cut else 0)
      decreases clock, c, 1
    {
      hide Valid, FunctionCells, Fit, Cells, Erase, WellFormed, Distinct, Run, RunPlain;
      assert allocated(FunctionCells()) && allocated(Cells(c));
      SimpleRun(world, c, ign, loopLevel, Now());
      OwnBits(c, ign);
      escape := NoEscape;
      match c.action {
        case Plain(id) =>
          trace := trace + [Ran(id)];
          status := world.status(trace);
        case Call(f) =>
          status, escape := ExecuteFunction(c, f, ign);
        case Break(n) =>
          status := SUCCESS;
          if loopLevel != 0 {
            if n <= 0 {
              breaking, status := loopLevel, FAILURE;
            } else {
              breaking := if n > loopLevel then loopLevel else n;
            }
          }
        case Continue(n) =>
          status := SUCCESS;
          if loopLevel != 0 {
            if n <= 0 {
              breaking, status := loopLevel, FAILURE;
            } else {
              continuing := if n > loopLevel then loopLevel else n;
            }
          }
      }
      if escape.NoEscape? && !c.flags.ignore && !c.invert && world.errexit(trace) && status != SUCCESS {
        lastStatus := status;
        escape := ErrExit;
      }
    }

    lemma FunctionCount()
      requires Valid()
      ensures |functions| == |world.bodies|
    {
    }

    /** What a call runs: a copy of the stored body, which fits wherever the call stands. */
    method CopyFunction(f: nat, ghost ign: bool) returns (body: Live)
      requires Valid() && f < |functions|
      ensures Valid() && f < |world.bodies| && Erase(body) == world.bodies[f] && !body.Null?
      ensures fresh(Cells(body)) && Fit(body, ign)
      ensures fresh(body.flags) && Cells(body) !! FunctionCells()
    {
      hide Erase, Distinct, WellFormed, Fit, FunctionCells, Clean;
      assert allocated(FunctionCells()) && allocated(Cells(functions[f]));
      body := CopyCommand(functions[f]);
      SameClean(functions[f], body);
      CleanFit(body, ign);
      assert body.flags in Cells(body);
    }

    /** `execute_function`: run a copy of the stored body outside all loops. */
    method ExecuteFunction(c: Live, f: nat, ghost ign: bool) returns (status: nat, escape: Escape)
      requires Valid() && Ready(c, ign) && Cells(c) !! FunctionCells() && Idle() && c.Simple? && c.action == Call(f)
      requires ign || c.invert ==> c.flags.inner
      modifies this
      ensures Valid()
      ensures Agrees(RunAction(world, Erase(c), ign, old(loopLevel), old(Now())), status, escape, old(loopLevel))
      decreases clock, c, 0
    {
      hide Valid, FunctionCells, Fit, Cells, Erase, WellFormed, Distinct, Run, RunAction;
      OwnBits(c, ign);
      CallRun(world, c, f, ign, loopLevel, Now());
      FunctionCount();
      assert allocated(FunctionCells());
      if f >= |functions| {
        return NOTFOUND, NoEscape;
      }
      status, escape := SUCCESS, CutOff;
      if clock > 0 {
        clock := clock - 1;
        trace := trace + [Entered(f)];
        var body := CopyFunction(f, ign || c.invert);
        if c.flags.inner {
          Mark(body, ign || c.invert);
        }
        var level := loopLevel;
        loopLevel := 0;
        status, escape := Execute(body, ign || c.invert);
        loopLevel := level;
      }
    }

    /** `execute_case_command`: the loop over the clauses. */
    method ExecuteCase(c: Live, ghost ign: bool) returns (status: nat, escape: Escape)
      requires Valid() && Ready(c, ign) && Cells(c) !! FunctionCells() && Idle() && c.Case?
      requires ign || c.invert ==> c.flags.inner
      modifies this, Cells(c)
      ensures Valid() && Ready(c, ign)
      ensures Agrees(RunPlain(world, Erase(c), ign, old(loopLevel), old(Now())), status, escape, old(loopLevel))
      decreases clock, c, 1
    {
      hide Valid, FunctionCells, Fit, FitClauses, Cells, Erase, WellFormed, Distinct, Run, RunPlain, RunClauses;
      assert allocated(FunctionCells()) && allocated(Cells(c));
      OwnBits(c, ign);
      CaseParts(c, ign);
      CaseRun(world, c, ign, loopLevel, Now());
      assert allocated(ClauseCells(c.clauses));
      status, escape := ClauseLoop(c.clauses, c.flags.inner, ign || c.invert);
      CaseParts(c, ign);
    }

    method ClauseLoop(whole: Clauses<Flags>, ignoreReturn: bool, ghost ign: bool) returns (status: nat, escape: Escape)
      requires Valid() && FitClauses(whole, ign) && ClauseCells(whole) !! FunctionCells() && ignoreReturn == ign
      requires Idle()
      modifies this, ClauseCells(whole)
      ensures Valid() && FitClauses(whole, ign)
      ensures Agrees(RunClauses(world, EraseClauses(whole), ign, old(loopLevel), old(Now()), SUCCESS),
                     status, escape, old(loopLevel))
      decreases clock, whole, 2
    {
      hide Valid, FunctionCells, FitClauses, Fit, Cells, ClauseCells, Erase, EraseClauses, RunClauses, RunMatched, Run;
      assert allocated(FunctionCells()) && allocated(ClauseCells(whole));
      ghost var level, k := loopLevel, 0;
      ghost var r := RunClauses(world, EraseClauses(whole), ign, level, Now(), SUCCESS);
      var clauses := whole;
      status, escape := SUCCESS, NoEscape;
      FromParts(whole, 0);
      while clauses.Clause?
        invariant Valid() && FitClauses(whole, ign) && clauses == From(whole, k)
        invariant clock <= old(clock) && loopLevel == level && escape.NoEscape?
        invariant if Idle() then RunClauses(world, EraseClauses(clauses), ign, level, Now(), status) == r
                  else Agrees(r, status, NoEscape, level) && status == lastStatus
        decreases |Bodies(whole)| - k
      {
        ClausesRun(world, clauses, ign, level, Now(), status);
        if world.matches(trace, clauses.pattern) {
          status, escape, clauses, k := ExecuteMatched(whole, clauses, ignoreReturn, k, ign);
          if !escape.NoEscape? || clauses.NoClause? || !clauses.terminator.TestNext? {
            break;
          }
        }
        FromParts(whole, k);
        k := k + 1;
        clauses := clauses.next;
      }
      ClausesRun(world, clauses, ign, level, Now(), status);
    }

    /** Its inner loop: run the clause that matched, and those it falls through to; `clauses` is the
        last one run, or null when that one falls through and is the last of all. */
    method ExecuteMatched(whole: Clauses<Flags>, first: Clauses<Flags>, ignoreReturn: bool,
        ghost m: nat, ghost ign: bool)
      returns (status: nat, escape: Escape, clauses: Clauses<Flags>, ghost n: nat)
      requires Valid() && FitClauses(whole, ign) && ClauseCells(whole) !! FunctionCells() && ignoreReturn == ign
      requires first.Clause? && first == From(whole, m)
      modifies this, ClauseCells(whole)
      ensures Valid() && FitClauses(whole, ign)
      ensures clauses == From(whole, n) && m <= n
      ensures !old(Idle()) ==> unchanged(this) && status == lastStatus && escape.NoEscape?
      ensures old(Idle()) ==>
        var r := RunMatched(world, EraseClauses(first), ign, old(loopLevel), old(Now()));
        if escape.NoEscape? && Idle() then
          loopLevel == old(loopLevel) && r ==
            if clauses.NoClause? || !clauses.terminator.TestNext? then Result(Now(), status, Normal)
            else RunClauses(world, EraseClauses(clauses.next), ign, loopLevel, Now(), status)
        else Agrees(r, status, escape, old(loopLevel)) && (escape.NoEscape? ==> status == lastStatus)
      ensures clock <= old(clock)
      decreases clock, whole, 1
    {
      hide Valid, FunctionCells, FitClauses, Fit, Cells, ClauseCells, RunClauses, RunMatched, Run;
      assert allocated(FunctionCells()) && allocated(ClauseCells(whole));
      status, escape, clauses, n := SUCCESS, NoEscape, first, m;
      ghost var level := loopLevel;
      ghost var r := RunMatched(world, EraseClauses(first), ign, level, Now());
      var more := true;
      while more
        invariant Valid() && FitClauses(whole, ign)
        invariant clauses == From(whole, n) && m <= n && clock <= old(clock) && (more ==> clauses.Clause?)
        invariant !old(Idle()) ==> unchanged(this) && (more || status == lastStatus) && (more || escape.NoEscape?)
        invariant old(Idle()) && more ==>
          if Idle() then loopLevel == level && RunMatched(world, EraseClauses(clauses), ign, level, Now()) == r
          else Agrees(r, lastStatus, NoEscape, level)
        invariant old(Idle()) && !more ==>
          if escape.NoEscape? && Idle() then
            loopLevel == level && r ==
              if clauses.NoClause? || !clauses.terminator.TestNext? then Result(Now(), status, Normal)
              else RunClauses(world, EraseClauses(clauses.next), ign, level, Now(), status)
          else Agrees(r, status, escape, level) && (escape.NoEscape? ==> status == lastStatus)
        decreases more, |Bodies(whole)| - n
      {
        MatchedRun(world, clauses, ign, loopLevel, Now());
        status, escape := ExecuteAction(whole, clauses, ignoreReturn, n, ign);
        more := false;
        if escape.NoEscape? && clauses.terminator.FallThrough? {
          FromParts(whole, n);
          n := n + 1;
          clauses := clauses.next;
          more := clauses.Clause?;
        }
      }
    }

    /** The action of one clause, marked first where failure is ignored. */
    method ExecuteAction(whole: Clauses<Flags>, clauses: Clauses<Flags>, ignoreReturn: bool,
        ghost n: nat, ghost ign: bool)
      returns (status: nat, escape: Escape)
      requires Valid() && FitClauses(whole, ign) && ClauseCells(whole) !! FunctionCells() && ignoreReturn == ign
      requires clauses.Clause? && clauses == From(whole, n)
      modifies this, ClauseCells(whole)
      ensures Valid() && FitClauses(whole, ign)
      ensures !old(Idle()) ==> unchanged(this) && status == lastStatus && escape.NoEscape?
      ensures old(Idle()) ==>
        Agrees(Run(world, Erase(clauses.body), ign, old(loopLevel), old(Now())), status, escape, old(loopLevel))
      ensures !clauses.body.Null? && escape.NoEscape? ==> status == lastStatus
      decreases clock, whole, 0
    {
      assert WellFormedClauses(EraseClauses(whole)) && DistinctClauses(whole);
      hide Valid, FunctionCells, FitClauses, Fit, Cells, ClauseCells, Erase, Run;
      FromParts(whole, n);
      BodiesFit(whole, ign);
      ghost var bodies := Bodies(whole);
      assert allocated(FunctionCells()) && allocated(bodies);
      if ignoreReturn {
        Mark(clauses.body, ign);
      }
      status, escape := Execute(clauses.body, ign);
      forall k | 0 <= k < |bodies| ensures Fit(bodies[k], ign) {
        if k != n {
          assert Cells(bodies[k]) !! Cells(bodies[n]) && old(allocated(Cells(bodies[k])));
        }
      }
      BodiesFit(whole, ign);
    }

    /** A command at top level: no loop around it, so no signal can be left over. */
    method ExecuteTopLevel(c: Live) returns (status: nat, escape: Escape)
      requires Valid() && Fit(c, false) && Cells(c) !! FunctionCells() && Idle() && loopLevel == 0
      modifies this, Cells(c)
      ensures Valid() && Fit(c, false)
      ensures Agrees(Run(world, Erase(c), false, 0, old(Now())), status, escape, 0)
      ensures escape.NoEscape? ==> Idle() && loopLevel == 0
    {
      hide Run, Fit, Valid, Erase, Cells;
      status, escape := Execute(c, false);
    }

    /** Running the same tree again: the bits the first run left behind change nothing. */
    method ExecuteTwice(c: Live) returns (first: nat, second: nat, escape: Escape)
      requires Valid() && Fit(c, false) && Cells(c) !! FunctionCells() && Idle() && loopLevel == 0
      modifies this, Cells(c)
      ensures var r := Run(world, Erase(c), false, 0, old(Now()));
        if Aborted(r.out) then Agrees(r, first, escape, 0)
        else first == r.status && Agrees(Run(world, Erase(c), false, 0, r.st), second, escape, 0)
    {
      hide Run, Fit, Valid, Erase, Cells;
      second := SUCCESS;
      first, escape := ExecuteTopLevel(c);
      if escape.NoEscape? {
        second, escape := ExecuteTopLevel(c);
      }
    }
  }
}
