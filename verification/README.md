# Five parsers and interpreters of a shell, modelled and verified

This project models the parts of GNU bash, and of the small 42-minishell beside it, in which most
of the state and arithmetic sits, and proves what they promise.  Every component has two sides: a
method in the form of the source (the same loops, globals, pointers and branches), proved against a
specification function, and theorems about that function.

**Brace expansion and its inverse** (`BraceScan` to `BraceSequence`).  `brace_gobbler`,
`brace_expand`, `expand_amble` and `array_concat` are proved to expand the printed form of every
pattern tree to the cross product of its pieces, where pieces may also be braces and commas that
belong to no alternation, quoted text and parameters; `BraceKept` says which braces stay as they are.
`really_munge_braces` is proved to print the trie of a list of names.  Together: expansion undoes munging,
quotes included, exactly when the names can be folded (`BraceFolding.Foldable`: each run the program cuts
shares the prefix it writes for it), which sorting always provides; sorting is part of
`BraceRoundTrip.HackBracesCompletion`.  `mkseq` is exact and never leaves 64 bits.

**Control flow of the interpreter** (`CommandTree` to `Interpreter`).  `ControlFlow` is a semantics
with Break(n) and Continue(n) signals and with "failure is ignored here" passed downwards as an
argument.  `Interpreter.Shell` is the executor as it stands: global counters `breaking`, `continuing`
and `loop_level`, and ignore bits written into the command tree and never removed.  The second is
proved to do what the first says, for every tree, including signals raised in loop tests and trees
already marked by earlier runs.  `ControlFlowTraces` and `ControlFlowExits` say in concrete events what
such runs do: which words are bound and which commands run up to a `break`, a `continue` or a failure
under `set -e`, from wherever in a body it is reached.  `CopyTree` is `copy_command`, which keeps such
marks out of stored functions.

**Sparse arrays** (`ArraySpec` to `RingRuns`).  `RingArray.Ring` is the circular list of `array.c`
with its dummy head, cached counts and roving pointer; `TableArray.Table` is the slot table of
`array2.c`.  Each refines a finite map, and on every run the two show the same answers;
`RingRuns` has runs of the list that mix shifts, right shifts and copies with these operations.

**The arithmetic evaluator** (the modules `Expr...`).  `ExprEvaluator.Evaluator` has the globals
of `expr.c`, its lexer that looks ahead by saving and restoring, its `noeval` counter and its stack
of contexts.  `ExprSpec` is the same grammar as functions on a state, whose `decreases` clauses
(1024 minus the context depth, input left, grammar level) are the termination measure of both.  The
main theorem: evaluating the printed form of any expression tree, with the fewest parentheses the
precedence table allows, gives exactly the value, the variables and the errors of a left-to-right
semantics of the tree.  An error carries the variables as they are when it is raised, so bindings made
before it are kept and those after it are not made, and with evaluation off nothing is bound whether the
run returns or ends in an error.  Beside it stand laws that say in plain
arithmetic what the evaluator answers: the value of every operator (`ExprValues`), precedence,
associativity and assignments read off the text (`ExprText`, `ExprEffects`), and texts that are no
expressions (`ExprRejects`).

**The minishell parser** (`MiniGrammar`, `MiniLines`, `MiniParser`).  Parsing undoes printing, the lines
accepted are exactly the spellings of correct trees (`MiniLines.AcceptedIff`), and the list of
here-documents spliced together in place is the list of `<<` redirections in source order.

Signed arithmetic is `intmax_t` of 64 bits; where the source relies on wrap-around it is written out
(`ExprNumbers.Wrap`), where it checks for overflow the checks are modelled (`BraceSequence.CkdSub`).
Characters are bytes; a C string contains no NUL.  `dafny verify dfyconfig.toml` checks everything.

## Model

| member | source | states |
|---|---|---|
| BraceScan.Gobble | bash/braces.c:637-805 | A scan stops at an occurrence of the byte looked for, or at the end of the text and then answers NUL; it never stops before it began |
| BraceExpansion.BraceGobbler | bash/braces.c:637-805 | The scanner's loop with its level, quote, comma and pass-next variables returns the byte, position and expansion type of the specified scan, from any position and for any byte looked for; what that scan accepts and rejects is said by BraceMeaning.ExpandMeaning and BraceKept |
| BracePattern.GobblePattern | bash/braces.c:637-805 | Inside braces, or when not looking for `{`, a scan passes over the whole printed form of any pattern whose own braces match (escapes, quoted text, parameters, nested alternations and plain brace pairs included) and is at the same level, unquoted, behind it |
| BracePattern.GobbleBranches | bash/braces.c:759-791 | Over the branches of an alternation the same holds, and a scan for the closing brace at their own level has counted their commas and calls the expansion a comma expansion |
| BracePattern.GobbleAway | bash/braces.c:652-791 | Behind an opening brace that meets no comma and no two dots at its own level before a closing one, or meets no closing one, the scan for the closing brace runs to the end of the text |
| BraceExpansion.FindOpenBrace | bash/braces.c:116-160 | The opening loop finds the first brace that begins a valid expansion, skipping those that do not, or reports that there is none |
| BraceMeaning.AltSite | bash/braces.c:116-185 | In the printed form of any pattern with an alternation the site found is the first alternation, its own opening brace and exactly the matching closing one, whatever single-branch pairs, unmatched braces, commas, quotes and parameters stand before it |
| BraceMeaning.FlatSite | bash/braces.c:116-160 | A printed pattern without alternation has no expansion site, whatever escaped, quoted, paired or unmatched braces and commas it contains |
| BraceMeaning.AmbleMeaning | bash/braces.c:298-365 | The parts that `expand_amble` cuts at top-level commas are exactly the branches, empty ones included |
| BraceExpansion.ArrayConcat | bash/braces.c:806-873 | Both short cuts and the slot-by-slot product give the lexicographic cross product, left factor slowest |
| Text.CrossAt | bash/braces.c:806-873 | Which word stands where in a cross product: row i and column j meet at i times the number of columns plus j, left factor first |
| BraceExpansion.ExpandAmbleWords | bash/braces.c:298-365 | The loop over the parts returns their expansions one after the other |
| BraceExpansion.BraceExpand | bash/braces.c:103-293 | The recursive program computes the specified words of any text, including sequence terms that generate nothing and text behind the closing brace |
| BraceMeaning.ExpandMeaning | bash/braces.c:103-365 | Expanding the printed form of any pattern gives the cross product of its pieces: alternations give their branches, nested and empty ones included; bytes, escapes, quoted text, parameters and braces and commas that belong to no alternation stand for themselves |
| BraceKept.SingleBranch | bash/braces.c:652-791 | A brace pair with one branch and no two adjacent dots does not expand: both braces stay around every word of what is between them, and what follows expands as it does alone, as long as it has no unmatched closing brace behind a comma of its own (the scan passes the first closing brace and would take that one) |
| BraceKept.PairKept | bash/braces.c:652-791 | So `{s}` with ordinary bytes s, without two adjacent dots, is its own and only word |
| BraceKept.UnclosedMeaning | bash/braces.c:116-160 | An opening brace that is never closed stays, in front of every word of what follows |
| BraceKept.UnclosedKept | bash/braces.c:116-160 | So an unclosed `{a,b` stays as it is |
| BraceKept.QuotesKept | bash/braces.c:712-734 | Text in quotes is one word, braces and commas in it included |
| BraceKept.ParamKept | bash/braces.c:678-709 | A parameter in `${` and `}` is one word, commas in it included |
| BraceKept.SequenceExpands | bash/braces.c:478-515 | `{a..b}` with two numbers or two letters is a sequence: its words are those its term generates, or the text itself if it generates none, each in front of each word of what follows |
| BraceKept.MixedKept | bash/braces.c:478-515 | With a number at one end and a letter at the other it stays as it is |
| BraceMunge.StringGcd | bash/bracecomp.c:46-62 | The length of the longest common prefix: the strings agree below it and differ at it |
| BraceMunge.BackslashQuote | bash/lib/sh/shquote.c:257-306 | Every byte of the table gets a backslash, and a `#` only at the start |
| BraceMunge.QuotedBytes | bash/lib/sh/shquote.c:257-306 | The bytes quoted are exactly the 24 of the table, written out, and `#` only at the start |
| BraceMunge.QuotedPrint | bash/lib/sh/shquote.c:257-306 | A quoted string is the printed form of a pattern of ordinary and escaped bytes |
| BraceMunge.FindGroup | bash/bracecomp.c:86-98 | The inner loop ends the run at the first name that shares no more than the common prefix, with the length the last name of the run shares |
| BraceFolding.RunShares | bash/bracecomp.c:86-134 | In names grouped by prefix, what first and last name of a run of several share is common to all its names |
| BraceMunge.MungeGroup | bash/bracecomp.c:110-136 | The term of a run is the printed trie branch: quoted prefix, and for several names a brace, the recursive result and its last comma overwritten; for any list on which the program reads no byte behind a name |
| BraceMunge.ReallyMungeBraces | bash/bracecomp.c:64-148 | For any list, sorted or not, on which the program reads no byte behind a name: at top level the result is the printed trie with braces only when nothing is common to all names, in recursive calls the printed branches with a trailing comma, on an empty range the quoted name |
| BraceRoundTrip.SortedGrouped | bash/bracecomp.c:150-181 | Along a list in the order `_strcompare` sorts by (first byte signed, then `strcmp`), the prefix shared with an earlier name never grows |
| BraceFolding.MungeWords | bash/bracecomp.c:64-148 | The trie is a well-formed pattern (every alternation has at least two branches) with one word for each name, and its words are the names below the prefix, in order, duplicates kept, if and only if the names can be folded |
| BraceFolding.GroupedFoldable | bash/bracecomp.c:86-134 | Names grouped by prefix (the prefix shared with an earlier name never grows) can be folded: every run shares what is written for it, at every depth |
| BraceFolding.FoldableFits | bash/bracecomp.c:110-134 | On names that can be folded the program never reads behind the end of a name |
| BraceUnquote.UnquoteMeaning | bash/braces.c:103-365 | Quote removal on the words of a pattern commutes with the cross product, so no word ends in a backslash that protects what follows |
| BraceRoundTrip.RoundTrip | bash/bracecomp.c:64-181 | For every list the program can be run on, expanding the munged pattern and removing quotes gives the list back, in order and with duplicates, if and only if the names can be folded |
| BraceRoundTrip.PlainRoundTrip | bash/bracecomp.c:64-181 | When nothing in the names needs quoting the same holds of the words themselves, without quote removal |
| BraceRoundTrip.NotFoldable | bash/bracecomp.c:86-134 | Unsorted names need not come back: for abc, axx, abd the program takes ab for the common prefix, and the pattern expands to other words |
| BraceRoundTrip.SortedFoldable | bash/bracecomp.c:150-181 | Names in the order of `_strcompare` can be folded |
| CompletionOrder.Transitive | bash/bracecomp.c:150-160 | The comparison that sorts completions is transitive, although it compares first bytes as signed and the rest as unsigned numbers |
| CompletionOrder.Total | bash/bracecomp.c:150-160 | It orders any two names, and only equal names both ways, so the result of sorting is unique |
| CompletionOrder.ComparedAt | bash/bracecomp.c:150-160 | A name comes before another if it is a proper prefix of it or has the smaller byte where they first differ; only if that is the first byte, bytes from 128 on count as negative |
| CompletionOrder.QsortedInOrder | bash/bracecomp.c:167-169 | Sorting puts the names in order and keeps each as often as it was there |
| CompletionOrder.SortedOnce | bash/bracecomp.c:167-169 | Any two sorted arrangements of the same names are equal, so it does not matter which algorithm `qsort` uses |
| BraceRoundTrip.HackBracesCompletion | bash/bracecomp.c:162-181 | The one string returned: for several completions in a multibyte locale it expands, quotes removed, to the sorted completions, however they came; in a single-byte locale, where nothing is sorted, it expands to them as they came exactly when they can be folded; with none it is the quoted common text |
| BraceRoundTrip.MungeThenExpand | bash/bracecomp.c:64-148 | Running the munging program and then the expanding program returns the list up to quote removal exactly when it can be folded, and without quote removal when nothing needs quoting |
| BraceRoundTrip.SortedRoundTrip | bash/bracecomp.c:64-181 | On every sorted list both programs in sequence return the list |
| BraceSequence.Mkseq | bash/braces.c:372-476 | It succeeds exactly when neither the increment's magnitude nor the distance overflows; then it yields floor(distance/step)+1 terms, the k-th being start plus or minus k steps as text: for letters the one byte with that number, for numbers the decimal text with its sign and no leading zero, or as many as the width asks for; no addition leaves 64 bits |
| BraceSequence.FillSequence | bash/braces.c:407-475 | Every term is the text of its number (BraceSequence.IsTerm: one byte, or decimal digits with the sign in front and zeros only as the width asks), in order, and every number from which one is written is within `intmax_t` |
| BraceSequence.ElementsBetween | bash/braces.c:372-476 | All numbers lie between the two ends, and only behind the last one would another step pass the end |
| BraceSequence.TermValue | bash/braces.c:421-450 | A numeric term denotes its number; padded terms are exactly as wide as asked or naturally wider, with the sign in front of the zeros |
| BraceSequence.TermIs | bash/braces.c:421-450 | Every term written is the text its number asks for: one byte for a letter, decimal digits without leading zeros for a number, padded to the width when padding is asked for |
| BraceSequence.TermUnique | bash/braces.c:421-450 | A number has only one such text of each kind and width |
| ControlFlow.Run | bash/execute_cmd.c:624-1232 | A signal that leaves a command is bounded by the loops around it, history only grows, and on every run an exit by `set -e` needs a simple command in the tree that stands neither in a test, nor in an AND-OR list except last, nor under a `!`, nor where failure is ignored |
| ControlFlowLaws.NothingExposed | bash/execute_cmd.c:1004-1018 | Where failure is ignored around a tree no simple command in it, however deep, can cause an exit |
| ControlFlowLaws.ExposedMeans | bash/execute_cmd.c:2936-2963 | A command in which an exit can arise is neither ignored nor inverted, and in an AND-OR list it arises in the last part |
| ControlFlow.WhileStep | bash/execute_cmd.c:3807-3852 | Another iteration is started only with no signal left and one step of the clock used; nothing in the test causes an exit |
| ControlFlowLaws.ExitComesFrom | bash/execute_cmd.c:1004-1018 | A `set -e` exit out of an AND-OR list comes from its last part, out of an `if` from the branch taken |
| ControlFlowLaws.MoreClock | bash/execute_cmd.c:624-1232 | A run that is not cut off is the same run with any later cut-off, so the cut-off is not part of the meaning |
| ControlFlowTraces.BreakRuns | bash/builtins/break.def:63-91 | `break n` with n > 0 inside d loops ends with status 0 and min(n, d) loops to break |
| ControlFlowTraces.ContinueRuns | bash/builtins/break.def:107-136 | `continue n` ends with status 0 and min(n, d) loops to continue |
| ControlFlowTraces.IdleJumps | bash/builtins/break.def:69-128 | Outside loops both do nothing; with n <= 0 either breaks every loop, with status 1 |
| ControlFlowTraces.GoesOut | bash/execute_cmd.c:2860-2965 | A signal or an exit raised anywhere inside groups, lists, `if` branches and `case` clauses leaves them with nothing run behind it: the history is what ran before, and what the command itself did |
| ControlFlowTraces.BreakLeavesFor | bash/execute_cmd.c:3036-3118 | A `for` loop whose body reaches a `break n` binds exactly one word, runs what stands before it and nothing else, and ends with status 0; with n > 1 the rest breaks the loops around it |
| ControlFlowTraces.BreakLeavesWhile | bash/execute_cmd.c:3807-3852 | A `while` or `until` loop whose body reaches a `break n` tests exactly once |
| ControlFlowTraces.JumpInTest | bash/execute_cmd.c:3807-3852 | A `break` in the test leaves the loop with the body not run, and so does a `continue 1` in the test of `until` |
| ControlFlowTraces.ContinueLeavesFor | bash/execute_cmd.c:3036-3118 | A `continue n` with n > 1 leaves the inner loop at its first word |
| ControlFlowTraces.ContinueTakesEveryWord | bash/execute_cmd.c:3036-3118 | With a `continue` reached in the body every word is bound, in order, and nothing behind the `continue` is ever run |
| ControlFlowTraces.ContinueOuter | bash/execute_cmd.c:3036-3118 | With a `continue 2` in a loop inside a loop every word of the outer loop is bound and each time one of the inner |
| ControlFlowTraces.ContinueTestsAgain | bash/execute_cmd.c:3807-3852 | With a `continue` in the body a `while` or `until` loop tests after every round, and ends after the first test that says so |
| ControlFlowTraces.PlainTakesEveryWord | bash/execute_cmd.c:3036-3118 | A `for` loop over a plain command binds every word, runs the command once for each, and has the status of the last run, or 0 for no words |
| ControlFlowTraces.PlainTakesTurns | bash/execute_cmd.c:3807-3852 | A `while` or `until` loop over a plain command runs it once after every test but the last, and has the status of its last run, not of the test |
| ControlFlowExits.FailureExits | bash/execute_cmd.c:1004-1018 | Under `set -e` a command that fails ends the shell with its status, wherever it stands in groups, lists, branches and clauses where failure counts; nothing behind it is run |
| ControlFlowExits.FailureLeavesFor | bash/execute_cmd.c:3036-3118 | The same from the body of a `for` loop, at the first word |
| ControlFlowExits.FailureLeavesWhile | bash/execute_cmd.c:3807-3852 | The same from the body of a `while` or `until` loop |
| ControlFlowExits.FailureLeavesFunction | bash/execute_cmd.c:5180-5220 | The same from a function body |
| ControlFlowExits.NotExchanges | bash/execute_cmd.c:1004-1208 | `!` exchanges zero and non-zero: after a failure the status is 0, after a success 1, and a failing command behind `!` never exits |
| ControlFlowExits.NotGroup | bash/execute_cmd.c:1102-1208 | `!` in front of a group exchanges the status of the run of its body with failure ignored |
| ControlFlowExits.ListRuns | bash/execute_cmd.c:2860-2965 | An AND list runs its second part exactly after a zero status, an OR list exactly after a non-zero one, `;` always; the status is that of the last part run |
| ControlFlowExits.LineRuns | bash/execute_cmd.c:2860-2891 | A line of commands under `set -e`: they run in order up to and including the first that fails, and then the shell exits; if none fails all run |
| ControlFlowExits.IfRuns | bash/execute_cmd.c:3861-3889 | `if` runs its first branch after a zero status and its second after any other, and without a second has status 0 |
| ControlFlowExits.ClauseSkipped | bash/execute_cmd.c:3643-3773 | A clause that does not match is passed over; a `case` where none matches has status 0 |
| ControlFlowExits.ClauseRuns | bash/execute_cmd.c:3745-3758 | `;;` ends the `case`, `;&` runs the next action unasked, `;;&` goes on testing |
| ControlFlowExits.CallRuns | bash/execute_cmd.c:5180-5220 | A call runs the body stored, 127 if there is none, and a `break` or `continue` that is all of the body does nothing, whatever loops are around the call |
| CopyTree.CopyCommand | bash/copy_cmd.c:342-435 | The copy of any command has the same shape and, node by node, the same ignore bits; it shares no flag word with anything that existed and has none twice |
| CopyTree.CopyCaseClauses | bash/copy_cmd.c:98-110 | Copying clauses in front of one another and turning the list round gives an equal list with the same ignore bits, order included, of fresh clauses |
| CopyTree.ReverseClauses | bash/copy_cmd.c:109-109 | The reversing loop returns the list turned round |
| CopyTree.TurnedKeeps | bash/copy_cmd.c:98-110 | Turning a list of clauses round keeps every flag word, and each still occurs once |
| CopyTree.TurnedSame | bash/copy_cmd.c:98-110 | Turning two lists of equal clauses with equal ignore bits round gives lists with equal clauses and equal ignore bits |
| CopyTree.SameClean | bash/copy_cmd.c:342-435 | A tree with the same bits as an unmarked one is unmarked, so a copy of a stored function body is |
| Marking.CleanFit | bash/execute_cmd.c:5214-5216 | An unmarked tree fits every context, so a fresh copy of a function body may run where failure is ignored and where it is not |
| Marking.Mark | bash/execute_cmd.c:650-656 | Setting the ignore bit of a node where failure is ignored leaves the tree fit for that context |
| Marking.BodiesFit | bash/execute_cmd.c:3715-3760 | The marks of a list of clauses are the marks of its actions, which share no flag word, so running one action leaves the others as they were |
| Interpreter.Shell.Execute | bash/execute_cmd.c:624-1232 | For any tree and any marks left by earlier runs that fit, the executor leaves the history, status, exit and counters that the signal semantics says; never are both counters set; `loop_level` is restored; with a signal pending it does nothing; marks stay fit and stored functions unmarked |
| Interpreter.Shell.ExecutePlain | bash/execute_cmd.c:903-1113 | The dispatch hands the ignore bit to the inner node and agrees with the semantics on every kind of command |
| Interpreter.Shell.ExecuteSequence | bash/execute_cmd.c:2860-2891 | `;` runs both parts with the context marked into both, the second not after a signal |
| Interpreter.Shell.ExecuteAndOr | bash/execute_cmd.c:2922-2965 | An AND-OR list marks its first part always and its second only when ignored itself, and agrees with the semantics |
| Interpreter.Shell.ExecuteGroup | bash/execute_cmd.c:1102-1114 | A brace group passes ignored or inverted failure to its body |
| Interpreter.Shell.ExecuteIf | bash/execute_cmd.c:3861-3889 | The test runs with failure ignored, the branch in the context of the command; a signal in the test skips the branch |
| Interpreter.Shell.ExecuteWhileOrUntil | bash/execute_cmd.c:3795-3856 | The loop of the source, counters and all, computes the iterations of the semantics and restores `loop_level` |
| Interpreter.Shell.WhileIteration | bash/execute_cmd.c:3807-3852 | One iteration, including a `break` or `continue` raised in the test: decremented by a failing test, carried past the skipped body otherwise |
| Interpreter.Shell.LoopBody | bash/execute_cmd.c:3835-3852 | The body runs unless a signal is pending; either way the signal has one loop less to go behind it, and the loop goes on exactly after a normal end or a `continue 1` |
| Interpreter.Shell.EndIteration | bash/execute_cmd.c:3840-3851 | The loop goes on exactly when nothing was breaking and at most this loop was to be continued; each counter loses one if set |
| Interpreter.Shell.ExecuteFor | bash/execute_cmd.c:2989-3125 | The loop over the words agrees with the semantics, an empty list included, and restores `loop_level` |
| Interpreter.Shell.ForIteration | bash/execute_cmd.c:3036-3118 | One iteration binds the next word, runs the action and settles the counters |
| Interpreter.Shell.ExecuteSimple | bash/execute_cmd.c:905-1020 | Inside loops `break n` with n > 0 leaves `breaking` at the smaller of n and `loop_level` and `continuing` at 0, `continue n` the reverse, both with status 0; with n <= 0 either breaks all loops with status 1; outside loops both do nothing. An exit happens exactly when `set -e` is on, the status is not zero, and failure is neither ignored nor inverted |
| Interpreter.Shell.ExecuteFunction | bash/execute_cmd.c:5180-5220 | A call runs a fresh copy of the stored body outside all loops, marked if failure is ignored, and restores `loop_level`; the stored body stays unmarked |
| Interpreter.Shell.CopyFunction | bash/execute_cmd.c:5214-5216 | What a call runs is the stored body in shape, shares no flag word with it, and fits any context |
| Interpreter.Shell.ExecuteCase | bash/execute_cmd.c:3643-3773 | The loop over the clauses agrees with the semantics of `;;`, `;&` and `;;&`, also when a signal is raised in an action and the loop goes on looking |
| Interpreter.Shell.ExecuteMatched | bash/execute_cmd.c:3745-3758 | The inner loop runs the clause that matched and those it falls through to, and stops at the clause the source stops at |
| Interpreter.Shell.ExecuteTopLevel | bash/execute_cmd.c:624-636 | At top level no signal is left over: both counters and `loop_level` are zero again |
| Interpreter.Shell.ExecuteTwice | bash/execute_cmd.c:650-656 | Running the same tree again, with the marks the first run left in it, gives what a first run from that history would give |
| ControlFlow.RunAction | bash/builtins/break.def:47-149 | With n > 0 inside d loops `break n` asks the smaller of n and d loops to break and `continue n` asks them to continue, and nothing else changes; no simple command exits where failure is ignored |
| ArraySpec.MapMeasures | bash/array.c:515-703 | For sorted elements the count is the size of the map and the last index its greatest key, none negative |
| ArraySpec.ToMapInjective | bash/array.c:515-703 | A map has only one sorted list of elements, so contents and map determine each other |
| ArraySpec.InsertAt | bash/array.c:567-590 | Inserting into the gap where an index belongs keeps the order, adds exactly that binding, and the index was not there |
| ArraySpec.RemoveAt | bash/array.c:625-643 | Removing an element keeps the order and removes exactly its binding |
| ArraySpec.IndexAtLeast | bash/array.c:227-231 | The k-th index is at least k, so lowering the rest by the number of elements shifted out never makes one negative |
| ArraySpec.ShiftedSorted | bash/array.c:222-231 | What a shift leaves is sorted and non-negative |
| ArraySpec.ShiftedMap | bash/array.c:192-243 | After a shift by n every index has what the index n above it had, unless that was one of the first n elements |
| ArraySpec.RShiftedSorted | bash/array.c:245-281 | What a right shift leaves is sorted and non-negative, with or without a new first element |
| ArraySpec.RShiftedMap | bash/array.c:245-281 | After a right shift by n every index has what the index n below it had, and index 0 the new value if there is one |
| ArraySpec.PopPush | bash/array.h:155-158 | Push then pop gives the same elements back, for every array |
| RingArray.AddBefore | bash/array.c:48-54 | The linking macro puts the element into the circle and keeps next and previous inverse to each other |
| RingArray.Unlink | bash/array.c:627-628 | Taking an element out leaves a circle of the others |
| RingArray.Spliced | bash/array.c:567-590 | An element put between neighbours of smaller and greater index keeps the indices rising and adds exactly one binding |
| RingArray.WasCut | bash/array.c:625-643 | Without one element the indices still rise and exactly its binding is gone |
| RingArray.NotFound | bash/array.c:667-700 | An index strictly between two neighbouring elements is nowhere in the array |
| RingArray.Ring.constructor | bash/array.c:80-94 | A new array is empty, its dummy head linked to itself |
| RingArray.Ring.Flush | bash/array.c:96-112 | The array is empty and valid again, in the same memory |
| RingArray.Ring.StartSearch | bash/array.c:549-561 | Whatever the roving pointer and the half-way heuristic choose, the search starts at an element with the index sought still ahead in the direction taken |
| RingArray.Ring.Facts | bash/array.c:567-591 | When a search has come too far in its direction, the index is not in the array |
| RingArray.Ring.Onward | bash/array.c:567-591 | A search that has not come far enough can step on without reaching the dummy head |
| RingArray.Ring.Insert | bash/array.c:515-594 | The map gets exactly the new binding and the array stays circular, sorted and exactly counted, from any legal roving pointer |
| RingArray.Ring.InsertWithin | bash/array.c:549-594 | The search ends at the right place from either side and the "problem" exit cannot be reached |
| RingArray.Ring.Remove | bash/array.c:601-650 | Exactly the binding is removed and its element returned unlinked, or null is returned and nothing changes |
| RingArray.Ring.Take | bash/array.c:626-642 | Unlinking keeps count, greatest index and roving pointer right, the latter never at the dummy head |
| RingArray.Ring.Reference | bash/array.c:656-703 | The answer is the map's, from any legal roving pointer; only the roving pointer changes, and a failed search leaves it at a live element |
| RingArray.Ring.Limits | bash/array.c:663-666 | Indices above `max_index` or below the first are not there, and an array without elements is the empty map |
| RingArray.Ring.Shift | bash/array.c:192-243 | The first n elements by position go, every other index is lowered by n, and the chain handed back is exactly the elements removed |
| RingArray.Ring.RShift | bash/array.c:245-281 | Every index is raised by n, a new element 0 goes in front if asked, and the count returned is the new one |
| RingArray.Ring.NestedCalls | bash/execute_cmd.c:5138-5153 | Whatever calls a function body makes, one after the other and inside one another to any depth, the array has its elements back when the call returns |
| RingArray.Ring.Copy | bash/array.c:124-142 | The copy has the same elements in fresh memory and is valid, with a roving pointer of its own |
| RingArray.Ring.AssignList | bash/array.c:771-780 | Assigning a list sets the indices 0, 1, 2 and so on to its words and leaves all others as they were |
| RingArray.Ring.ToWordList | bash/array.c:708-720 | The list holds the values in index order |
| ArraySpec.IndexedOnly | bash/array.c:708-780 | Assigning a list and reading the array back as a list gives the list |
| TableArray.DoubledBounds | bash/array2.c:88-101 | The doubling loop terminates, always covers the index, and overshoots by less than twice |
| TableArray.Table.Resize | bash/array2.c:68-86 | For every n: the map is kept and the table stays valid exactly when n reaches the greatest index; below it the slots from n on are cut off. A table that is large enough is left alone |
| TableArray.Table.Expand | bash/array2.c:88-101 | Afterwards the index is covered, the map is unchanged, and the size is the doubled one, or just beyond the index once doubling would be too much |
| TableArray.Table.Insert | bash/array2.c:632-659 | Exactly the binding is added; the result tells a replacement from a new element |
| TableArray.Table.Reference | bash/array2.c:700-712 | The answer is the map's |
| TableArray.Table.Remove | bash/array2.c:665-695 | Exactly the binding is removed and returned, and bounds and count stay right, also when the array empties |
| TableArray.Table.Rebound | bash/array2.c:677-693 | The scans for new first and last indices end at the right slots |
| TableArray.Table.Flush | bash/array2.c:116-134 | The table is the empty map again |
| ArrayRuns.RingTop | bash/array.c:515-703 | `num_elements` is the size of the map and `max_index` its greatest index, or -1 |
| ArrayRuns.TableTop | bash/array2.c:632-712 | The same for the table, although its first index is only a lower bound |
| ArrayRuns.RunRing | bash/array.c:515-703 | On every run of inserts, removals, lookups and flushes the ring shows what the finite map shows |
| ArrayRuns.RunTable | bash/array2.c:632-712 | On every such run the table shows what the finite map shows |
| ArrayRuns.ShowsOnce | bash/array2.c:632-712 | A run of the finite map leaves no choice about what is seen |
| ArrayRuns.RunBoth | bash/array2.c:632-712 | Every run from empty arrays shows the same answers, counts and greatest indices in both implementations |
| RingRuns.Step | bash/array.c:124-703 | Each of insert, remove, reference, flush, shift, right shift and copy turns the list of entries into the one the list operation gives, and shows the value removed or found |
| RingRuns.Run | bash/array.c:124-703 | On every run of these seven operations, mixed in any way, the ring stays valid, its contents are the fold of the list operations, and every answer, count and greatest index is the one of the list |
| RingRuns.PutMap | bash/array.c:515-594 | Setting an index in the list of entries keeps it sorted and sets exactly that binding of the map |
| RingRuns.WithoutMap | bash/array.c:601-650 | Removing an index from the list of entries keeps it sorted, removes exactly that binding, and finds the value the map has |
| ExprNumbers.Ipow | bash/expr.c:943-961 | The squaring loop computes base to the exp modulo 2^64 in two's complement for every non-negative exponent, the extra last squaring included |
| ExprNumbers.PowStep | bash/expr.c:949-958 | One round of the loop keeps result times base to the exp the same modulo 2^64 |
| ExprNumbers.WrapMulAdd | bash/expr.c:943-961 | Wrapping early does not change a wrapped product or sum |
| ExprTokens.Combine | bash/expr.c:908-922 | The only error of a binary operator is division by zero, and it is never raised while evaluation is off; its values are the subject of ExprValues |
| ExprValues.Sums | bash/expr.c:866-945 | `+`, `-` and `*` are sum, difference and product modulo 2^64 |
| ExprValues.Quotients | bash/expr.c:908-945 | Quotient times divisor plus remainder is the dividend, exactly but for the smallest number by -1, where it is so modulo 2^64; the remainder is smaller than the divisor, and zero or of the sign of the dividend |
| ExprValues.ZeroDivisor | bash/expr.c:908-922 | The error is raised exactly for `/` and `%` by 0 while evaluating |
| ExprValues.Comparisons | bash/expr.c:789-840 | A comparison gives 1 exactly when the relation holds and 0 otherwise |
| ExprValues.Shifts | bash/expr.c:841-863 | A left shift multiplies by the power of two modulo 2^64; a right shift divides by it and rounds down, for negative numbers too |
| ExprValues.Bits | bash/expr.c:732-787 | Every bit of bitwise and, or and exclusive or is the and, or and exclusive or of the two bits of the operands |
| ExprLiterals.Strlong | bash/expr.c:1538-1636 | The scanning loop reads constants as specified, including every error: two `#`, bad base, nothing behind `#`, digit too great |
| ExprLiterals.BaseRoundTrip | bash/expr.c:1538-1636 | For every base 2 to 64, writing a number as base#digits and reading it gives it back up to the greatest `intmax_t`, and modulo 2^64 beyond |
| ExprLiterals.DecimalRoundTrip | bash/expr.c:1538-1636 | Decimal digits read back as their number modulo 2^64; without a leading zero they are never taken for octal |
| ExprLiterals.BaseCaseBlind | bash/expr.c:1606-1628 | Up to base 36 upper and lower case read the same, errors included |
| ExprLiterals.OctalRoundTrip | bash/expr.c:1563-1583 | A zero and then octal digits read back as the number |
| ExprLiterals.HexRoundTrip | bash/expr.c:1563-1583 | `0x` or `0X` and then hexadecimal digits of either case read back as the number |
| ExprLiterals.DigitSigns | bash/expr.c:1606-1628 | The signs for the digits 0 to 63 are the numerals, the small letters, the capitals, `@` and `_`, in this order |
| ExprLiterals.BadBase | bash/expr.c:1588-1595 | Base 1 and every base above 64 is an error |
| ExprLiterals.SecondSign | bash/expr.c:1588-1591 | A second `#` is an error, and so is the first one in an octal constant |
| ExprLiterals.DigitTooGreat | bash/expr.c:1606-1628 | A digit not below the base is an error, wherever it stands |
| ExprSpec.Next | bash/expr.c:1318-1520 | Reading a token consumes input or meets the end, keeps `noeval`, and while evaluation is off binds nothing and raises no arithmetic error, whether it returns or fails |
| ExprBlind.NextBlind | bash/expr.c:1165-1166 | While evaluation is off a token is read without looking at any variable: with other variables, and at any depth of contexts, the outcome is the same |
| ExprBlind.CommasBlind | bash/expr.c:495-1123 | While evaluation is off the same holds of whole expressions: value, tokens and errors depend on the text alone, errors included |
| ExprSpec.Commas | bash/expr.c:495-508 | Evaluating consumes input and returns with `noeval` as it was; while it is non-zero no variable is bound, neither in a run that returns nor in one that ends in an error, and no arithmetic error is raised |
| ExprSpec.Assign | bash/expr.c:510-626 | The same for assignments: unevaluated ones bind nothing, also when an error follows |
| ExprSpec.Conditional | bash/expr.c:628-674 | The same for `?:`, whose branches raise and lower `noeval` |
| ExprSpec.Lors | bash/expr.c:676-702 | The same for logical or |
| ExprSpec.Lands | bash/expr.c:704-730 | The same for logical and |
| ExprSpec.Powers | bash/expr.c:963-986 | The same for `**`, and no `**` is left unread: it folds to the right |
| ExprSpec.Primary | bash/expr.c:1022-1123 | The same for operands, whose lookahead switches evaluation off and on |
| ExprSpec.Subexpr | bash/expr.c:457-493 | Evaluating a nested expression while evaluation is off changes no variable, also when it fails |
| ExprEvaluator.Evaluator.Pushexp | bash/expr.c:266-286 | Saves every field of the context, or fails exactly when 1024 contexts are already saved |
| ExprEvaluator.Evaluator.Popexp | bash/expr.c:290-309 | Restores every field `pushexp` saved and nothing else |
| ExprEvaluator.Evaluator.Readtok | bash/expr.c:1318-1520 | The lexer leaves every global as specified and the stack as it was; an error leaves the variables as specified |
| ExprEvaluator.Evaluator.Peek | bash/expr.c:1380-1391 | Looking one token ahead restores the whole token state and evaluates nothing; if it fails no variable has changed either |
| ExprEvaluator.Evaluator.ReadName | bash/expr.c:1344-1405 | A name is evaluated unless a plain `=` follows it and no `++` or `--` stands before it |
| ExprEvaluator.Evaluator.ExprStreval | bash/expr.c:1149-1256 | A variable's value is evaluated as an expression one context deeper; afterwards every global but the variables is as before; the variables are as specified also after an error in the value |
| ExprEvaluator.Evaluator.EvalSubexpr | bash/expr.c:457-493 | A normal return restores the context and the stack; blank text is 0; text left over is an error; what was bound before an error stays bound |
| ExprEvaluator.Evaluator.Evalexp | bash/expr.c:413-456 | The value and variables of the specification; an error leaves depth 0 and the variables bound up to it; `noeval` is 0 either way |
| ExprEvaluator.Evaluator.Expcomma | bash/expr.c:495-508 | The loop agrees with the specification on value, variables (after an error too), tokens and errors, and terminates by the lexicographic measure |
| ExprEvaluator.Evaluator.Expassign | bash/expr.c:510-626 | The same for `=` and `op=`: the target must be a name, the old value is combined, division by zero is caught, and the binding happens only while evaluating |
| ExprEvaluator.Evaluator.Expcond | bash/expr.c:628-674 | The same for `?:` with its missing-operand and missing-colon errors |
| ExprEvaluator.Evaluator.Explor | bash/expr.c:676-702 | The same for logical or |
| ExprEvaluator.Evaluator.Expland | bash/expr.c:704-730 | The same for logical and |
| ExprEvaluator.Evaluator.Explevel | bash/expr.c:732-886 | The same for the seven levels from bitwise or to addition, left-associative |
| ExprEvaluator.Evaluator.Expmuldiv | bash/expr.c:888-945 | The same for `*`, `/` and `%`, with division by zero an error only while evaluating |
| ExprEvaluator.Evaluator.Exppower | bash/expr.c:963-986 | The same for `**`, right-associative, with a negative exponent an error only while evaluating |
| ExprEvaluator.Evaluator.Expunary | bash/expr.c:988-1020 | The same for `!`, `~`, `-` and `+` |
| ExprEvaluator.Evaluator.Exp0 | bash/expr.c:1022-1123 | The same for parentheses, numbers, names, and increments before and behind names |
| ExprReading.NextPlain | bash/expr.c:1421-1519 | The lexer reads back the sign of any operator between operands |
| ExprReading.NextName | bash/expr.c:1344-1405 | The lexer reads a whole name and evaluates it unless an assignment follows |
| ExprReading.NextPost | bash/expr.c:1458-1459 | Behind a name `++` and `--` are read as post-increment and post-decrement |
| ExprMeaning.Lower | bash/expr.c:495-1020 | What a tight level evaluates, every looser level evaluates too when no operator of a level between follows |
| ExprMeaning.Evaluate | bash/expr.c:495-1123 | Wherever the printed form of a tree stands in a text, with the parentheses that place needs, the grammar evaluates exactly it: value, errors, and the variables after either, evaluation on or off |
| ExprLaws.Agreement | bash/expr.c:21-56 | For every tree, at every depth, evaluating its printed form with minimal parentheses gives the value, or the error, and in both cases the variables, of the left-to-right semantics |
| ExprLaws.EvaluatePrinted | bash/expr.c:413-456 | So `evalexp` itself, on a fresh evaluator, answers with the value or error of the tree and leaves its variables |
| ExprText.TwoOperands | bash/expr.c:732-986 | For every binary operator as it is written between two variables that hold any numbers, the text evaluates to what the operator means, stated without the evaluator (ExprText.Denotes), or to the one error it can end in |
| ExprText.ThreeOperands | bash/expr.c:21-56 | For any two operators between three operands the tighter one takes the middle operand, by a table of nine levels; at the same level the left one does, but for `**` the right one |
| ExprText.UnaryOperand | bash/expr.c:988-1020 | `-`, `+`, `~` and `!` give the negation modulo 2^64, the number itself, -n-1, and 1 exactly for 0 |
| ExprText.UnaryFirst | bash/expr.c:988-1020 | A unary operator binds tighter than any binary one, `**` included |
| ExprText.Logical | bash/expr.c:676-730 | Logical and gives 1 exactly when both operands are not zero, logical or exactly when one of them is not; otherwise 0 |
| ExprText.UnsetIsZero | bash/expr.c:1149-1256 | A variable that is unset or empty evaluates to 0 |
| ExprEffects.Assigned | bash/expr.c:510-626 | `x = y` stores the value of y in x and has it as its value |
| ExprEffects.AssignedTwice | bash/expr.c:510-626 | `x = y = z` stores the value of z in both |
| ExprEffects.Updated | bash/expr.c:510-626 | `x op= y`, for every operator with such a form, stores what the operator makes of both values and has it as its value; if that is an error nothing is stored |
| ExprEffects.Bumps | bash/expr.c:1022-1118 | `++` and `--` store the number one up or down; in front they have the new number as their value, behind the old one |
| ExprEffects.Chosen | bash/expr.c:628-674 | `x ? y : z` has the value of y if x is not zero and of z otherwise |
| ExprEffects.ChosenAlone | bash/expr.c:628-730 | An assignment in the branch not chosen, or in an operand of a logical operator that is not wanted, does not happen; in the other it does |
| ExprEffects.Followed | bash/expr.c:495-508 | Behind a comma the assignment in front of it is seen, and the value is that of the last part |
| ExprRejects.SignTooMany | bash/expr.c:484-486 | A closing parenthesis or a colon behind a whole expression is a syntax error, raised after the expression has been evaluated |
| ExprRejects.ParenMissing | bash/expr.c:1058-1067 | An opening parenthesis never closed is an error, raised after what follows has been evaluated |
| ExprRejects.OperandMissing | bash/expr.c:1119-1120 | A binary operator with nothing behind it is an error, whatever expression is in front |
| ExprRejects.NumberAssigned | bash/expr.c:524-530 | Assigning to a number, with any assignment operator, is an error and binds nothing |
| ExprRejects.ColonMissing | bash/expr.c:650-655 | `?` without `:` is an error; the branch is evaluated before it is raised exactly when the condition is not zero |
| ExprRejects.ConstantRejected | bash/expr.c:1406-1418 | A number that cannot be read ends the evaluation with the error of reading it |
| ExprLaws.ItosValue | bash/expr.c:606-615 | The text an assignment stores for a number evaluates to that number, the smallest included, with no effect |
| ExprLaws.BindThenLookup | bash/expr.c:330-353 | A variable that has just been assigned evaluates to what was assigned |
| ExprLaws.SelfReference | bash/expr.c:266-286 | A variable whose value is its own name gives the recursion error at every depth, so evaluation ends |
| MiniGrammar.StringBack | 42-minishell/parse2.c:99-132 | Parsing the pieces of a printed string gives the string and stops behind it |
| MiniGrammar.ArgumentsBack | 42-minishell/parse2.c:64-97 | The same for arguments and redirections in any order |
| MiniGrammar.PipelineBack | 42-minishell/parse2.c:10-38 | The same for pipelines |
| MiniGrammar.CommandsBack | 42-minishell/parse1.c:54-91 | The same for sequences, with and without a last semicolon |
| MiniGrammar.LineBack | 42-minishell/parse1.c:4-31 | Parsing the printed tokens of any command line and a newline gives that tree and no error |
| MiniLines.AcceptedIff | 42-minishell/parse1.c:4-31 | A line is accepted with a tree if and only if it has a newline and what stands before the first one is the printed form of that tree, a correct one, up to spaces that separate nothing |
| MiniLines.AcceptedLinked | 42-minishell/parse2.c:134-169 | In an accepted line every redirection is followed by text and every bar by a command |
| MiniLines.DocsInOrder | 42-minishell/parse3.c:4-22 | The here-documents of a tree are those read off its tokens from left to right |
| MiniParser.ConcatHeredocs | 42-minishell/parse3.c:4-22 | Walking to the end of one list and splicing the other behind it gives the concatenation, in place, for empty lists too |
| MiniParser.Parser.String | 42-minishell/parse2.c:99-132 | The string parser computes the specified tree and leaves the specified input |
| MiniParser.Parser.Redirected | 42-minishell/parse2.c:134-169 | There is a redirection exactly when one stands next in the input, and it is an error exactly when no word follows it; a here-document makes a list of one, anything else none |
| MiniParser.Parser.Arguments | 42-minishell/parse2.c:64-97 | Tree, error flag and input as specified; the node's list is exactly the here-documents in it, in order |
| MiniParser.Parser.PipedCommands | 42-minishell/parse2.c:4-38 | The same for pipelines; nothing behind a bar is an error |
| MiniParser.Parser.SequentialCommands | 42-minishell/parse1.c:54-91 | The same for sequences |
| MiniParser.Parser.CommandLine | 42-minishell/parse1.c:4-31 | A tree is returned exactly when the line parses without error up to the newline (MiniLines.AcceptedIff says which lines these are); its list is the line's here-documents in source order, each once |
| MiniParser.ReadBack | 42-minishell/parse1.c:4-31 | The parser run on the printed tokens of any tree returns that tree, with no error flag and with exactly its here-documents |
| MiniParser.ReadAny | 42-minishell/parse1.c:4-31 | The parser run on any tokens: if it returns a tree, the line spells that tree and the list is its `<<` tokens in order; if it returns none, there is no newline or no correct tree is spelled like that |

## Left out

- Brace expansion: `$(...)`, `<(...)`, `>(...)` and `${ ...;}` spans and what a `{x..y}` term generates are parameters of the scan (their parsers are not modelled); multibyte steps and the locale branches of `sh_backslash_quote` are left out, as are allocation failures, interrupts and the limit on the number of elements.
- BraceKept.PairKept: two adjacent dots are excluded, because they make a sequence: BraceKept.SequenceExpands and BraceKept.MixedKept are about those; forms with an increment (`{1..9..2}`) are in the model but have no law of their own.
- BraceKept.QuotesKept: inside double quotes and back quotes no `$` and no backslash, since these may begin spans the scan only skips.
- BraceUnquote.UnquoteMeaning: quote removal is the removal of backslashes, which is all that munging adds.
- BraceMunge.BackslashQuote: a quoted newline stands for itself here, while the full shell grammar would read backslash-newline as a line continuation; the round trip is about brace expansion and quote removal only.
- BraceRoundTrip.HackBracesCompletion: `qsort` is any sorting by `_strcompare` (CompletionOrder.SortedOnce), and `MB_CUR_MAX > 1` is a parameter; the freed list of names is not modelled.
- BraceMunge.ReallyMungeBraces: requires BraceMunge.Fits, that no byte behind the end of a name is asked for, because outside it the C code has no defined result; every list that can be folded, and so every sorted one, meets it.
- Interpreter.Shell: simple commands, `set -e`, word lists and pattern matches are answers of a parameter `World` that may depend on the whole history; pipelines, subshells, background lists, redirections, traps, `select`, arithmetic `for`, `((`, `[[` and `return` are left out, and so are variable binding failures in `for`.
- Interpreter.Shell.Execute: runs are cut off after a given number of loop iterations and calls, because the source's loops need not end; ControlFlowLaws.MoreClock shows that the cut-off does not matter to runs that end.
- Interpreter.Shell.ExecuteFunction: function bodies are fixed during a run (no redefinition), `loop_level` is always 0 inside (current compatibility level), and a missing function answers 127.
- Interpreter.Shell.ExecuteCase: the pattern list of a clause is one question to `World`, and pattern expansions have no effects.
- Interpreter.Shell.WhileIteration: a `continue` in a failing loop test leaves the loop, and a signal in a succeeding test skips the body; this is what the code does and it is kept, although a reader of section 2.14 of XCU, POSIX.1-2017 might expect otherwise.
- CommandTree: `!` in front of an AND-OR list is excluded, because the parser puts it only on pipelines; command trees are values whose flag words are heap cells, since only those are written.
- ControlFlowTraces.GoesOut: the commands in front of the place are plain ones and the tests in front of it too; that anything may stand there is the business of Interpreter.Shell.Execute.
- ControlFlowTraces.PlainTakesEveryWord: the word count is asked once, before the loop, as the source expands the list once.
- CopyTree.CopyCommand: words, redirections, line numbers and the command kinds named above are not part of the tree.
- Arrays: indices are unbounded integers, values are never null, and disposing of elements is not modelled; `array_slice`, `array_from_argv` and the shift operations of `array2.c` do not follow the map and are left out.
- TableArray.Table.Insert: slots hold values instead of pointers to elements; it answers -1 for a new element where `array.c` answers 0, as the code does.
- ExprEvaluator.Evaluator.ReadName: an array subscript is answered with the bad-subscript error; namerefs, unset-variable errors, read-only and integer variables and the text of error messages are left out.
- ExprEvaluator.Evaluator.Explevel: one method for the seven functions `expbor` to `expaddsub`, which differ only in their operators; the token variable `assigntok` is part of the assignment token, and the read position `tp` is the text that is left.
- ExprLiterals.Strlong: built as by default, without CHECK_OVERFLOW and without STRICT_ARITH_PARSING, which also holds for the lexer.
- ExprTokens.Arith: signed overflow wraps and shift counts are taken modulo 64, where the C standard promises nothing.
- ExprEvaluator.Evaluator.Expmuldiv: for the smallest number and -1 the source leaves its last-token variable as it was; the model keeps that.
- ExprLaws.Agreement: the printed form has one space before every token, so the two readings of `x+++y` do not arise; variables inside a tree mean what the evaluator says they mean, since their values are again text.
- Minishell: the lexer, the node list kept for freeing, `parse_command` (which only forwards) and the bonus grammar; the environment list, expansion and execution.
