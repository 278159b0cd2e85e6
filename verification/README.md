# Skynet and its libraries, verified

This project models the parts of the skynet repository with the most intricate
logic, and proves what they are there for. The specification of each part is
written apart from its algorithm, and the algorithm is proved against it.

**LPeg** (`skynet/3rd/lpeg`). The meaning of a pattern is defined as a parsing
expression (`PegSyntax.Eval`). The compiler is modelled twice: as a function
from trees to code (`CodeGen`), and as the program that appends to the code
array and patches it (`Emit`), which is proved to make the same code. The
matching machine is a step function (`Vm`) and a loop with a growing stack
(`Matcher`), proved to follow it. The main results are that the compiled and
optimized code reports exactly what the pattern means, on every subject, and
that it always halts for patterns that pass the grammar checks
(`Compiler.CompileCorrect`, `Compiler.CompileTotal`, `LpMatch.Match`).

The checks of the source are weaker than they are meant to be, and the code is
kept as it is. For a sub-grammar `verifyrule` returns whether it is nullable
and forgets the accumulator `nb`. So `S <- -G p`, with a `G` that is not
nullable, is accepted whatever `p` calls (`Pitfalls.SkippingAccepted`). With
`S` for `p` it is left recursive: for `G <- 'a'` matching never ends, and for
`G <- false` not even compiling does. A look-behind may hold a call inside a
predicate, although a comment in `verifyrule` says that it cannot; then matching
stops with the stack-overflow error. (`lp_behind` asks for captures first, and
that meets an assertion on an open call. With assertions compiled in, the
last pattern is not built.) `Pitfalls` proves all this of the compiled code.

`Termination` proves halting for all patterns that pass the check with `nb`
taken into account (the parameter `honest`) and says exactly what that check
decides: it accepts what the source accepts and has no left recursion
(`VerifyExact`, `AcceptedExactly`). On patterns whose sub-grammars are nullable
where it matters, the source makes the same decision (`FairAccepted`), so what
it accepts halts (`Compiler.FairTotal`). Passing the corrected check is not
necessary for halting (`HonestIsCautious`); like all checks for left recursion
it is cautious.

**Scheduler** (`skynet_mq.c`, `skynet_server.c`, `skynet_handle.c`). The ring
buffer and the linked list are classes (`MessageQueue`). On top of what they
do, `Scheduler` is a state machine of threads, each a stack of frames, with one
step for each region under a lock and each atomic operation. `Dispatching` shows
that its invariant holds in every interleaving of any number of threads, and
what follows from it. One thing that should follow does not: in
`skynet_context_new` the launching thread marks the context, and reads its handle
for the log, after it has given up its reference. If another thread retires the
handle in between, the context has been freed by then (`UsedAfterFree`). Every
other step is sound in every reachable state, and these two are if and only if
the context is still registered or referred to (`SoundExactly`). `Delivery` shows
that each message sent is pushed once, that a round takes the share of its worker,
and that senders are told of dropped messages. `Rest` shows that no reachable state
is stuck: if no new work comes in, threads can go on until all is done, and every
message that was ever sent has then been taken (`CanComeToRest`).

**Timer** (`skynet_timer.c`). The five levels of linked lists refine a list of
deadlines, from any initial value of the 32-bit clock and across its wrap.

**Digits** (`dtoa.c`). Words of 32 bits with carries and borrows compute exact
values, the quotient estimate is at most one too low, and the digit loop rounds
half-even (`Convert`).

**Sockets** (`socket_server.c`). The write side with its two lists, direct
writes and partial writes (`SocketWrite`), with the order of the stream and who
overtakes whom (`HighOvertakes`, `NeverOvertaken`), and the life of a socket up to the
report of its end (`SocketLife`). A comment in front of `close_socket` says that
the close is raised only once, which is proved. That a socket which is closed
sends what was accepted before is proved too; that it then ends is not always so:
a request that arrives after the close is dropped, and if it was the last thing
the socket waited for, nothing turns an event of the socket on again
(`StrandedExactly`, `ClosedWhileSending`).

**Shared tables** (`lua-sharedata.c`), **packets in a stream**
(`lua-netpack.c`) and the **key exchange** (`lua-crypt.c`): a hash table that is
built in two passes and read in place, a framer that does not depend on how a
stream is cut into pieces, and modular arithmetic with wrapping words. `powmodp`
gives the power except for P to the power of one, which it does not reduce.

Conventions: a comment names the function of the source that a member models.
`hide` at the head of a proof keeps definitions out of it that it does not need.
A ghost parameter of a method stands for something its caller knows, such as the
tree an array of nodes stands for.

## Model

| member | source | states |
|---|---|---|
| Analysis.NullableSound | skynet/3rd/lpeg/lpcode.c:196-230 | `checkaux`: a pattern that is not nullable consumes at least one character whenever it matches |
| Analysis.NullableExact | skynet/3rd/lpeg/lpcode.c:178-230 | `checkaux`: without predicates both answers are exact and the same: a pattern is nullable, and sure not to fail, if and only if it matches the empty subject |
| Analysis.NofailSound | skynet/3rd/lpeg/lpcode.c:205-230 | `checkaux`: a pattern that is marked as never failing never fails, on any subject |
| Analysis.FixedLenSound | skynet/3rd/lpeg/lpcode.c:236-273 | `fixedlen`: every match of a pattern of length n >= 0 consumes exactly n characters |
| Analysis.MarksHideNothing | skynet/3rd/lpeg/lpcode.c:133-146 | `callrecursive`: marking the rules being visited never hides a capture that some chain of calls reaches |
| Analysis.HasCapturesSound | skynet/3rd/lpeg/lpcode.c:152-175 | `hascaptures`: a pattern without captures never adds a capture entry |
| Analysis.FirstSound | skynet/3rd/lpeg/lpcode.c:294-370 | `getfirst`: a consuming match starts in the first set; an empty match in front of a follow character has that character in the set; a match of the empty rest sets the flag |
| Analysis.HeadfailExact | skynet/3rd/lpeg/lpcode.c:377-399 | `headfail`: such a pattern matches if and only if the next character exists and lies in its first set |
| CodeGen.CharsetType | skynet/3rd/lpeg/lpcode.c:41-82 | `charsettype`: empty and full sets are recognised exactly, and a single character is the only member of its set |
| CompilerCorrect.TestRuns | skynet/3rd/lpeg/lpcode.c:614-635 | `codetestset`: the test instruction passes if and only if the next character is in the set, and otherwise takes its jump |
| CompilerCorrect.CharsetRuns | skynet/3rd/lpeg/lpcode.c:588-605 | `codecharset`: with or without the guarding test, the code accepts exactly the members of the set |
| CompilerCorrect.ChoiceByTestDecides | skynet/3rd/lpeg/lpcode.c:684-695 | `codechoice`: where the test replaces a backtrack entry, the alternative that is not tried could not have led to a match that can go on |
| CompilerCorrect.SimulatesChoice | skynet/3rd/lpeg/lpcode.c:677-712 | `codechoice`: all three forms deliver what the ordered choice means |
| CompilerCorrect.SimulatesAnd | skynet/3rd/lpeg/lpcode.c:720-736 | `codeand`: both forms deliver what the and-predicate means |
| CompilerCorrect.SimulatesCapture | skynet/3rd/lpeg/lpcode.c:745-757 | `codecapture`: both forms leave the entries of the capture around those of its body |
| CompilerCorrect.CloseEncloses | skynet/3rd/lpeg/lpvm.c:323-338 | `ICloseCapture`: closing in place or with a new entry gives the same list of entries as the definition of a capture |
| CompilerCorrect.SimulatesRep | skynet/3rd/lpeg/lpcode.c:777-813 | `coderep`: span, test loop and partial-commit loop all deliver what the repetition means |
| CompilerCorrect.SimulatesNot | skynet/3rd/lpeg/lpcode.c:823-837 | `codenot`: the code delivers what the not-predicate means |
| CompilerCorrect.SimulatesSeq | skynet/3rd/lpeg/lpcode.c:899-911 | `codeseq1`: the follow set passed to the first part and the test passed to the second are sound |
| CompilerCorrect.SimulatesGrammar | skynet/3rd/lpeg/lpcode.c:868-884 | `codegrammar`: the code of a grammar, its calls resolved, delivers what its initial rule means |
| Calls.CorrectCallsResult | skynet/3rd/lpeg/lpcode.c:844-861 | `correctcalls`: every open call becomes a call of its rule, or a jump to it in front of a return, and nothing else changes |
| CompilerCorrect.Simulates | skynet/3rd/lpeg/lpcode.c:919-944 | `codegen`: code loaded anywhere, started at any position with any stack and captures, delivers what its tree means, for all values of `opt`, `tt` and `fl` |
| Compiler.CodeOfCorrect | skynet/3rd/lpeg/lpcode.c:1001-1006 | The code before the peephole pass reports exactly the outcome of the pattern, from every position of every subject |
| Peephole.ChangePreserves | skynet/3rd/lpeg/lpcode.c:958-993 | One step of `peephole` on any code, compiled or not: whatever end the old code comes to, the new code comes to it |
| Peephole.PeepholePreserves | skynet/3rd/lpeg/lpcode.c:956-995 | `peephole`: the whole pass keeps the end of every run on every subject |
| Compiler.CompileCorrect | skynet/3rd/lpeg/lpcode.c:1001-1010 | `compile`: running the code reports exactly what the pattern means: no match, or the end of the match and its captures |
| Compiler.CompileTotal | skynet/3rd/lpeg/lpvm.c:149-360 | For a pattern that passes the (corrected) checks the machine always halts, with that report |
| Depths.CodeStable | skynet/3rd/lpeg/lpcode.c:294-399 | The analyses recurse to a bounded depth: from some depth on, looking deeper changes no bit of the code |
| Depths.DepthDoesNotMatter | skynet/3rd/lpeg/lpcode.c:919-944 | For an accepted pattern the depth at which the model stops the analyses is deep enough |
| Emit.CompileState.AddInstruction | skynet/3rd/lpeg/lpcode.c:494-499 | `addinstruction`: one slot is appended |
| Emit.CompileState.AddOffsetInst | skynet/3rd/lpeg/lpcode.c:505-510 | `addoffsetinst`: an instruction and an empty offset are appended |
| Emit.CompileState.JumpToThere | skynet/3rd/lpeg/lpcode.c:543-546 | `jumptothere`: only the offset of the instruction changes, to the relative target |
| Emit.CompileState.JumpToHere | skynet/3rd/lpeg/lpcode.c:552-554 | `jumptohere`: the target is the end of the code |
| Emit.CompileState.AddCharset | skynet/3rd/lpeg/lpcode.c:573-580 | `addcharset`: the buffer holds the set |
| Emit.CompileState.EmitChar | skynet/3rd/lpeg/lpcode.c:561-567 | `codechar`: reads the guarding test back from the code array |
| Emit.CompileState.EmitCharset | skynet/3rd/lpeg/lpcode.c:588-605 | `codecharset`, likewise |
| Emit.CompileState.EmitTestSet | skynet/3rd/lpeg/lpcode.c:614-635 | `codetestset`: appends a test whose jump is still open, or nothing |
| Emit.CompileState.GenCode | skynet/3rd/lpeg/lpcode.c:919-944 | `codegen`: appends exactly the code that `CodeGen.Code` defines and leaves the code before it alone |
| Emit.CompileState.GenSeq1 | skynet/3rd/lpeg/lpcode.c:899-911 | `codeseq1`: returns the address of the test that still guards the second part |
| Emit.CompileState.GenBehind | skynet/3rd/lpeg/lpcode.c:659-663 | `codebehind` |
| Emit.CompileState.GenChoice | skynet/3rd/lpeg/lpcode.c:677-712 | `codechoice`: the jumps patched afterwards are the offsets of the specification |
| Emit.CompileState.GenRep | skynet/3rd/lpeg/lpcode.c:777-813 | `coderep`, likewise |
| Emit.CompileState.GenNot | skynet/3rd/lpeg/lpcode.c:823-837 | `codenot`, likewise |
| Emit.CompileState.GenAnd | skynet/3rd/lpeg/lpcode.c:720-736 | `codeand`, likewise |
| Emit.CompileState.GenCapture | skynet/3rd/lpeg/lpcode.c:745-757 | `codecapture` |
| Emit.CompileState.GenGrammar | skynet/3rd/lpeg/lpcode.c:868-884 | `codegrammar`: with the rules in place and the calls corrected |
| Emit.CompileState.GenRules | skynet/3rd/lpeg/lpcode.c:873-880 | The loop of `codegrammar`: where each rule starts |
| Emit.CompileState.GenCall | skynet/3rd/lpeg/lpcode.c:887-891 | `codecall`: an open call that keeps the number of its rule |
| Emit.CompileState.FindTarget | skynet/3rd/lpeg/lpcode.c:641-645 | `finaltarget`: the loop ends, at an instruction that is no jump |
| Emit.CompileState.FixCalls | skynet/3rd/lpeg/lpcode.c:844-861 | `correctcalls`: the loop in place computes `CodeGen.CorrectCalls`, on the part behind `from` only |
| Emit.CompileState.OptimizeOne | skynet/3rd/lpeg/lpcode.c:960-992 | The switch of `peephole`, with its `goto redo` |
| Emit.CompileState.OptimizeAll | skynet/3rd/lpeg/lpcode.c:956-995 | `peephole`: the loop in place computes `Peephole.PeepholeFrom` |
| Emit.CompilePattern | skynet/3rd/lpeg/lpcode.c:1001-1010 | `compile`: the imperative compiler makes exactly the code `Compiler.Compile` stands for |
| Jumps.RuleStartEnds | skynet/3rd/lpeg/lpcode.c:641-645 | No chain of jumps from the start of a used rule is endless, since the machine gets away from there |
| Chains.PeepholeFinishes | skynet/3rd/lpeg/lpcode.c:946-995 | `peephole` does all that it is for, where chains end: afterwards the label of no instruction is a jump, and no jump leads to a return, a failure, the end or a commit |
| Settling.CompiledFinishes | skynet/3rd/lpeg/lpcode.c:946-995 | So it is in the compiled code of every accepted pattern |
| Settling.PatternChainsEnd | skynet/3rd/lpeg/lpcode.c:956-995 | In the code of an accepted pattern every chain of jumps ends |
| Settling.AcceptedSettles | skynet/3rd/lpeg/lpcode.c:844-861 | So do all chains in every sub-grammar when its calls are corrected, and none leaves the code of its rules |
| Chains.OptimizedEnds | skynet/3rd/lpeg/lpcode.c:958-993 | Optimizing one instruction makes no chain endless |
| Chains.BoundSuffices | skynet/3rd/lpeg/lpcode.c:641-645 | `finaltarget`: a chain that ends does so within the bound of the specification, by counting |
| Chains.ReturnBehind | skynet/3rd/lpeg/lpcode.c:849-855 | `correctcalls`: whether a call stands in front of a return does not depend on the code before the grammar |
| Termination.VerifyExact | skynet/3rd/lpeg/lptree.c:1002-1042 | `verifyrule`, answering for sub-grammars as for other patterns: it accepts if and only if the calls made without consuming are bounded, and its answer is then whether the pattern is nullable |
| Termination.CheckLoopsExact | skynet/3rd/lpeg/lptree.c:952-969 | `checkloops` rejects a rule if and only if a repetition whose body is nullable stands somewhere in it, sub-grammars aside |
| Termination.CalledExactly | skynet/3rd/lpeg/lptree.c:54-71 | A rule is used by a tree if and only if a call of it stands in the tree, sub-grammars aside |
| Termination.Halts | skynet/3rd/lpeg/lptree.c:952-1042 | Enough fuel exists for every part of an accepted pattern at every position: the measure is nesting, remaining subject, left calls, tree |
| Termination.AcceptedHalts | skynet/3rd/lpeg/lptree.c:1045-1063 | Every pattern accepted by the corrected checks has an outcome on every subject |
| Termination.FairAccepted | skynet/3rd/lpeg/lptree.c:1002-1063 | On patterns in which no sub-grammar that is met with `nb` set is other than nullable, and no look-behind makes a call, the checks of the source accept exactly what the corrected checks accept |
| Termination.AcceptedExactly | skynet/3rd/lpeg/lptree.c:1002-1063 | What the corrected checks accept is exactly what the source accepts and has no left recursion |
| Compiler.FairTotal | skynet/3rd/lpeg/lptree.c:1045-1063 | So for such a pattern, accepted by the source, the machine always halts, with the report of what the pattern means |
| Pitfalls.SkippingAccepted | skynet/3rd/lpeg/lptree.c:1021-1039 | `S <- -G p` with a sub-grammar `G` that is not nullable: the checks of the source accept it whatever `p` calls, as `p` is never looked at |
| Pitfalls.SourceAcceptsLooping | skynet/3rd/lpeg/lptree.c:1002-1042 | Counterexample: the checks of the source accept `S <- -G S` with `G <- "a"` |
| Pitfalls.LoopingNeverEnds | skynet/3rd/lpeg/lpvm.c:149-360 | and where the subject does not go on with "a" the machine never comes to an end on the compiled code, with at most two entries on its stack |
| Pitfalls.SourceAcceptsJammed | skynet/3rd/lpeg/lptree.c:1002-1042 | Counterexample: they accept `S <- -G S` with `G <- false` |
| Pitfalls.JammedNeverCompiles | skynet/3rd/lpeg/lpcode.c:641-653 | and `peephole`, at the first instruction of the code of that pattern, calls `finaltarget` on a chain of jumps without an end |
| Pitfalls.SourceAcceptsLookingBack | skynet/3rd/lpeg/lptree.c:680-690 | Counterexample: they accept `S <- B(&(S "x"))`, a look-behind of length 0 with a left-recursive call inside a predicate |
| Pitfalls.LookingBackOverflows | skynet/3rd/lpeg/lpvm.c:66-83 | and on every subject the machine exceeds every limit of the stack, so that `match` stops with the overflow error |
| Pitfalls.HonestIsCautious | skynet/3rd/lpeg/lptree.c:1002-1042 | The corrected check is not necessary for halting: a grammar it rejects and the source accepts fails at once on every subject |
| Matcher.DoubleStack | skynet/3rd/lpeg/lpvm.c:66-83 | `doublestack`: more room up to the limit, or the stack-overflow error exactly at it |
| Matcher.Read | skynet/3rd/lpeg/lpvm.c:185-232 | The instructions that read the subject and record captures do what a step of the machine does |
| Matcher.Transfer | skynet/3rd/lpeg/lpvm.c:233-280 | The instructions that jump and work on the stack do what a step of the machine does |
| Matcher.Backtrack | skynet/3rd/lpeg/lpvm.c:281-294 | The label `fail`: pending calls are dropped, the entry below is restored |
| Matcher.Match | skynet/3rd/lpeg/lpvm.c:149-360 | `match`: the loop reports the end of the run, or an overflow if and only if the run needs more entries than allowed |
| LpMatch.FixedAlike | skynet/3rd/lpeg/lptree.c:100-126 | `finalfix` changes no answer of nullable, nofail, fixedlen, checkloops and the other checks |
| LpMatch.InitPosition | skynet/3rd/lpeg/lptree.c:1138-1150 | `initposition`: the position that the argument names from the front or from the end, or the end of the subject if that is behind it, or the beginning if it is before it |
| LpMatch.OneMeaning | skynet/3rd/lpeg/lpvm.c:149-360 | A pattern has one meaning at most at each position of a subject |
| LpMatch.Match | skynet/3rd/lpeg/lptree.c:1156-1174 | `lp_match`: the array of a pattern is fixed in place, read, compiled and run; the report is what the pattern as it was built means at the initial position, or the overflow error if and only if the run is too deep |
| Trees.LiteralMatches | skynet/3rd/lpeg/lptree.c:401-411 | `fillseq`: the tree of a string matches that string and nothing else |
| Trees.NumberMatches | skynet/3rd/lpeg/lptree.c:419-435 | `numtree`: n matches exactly n characters, -n matches without consuming where fewer than n are left |
| Trees.SequenceMeans | skynet/3rd/lpeg/lptree.c:532-542 | `lp_seq`: the shortcuts for true and false keep the meaning |
| Trees.ChoiceMeans | skynet/3rd/lpeg/lptree.c:551-566 | `lp_choice`: joining sets and dropping the second part after a pattern that never fails keep the meaning, however many calls of finished sub-grammars `nofail` follows |
| Trees.DifferenceMeans | skynet/3rd/lpeg/lptree.c:627-646 | `lp_sub`: the set difference and the general form both match where the second pattern does not |
| Trees.AtLeastMeans | skynet/3rd/lpeg/lptree.c:580-583 | `lp_star`, n >= 0: what is made matches exactly n times and then any number of times |
| Trees.StarChecksLoops | skynet/3rd/lpeg/lptree.c:578-579 | `lp_star`: the error for a body that may accept the empty string is never raised for what `checkloops` lets through, and unless the body has open calls a repetition that is made adds nothing for `checkloops` to reject |
| Trees.AtMostMeans | skynet/3rd/lpeg/lptree.c:585-600 | `lp_star`, n < 0: at most -n matches, as many as there are |
| Trees.FixedLeansRight | skynet/3rd/lpeg/lptree.c:100-126 | `finalfix`: no sequence is left with a sequence as its first part, and no choice with a choice |
| Trees.FixedMeans | skynet/3rd/lpeg/lptree.c:78-126 | `correctassociativity` and `finalfix` keep the outcome of every match |
| FlatTrees.CorrectAssociativity | skynet/3rd/lpeg/lptree.c:78-90 | `correctassociativity`: shuffling the flat node array in place gives the array of the rotated tree; nodes elsewhere stay |
| FlatTrees.FinalFix | skynet/3rd/lpeg/lptree.c:100-126 | `finalfix`: the array of a tree becomes the array of the fixed tree |
| FlatTrees.FillSeq | skynet/3rd/lpeg/lptree.c:401-411 | `fillseq`: the array written is that of the chain of characters, in 2n-1 nodes |
| FlatTrees.SeqAux | skynet/3rd/lpeg/lptree.c:389-393 | `seqaux`: a sequence node with a copy behind it |
| FlatTrees.Star | skynet/3rd/lpeg/lptree.c:576-584 | `lp_star`, n >= 0: the error if and only if the body is nullable as far as is known, otherwise the array of the new tree, every node of it used |
| FlatTrees.ReadTree | skynet/3rd/lpeg/lptree.h:73-74 | An array of nodes stands for one tree at most, which is found by following the children |
| FlatTrees.StarAtMost | skynet/3rd/lpeg/lptree.c:585-599 | `lp_star`, n < 0: likewise |
| MessageQueue.Queue.constructor | skynet/skynet-src/skynet_mq.c:77-96 | `skynet_mq_create`: empty and marked as being in the global queue |
| MessageQueue.Queue.Length | skynet/skynet-src/skynet_mq.c:111-125 | `skynet_mq_length`: the number of messages, also when the ring has wrapped |
| MessageQueue.Queue.Overload | skynet/skynet-src/skynet_mq.c:127-135 | `skynet_mq_overload`: reports the overload once |
| MessageQueue.Queue.Pop | skynet/skynet-src/skynet_mq.c:137-172 | `skynet_mq_pop`: the oldest message, or the mark is cleared; the overload threshold is doubled until it is not exceeded, and reset when the queue is empty |
| MessageQueue.Queue.Expand | skynet/skynet-src/skynet_mq.c:174-187 | `expand_queue`: a larger ring with the same messages in the same order |
| MessageQueue.Queue.Push | skynet/skynet-src/skynet_mq.c:189-209 | `skynet_mq_push`: the message is the last one, and the queue enters the global queue if it was not marked |
| MessageQueue.Queue.MarkRelease | skynet/skynet-src/skynet_mq.c:219-228 | `skynet_mq_mark_release` |
| MessageQueue.GlobalQueue.Push | skynet/skynet-src/skynet_mq.c:43-56 | `skynet_globalmq_push`: the linked list gets the queue at its end |
| MessageQueue.GlobalQueue.Pop | skynet/skynet-src/skynet_mq.c:58-75 | `skynet_globalmq_pop`: the first queue is unlinked |
| Scheduler.LaunchKeeps | skynet/skynet-src/skynet_server.c:125-158 | `skynet_context_new`: registering a context keeps the invariant |
| Scheduler.StartedKeeps | skynet/skynet-src/skynet_server.c:164-165 | `skynet_context_new`, when the service has started: giving up the own reference, or the context with the last one, keeps the invariant |
| Scheduler.StoreKeeps | skynet/skynet-src/skynet_server.c:165-167 | Marking the context as started up keeps the invariant |
| Scheduler.PublishKeeps | skynet/skynet-src/skynet_server.c:168-171 | Its queue enters the global queue, which keeps the invariant |
| Scheduler.UnregisteredKeeps | skynet/skynet-src/skynet_server.c:173-181 | `skynet_context_new`, when the service does not start: retiring the handle and giving up the queue keep the invariant |
| Scheduler.MarkKeeps | skynet/skynet-src/skynet_server.c:208-219 | `delete_context`: marking the queue keeps the invariant; it enters the global queue if it is idle |
| Scheduler.ReleaseKeeps | skynet/skynet-src/skynet_server.c:221-228 | `skynet_context_release`: who brings the count to zero, and nobody else, deletes the context |
| Scheduler.PostKeeps | skynet/skynet-src/skynet_server.c:230-240 | `skynet_context_push`: pushing a message and entering the queue keep the invariant |
| Scheduler.RetireKeeps | skynet/skynet-src/skynet_handle.c:73-110 | `skynet_handle_retire`: the reference of the storage is released by one caller |
| Scheduler.GrabbedKeeps | skynet/skynet-src/skynet_handle.c:136-153 | `skynet_handle_grab` in front of dispatching: the worker holds a counted reference |
| Scheduler.GoneKeeps | skynet/skynet-src/skynet_server.c:308-313 | Dispatching a queue whose handle is gone: it is released, and the worker takes another one |
| Scheduler.IdleKeeps | skynet/skynet-src/skynet_server.c:319-321 | Dispatching an empty queue: it becomes idle and belongs to nobody |
| Scheduler.SwapKeeps | skynet/skynet-src/skynet_server.c:342-350 | Swapping queues: one goes back, the next one is held |
| Scheduler.DroppedKeeps | skynet/skynet-src/skynet_mq.c:230-237 | `_drop_queue`: each message left is taken, and its sender told |
| Scheduler.FreeKeeps | skynet/skynet-src/skynet_mq.c:98-104 | `_release`: freeing a queue keeps the invariant |
| Dispatching.StepKeeps | skynet/skynet-src/skynet_server.c:298-353 | Every step of every thread keeps the invariant |
| Dispatching.RunKeeps | skynet/skynet-src/skynet_server.c:125-353 | So does every interleaving of steps, of any number of threads |
| Dispatching.OneHolder | skynet/skynet-src/skynet_server.c:298-353 | In every reachable state a queue is held by at most one thread, in one place, and is then not in the global queue |
| Dispatching.QueuedOnce | skynet/skynet-src/skynet_mq.c:43-75 | A queue is in the global queue at most once |
| Dispatching.NothingForgotten | skynet/skynet-src/skynet_mq.c:137-209 | A queue that holds messages is marked, and is in the global queue or held by a thread |
| Dispatching.EachMessageOnce | skynet/skynet-src/skynet_mq.c:137-237 | What was pushed has been taken, each message once and in order, dispatched or dropped, or is still in the queue |
| Dispatching.FreedOnce | skynet/skynet-src/skynet_mq.c:239-250 | A queue is freed at most once, and exactly when its service is gone |
| Dispatching.SoundUnlessUnguarded | skynet/skynet-src/skynet_server.c:125-353 | Except where `skynet_context_new` uses a context after giving up its reference, no thread uses a context or a queue that has been freed, dispatches to a service that is starting up, enters a queue twice or releases a reference twice |
| Dispatching.SoundExactly | skynet/skynet-src/skynet_server.c:164-171 | There, the store of `init` and the use of the handle for the log find the context alive if and only if the handle is still registered, or another thread holds a reference or is about to free it |
| Dispatching.UsedAfterFree | skynet/skynet-src/skynet_server.c:164-171 | Counterexample: when another thread retires the handle in between, both find the context freed |
| Dispatching.QuietMeansDone | skynet/skynet-src/skynet_server.c:298-353 | When all workers idle and the global queue is empty, no message is left, and what is not registered has been freed |
| Delivery.PostPushes | skynet/skynet-src/skynet_server.c:230-240 | `skynet_context_push`: in the step that pushes, the message becomes the last one of that queue, and of its log, and no other log changes |
| Delivery.SendLeadsToPush | skynet/skynet-src/skynet_server.c:230-240 | When the handle is found, whatever other threads do before, the next step of the thread pushes that message, once, into that queue |
| Delivery.SentIsPushed | skynet/skynet-src/skynet_server.c:230-240 | Over every run each message sent to a registered handle has been pushed once or a thread is about to push it, and nothing else has been pushed |
| Delivery.AllSentPushed | skynet/skynet-src/skynet_server.c:230-240 | From the start, as long as no push is pending, the messages pushed are exactly those sent |
| Delivery.DroppedIsTold | skynet/skynet-src/skynet_server.c:115-123 | `drop_message`: a message that is dropped is taken as such, and the next step of the thread looks up its sender to push an error |
| Delivery.RetireIsFinal | skynet/skynet-src/skynet_handle.c:73-110 | `skynet_handle_retire`: in every run from there on the handle is not registered, and nothing is sent to it |
| Delivery.GlobalInOrder | skynet/skynet-src/skynet_mq.c:43-75 | The global queue is served in order: a step hands its first queue to the thread that runs, or adds one at its end, or leaves it |
| Delivery.RoundTakes | skynet/skynet-src/skynet_server.c:315-342 | A round takes as many messages as the weight of the worker says, in order, and the service handles as many |
| Rest.BusyDown | skynet/skynet-src/skynet_server.c:298-353 | Every step of a thread with something to do lowers, in this order: work that changes registrations, messages, queues in circulation, the way that is left |
| Rest.CanComeToRest | skynet/skynet-src/skynet_server.c:298-353 | No reachable state is stuck: with no new work every run with a worker can go on to a state at rest, and then each message ever sent has been taken, and everything retired has been freed |
| Timer.PlaceStays | skynet/skynet-src/skynet_timer.c:67-86 | A pending node belongs in the same list one tick later, unless its list is the one `timer_shift` moves, also across the wrap of the clock |
| Timer.ShiftKeeps | skynet/skynet-src/skynet_timer.c:111-132 | `timer_shift`: afterwards every node is in the list `add_node` would pick at the new time, in order |
| Timer.DueList | skynet/skynet-src/skynet_timer.c:152-163 | `timer_execute`: the list of the current time holds exactly the nodes that are due, in the order they were added |
| Timer.ExecuteKeeps | skynet/skynet-src/skynet_timer.c:152-163 | Taking that list out keeps all other nodes in place |
| Timer.ClockAhead | skynet/skynet-src/skynet_timer.c:88-99 | With delays of 1 to 2^31-1 the 32-bit clock orders what is pending |
| Timer.FiresOnTime | skynet/skynet-src/skynet_timer.c:165-178 | Over any run, from any initial clock: a timer with delay d fires in the d-th following update and in no other, those of one tick in the order they were added |
| Timer.LevelOf | skynet/skynet-src/skynet_timer.c:74-83 | The loop of `add_node` finds the level and the slot |
| Timer.TimerWheel.constructor | skynet/skynet-src/skynet_timer.c:180-202 | `timer_create_timer`: an empty wheel |
| Timer.TimerWheel.AddNode | skynet/skynet-src/skynet_timer.c:67-86 | `add_node`: the node goes to the end of its list |
| Timer.TimerWheel.TimerAdd | skynet/skynet-src/skynet_timer.c:88-99 | `timer_add` |
| Timer.TimerWheel.MoveList | skynet/skynet-src/skynet_timer.c:101-109 | `move_list`: the nodes are added again, one by one |
| Timer.TimerWheel.TimerShift | skynet/skynet-src/skynet_timer.c:111-132 | `timer_shift`: the clock ticks, and the one list that is due to be spread is moved |
| Timer.TimerWheel.TimerExecute | skynet/skynet-src/skynet_timer.c:152-163 | `timer_execute`: the list of the current time is emptied and dispatched |
| Timer.TimerWheel.TimerUpdate | skynet/skynet-src/skynet_timer.c:165-178 | `timer_update`: execute, shift, execute |
| Bigint.MultAdd | skynet/3rd/lua-cjson/dtoa.c:612-667 | `multadd`: the value becomes b*m+a exactly, in the same number object or a larger one |
| Bigint.LShift | skynet/3rd/lua-cjson/dtoa.c:974-1031 | `lshift`: the value becomes b*2^k exactly |
| Bigint.Cmp | skynet/3rd/lua-cjson/dtoa.c:1034-1066 | `cmp`: the sign of the result is the order of the values |
| Bigint.SubExact | skynet/3rd/lua-cjson/dtoa.c:2163-2190 | The subtracting loop of `quorem` with its carry and borrow: exact as words |
| Bigint.Estimate | skynet/3rd/lua-cjson/dtoa.c:2149 | `quorem`: the quotient of the top words is at most one too low, as the divisor has four leading zeros |
| Bigint.TakeGuess | skynet/3rd/lua-cjson/dtoa.c:2160-2197 | `quorem`, first half: the guess is subtracted and leading zeros dropped |
| Bigint.TakeOnce | skynet/3rd/lua-cjson/dtoa.c:2198-2239 | `quorem`, second half: once more if the remainder is not below the divisor |
| Bigint.QuoRem | skynet/3rd/lua-cjson/dtoa.c:2119-2241 | `quorem`: returns floor(b/S) and leaves b mod S |
| Digits.Hi0Bits | skynet/3rd/lua-cjson/dtoa.c:707-739 | `hi0bits`: the number of leading zeros |
| Digits.DShift | skynet/3rd/lua-cjson/dtoa.c:2106-2117 | `dshift`: the shift modulo 32 that leaves four leading zeros |
| Digits.ShiftArranges | skynet/3rd/lua-cjson/dtoa.c:4145-4152 | Shifting by that much gives the divisor a top word in [2^27, 2^28) |
| Digits.Arrange | skynet/3rd/lua-cjson/dtoa.c:4152-4159 | Both numbers are scaled by the same power of two and the divisor is arranged |
| Digits.RoundUp | skynet/3rd/lua-cjson/dtoa.c:4315-4321 | `roundoff`: the digits plus one unit, nines dropped, the carry out of the first digit noted |
| Digits.TrimZeros | skynet/3rd/lua-cjson/dtoa.c:4323-4329 | `trimzeros`: the same number without trailing zeros |
| Digits.RoundOff | skynet/3rd/lua-cjson/dtoa.c:4306-4329 | Half-even rounding by comparing twice the remainder |
| Digits.Generate | skynet/3rd/lua-cjson/dtoa.c:4284-4329 | The mode-2 loop: the digits are b/S rounded half-even to ilim digits, without trailing zeros |
| Digits.Convert | skynet/3rd/lua-cjson/dtoa.c:4152-4329 | From the two numbers with the powers of two they lack to the digits: their quotient, rounded half-even to ilim digits, without trailing zeros |
| SocketWrite.Socket.BeginDirect | skynet/skynet-src/socket_server.c:1804-1819 | `socket_server_send`: a direct write begins only when nothing else waits |
| SocketWrite.Socket.FinishDirect | skynet/skynet-src/socket_server.c:1820-1862 | What the system does not take is kept for the socket thread |
| SocketWrite.Socket.Reserve | skynet/skynet-src/socket_server.c:1307-1327 | `inc_sending_ref` |
| SocketWrite.Socket.Request | skynet/skynet-src/socket_server.c:1866-1873 | The request goes on the pipe |
| SocketWrite.Socket.Deliver | skynet/skynet-src/socket_server.c:1007-1066 | `send_socket`: to the high list if both are empty, otherwise by priority |
| SocketWrite.Socket.Delivered | skynet/skynet-src/socket_server.c:1329-1337 | `dec_sending_ref` |
| SocketWrite.Socket.SendHigh | skynet/skynet-src/socket_server.c:713-743 | `send_list_tcp`: buffers go out in order, until the list is empty or the system does not take all of one write |
| SocketWrite.Socket.SendLow | skynet/skynet-src/socket_server.c:876-893 | `send_buffer_`: the low list, only when the high one is empty |
| SocketWrite.Socket.RaiseUncomplete | skynet/skynet-src/socket_server.c:829-844 | `raise_uncomplete`: a low packet that has been begun moves to the high list |
| SocketWrite.Socket.SendBuffer | skynet/skynet-src/socket_server.c:920-946 | `send_buffer`: nothing while a direct write is on; its rest goes first; the packets go out in order, and it stops only when both lists are empty or the system does not take all of one write |
| SocketWrite.RunOk | skynet/skynet-src/socket_server.c:713-986 | Every run keeps the counters and the order: `wb_size` is what is left in both lists |
| SocketWrite.OnlyGrows | skynet/skynet-src/socket_server.c:713-986 | Over every run, nothing that is in the stream, is complete or was issued is taken back |
| SocketWrite.BegunIsNext | skynet/skynet-src/socket_server.c:820-858 | Over every run, whatever is issued, delivered, written directly or written from the lists: a packet that has been begun is the next one to get complete |
| SocketWrite.StepAhead | skynet/skynet-src/socket_server.c:1000-1066 | A high packet that is delivered overtakes exactly the packets in the low list, and nothing else overtakes anything |
| SocketWrite.HighOvertakes | skynet/skynet-src/socket_server.c:1000-1066 | `send_socket`: a low packet delivered while a list is not empty comes, in every run and as long as it has not been begun, after all high packets delivered by then, and these stay in front of it |
| SocketWrite.NeverOvertaken | skynet/skynet-src/socket_server.c:820-858 | A low packet that has been begun, or was delivered into empty lists, is never overtaken in any run |
| SocketWrite.HandedIsIssued | skynet/skynet-src/socket_server.c:1804-1897 | Over every run the packets issued are exactly those the callers handed in, in order |
| SocketWrite.AllGetWritten | skynet/skynet-src/socket_server.c:859-946 | From every state a run can go on, with no new packets, until all are written |
| SocketWrite.StreamOfPackets | skynet/skynet-src/socket_server.c:713-946 | The byte stream is a sequence of whole packets, each once, and the beginning of one more; of each priority, the packets in it are the first that were sent, in order |
| SocketLife.Socket.constructor | skynet/skynet-src/socket_server.c:556-586 | `new_fd`: a socket with nothing reported, nothing waiting and nothing lost |
| SocketLife.Socket.Close | skynet/skynet-src/socket_server.c:1128-1155 | `close_socket`: a close is reported if and only if the end has not been reported; what waits is lost only on shutdown or after a failed write, and otherwise the socket stays, unread, to send it |
| SocketLife.Socket.Forward | skynet/skynet-src/socket_server.c:1401-1461 | `forward_message_tcp`: data and the end of the stream are reported if and only if the end has not been reported, and unless a write has failed nothing that waits to be sent is lost |
| SocketLife.Socket.SendBuffer | skynet/skynet-src/socket_server.c:859-918 | `send_buffer_`: a failed write is reported if and only if neither an end nor another failed write was, and ends the socket if and only if its end was reported; a socket that is closing ends with nothing lost when all is written |
| SocketLife.Socket.ReportConnect | skynet/skynet-src/socket_server.c:1522-1556 | `report_connect`: connected with nothing lost, or refused and gone |
| SocketLife.Socket.Dispatch | skynet/skynet-src/socket_server.c:1671-1746 | The event switch of `socket_server_poll`: no second end, and every event does what it is for: a write event leaves waiting exactly the bytes that the system did not take, a read event reports data unless the end was reported, an eof event ends the socket |
| SocketLife.Socket.SendRequest | skynet/skynet-src/socket_server.c:1008-1078 | `send_socket`: a request is accepted whole, and then the write events are on or will be, or it is dropped because the socket takes no data |
| SocketLife.Socket.WriteDirect | skynet/skynet-src/socket_server.c:1804-1862 | The direct write of `socket_server_send`: only when nothing waits and nothing is on its way; what is left is waited for and the write events will be turned on |
| SocketLife.Socket.ResumeReading | skynet/skynet-src/socket_server.c:1174-1212 | `resume_socket`: an error if the end has been reported; otherwise the socket is read from, and starts if it was waiting for this |
| SocketLife.Socket.PauseReading | skynet/skynet-src/socket_server.c:1213-1224 | `pause_socket`: the socket is not read from, and nothing else changes |
| SocketLife.Socket.TriggerWrite | skynet/skynet-src/socket_server.c:988-998 | `trigger_write`: the write events are on |
| SocketLife.CanBeFlushed | skynet/skynet-src/socket_server.c:859-918 | From every state that can be reached, data that waits can be written by events that are on or coming, with nothing lost, and a socket that was closed is gone then, unless a write has failed |
| SocketLife.RunSane | skynet/skynet-src/socket_server.c:690-711 | Over every run the state and the reports belong together: no second failed write is reported, none after the end, and a socket is half closed for writing only after one; every accepted byte is written, waits or is lost |
| SocketLife.StepSane | skynet/skynet-src/socket_server.c:1123-1155 | Every event keeps the relation between the state and what has been reported |
| SocketLife.EndReportedOnce | skynet/skynet-src/socket_server.c:1106-1127 | Over every run a close and a failed write are reported at most once, and neither data nor a failed write after a close; a socket that is gone has been reported, as closed or as never connected |
| SocketLife.AllSent | skynet/skynet-src/socket_server.c:479-511 | Over every run without a shutdown, a failed write, an eof event and a failed connection nothing is lost, so a socket is gone only when all bytes it accepted are written |
| SocketLife.StrandedExactly | skynet/skynet-src/socket_server.c:1007-1020 | Over every run: a socket that was closed here comes to wait for nothing if and only if a request arrives as the last thing it waits for, and is dropped |
| SocketLife.ClosingEnds | skynet/skynet-src/socket_server.c:1128-1155 | Over every run without such an event, a socket that was closed here and is not gone waits for data with the write events on or coming, or for a request on its way |
| SocketLife.ClosedWhileSending | skynet/skynet-src/socket_server.c:1013-1020 | Counterexample: a packet that is announced when another caller closes the socket is dropped, and the socket stays with no event turned on |
| ShareTable.CountSize | skynet/lualib-src/lua-sharedata.c:67-89 | `countsize`: the number of keys outside the array part |
| ShareTable.RoomLeft | skynet/lualib-src/lua-sharedata.c:255-262 | `fillcolliding`: the assertion that a free slot is found holds, by counting |
| ShareTable.ChainHoldsItsKeys | skynet/lualib-src/lua-sharedata.c:254-268 | Chains have no cycle and hold exactly the keys of their main position |
| ShareTable.Table.constructor | skynet/lualib-src/lua-sharedata.c:277-326 | `convtable`: the table holds the entries it was made from |
| ShareTable.Table.FillArray | skynet/lualib-src/lua-sharedata.c:315-320 | The array part of a table without other keys |
| ShareTable.Table.FillNoColliding | skynet/lualib-src/lua-sharedata.c:212-235 | `fillnocolliding`: every main position is taken by a key that belongs there |
| ShareTable.Table.FillColliding | skynet/lualib-src/lua-sharedata.c:237-273 | `fillcolliding`: all other keys are linked behind their main positions, and every slot is used |
| ShareTable.Table.LookupKey | skynet/lualib-src/lua-sharedata.c:502-531 | `lookup_key`: finds a key if and only if it is there |
| ShareTable.Table.Index | skynet/lualib-src/lua-sharedata.c:533-567 | `lindexconf`: the value the source table had at the key, or nothing |
| ShareTable.Table.NextKey | skynet/lualib-src/lua-sharedata.c:590-647 | `lnextkey`: the first key, or the one behind the given key in the order of the table |
| ShareTable.TraversalVisitsEachOnce | skynet/lualib-src/lua-sharedata.c:590-647 | That order holds every key of the source table exactly once, and no other |
| Framing.MoreBytes | skynet/lualib-src/lua-netpack.c:227-307 | Cutting a stream anywhere: the packets of the whole are those of the first part and those of its rest with the second |
| Framing.UnpacksPacked | skynet/lualib-src/lua-netpack.c:436-452 | `lpack`: what was packed comes out of the stream again |
| Framing.PiecesDoNotMatter | skynet/lualib-src/lua-netpack.c:227-307 | However the streams are cut and interleaved, each descriptor gets the packets its own stream stands for, and the incomplete rest waits |
| Framing.Framer.FindUncomplete | skynet/lualib-src/lua-netpack.c:92-114 | `find_uncomplete`: takes the record of the descriptor out of its chain, the only one there is |
| Framing.Framer.SaveUncomplete | skynet/lualib-src/lua-netpack.c:169-180 | `save_uncomplete` |
| Framing.Framer.PushData | skynet/lualib-src/lua-netpack.c:150-167 | `push_data`: the packet is the last one in the queue, also when the ring wraps or grows |
| Framing.Framer.Expand | skynet/lualib-src/lua-netpack.c:133-148 | `expand_queue`: the same packets in the same order |
| Framing.Framer.PushMore | skynet/lualib-src/lua-netpack.c:188-215 | `push_more`: all complete packets enter the queue, the rest waits |
| Framing.Framer.FilterData | skynet/lualib-src/lua-netpack.c:227-307 | `filter_data_`: reports nothing, one packet, or several in the queue, as the bytes that waited and the new ones stand for |
| Framing.Framer.CloseUncomplete | skynet/lualib-src/lua-netpack.c:217-225 | `close_uncomplete` |
| Framing.Framer.Pop | skynet/lualib-src/lua-netpack.c:396-410 | `lpop`: the oldest packet |
| KeyExchange.MulModP | skynet/lualib-src/lua-crypt.c:795-815 | `mul_mod_p`: the product modulo 2^64-59, with 64-bit operations only |
| KeyExchange.PowModP | skynet/lualib-src/lua-crypt.c:817-828 | `pow_mod_p`: the power modulo P, or the base itself for the exponent 1 |
| KeyExchange.PowerModP | skynet/lualib-src/lua-crypt.c:831-836 | `powmodp`: the power modulo P if and only if it is not P itself to the power of 1 |
| KeyExchange.Exchange | skynet/lualib-src/lua-crypt.c:870-888 | `dhexchange`: 5 to the private key, or the error for 0 |
| KeyExchange.Secret | skynet/lualib-src/lua-crypt.c:853-866 | `dhsecret` |
| KeyExchange.NeverZero | skynet/lualib-src/lua-crypt.c:868-888 | No power of 5 is 0 modulo P, so no public key is refused |
| KeyExchange.Agree | skynet/lualib-src/lua-crypt.c:853-888 | Both sides come to the same secret, for all private keys |

## Left out

- LPeg, run-time captures (`TRunTime`, `ICloseRunTime`) and the evaluation of captures: they call Lua code. Captures are kept as the list of entries that `match` leaves, without dynamic ones.
- LPeg, the tables of Lua values (`ktable`) and the names of rules: a call refers to its rule by number, a capture to its value by index.
- LPeg, 16-bit fields for kind and offset, the bits of a character set (sets with one slot for 32 characters), and the growth of the code array.
- LPeg, the depth of recursion of the analyses: a parameter bounds it, which `DepthDoesNotMatter` shows to be without effect for accepted patterns.
- LPeg, `finaltarget` as a function stops after a number of jumps; `BoundSuffices` shows that chains that end do so before.
- LPeg, the converse of halting: a pattern that the corrected check rejects may halt all the same, see `Pitfalls.HonestIsCautious`. Whether a pattern halts on every subject cannot be decided by any check.
- LPeg, left recursion behind a repetition, as in `S <- G* S`, which the source accepts as well: `codeseq1` asks for the first set of the call, and the recursion of `getfirst`, which has no bound, is not modelled.
- LpMatch.Match: calls in the array keep the number of their rule, while the source makes them refer to its node; and the code that is kept for the next match is not modelled.
- Analysis.MarksHideNothing: marks the rule that is being visited, while `callrecursive` marks the single call node, so that another call of the same rule is followed once more.
- Trees.StarChecksLoops: for a body with open calls only one direction, as its calls are looked at again when the grammar is made.
- Scheduler and Dispatching, handles are not used again while a queue lives and do not wrap; remote messages, names, `dispatchall` and the monitor are not modelled.
- Scheduler.LaunchKeeps: registering a context, storing its handle and creating its queue are one step; in the source another thread that already knows the handle may find the context before it has a queue.
- Dispatching.SoundExactly: the callers of `skynet_context_new` use the context that is returned in the same way, and are not modelled.
- Scheduler, the locks themselves.
- Rest.CanComeToRest: says that the steps which bring the scheduler to rest can be taken, one thread at a time, with callbacks that return and call nothing; that the threads of the system do take them is not modelled.
- Delivery.RoundTakes: the worker runs without other threads in between, and the callback calls nothing; other steps can only add messages behind those that are taken.
- Timer, delays of 0 and of 2^31 and more, locks, and the time of the day; shifts and masks are written as divisions and remainders.
- Timer.FiresOnTime: while `timer_execute` dispatches a list the lock is free; an addition made then counts as one made after that list was taken out.
- dtoa, the other modes, the fast paths in floating point, `mult`, `pow5mult`, `diff`, `s2b`, the estimate of the decimal exponent with its correction, and the free lists of `Balloc`.
- Sockets, write errors in `SocketWrite` (they end the stream), user objects as buffers, UDP, sends before the protocol is known, warnings in detail, listening and accepting, and the reuse of a slot by the next socket.
- SocketWrite.Socket.BeginDirect: reads the type of the socket, its lists and the counter of sends in one step, and does not ask whether it is connected. In the source `can_direct_write` reads them one after the other without the lock, and once more with it. The first look finds the counter at zero only when every packet sent before is in a list or written, as the counter is lowered after that; and the second look, with the lock that writing the lists needs, sees those in the lists. So a direct write only overtakes packets whose sending had not ended when it began.
- SocketWrite.Socket.Deliver: does not drop the packet of a socket that is closing, half closed for writing or not yet accepted; `SocketLife.Socket.SendRequest` does.
- SocketWrite.Socket.SendHigh: a write that fails for good ends the stream and is not modelled here, see `SocketLife.Socket.SendBuffer`.
- SocketWrite.Socket.SendLow: likewise.
- SocketWrite.Socket.SendBuffer: likewise, and without the branches for a socket that is closing and for the write events.
- SocketLife.Socket.SendBuffer: counts the bytes that are left, because their order is the subject of `SocketWrite`.
- SocketLife.Socket.SendRequest: processing a request and lowering the counter of sends under way are one step.
- Shared tables, keys beyond 32 bits, which the source cuts off, the conversion of nested tables, the table of strings, in which equal strings have equal numbers, and reference counts.
- Framing, the Lua side that takes packets out of the queue, memory of buffers, and events that carry no data.
- Key exchange, keys as eight bytes in memory and the error for another length; the ciphers, digests and base64 of `lua-crypt.c`.
- JSON, BSON and `lua-seri` encodings, the read buffer of `lua-socket.c` and the name table of `skynet_handle.c` are not modelled.
