# Proofs about love's runtime and kernel

A Dafny model of the hard parts of the C runtime (`src/love`) and kernel (`src/inle`), with the properties
they rely on proved for all inputs, all runs and all interleavings.

- **The collector** (`Gc*.dfy`). A heap of objects with kinds, unread words and fields, pointers with offsets.
  A minor into a bounded survivors' block and a major into a fresh block are one engine of forwards, scans and
  a drain; every pass leaves an isomorphic heap, each object in the block its age and what names it say. The
  remembered set with its hash index, the overflow that runs a minor twice, and the sizes of all blocks stand
  around it.
- **The compiler and the machine** (`Vm`, `Lang`, `LangFacts`, `Codegen`, `Emission`, `Compiled`, `Calls`).
  Expressions of constants, arguments, conditionals, primitives and calls; an evaluator with effects in order;
  what each form means, said without it; analysis into emitters; emission backwards in a buffer; a step machine
  with threads, partials and return addresses. The compiled thread halts, fails or runs on just as the
  evaluator says. n-ary calls are chains of calls.
- **The suspended sort** (`MergeSpec`, `Sortby`): it pauses at every comparison.
- **The fork-join pool and the audio ring** (`Pool`, `HornRing`): state machines over the steps of their
  threads.
- **The allocator** (`FreeList`, `FfAlloc`): on values, and in a memory of words with links reversed in place.
- **Equality and the LR walk** (`EqvSpec`, `EqvTree`, `EqvPlain`, `Eqv`, `LrSpec`, `LrTables`, `LrRun`, `LrRight`,
  `Lr`): walks in lent scratch; equality is that of unfolded trees, and packed tables read as the dense ones.
- **Kernel rows, pipes, processes, ports** (`Pipes`, `Procs`, `ProcFacts`, `ProcRows`, `ProcTable`, `Ports`).

Each part has a specification on values, the imperative form that works in place, and the lemmas that tie
the two. `dafny verify dfyconfig.toml` checks all of it.

Seven things the code does that its comments or its name do not say; each has its lemma or exact condition:

- `dup3` onto the row that is itself the lowest free one answers that row and leaves it free
  (`Pipes.Kernel.Dup3`).
- `lr_takes` reads a rule number out of range as a reduction of nothing, the run as an error
  (`LrSpec.OutOfRange`); exactly when the two then disagree is `LrSpec.TakesAgrees`.
- The pool's generation is 32 bits: at the 2^32nd job a worker made for that job can sleep through it, and the
  job is never joined (`Pool.WrapLoses`); exactly which jobs can be is `Pool.JoinsFresh`.
- Two functions are equal with unlike words behind their entries, and unequal where one names itself and the other
  an equal one (`EqvPlain.BehindDiffers`, `EqvPlain.UnmatchedDiffers`); exactly when that is equality by plain
  unfolding is `EqvPlain.BisimilarIsPlain` and `EqvPlain.PlainIsBisimilar`.
- A remembered entry whose probe finds all 16 slots taken is entered again by the collector's own second
  drive, so its count of entries can grow there though nothing is copied (`GcRemember.EnteredTwice`); exactly
  when it does not is `GcWork.Pass.SecondDrive`.
- A major that got all it asked for can force another, and another, at the budget's edge with little living
  (`GcSize.LatchedAt`); exactly when it does not is `GcSize.NextMinor`.
- The kernel's reap of pid 0 answers a free slot's old status (`Procs.ReapedTwice`); every other pid's status
  is delivered once (`Procs.ReapDelivers`).

## Model

| member | source | states |
|---|---|---|
| `GcHeap.IsoThen` | src/love/gc.c:380-419 | two collections in a row move the heap as one would: isomorphisms compose, though the first keeps more than the second |
| `GcHeap.SameView` | src/love/gc.c:498-561 | along every path from a root the program reads after a collection what it read before, moved: immediates, kinds, payloads, cycles and interior offsets |
| `GcHeap.SameSharing` | src/love/gc.c:498-561 | two paths from words the program has lead to one word after a collection exactly when they did before: sharing, and no more |
| `GcRemember.RememberCovers` | src/love/gc.c:77-92 | a remembered place is in the set, perhaps twice, or a miss is on record, and that only of a full set; nothing in the set is lost |
| `GcRemember.EnteredTwice` | src/love/gc.c:84-92 | the failing input: places of one hash, one more than the probe has tries; the last, remembered again, is entered twice |
| `GcRemember.RememberKnows` | src/love/gc.c:84-92 | a place once known to its probe stays known; one just remembered is known unless its probe ran out of tries or the set was full |
| `GcOwed.EvacHits` | src/love/gc.c:547-549 | a scan raises the flag only for a survivor it left in the object |
| `GcOwed.WalkFrugal` | src/love/gc.c:232-240 | an entry walked is entered again only where a word from its offset on names a survivor |
| `GcOwed.TenuredFrugal` | src/love/gc.c:214-219 | a tenured object drained is entered only where it holds a survivor, and a miss is counted only with the set full |
| `GcDrain.AgainLeaves` | src/love/gc.c:242-251 | remembering again over any stretch of drained objects leaves the set as it was if and only if each of them that holds a survivor is known, and the count of entries just then or when the set is full |
| `GcEngine.GcpTied` | src/love/gc.c:551-561 | meeting a word, of any kind and in any state of a pass, keeps: each copy is of its own object, made once, and every object is what it was with its words on their way |
| `GcThread.CopyThread` | src/love/gc.c:535-545 | a thread copied from a pointer to any word of it: the words in order, a forward left in each, the terminator made anew for the copy, the rest of memory as it was |
| `GcThread.Meet` | src/love/gc.c:551-561 | a pointer to any word of a thread, met first or after another, comes to its own place in the one copy |
| `GcEngine.EvacTied` | src/love/gc.c:42-71 | a scan of one object, whatever it copies on the way, touches no other object and keeps the tie to the heap before |
| `GcEngine.EvacScans` | src/love/gc.c:107-124 | after a scan no field is in a from-space, the others are as they were, and a survivor left in a tenured object has raised the flag |
| `GcEngine.EvacTakes` | src/love/gc.c:32-40 | a scan conserves words: those given out and those that may still be are in all the same, and the survivors stay within their block |
| `GcDrain.DrainSurvivor` | src/love/gc.c:206-213 | a survivor's turn of the drain keeps all that the drain keeps |
| `GcDrain.DrainTenured` | src/love/gc.c:214-219 | a tenured object's turn keeps it, the object remembered where it was left with a survivor, but past an overflow |
| `GcDrain.CleanScans` | src/love/gc.c:242-251 | scanning a drained object again copies nothing and changes no word |
| `GcPlace.EvacNames` | src/love/gc.c:551-561 | whatever a scan copies, the object scanned names after |
| `GcPlace.TenuredPlaced` | src/love/gc.c:214-219 | a tenured object's turn: what of the nursery it tenures, it names; the survivors' block runs out only of more than it holds |
| `GcPlace.SurvivorPlaced` | src/love/gc.c:206-213 | a survivor's turn puts what of the nursery it names with the survivors |
| `GcPass.WalkStep` | src/love/gc.c:232-240 | an entry of the remembered set is walked once, and is in the set again if what it covers still names a survivor; no miss can come of the walk |
| `GcPass.WalkEnds` | src/love/gc.c:230-241 | after the remembered walk no tenured object below the scan names a from-space, and every one that names a survivor is remembered |
| `GcPass.PassIso` | src/love/gc.c:225-266 | a drained pass leaves the heap isomorphic to the one before, roots moved, and nothing besides |
| `GcWork.Pass.Meet` | src/love/gc.c:547-561 | gcp in place: the pass after it, and what the word came to |
| `GcWork.Pass.Scan` | src/love/gc.c:42-71 | the in-place scan loop is the scan, and conserves words, places and forwards |
| `GcWork.Pass.Drain` | src/love/gc.c:206-220 | the drain ends, and leaves both to-spaces scanned whole |
| `GcWork.Pass.Run` | src/love/gc.c:225-241 | roots, remembered walk and drain together: an isomorphic heap, the remembered set complete below the scan and, without a miss or an overflow, everywhere |
| `GcWork.Pass.SecondDrive` | src/love/gc.c:242-251 | driven again a pass copies nothing, changes no word and moves no root; the count of entries it is trapped on stays if and only if the survivors' block ran out, the set is full, or every tenured object from the scan on that holds a survivor is known to its probe |
| `GcWork.RunPass` | src/love/gc.c:225-241 | a whole pass on values, for the callers of both kinds |
| `GcCore.AllocKeeps` | src/love/love.h:597-599 | a bump in the nursery is a fresh object and keeps the core's invariant |
| `GcCore.StoreRemembers` | src/love/gc.c:94-104 | a barriered store, of an object or of one cell, leaves every young pointer of a tenured object remembered or a miss on record |
| `GcCore.MinorRoom` | src/love/gc.c:380-390 | what a minor may take of the major block is the words of the nursery and of the survivors |
| `GcCore.MinorRemembers` | src/love/gc.c:206-241 | after a minor the remembered set is complete for the new survivors, unless something was missed or ran out |
| `GcCore.MinorPlaces` | src/love/gc.c:557-561 | where a minor puts things: the tenured stay, the survivors of the minor before are tenured, and, with a block for them that has not run out, what of the nursery a root names is a survivor, and all the rest but what a newly tenured object names; it runs out only of more words than it has |
| `GcCore.MinorOwed` | src/love/gc.c:206-241 | every entry a minor leaves is of a tenured object that holds a young word there or after; with no survivors there is none; a miss is of a full set |
| `GcCore.NoneYoung` | src/love/gc.c:417-419 | with nothing young left no entry is owed, so a miss on record may be cleared |
| `GcCore.RunMinor` | src/love/gc.c:225-266 | gen_minor on a core's values: an isomorphic heap, an empty nursery, the set complete below the scan, and no more words than there were |
| `GcCore.Collector.Alloc` | src/love/love.h:597-599 | the allocation in place: one new object, nothing else changed |
| `GcCore.Collector.Store` | src/love/gc.c:94-104 | the store with its barrier in place: one word changed, the invariant kept; the object's start, or the cell, is entered only where a tenured object takes a young word, and missed only with the set full |
| `GcCore.Collector.Minor` | src/love/gc.c:409-419 | a minor, run twice where the survivors' block ran out: isomorphic heap, empty nursery, the invariant again, the promotion within the words there were; once, each object in the block its age and what names it say; twice, nothing young left; every entry owed |
| `GcCore.Collector.Major` | src/love/gc.c:286-348 | a major: isomorphic heap in one fresh block, nothing young, nothing remembered, no miss |
| `GcCore.Collector.Collect` | src/love/gc.c:380-419 | any collection as please drives it, over every state a run can reach; a minor places as a minor does, and a major that was not asked for is of a miss, which is of a full set |
| `GcSize.MajorBlock` | src/love/gc.c:288-317 | every block a major tries covers the major's words, the young and the survivors; its ask, where refused, falls to the whole steps of that, and then to that itself; a refusal is of the bare need too |
| `GcSize.MajorPool` | src/love/gc.c:329-337 | the pool left holds the survivors, is never over its target, and with its ask leaves a promotion, the request and the slack |
| `GcSize.ShareIs` | src/love/gc.c:279-281 | a share is the most of which two and the nursery are within the budget |
| `GcSize.BlockFits` | src/love/gc.c:293-312 | a major's block, the pool it copies from and the nursery are within the budget, where the need and that pool are within a share; else the block is the bare need's or the pool's own size |
| `GcSize.AtShareIs` | src/love/gc.c:283-284 | a pool is at its share just where one step more would pass what a nursery at its floor leaves it |
| `GcSize.CeilingIs` | src/love/gc.c:274-276 | the nursery may be twice what lives, or its floor |
| `GcSize.TargetIs` | src/love/gc.c:268-273 | the pool's target is the fewest whole steps with room for the survivors three times, a promotion and the slack |
| `GcSize.Arena` | src/love/gc.c:458-483 | the nursery's size holds the request and the floor, and passes its ceiling only to be the request itself; it stays only within what the budget and a tight pool afford, shrinks no further than they ask, and where they afford more goes at once to its ceiling or the pool's room |
| `GcSize.NextMinor` | src/love/gc.c:399-408 | with its ask a major makes the next collection a minor if and only if the pool it leaves is not at its share of the budget, or holds two nurseries past the survivors |
| `GcSize.LiveEnough` | src/love/gc.c:268-285 | a live set of half a nursery is enough for that; one a step short of it, at the share, is not |
| `GcSize.Latched` | src/love/gc.c:380-408 | where it is not, every collection from then on is a major, for as long as nothing more lives; where it is, none is |
| `GcSize.LatchedAt` | src/love/gc.c:283-337 | the failing input: a budget of six nurseries and nothing living |
| `GcSize.Doubled` | src/love/gc.c:458-461 | the nursery's wish is the fewest doublings under which the words given out, as often doubled, are up to the words copied |
| `GcSize.Steer` | src/love/gc.c:451-463 | the wish grows only at a second window in a row over the setpoint, then by the fewest doublings; and what the window is next |
| `GcSize.Store.Alloc` | src/love/love.h:597-599 | a bump spends the room served: just its words are gone, whatever the next request |
| `GcSize.Store.TakeMajor` | src/love/gc.c:286-408 | a major's survivors fit the pool; with its ask the pool is their target, and the next collection a minor exactly when not at the share or with room for two nurseries; a refusal is of the bare need, the heap as it was, or of more living than the budget, the heap moved |
| `GcSize.Store.TakeMinor` | src/love/gc.c:386-419 | a minor's promotion fits the room checked for it, the request and the slack still left, and lands where a minor puts it |
| `GcSize.Store.Please` | src/love/gc.c:376-486 | a served request finds its words free, the heap isomorphic; a refusal keeps the heap and has its reason: no memory for the bare need, more living than the budget, or a nursery too small that memory or the budget denies; a minor places as a minor does and steers the window; after a major that got its ask the same condition says whether the next is a minor |
| `Codegen.PopPushes` | src/love/ev.c:289-310 | operand slots pushed and popped leave the compile-time stack as it was, to the run, and count one each |
| `Codegen.IdxPushed` | src/love/ev.c:293-310 | a name's slot is found as many slots further down as operands came over it |
| `Codegen.EndsSuffix` | src/love/ev.c:250-263 | a label, counted in words from the thread's end, leads back to the instruction it was taken at |
| `Codegen.GenOver` | src/love/ev.c:193-202 | laying code rewrites nothing laid before but a return at the very head |
| `Codegen.LastQuote` | src/love/ev.c:478-495 | the peephole's look at the last emitter finds a quoted constant callee, and never anything else |
| `Codegen.AnalyzeLays` | src/love/ev.c:383-393 | emission of any analysis lays the expression's code, restores every label and the compile-time stack, finds every exit label at an instruction, and stays within the words analysis reserved |
| `Codegen.CondLays` | src/love/ev.c:461-475 | the same for a conditional's clauses: branch labels, and exits copied or jumped to |
| `Emission.Emitter.LayAp` | src/love/ev.c:193-202 | a call over a return at Kp becomes the tail call in the return's own words |
| `Emission.Emitter.LayExit` | src/love/ev.c:255-263 | an exit that returns or tail-calls is copied word for word, any other is a jump |
| `Emission.Emitter.Emit` | src/love/ev.c:189-263 | each emitter, in the buffer, is the emitter on values; Kp stays inside the words reserved |
| `Emission.Emitter.Pull` | src/love/ev.c:177-187 | pulling all emitters lays the whole thread and writes no word outside the reservation |
| `Emission.Thread` | src/love/ev.c:155-185 | an expression's thread lies in a buffer of just the reserved words |
| `Emission.Function` | src/love/ev.c:410-459 | a function's thread likewise, with its cur and its return |
| `Vm.EndsOnce` | src/love/ev.c:1022-1062 | the machine is deterministic: it stops in one place |
| `Compiled.LamCode` | src/love/ev.c:437-457 | a function's code is its cur, its body's code and its return, within the words reserved |
| `Compiled.LinkOk` | src/love/ev.c:240-248 | every compiled or static function has the cur its arity says, which the calls rely on |
| `Compiled.ChainSim` | src/love/ev.c:1184-1188 | entering a partial lays its captured arguments in order and comes to its base's body |
| `Compiled.PartialDen` | src/love/ev.c:1190-1207 | lvm_cur's new partial means the function with one argument more |
| `Compiled.ApplySim` | src/love/ev.c:1022-1028 | an application of any word, function, partial, number or datum, comes to its return address with what the evaluator says, or fails, or runs on, as it says |
| `Compiled.NumSim` | src/love/ev.c:745-750 | a number applied goes through its hook and then to the operand, as numap_drive has it |
| `Compiled.TestSim` | src/love/ev.c:1177-1183 | the conditional picks the branch truth says, a compound measured first and the test run again |
| `Compiled.ExitLeads` | src/love/ev.c:255-263 | a copied exit and a jumped-to one do the same |
| `Compiled.ApSim` | src/love/ev.c:1022-1036 | a call and the tail call it became come to the same place |
| `Compiled.ApnSim` | src/love/ev.c:1043-1062 | an n-ary call of a static function, tail or not, runs its body over its frame and comes back alike |
| `Compiled.EvalSim` | src/love/ev.c:383-393 | an expression's code, run at any depth over any frame with any code after it, comes to that code with the evaluator's value on top |
| `Compiled.IfSim` | src/love/ev.c:461-475 | a conditional's code likewise, whatever its exits became; with no else, the word that nets nothing |
| `Compiled.L2rSim` | src/love/ev.c:509-522 | one operand after another, each applied before the next is computed |
| `Compiled.R2lSim` | src/love/ev.c:527-534 | operands last first land with the first on top |
| `Compiled.CompileSim` | src/love/ev.c:155-185 | for any fuel the machine halts with the evaluator's value, fails, or runs at least as many steps |
| `Compiled.CompileCorrect` | src/love/ev.c:155-185 | the compiled thread halts with a value and a world just when the evaluator, given fuel enough, comes to them |
| `Compiled.CompileFails` | src/love/ev.c:155-185 | and it fails just when the evaluator refuses |
| `LangFacts.FuelEnough` | src/love/ev.c:1022-1062 | an answer of the evaluator's is its answer with any more fuel |
| `LangFacts.Truth` | src/love/ev.c:1177-1183 | a word counts as true just where it nets more than nothing; only a compound calls anything, its own measure |
| `LangFacts.IfPicks` | src/love/ev.c:464-474 | the first test to come out true has its branch computed, after the tests before it and nothing else |
| `LangFacts.NoElse` | src/love/ev.c:464-475 | a conditional without an else, none of whose tests comes out true, is false: over it another's else is taken, from the last test's world, and nothing is called |
| `LangFacts.NoElseRuns` | src/love/ev.c:464-475 | so is its compiled thread: it halts, and with what, exactly as the else does from the last test's world |
| `LangFacts.CallsBody` | src/love/ev.c:497-522 | a function called with all its operands: first to last, then its body over them |
| `LangFacts.CallsStatic` | src/love/ev.c:524-534 | a static function of more than one, by name: last to first, then its body |
| `LangFacts.NumberCalls` | src/love/ev.c:745-750 | a number applied calls its hook on the number and the operand |
| `LangFacts.StaticRuns` | src/love/main.c:266-267 | a static function is its operations in turn, the first over all its operands, each later one over the answer before it |
| `Calls.ChainRuns` | src/love/ev.c:1243-1253 | a chain of one-argument calls is that many applications |
| `Calls.ApplyAllFn` | src/love/ev.c:1190-1207 | a function takes its arguments without effect until the last, which runs it |
| `Calls.ApoSim` | src/love/ev.c:1066-1073 | lvm_apo over a callee of any kind and width comes to what n applications come to |
| `Calls.TapoSim` | src/love/ev.c:1075-1084 | lvm_tapo likewise, over its frame, at the caller's caller |
| `Calls.ShortDen` | src/love/ev.c:1098-1118 | the one uncn cell a short call makes means what n unc cells would |
| `Calls.MissSim` | src/love/ev.c:1119-1129 | the thread a miss lays runs the left-to-right chain and comes back past the call |
| `Calls.ApoIsChain` | src/love/ev.c:1064-1129 | an n-ary call and n successive calls end on words of one meaning with the same effects, or both fail, or both run on |
| `Calls.FnBase` | src/love/io.c:477-481 | fn_base: the function a partial is of and how many arguments it holds, through any mix of cells |
| `Calls.FnArg` | src/love/io.c:482-486 | fn_arg: the i-th argument in application order |
| `MergeSpec.MergeAllStable` | src/love/ev.c:763-765 | passes of doubling width over unit runs are a stable sort under any total preorder that says yes on ties |
| `MergeSpec.StableUnique` | src/love/ev.c:763-765 | sortedness and the order of ties leave one sequence: the stable sort is unique |
| `MergeSpec.StableSortUnique` | src/love/ev.c:763-765 | so a sequence has one stable sort |
| `Sortby.AnyAnswersSort` | src/love/ev.c:789-833 | fed any answers at all, the suspended sort asks at most n * ceil(log2 n) times and what it ends with is a permutation of its input |
| `Sortby.SortEnds` | src/love/ev.c:789-833 | it ends: answers enough finish it |
| `Sortby.HonestSort` | src/love/ev.c:789-833 | fed a comparator's answers it ends with the pure merge sort's result |
| `Sortby.SortIsStable` | src/love/ev.c:763-833 | over a total preorder that result is the stable sort |
| `Sortby.Sorter.Step` | src/love/ev.c:789-814 | one step in place on the two trays: the answer taken, runs finished, passes swapped, up to the next compare |
| `Sortby.Sort` | src/love/ev.c:772-837 | the whole sort over a comparator |
| `Pool.Keep` | src/love/pool.c:198-215 | every step of every thread keeps the invariant, however often the generation has wrapped |
| `Pool.EveryRun` | src/love/pool.c:271-296 | in every interleaving of any number of jobs, with workers made when first wanted, each chunk of each joined job has run exactly once, and no chunk of any job twice; below 2^32 jobs no worker is lost |
| `Pool.FieldsStable` | src/love/pool.c:198-199 | while any thread is in the job no step changes the job, its bound, its width or its generation |
| `Pool.JoinWhole` | src/love/pool.c:291-295 | the join returns only with every worker out of the job and every chunk run, and till then the pool reads busy |
| `Pool.BusyInside` | src/love/pool.c:241-244 | an ask from inside a chunk finds the pool busy |
| `Pool.NoLostWakeup` | src/love/pool.c:205-214 | who sleeps on go owes the job nothing, and while the caller sleeps on done an awake worker owes it, if none was lost |
| `Pool.Progress` | src/love/pool.c:198-215 | until the caller is back some thread has a step that is not a spurious wakeup, if no worker was lost: no deadlock |
| `Pool.JobEnds` | src/love/pool.c:271-296 | however its threads are scheduled a job has no more steps, spurious wakeups apart, than a number its state gives |
| `Pool.JoinsFresh` | src/love/pool.c:203-214 | a posted job can be joined if and only if no worker counted into it has seen its generation already |
| `Pool.NeverJoins` | src/love/pool.c:291-295 | where one has, the job is worked at for ever, and no other is posted |
| `Pool.WrapLoses` | src/love/pool.c:203-208 | the failing input: at the 2^32nd job a worker made for it has seen its generation and sleeps through it; no run from there joins the job |
| `HornRing.Keep` | src/love/hornring.h:16-32 | every one-slot step of either side keeps the ring's invariant |
| `HornRing.EveryRun` | src/love/hornring.h:8-32 | in every interleaving, over any wrap, frames come out in order, none lost, doubled or overwritten unread, and the lag is the fill, n at most |
| `HornRing.MinusIs` | src/love/hornring.h:12 | the 32-bit difference of two indices is the fill, across the wrap |
| `HornRing.EndsShort` | src/love/hornring.h:14-24 | a push is short only of a ring it saw full, a pull only of one it saw empty |
| `HornRing.NeverStuck` | src/love/hornring.h:16-32 | neither side ever waits for the other |
| `FreeList.FitTop` | src/inle/ffalloc.h:20-31 | from the top ff_fit answers an aligned header with words enough and a gap below of none or a block, and 0 only where there is none |
| `FreeList.FitBottom` | src/inle/ffalloc.h:20-31 | from the bottom it answers the lowest such, and 0 only where there is none |
| `FreeList.CarveKeeps` | src/inle/ffalloc.h:33-46 | a carve keeps the list maximal runs in address order and moves just the words it takes |
| `FreeList.FreedKeeps` | src/inle/ffalloc.h:61-74 | a free keeps it so and adds just the words freed |
| `FreeList.CanonicalUnique` | src/inle/ffalloc.h:1-9 | the list is the free words and nothing else: one set of words has one list |
| `FreeList.AllocThenFree` | src/inle/ffalloc.h:48-74 | freeing what was just allocated restores the identical list |
| `FfAlloc.EveryRun` | src/inle/ffalloc.h:48-74 | over every run of allocs, frees and donations live blocks are aligned and disjoint, the list canonical, the words conserved |
| `FfAlloc.CarveChained` | src/inle/ffalloc.h:33-46 | the carve's few writes to headers and links leave in memory the carved list |
| `FfAlloc.Allocator.AllocAligned` | src/inle/ffalloc.h:48-56 | in memory: the lowest fit from the bottom or the highest from the top, by size; 0 only where no block has a fit, and then nothing changed |
| `FfAlloc.Allocator.UnlinkBelow` | src/inle/ffalloc.h:64-68 | the first loop reverses the links of the blocks below in place |
| `FfAlloc.Allocator.PutBack` | src/inle/ffalloc.h:69-74 | the second puts them back, merging what touches |
| `FfAlloc.Allocator.Free` | src/inle/ffalloc.h:61-74 | in memory: the freed list, the live blocks the same but for one |
| `FfAlloc.Allocator.Donate` | src/inle/kmain.c:2108-2116 | memory given at boot joins the list in whatever order it comes |
| `Eqv.Region.Threads` | src/love/arr.c:427-454 | two threads word by word: self references by offset, heap words on the worklist; unequal, short or well by whichever comes first |
| `Eqv.Region.Turn` | src/love/arr.c:517-557 | one turn: the pair's parts on the worklist, or a difference, or, exactly where the region has not the room the pair asks, a shortage |
| `Eqv.Drained` | src/love/arr.c:558 | with the worklist drained what was taken as equal is a bisimulation |
| `Eqv.Differs` | src/love/arr.c:519 | a difference met anywhere refutes the first pair |
| `EqvTree.DataKids` | src/love/arr.c:517-551 | of two words that are not threads: the parts the walk takes in turn are equal just where the words' own content is, kind by kind |
| `EqvTree.BisimilarIsEqual` | src/love/arr.c:505-563 | two words are bisimilar, as the walk takes them, if and only if they unfold to the same trees, to every depth: leaves alike, pairs, cells, shaped arrays, partials, threads |
| `Eqv.EqvAt` | src/love/arr.c:505-563 | 1 only for words that unfold to the same trees, 0 only for words that do not; -1 if and only if the walk, fixed by the heap and the words, comes before its end to a pair this region has not the room for; that region is less than the heap and the words can need; it always ends |
| `EqvPlain.BisimilarIsPlain` | src/love/arr.c:445-450 | words equal for the code are equal by plain unfolding if and only if, in all threads the comparison comes to, references behind the entries, taken as equal by their offsets alone, are |
| `EqvPlain.PlainIsBisimilar` | src/love/arr.c:445-450 | words plainly equal are equal for the code if and only if no two threads it comes to hold a reference into the one against a word that is none into the other, or a different one |
| `EqvPlain.BehindDiffers` | src/love/arr.c:449-450 | an input equal for the code and not plainly |
| `EqvPlain.UnmatchedDiffers` | src/love/arr.c:449-450 | an input plainly equal and not for the code |
| `LrSpec.TakesIs` | src/love/lr.c:23-45 | over any tables lr_takes says yes just when the machine that passes over rules out of range does not err within the turns, or rises more than the overlay's 64 first |
| `LrSpec.TakesAgrees` | src/love/lr.c:23-45 | over any tables: where the run shifts it says yes, where it says no the run errs; and within its limits the two disagree if and only if the run comes to a rule out of range and, that passed over, would not err |
| `LrSpec.WildGoesOn` | src/love/lr.c:38-44 | at a rule out of range it goes on with the rule's left side pushed, where the run errs |
| `LrSpec.LenientChain` | src/love/lr.c:86-93 | up to the first rule out of range, if it comes to one, the run is the machine that passes over them |
| `LrSpec.OutOfRange` | src/love/lr.c:38-44 | the failing input: tables over which it says yes and the run errs |
| `LrTables.ActRead` | src/love/lr.c:30-31 | of dense tables packed by any displacement of their rows, each entry under its row's check, the action read is the dense one, for every state and kind |
| `LrTables.GotoRead` | src/love/lr.c:40-43 | and the goto read, for every left side and state, one past the last its default |
| `LrTables.PackedRun` | src/love/lr.c:70-93 | so any run over the packed tables is the run over the dense ones, lookahead and all |
| `LrTables.CheckMatters` | src/love/lr.c:92 | an input where two left sides share a slot: only the check tells them apart |
| `LrRun.SlicesAreRun` | src/love/lr.c:70-71 | with no kind for the caller to say, slices make the same status, states, place and log as one run |
| `LrRun.RunForest` | src/love/lr.c:70-93 | for any tables, the log from a one-state cursor stands for a forest as large as the stack, its nodes as wide as their rules, its tokens those taken, in order |
| `LrRun.SaidIs` | src/love/lr.c:76-81 | two kinds the caller says in one number: the first of them if a shift of it can come, and the second if not; a plain kind is itself |
| `LrRight.RunIsRight` | src/love/lr.c:70-93 | with every kind said beforehand, over any tables: the states are the automaton's along the forest's roots, every node's rule is its last state's action on the token after it, every token a shift; accepted just where the last state shifts the end, an error where it has no move |
| `Lr.TakesAt` | src/love/lr.c:25-45 | the lookahead over the byte buffer and a 64-slot overlay, the states only read |
| `Lr.Steps` | src/love/lr.c:70-93 | the loop in the buffer is the run |
| `Lr.HostRun` | src/love/lr.c:47-99 | for arguments it takes, the buffer it asked for holds every write and ends as the answer's bytes: place, depth, states, status, log, and zeros to the end of the last word; for packed tables the answer is that of the dense ones |
| `Pipes.DropCounted` | src/inle/kmain.c:1045-1058 | closing any row keeps each pipe's counts the numbers of its rows |
| `Pipes.AddCounted` | src/inle/kmain.c:1213-1234 | copying a row keeps them too |
| `Pipes.InUse` | src/inle/kmain.c:1045-1048 | a pipe's memory is there just while some row is an end of it |
| `Pipes.CopyReaches` | src/inle/kmain.c:1213-1234 | a copied row reaches the device, or the end of the pipe, that the row it is of does |
| `Pipes.Kernel.DupRow` | src/inle/kmain.c:1213-1234 | the copy is at the lowest free row from the floor on and reaches what its source does, the other rows as they were; a refusal changes nothing |
| `Pipes.Kernel.Dup3` | src/inle/kmain.c:1239-1251 | dst is a copy of src, reaching what it does, if and only if dst was not the lowest free row; where it was, the row is left free though dst is answered; the counts hold either way |
| `Pipes.Kernel.MakePipe` | src/inle/kmain.c:1254-1270 | two new rows on one new pipe, at the two lowest free ones, or nothing kept |
| `Pipes.Kernel.Read` | src/inle/kmain.c:1020-1033 | bytes in order from the front of the pipe's buffer, 0 to park, and the end just when nothing waits and no write row remains |
| `Pipes.Kernel.Write` | src/inle/kmain.c:1035-1039 | all the bytes behind those that wait, or none: exactly with no read row, or where the buffer refuses |
| `Pipes.Queue.Get` | src/inle/kmain.c:993-1001 | the queue in its buffer gives its first bytes and keeps the rest |
| `Pipes.Queue.Put` | src/inle/kmain.c:1003-1019 | sliding down and growing lose nothing and keep the order; refused exactly past the largest place, or where memory refuses and sliding leaves too little |
| `Pipes.Tube.Read` | src/inle/kmain.c:1020-1033 | the row table's read is the buffer's, wherever the bytes have slid or grown to |
| `Pipes.Tube.Write` | src/inle/kmain.c:1035-1039 | and so its write |
| `Ports.Port.Drain` | src/love/io.c:89-106 | whatever the device takes of the run, what landed and what waits are what was put, while it is not gone; it returns with nothing waiting, or a device that took nothing of all that was |
| `Ports.Port.Putc` | src/love/io.c:175-191 | a byte put comes after all before it |
| `Ports.Port.Puts` | src/love/io.c:370-405 | a string's bytes, straight to the device or joined to the run, keep the order; parked, none is taken |
| `Procs.EndedKeeps` | src/inle/sys.c:294-302 | an end keeps pids distinct and each parent 0, 1 or a live pid: children are orphaned, dead ones gone |
| `ProcFacts.EndOthers` | src/inle/sys.c:294-302 | an end changes no other process but its children: a live one is an orphan, a dead one gone |
| `ProcFacts.EndReaped` | src/inle/sys.c:386-392 | the status a process ends with is what its pid's reap answers, by the shell's rule |
| `ProcFacts.ExitReaped` | src/inle/sys.c:464 | exit(a) is reaped as a's low byte |
| `ProcFacts.KillReaped` | src/inle/sys.c:480-488 | a kill by signal b is reaped as 128 + b |
| `ProcFacts.EndWaited` | src/inle/sys.c:469-479 | and its living parent's wait for that pid answers the status itself |
| `ProcFacts.GrownReaped` | src/inle/sys.c:267-277 | the slots a table has grown by are free, and answer 0 to a reap of pid 0 |
| `Procs.UnmadeKeeps` | src/inle/sys.c:378-382 | a refused process is gone as if it had not been: every other record the same, its pid to be given again |
| `Procs.ReapDelivers` | src/inle/sys.c:386-392 | a status the kernel's reap answers is a process's own, not delivered before, if and only if the pid asked is not 0 |
| `Procs.ReapedTwice` | src/inle/sys.c:258-260 | the failing input: a pid reaped, and then pid 0, which finds the freed slot and answers its status again |
| `Procs.ReapZero` | src/inle/sys.c:258-260 | pid 0 is refused exactly when no slot is free |
| `ProcRows.OthersSee` | src/inle/sys.c:394-431 | moves for one process leave what every other's descriptors are open on |
| `ProcTable.Table.PfdPut` | src/inle/sys.c:282-288 | a row goes to the lowest free descriptor, or is closed |
| `ProcTable.Table.Exit` | src/inle/sys.c:464 | an exit closes just the rows it held, makes its children orphans or nothing, and changes no other record; its status is the shell's byte of what it was given, for the one that waits |
| `ProcTable.Table.Kill` | src/inle/sys.c:480-488 | a kill is that, its status the signal's number, for the process named, or for none, and the refusals are told apart |
| `ProcTable.Table.CloseFd` | src/inle/sys.c:496-499 | close gives up just that row |
| `ProcTable.Table.DupFd` | src/inle/sys.c:508-510 | F_DUPFD: a fresh row on the same file at the lowest descriptor from the floor, or nothing kept |
| `ProcTable.Table.Dup3` | src/inle/sys.c:518-523 | dup3: the old row closed, a fresh one on the source's file in its place, or nothing changed |
| `ProcTable.Table.Pipe2` | src/inle/sys.c:524-533 | pipe2: both ends placed, or both closed |
| `ProcTable.Table.Act` | src/inle/sys.c:394-411 | a spawn's actions in place leave each descriptor on the file they say, or are refused for a bad one or for want of rows |
| `ProcFacts.SparesAre` | src/inle/sys.c:480-488 | the signals that do nothing to a process |
| `ProcFacts.ActsRefused` | src/inle/sys.c:394-411 | a list of actions is refused just where one of them names a descriptor that is not open after those before, or none |
| `ProcFacts.ActsSay` | src/inle/sys.c:394-411 | after the actions: the last to name a descriptor says what it is open on, a dup2's target its source's file and not close-on-exec |
| `ProcFacts.ActsKeep` | src/inle/sys.c:394-431 | a descriptor no action names is open in the child as in the parent, but for close-on-exec |
| `ProcTable.Table.Spawn` | src/inle/sys.c:413-431 | a child of the next pid whose descriptors are the parent's after the actions, every other record and row as it was; or a refusal at any point, with every record and every open row as it was |
| `ProcTable.Table.New` | src/inle/sys.c:359-384 | the kernel's own process likewise on its three files, or a refusal, a closed one among the three included; the read end of its exit pipe handed out only on success |
| `ProcTable.Table.Slot` | src/inle/sys.c:267-277 | a slot of no process whose machine is let go, or a new one past the table, and no other record touched |
| `ProcTable.Table.Pump` | src/inle/sys.c:348-357 | the dead's machines go, and the records are else as they were |
| `ProcTable.Table.Wait` | src/inle/sys.c:469-479 | the first dead child's status, once: its pid was not delivered before and is no one's after; no child, or none yet, said apart |
| `ProcTable.Table.Reap` | src/inle/sys.c:386-392 | the kernel's reap by pid, whichever slot the search finds: a status, delivered once of a pid not 0, or a refusal that changes nothing |

## Left out

- Objects: the words of each kind and the order an object's fields are scanned in are abstracted to a kind, unread words and fields scanned left to right; an object's size is one word and these. A thread's own words and terminator are in GcThread only, for one thread at a time.
- Which blocks are freed, the intern map's rebuilding and the finalizers in the collector: blocks are numbers never used again, and the bounds on a major's block are for copied objects.
- GcCore.AllocKeeps: the nursery has no size there; GcSize.Store.Alloc is the bump within its room.
- GcCore.Collector.Alloc: likewise.
- GcSize.Store.Please: the size of the survivors' block is a parameter, because any value of it keeps the properties.
- GcSize.Latched: is about collections between which nothing new lives; a nursery above its floor may shrink as it goes.
- LvGcStress builds.
- Captured variables, lets, macros and the operator prepass in the compiler, which call lisp that is not part of this model; a call without operands and a `?` with one are taken as their operand, to which analysis goes straight.
- Fused instructions (argap, argtap, argcond), part and tpart, yielding between instructions, call/cc and the stack's limit; the machine's registers are a state on values, stepped by a function.
- A datum applied is one primitive; hooks are words the program supplies.
- Vm.EndsOnce: where the machine stops on an ill-formed stack the C code is undefined and the model fails.
- The trays' write barrier and the re-measured comparison answer in the sort; an answer is yes or no.
- The pool's width, its load heuristics, the fork's fresh pool and the serial path's chunks; a critical section is one step, memory is sequentially consistent.
- HornRing.EveryRun: steps are sequentially consistent; the code has no fences.
- FfAlloc.Allocator.Search: takes the fit test as a parameter, and addresses and lengths are in words, not wrapping at 2^64.
- Eqv.EqvAt: a thread's words behind its terminator and the two growing hints for the region are not modelled; leaves compare by a predicate given with the heap.
- Resuming an LR slice part-way through a kind the caller said as "a or b": the resolved choice is not stored in the cursor.
- LrRight.RunIsRight: where the caller says kinds as the run goes, the log does not hold them, and what holds is LrRun.RunForest.
- Lr.HostRun: the collection that makes the answer's room.
- Pipes: ptys, ram and host files, directories; a refused growth is a parameter.
- Ports: a port without a buffer, reads, and memory refusing a larger buffer.
- ProcTable: a process's memory, its program, its directory and poll; the kernel's rows are a set of numbers with the lowest free one next, refused at the table's ceiling.
- Map probing, hash leaves, the scheduler, bignums, the vfs, image codec, digests, drivers and geometry.
