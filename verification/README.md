# Verified model of the foma finite-state engine

foma compiles and applies finite-state machines and transducers. All its
operations work on one data structure, a flat table of lines
`(state, in, out, target, final, start)` that is grouped by state and ended by a
sentinel. This project models the operations on that table in Dafny and proves
them against the mathematics they stand for.

Two denotations are fixed first:

* the **pair-language** (`Nets.Accepts`): the words over `in:out` letters along
  the paths from a start state to a final state, where `0:0` is the empty word;
* the **open-alphabet language** (`Alphabets.OpenAccepts`): words over pairs of
  symbols known or not, where `@` is any symbol outside the alphabet read and
  written alike, `?` is any symbol outside it, and `?:?` is a pair of different
  ones.

What is proved, hardest first:

* **Minimization.** `fsm_minimize` turns a net into the smallest deterministic net
  of the same pair-language, unless its table was kept because it is deterministic
  already, and it has states that cannot be reached and accept something of their
  own (`Residuals`). Behind it stand the refinement of
  the partition with its intrusive lists, agenda and fixed pools
  (`Refine`, `Blocks`, `Stages`), the agenda entries that resume in the middle of
  a block after it split itself (`Schedule`, `Hopcroft`), and the meaning of a
  split (`Splitters`, `Nerode`). Double reversal (`Brzozowski`) gives at most one
  state more than necessary; exactly when it does so is proved too.
* **Subset construction** with memoized, stamped epsilon closures and a hash
  table that interns sets up to order.
* **Products** over an open-addressing table of triples: composition,
  intersection, difference, shuffle, cross product, equivalence. Each is the
  exploration (`Explore`) of a space of triples whose walks are related to the
  paths of the two nets. Composition and cross product are relations over any
  symbols, known or not (`Relations`); what composition loses of the relation is
  characterised exactly. Intersection, difference and composition are chained with
  the merging of the alphabets (`OpenProducts`).
* **Lookup.** The explicit-stack search with visit marks and flag restoration,
  resumable after each result, returns the output of every accepting path that
  obeys its flags, each once. The index over the arcs of chosen states and
  bisection over sorted arcs are part of the search. One handle serves both
  directions; exactly when one disturbs the other is proved.
* **Flag elimination.** The exact condition, on the flags of a net, under which the
  static filters agree with the run-time flag check: with P, U, C, D and R flags,
  that every tested attribute can be set; with N and E flags three conditions more.
* **Alphabet merging, completion and complement, trimming in place, reversal, and
  the text format of nets**, written and read back.

The code works by changing things step by step, and so does the model: handles
and tables are classes whose methods are proved against ghost abstractions, and
algorithms on arrays keep their arrays. Pointers into fixed pools are indices
with -1 for NULL. What a table means is a `Net`, a graph with numbered states.

The operations fit together: nets that the builder, the subset construction and
the products write are nets as the others read them (`Pointers.IsNet`), in an
order of rows that the pass of `fsm_coaccessible` relies on (`Order.InOrder`).

## Model

| member | source | states |
|---|---|---|
| Minimization.FsmMinimize | back-ends/foma/minimize.c:97-116 | For every net with a start state (rows in order, and the start state leading to a final one, where the table is kept as it is), the result is deterministic, has the same pair-language and pairwise inequivalent states. It is the smallest such net exactly if determinizing rewrote the table, or no productive state of the net is inequivalent to all reachable ones. |
| Minimization.StrayKept | back-ends/foma/minimize.c:97-116 | A final state that cannot be reached, before a final start state, is kept: the result is not the smallest net. |
| Residuals.ReachableExactly | back-ends/foma/minimize.c:97-116 | A reduced, trim net that has the states of another (up to equivalence) has only reachable ones exactly if every productive state of the other is equivalent to a reachable one. |
| Minimization.TrimNet | back-ends/foma/minimize.c:104-105 | Trimming leaves a deterministic net of the same language that is trim, or has no final state at all; its states are the productive ones up to equivalence, and all reachable if they were. |
| Minimization.ReducedMinimal | back-ends/foma/minimize.c:97-116 | What trimming and Hopcroft's algorithm make of a deterministic net is the smallest net of the language exactly if no productive state is inequivalent to all reachable ones. |
| Minimize.MinimizeHop | back-ends/foma/minimize.c:122-248 | Same language and still deterministic; pairwise inequivalent states if the net was trim; one state if there is no final state. |
| Minimize.AgendaLoop | back-ends/foma/minimize.c:158-232 | Runs to an empty agenda or to one block per state; the loop ends because at most 2n entries are ever pushed. |
| Minimize.UseBlock | back-ends/foma/minimize.c:158-232 | One agenda entry is used up: of every block all symbols are done or scheduled afterwards, also if the block split itself on the way. |
| Minimize.Congruence | back-ends/foma/minimize.c:122-248 | With an empty agenda, states of one block agree on finality and step to the same blocks under every letter. |
| Minimize.MinimizedIsSmallest | back-ends/foma/minimize.c:122-248 | The result of a trim, reachable net has no more states than any deterministic net of the language. |
| Splitters.SplitterSeparates | back-ends/foma/minimize.c:122-248 | If one state steps into a block and another does not, some word tells them apart: splits never separate equivalent states. |
| Splitters.SplitStep | back-ends/foma/minimize.c:311-443 | Splitting all blocks by one (block, symbol) keeps the key invariant: of two states in one block whose successors lie in different blocks, some pending (block, symbol) will separate them. |
| Splitters.NothingPending | back-ends/foma/minimize.c:122-248 | When nothing is pending, the blocks are a congruence. |
| Schedule.SplitKeepsSchedule | back-ends/foma/minimize.c:311-443 | The agenda goes on covering all pending pairs across a split, including an entry with index 1 that resumes a block at the symbol it had come to. |
| Schedule.PoppedKeepsSchedule | back-ends/foma/minimize.c:158-175 | Taking an entry off the agenda leaves the others right. |
| Refine.Partition.RefineStates | back-ends/foma/minimize.c:311-443 | Every block that is met only in part by the predecessors is cut in two, others stay; the lists remain a partition matching `group`, counts and incoming sums match the lists, the pools do not overflow, and exactly the new blocks (and a current block that was cut) are queued. |
| Refine.Partition.Split | back-ends/foma/minimize.c:344-443 | The second pass: touched states move to new blocks one by one, leaving a partition after every step. |
| Refine.Partition.Touch | back-ends/foma/minimize.c:320-343 | The first pass counts the touched states and incoming arcs of every block. |
| Refine.Partition.MoveState | back-ends/foma/minimize.c:395-434 | Unlinking a state from its list and appending it to another keeps every list linked in both directions. |
| Refine.Partition.AgendaAdd | back-ends/foma/minimize.c:445-460 | The entry is put at the head of the agenda, from a pool that cannot run out. |
| Refine.Partition.PopAgenda | back-ends/foma/minimize.c:158-175 | The entry pushed last comes off; its block is no longer marked as queued. |
| Blocks.ListIsMembers | back-ends/foma/minimize.c:311-460 | The states linked in the list of a block are exactly those whose `group` is the block. |
| InitialPartition.InitPE | back-ends/foma/minimize.c:462-557 | One list of final and one of other states, with the agenda holding what is needed to begin. |
| Inverse.GenerateInverse | back-ends/foma/minimize.c:563-608 | The inverse table lists exactly the incoming arcs of every state, sorted by symbol; the counts of incoming arcs match it. |
| Hopcroft.Splitter.Gather | back-ends/foma/minimize.c:176-196 | The states of the block, with their cursors set (or resumed) and the least symbol on an incoming arc. |
| Hopcroft.Splitter.CollectGroup | back-ends/foma/minimize.c:197-222 | The predecessors of the whole block under one symbol, without repetition, and the next symbol. |
| Rebuild.Compact | back-ends/foma/minimize.c:282-303 | The table is rewritten in place to the lines of the representatives, renumbered. |
| Rebuild.NumberClasses | back-ends/foma/minimize.c:255-281 | Blocks are numbered in order, the block of state 0 first. |
| Minimize.RebuildMachine | back-ends/foma/minimize.c:250-309 | The rebuilt table is the quotient net, and minimized. |
| Rebuild.RebuiltQuotient | back-ends/foma/minimize.c:250-309 | Keeping the lines of one representative per block gives the quotient of the net. |
| Nerode.QuotientLanguage | back-ends/foma/minimize.c:250-309 | A quotient by a congruence accepts the same words. |
| Nerode.ReducedIsSmallest | back-ends/foma/minimize.c:97-116 | A trim, reachable net with pairwise inequivalent states is the smallest of its language. |
| Symbols.SigmaToPairs | back-ends/foma/minimize.c:610-672 | Exactly the letters on arcs get dense numbers. |
| Symbols.NumberOfLetters | back-ends/foma/determinize.c:641-697 | There are as many numbers as different letters. |
| Brzozowski.FsmMinimizeBrz | back-ends/foma/minimize.c:118-120 | Double reversal keeps the language; any two states but the start state are inequivalent; there is at most one state more than in any deterministic net of the language, and one state if the language is empty. |
| Brzozowski.OneStateMore | back-ends/foma/minimize.c:118-120 | At most one state more than necessary. |
| Brzozowski.ReducedExactly | back-ends/foma/minimize.c:118-120 | The result of a nonempty language is fully minimal exactly if the smallest net of that language has no arc into its start state. |
| Brzozowski.BackAtStart | back-ends/foma/minimize.c:118-120 | In the smallest net, a word that leaves the language as it was leads back to the start state. |
| Brzozowski.OneTooMany | back-ends/foma/minimize.c:118-120 | For a loop over one letter at a final start state the result is not minimal. |
| Brzozowski.Apart | back-ends/foma/minimize.c:118-120 | Two subsets of a reversed deterministic net that do not hold the new start state accept different words. |
| Reversal.FsmReverse | back-ends/foma/reverse.c:21-48 | The result accepts exactly the words that the net accepts backwards, and is the reversed net with one fresh start state; fsm_empty_set if there is nothing to accept. |
| Reversal.ReversalLanguage | back-ends/foma/reverse.c:21-48 | A reversed net accepts w exactly if the net accepts w backwards. |
| Reversal.ReachedBack | back-ends/foma/reverse.c:21-48 | The states of the reversed net after w are those from which the net accepts w backwards. |
| Construct.ConstructHandle.AddArcNums | back-ends/foma/dynarray.c:276-297 | One more arc; nothing else changes; the largest state number is kept up to date. |
| Construct.ConstructHandle.SetFinal | back-ends/foma/dynarray.c:213-225 | One more final state; nothing else changes. |
| Construct.ConstructHandle.SetInitial | back-ends/foma/dynarray.c:227-237 | One more initial state; nothing else changes. |
| Construct.ConstructHandle.CheckSize | back-ends/foma/dynarray.c:194-211 | Room for a state without changing what is there. |
| Construct.ConstructHandle.Done | back-ends/foma/dynarray.c:425-490 | The net of the collected arcs (without 0:0 loops) and flags, or fsm_empty_set when there is no final or no initial state or the initial states are idle. |
| Reading.ReadHandle.NextArc | back-ends/foma/dynarray.c:590-611 | Comes by every arc of the net once, in table order, skipping lines without arcs. |
| Reading.ReadHandle.NextFinal | back-ends/foma/dynarray.c:675-685 | Comes by the final states, and then -1 for ever. |
| Reading.ReadHandle.NextInitial | back-ends/foma/dynarray.c:663-673 | Comes by the initial states, and then -1 for ever. |
| Reading.ReadInit | back-ends/foma/dynarray.c:502-570 | The lists hold exactly the initial and the final states in ascending order. |
| Determinize.FsmDeterminize | back-ends/foma/determinize.c:108-335 | The result is deterministic and 0:0-free and has the same pair-language. The table is kept exactly if the net is marked deterministic, or is deterministic and no arc is listed twice; otherwise the result is the reachable part of the subset net. |
| Determinize.Subset.WriteAll | back-ends/foma/determinize.c:213-300 | The main loop ends, with exactly the reachable closed sets written, in an order fit for trimming. |
| Determinize.Subset.WriteState | back-ends/foma/determinize.c:213-300 | The row of one set has an arc for every letter that leads on, to the closure of the step. |
| Determinize.Mover.CollectMoves | back-ends/foma/determinize.c:228-275 | The targets over one symbol of all states of a set, each once, and the next symbol. |
| Determinize.InitialStates | back-ends/foma/determinize.c:526-558 | The start states as the first set, and the table of final states. |
| Powerset.PowersetRun | back-ends/foma/determinize.c:166-335 | After a word, the subset net is in the set of states in which the net can be. |
| Powerset.PowersetLanguage | back-ends/foma/determinize.c:166-335 | The subset net accepts the same words. |
| Closure.Closer.EClosure | back-ends/foma/determinize.c:440-497 | The memoized, stamped search yields exactly the states that 0:0 arcs reach from the given ones, each once, and leaves no stale stamps. |
| SubsetTables.MemoizeEClosure | back-ends/foma/determinize.c:560-615 | The memo lists have exactly the 0:0 targets of every state (loops apart). |
| SubsetTables.InitTransArray | back-ends/foma/determinize.c:386-438 | The sorted rows hold exactly the arcs without 0:0; the net is found deterministic exactly if no state has two lines with the same letter. |
| SubsetTables.AlreadyDeterministic | back-ends/foma/determinize.c:186-200 | No two lines of a state with the same letter, no 0:0 arc and 0 as the only start state: that is, the net is deterministic and no arc is listed twice. |
| SubsetTables.OutsDistinct | back-ends/foma/determinize.c:386-438 | The row of a state repeats no symbol exactly if no two of its lines have the same letter. |
| Interning.Interner.FindInsert | back-ends/foma/determinize.c:704-746 | A set gets the number of the stored set with the same elements, in whatever order; a new one is stored and put on the stack; two lookups agree exactly if the sets are equal. |
| Interning.Interner.Lookup | back-ends/foma/determinize.c:704-746 | The test by size and stamps finds a stored set exactly if one has the same elements. |
| Interning.Interner.Rebuild | back-ends/foma/determinize.c:808-847 | Growing the hash table loses and changes nothing. |
| Interning.Interner.MoveSet | back-ends/foma/determinize.c:761-773 | The set is appended to the store, which may be reallocated, and older sets stay readable. |
| SetHash.HashF | back-ends/foma/determinize.c:748-759 | The loop computes the hash modulo 2^32. |
| SetHash.HashOfSet | back-ends/foma/determinize.c:748-759 | The hash does not depend on the order of the elements, wrap-around included. |
| Builder.StateWriter.AddArc | back-ends/foma/dynarray.c:98-146 | The arc is added unless it is a 0:0 loop; a repeated arc changes nothing; the flags for determinism and 0:0-freedom stay exact. |
| Builder.StateWriter.EndState | back-ends/foma/dynarray.c:90-96 | A state without arcs gets a line for its flags. |
| Builder.StateWriter.Close | back-ends/foma/dynarray.c:148-170 | A grouped table with a line for every state; it is marked deterministic exactly if it has no choices, no 0:0 arcs and at most one start state. |
| TripletHash.TripleTable.Insert | back-ends/foma/constructions.c:339-360 | A new triple gets the next key; the table stays at most half full and keeps its probe chains. |
| TripletHash.TripleTable.Find | back-ends/foma/constructions.c:382-398 | The key of a triple if it has one, -1 otherwise. |
| TripletHash.TripleTable.Rehash | back-ends/foma/constructions.c:362-380 | All triples keep their keys in a table twice the size. |
| TripletHash.FoundInTime | back-ends/foma/constructions.c:382-398 | A stored triple is met before an empty place. |
| TripletHash.SomeFree | back-ends/foma/constructions.c:339-360 | A table that is not full has a free place, so every probe loop ends. |
| Pointers.InitStatePointers | back-ends/foma/constructions.c:248-273 | First line and flags of every state. |
| Explore.Explorer.Add | back-ends/foma/constructions.c:430-490 | An arc to a known or new triple; a new one gets a number and waits. |
| Explore.Explorer.Close | back-ends/foma/constructions.c:484-501 | With nothing waiting, the numbered net has exactly the discovered triples as states (a bijection) and exactly their moves as arcs. |
| Explore.ExploredLanguage | back-ends/foma/constructions.c:400-501 | The numbered net accepts exactly what the walks of the space spell. |
| Order.CloseRow | back-ends/foma/coaccessible.c:113-146 | In a table written from a stack, all smaller states have come up before a row begins: every waiting state but the top one was found by a state with another line besides. |
| Compose.FsmCompose | back-ends/foma/constructions.c:503-841 | For deterministic nets with a merged alphabet, over any symbols, known or not: the result relates x to y exactly if the first net relates x to some string that the second relates to y, without an unknown symbol that becomes itself again by way of another one. If the first net has no ? on its upper side, or the second none on its lower side, this is the composition of the two relations. |
| Composition.OneInterleaving | back-ends/foma/constructions.c:640-830 | Two paths whose middle strings match are realised by exactly one joint walk, with the x:0 moves before the 0:y moves between two matches; others by none. |
| Relations.CompositionRelation | back-ends/foma/constructions.c:503-841 | The walks of the bistate product read exactly the pairs of strings that meet in the middle without such a return. |
| Relations.PlainComposition | back-ends/foma/constructions.c:634-704 | Without ? on one of the two outer sides there is no return. |
| Relations.ReturnLost | back-ends/foma/constructions.c:634-704 | The composition of ?:c with c:? does not relate an unknown symbol to itself, though the first relates it to c and the second c to it. |
| Relations.JoinSplits | back-ends/foma/constructions.c:676-695 | Whatever the letter of a match stands for, the two letters stand for by way of some symbol, which may have to be one that both nets do not know. |
| Compose.OutIndex.Enter | back-ends/foma/constructions.c:602-637 | The stamped index of the second net takes one more arc within its row. |
| Compose.RowFits | back-ends/foma/constructions.c:560-637 | A row of the index never needs more than max2sigma + 2 entries. |
| Compose.ComposePair | back-ends/foma/constructions.c:585-830 | One popped pair of states gets all its moves: matches, x:0 and 0:y. |
| Intersect.FsmIntersect | back-ends/foma/constructions.c:400-501 | For deterministic nets, exactly the words that both accept. |
| Intersect.IntersectionLanguage | back-ends/foma/constructions.c:400-501 | Pairs of runs are runs of the product. |
| Minus.FsmMinus | back-ends/foma/constructions.c:2167-2265 | For deterministic nets, exactly the words that the first accepts and the second does not. |
| Minus.DifferenceLanguage | back-ends/foma/constructions.c:2167-2265 | Runs of the first net paired with runs of the second, or with its death. |
| Shuffle.FsmShuffle | back-ends/foma/constructions.c:1995-2080 | Exactly the shuffles of a word of each net, deterministic or not. |
| Shuffle.ShuffleLanguage | back-ends/foma/constructions.c:1995-2080 | Walks that advance one net at a time are shuffles. |
| CrossProduct.FsmCrossProduct | back-ends/foma/constructions.c:1757-1904 | For nets without ? on the upper side, over any symbols: the result relates exactly the strings of the first net to the strings of the second. |
| CrossProduct.CrossLanguage | back-ends/foma/constructions.c:1757-1904 | The walks in which a final state may wait read exactly the pairs of such strings. |
| Equivalent.FsmEquivalent | back-ends/foma/constructions.c:2082-2164 | 1 exactly if the two deterministic nets agree on every run; for trim nets exactly if the languages are the same. |
| Equivalent.TrimRuns | back-ends/foma/constructions.c:2082-2164 | For trim nets a missing arc or differing finality gives a distinguishing word. |
| Equivalent.AllAgree | back-ends/foma/constructions.c:2082-2164 | The visited pairs of a successful run are a bisimulation. |
| Compaction.FsmCoaccessible | back-ends/foma/coaccessible.c:28-176 | With a final state, the result is a table for the states counted exactly if state 0 leads to a final state; then exactly the productive states are kept, renumbered densely in order with 0 fixed, the language is the same and the net trim. One line for a net without final states. |
| Compaction.NoStateZero | back-ends/foma/coaccessible.c:104-152 | When state 0 is dropped, no state gets the number 0 in its place. |
| Compaction.Compactor.Run | back-ends/foma/coaccessible.c:113-152 | The pass in place: the write index never overtakes a line still to be read, also when a final state that lost its arcs gets a line again. |
| Compaction.Compactor.Reinsert | back-ends/foma/coaccessible.c:114-118 | The line for a final state without arcs fits before the next line read. |
| Compaction.RunEnd | back-ends/foma/coaccessible.c:113-152 | A row that was dropped whole left room; one that was kept up to now has kept its number. |
| Coaccessible.FindCoaccessible | back-ends/foma/coaccessible.c:45-102 | The backward search marks exactly the states that lead to a final state. |
| Pruning.PrunedLanguage | back-ends/foma/coaccessible.c:28-176 | Dropping all other states changes no accepted word. |
| Pruning.PrunedTrim | back-ends/foma/coaccessible.c:28-176 | What is left is trim. |
| Pruning.RenumberMonotone | back-ends/foma/coaccessible.c:104-112 | Renumbering keeps the order. |
| Apply.AllResults | back-ends/foma/apply.c:224-257 | Calling with a word and then with NULL until there is no result returns the output of every accepting path, in order of the depth-first search, and leaves the handle fit for the next word, in this direction or the other; with or without an index, and whatever the array of matches holds after the word. Only where the direction has no index and the start state had one in the direction used before, nothing is found but an empty path. |
| Apply.BothWays | back-ends/foma/apply.c:246-270 | One handle, first in one direction and then in the other: all results at first, and then too, unless the start state is indexed for the first direction and there is no index for the second. |
| Apply.DisturbedExactly | back-ends/foma/apply.c:848-857 | In that case nothing is lost exactly if only the empty path accepts. |
| Apply.ResultsExact | back-ends/foma/apply.c:882-955 | The paths behind the results are exactly the accepting, flag-obeying paths for the word, each once. |
| Apply.ApplyHandle.ApplyNet | back-ends/foma/apply.c:882-955 | The next result is that of the first path still owed, and afterwards the others are owed; NULL exactly if none is. At every step the stack spells a path and the flags are those its arcs leave behind. |
| Apply.ApplyHandle.FollowNextArc | back-ends/foma/apply.c:625-772 | By index, by bisection or by scan, a step down to the first arc that can be followed; no path is lost. |
| Apply.ApplyHandle.IndexArcs | back-ends/foma/apply.c:636-675 | Going down the lists of an indexed state. |
| Apply.ApplyHandle.SetIptr | back-ends/foma/apply.c:848-880 | On entry to a state the pointer leads over exactly the lines to be tried: the list of the next symbol and then that of epsilon, or the row of the state. Without an index for the direction it leaves everything as it was; a state then taken for an indexed one has no lines. |
| Apply.ApplyHandle.SkipThisArc | back-ends/foma/apply.c:811-820 | The pointer goes on to the lines after the one followed last. |
| Apply.Prepare | back-ends/foma/apply.c:414-568 | The preparations for a direction, with an index for any chosen states or without one, fit the search. |
| Apply.SpeedKept | back-ends/foma/apply.c:224-245 | The preparations do not depend on the word. |
| Apply.ApplyHandle.SearchArcs | back-ends/foma/apply.c:676-717 | Following the arcs found by bisection finds the same path as the scan. |
| Apply.ApplyHandle.ScanArcs | back-ends/foma/apply.c:718-771 | The scan over the arcs of a state. |
| Apply.ApplyHandle.PopFrame | back-ends/foma/apply.c:315-341 | Back to the arc followed last, with mark, flag and positions as they were. |
| Apply.ApplyHandle.AtLastArc | back-ends/foma/apply.c:822-845 | If it says so, no later arc of the state can be followed. |
| Apply.ApplyHandle.GoAlong | back-ends/foma/apply.c:749-768 | The step along an arc pushes what is needed to undo it, and the output buffer grows by its text. |
| Apply.ApplyHandle.MatchFlag | back-ends/foma/apply.c:1095-1118 | A flag is obeyed as the flag check says; what it changes can be undone. |
| Apply.ApplyHandle.MarkState | back-ends/foma/apply.c:791-809 | A state is marked with the position; without silent cycles it is never marked there already. |
| Apply.ApplyHandle.ForceClearStack | back-ends/foma/apply.c:105-117 | An unfinished search leaves no marks behind; what it leaves is whether the start state was an indexed one. |
| Apply.ApplyHandle.Start | back-ends/foma/apply.c:224-245 | A new word, in either direction: the first result, or NULL; the rest is owed. |
| Apply.MarkIsNew | back-ends/foma/apply.c:791-809 | On nets without silent cycles, no state is entered twice at one position. |
| Apply.PrintedIsOutput | back-ends/foma/apply.c:957-1065 | What the frames of the stack print is the output of the path. |
| Lookup.AllAccepting | back-ends/foma/apply.c:882-955 | The recursive list of paths has exactly the accepting, flag-obeying paths. |
| Lookup.AllDistinct | back-ends/foma/apply.c:882-955 | None of them is listed twice. |
| ArcSearch.BinarySearch | back-ends/foma/apply.c:570-623 | On a sorted row without flags: the least arc at or after ptr that is epsilon or matches, or failure exactly if there is none. |
| ArcSearch.Bisect | back-ends/foma/apply.c:601-622 | The walk back over ties ends at the first of them, inside the state. |
| ArcSearch.AfterLast | back-ends/foma/apply.c:829-838 | Past a symbol greater than the one sought nothing matches. |
| ArcSearch.LinesOfStates | back-ends/foma/apply.c:1141-1160 | The number of lines of every state. |
| ArcSearch.MarkFlagStates | back-ends/foma/apply.c:1194-1220 | Marked are exactly the states with a flag on an arc. |
| ArcIndex.BuildIndex | back-ends/foma/apply.c:414-568 | Each list of an indexed state holds exactly the lines for its symbol, once: flags with epsilon, ? with @. |
| ArcIndex.Index.File | back-ends/foma/apply.c:545-553 | A line goes into the head of its list or right after it; other lists do not change. |
| ArcIndex.Index.Walks | back-ends/foma/apply.c:848-880 | From where it is entered for a symbol, the chain leads over the list of the symbol followed by that of epsilon. |
| Lookup.ChainedAre | back-ends/foma/apply.c:848-880 | These are arcs of the state, each once, and every arc that can be followed is among them. |
| Lookup.ArcsAre | back-ends/foma/apply.c:636-771 | The lines the search tries at a state, indexed or not: arcs of the state, each once, with every one that can be followed. |
| Flags.FlagList.CheckFlag | back-ends/foma/apply.c:1389-1498 | Verdict and new entry for all seven flag types; other attributes stay. |
| Flags.BuildFilters | back-ends/foma/flags.c:64-140 | The filter built for a net matches exactly the strings in which no flag is caught. |
| Flags.BuildFilter | back-ends/foma/flags.c:80-124 | A filter is built exactly for flags that another flag bears on, and matches exactly the strings in which the flag is not caught. |
| Flags.FilterCatches | back-ends/foma/flags.c:110-124 | The regular expression for a flag, in both variants, says that no occurrence follows a failing flag (or, for R, the beginning) with no succeeding one between. |
| FlagAgreement.FiltersAgree | back-ends/foma/flags.c:40-58 | Under the condition, a string passes all filters exactly if the run-time check never fails. |
| FlagAgreement.AgreementExactly | back-ends/foma/flags.c:64-140 | For all seven flag types: filters and run-time check agree on all strings exactly if (i) the attribute of every R flag is that of some U, P, C or N flag, (ii) no U.a.x occurs with N.a.z, z other than x, and a flag that makes U.a.x fail, (iii) no D.a.x, N.a.z and U.a.y occur with x, y, z all different, and (iv) every E.a.b has a the same as b, or no U, P or N flag bears on a or b. |
| FlagAgreement.PlainFlagsAgree | back-ends/foma/flags.c:64-140 | Without N and E flags this comes down to (i), which then asks for a U, P or C flag. |
| FlagAgreement.ReplayInStep | back-ends/foma/apply.c:1389-1498 | While all flags are obeyed, the last status that the filter of a flag has met says whether the check would fail now. |
| FlagAgreement.CaughtMeans | back-ends/foma/flags.c:40-58 | A flag is caught when the last flag before it with a status for it makes it fail; an R flag also when there is none. |
| FlagAgreement.RevivedDiffers | back-ends/foma/flags.c:183-260 | Where (ii) does not hold, the three flags make a string that is obeyed and filtered out. |
| FlagAgreement.ReplacedDiffers | back-ends/foma/flags.c:183-260 | Where (iii) does not hold, the three flags make a string that is obeyed and filtered out. |
| FlagAgreement.NegativeDiffers | back-ends/foma/flags.c:183-260 | With P.a.y, N.a.z and U.a.x they differ. |
| FlagAgreement.NegativeAgrees | back-ends/foma/flags.c:183-260 | With N.a.z and U.a.x alone they agree on all strings. |
| FlagAgreement.EqualDiffers | back-ends/foma/flags.c:183-260 | With P.a.x and E.a.b they differ. |
| MergeNets.FsmMergeSigma | back-ends/foma/constructions.c:890-1224 | Both nets get the sorted, gap-free union of the alphabets, and each accepts the same words over the open alphabet as before; the new tables have letters of the new alphabet only, never outgrow the lines set aside, and stay nets, deterministic, in order and without repeated lines if they were. |
| OpenProducts.IntersectNets | back-ends/foma/constructions.c:400-501 | Two deterministic nets with alphabets of their own, merged, intersected and trimmed: over the open alphabet, a string of symbol pairs is accepted exactly if both nets accept it; the result is trim, or the empty set. |
| OpenProducts.MinusNets | back-ends/foma/constructions.c:2167-2265 | Two deterministic nets with alphabets of their own, merged and subtracted: over the open alphabet, a string of symbol pairs is accepted exactly if the first net accepts it and the second does not. |
| OpenProducts.ComposeNets | back-ends/foma/constructions.c:503-843 | Two deterministic nets with alphabets of their own, merged, composed and trimmed: over the open alphabet, related are exactly the strings that some string between them joins without the return of a symbol unknown to both nets. |
| MergeNets.LetterMerged | back-ends/foma/constructions.c:1027-1216 | A variant of a letter is a letter of the merged alphabet, with @ only opposite itself. |
| MergeNets.LetterForth | back-ends/foma/constructions.c:890-1224 | What a letter stood for, it or one of its variants stands for now. |
| MergeNets.LetterBack | back-ends/foma/constructions.c:890-1224 | A variant stands for nothing that the letter did not stand for. |
| MergeNets.OrderKept | back-ends/foma/constructions.c:843-865 | The new numbers keep the order of the symbols. |
| MergeNets.OneOrigin | back-ends/foma/constructions.c:1027-1216 | No letter is a variant of two letters, so that deterministic nets stay deterministic. |
| MergeSigma.MergeSigmas | back-ends/foma/constructions.c:926-1002 | The merged alphabet is sorted and dense, every symbol in it is marked as coming from the first, the second or both, and the mappings give every symbol its number. |
| MergeSigma.MergeNext | back-ends/foma/constructions.c:843-865 | The next symbol from one list or both keeps this so. |
| Expansion.Expand | back-ends/foma/constructions.c:1027-1123 | The table with all variants of all lines, within the precomputed number of lines. |
| Expansion.WriteLine | back-ends/foma/constructions.c:1055-1116 | One line gives exactly its variants: @, ?:y, x:? and ?:? with the new symbols, ?:? only in unequal pairs. |
| Expansion.WritePairs | back-ends/foma/constructions.c:1091-1103 | The pairs for ?:? need at most u*u + u lines besides the line itself. |
| Alphabets.SameOpenLanguage | back-ends/foma/constructions.c:890-1224 | Nets whose arcs make the same moves over concrete symbols have the same open language. |
| Completing.FsmCompletes | back-ends/foma/constructions.c:1403-1569 | The result is deterministic, total over the alphabet, and accepts what the net accepts or, for a complement, exactly the other words over the alphabet; with an existing sink, a new one, or no need of any. A table written anew is a net in order of its states; one exchanged in place stays a net, in order, if it was; no arc is listed twice. |
| Completing.FirstPass | back-ends/foma/constructions.c:1431-1463 | Final states are exchanged in place; arcs are counted; sinks, final and start states are noted. |
| Completing.WriteTable | back-ends/foma/constructions.c:1535-1560 | The lines of all states and symbols in order, within the array that was allocated. |
| Completion.CompletionLanguage | back-ends/foma/constructions.c:1403-1569 | Leading missing arcs to a sink keeps the language; exchanging final states complements it. |
| Completion.CountedTotal | back-ends/foma/constructions.c:1465-1489 | As many arcs as states times symbols means that none is missing. |
| Completion.OpenLanguage | back-ends/foma/constructions.c:1571-1577 | Over the open alphabet, with any symbols whatever, the complement accepts exactly the strings that the net rejects, and the completion those it accepts. |
| Alphabets.OpenIsCoded | back-ends/foma/constructions.c:1571-1577 | A net in which @ stands only opposite itself accepts a string of symbol pairs over the open alphabet exactly if it accepts the one coding of it: known symbols by their numbers, an unknown one by @ opposite itself and by ? otherwise. |
| NetFile.RoundTrip | back-ends/foma/io.c:736-965 | What a net printed and read back comes back as: of the name only the first word (without any, the whole header line), an empty symbol as a newline, the start flag on the lines of state 0, the final flag of the first of consecutive lines of a state on all of them. It comes back the same exactly if its name is one word without white space, no symbol is empty, and the flags are like this already. |
| NetFile.IoNetRead | back-ends/foma/io.c:736-886 | Of a printed net followed by anything, that net is read (as RoundTrip says), and nothing of what follows. |
| NetFile.FomaNetPrint | back-ends/foma/io.c:902-965 | The header, the alphabet, and lines of five, four, three or two numbers. |
| NetFile.IoBuf.Gets | back-ends/foma/io.c:888-900 | The next line, and the buffer after it. |
| NetFile.ReadProps | back-ends/foma/io.c:756-783 | The header, split at white space of any kind, comes back, with the three values packed in one number. |
| Text.WordsJoined | back-ends/foma/io.c:764-769 | Words with a space after each come back, whatever follows. |
| NetFile.ReadSigma | back-ends/foma/io.c:785-809 | The alphabet comes back, the newline symbol included; an empty symbol as a newline. |
| NetFile.ReadStates | back-ends/foma/io.c:811-866 | The lines come back, with state, output and final flag filled in where they were left out, and the start flag where the state is 0. |
| Text.ExplodeLine | back-ends/foma/io.c:665-682 | The numbers between the spaces. |
| Text.RowBack | back-ends/foma/io.c:665-682 | A line of numbers comes back. |

## Left out

- Operations that would only add easy members: union, concatenation, closures and the other thin combinators, `fsm_topsort`, counting, sorting of arcs, definitions and string tables.
- Bindings, the command shell, scanners and grammars, AT&T and Prolog files, spaced text, file opening and compression; `perror` messages.
- Memory: reallocation failure, freeing, the fixed depth of the integer stack, the length limits of line buffers and names. Integers are unbounded except in the set hash, which wraps at 2^32.
- What the product constructions do first and last (minimizing their arguments and results, sorting arcs) are separate members; OpenProducts chains merging, product and trimming.
- OpenProducts.MinusNets: the minimization of the result is Minimization.FsmMinimize.
- The arc lists of the inverse and transition tables are one sequence per state and not segments of one flat block, and `qsort` is a sorting function.
- The maps from symbol pairs to numbers, and the slots of the builder, are maps and not matrices.
- The last prime of the list of hash sizes is used for good; foma would read past the list.
- `fsm_compose`: `g_flag_is_epsilon` and the tristate filter are not modelled; the final `fsm_topsort` numbers the states anew.
- CrossProduct.FsmCrossProduct: nets with ? on the upper side, for which the code has ?:? but no identity for ? opposite @ or ?; the walks of the product are characterised for all nets.
- Lookup: nets without a final state are looked up like others, where foma returns NULL at once; nets with silent cycles, RANDOM and ENUMERATE modes, printing of pairs, spaces and separators. How a word is cut into symbols (the symbol trie) is a parameter, and so is the symbol number that the array of matches holds after the end of the word.
- `apply_index`: which states are indexed (density and memory limits) is a parameter.
- Calling for another result after NULL was returned.
- `flag_eliminate` for one attribute only, and `flag_purge`; the filters are composed with the net by `fsm_compose`, which is modelled by itself.
- `fsm_coaccessible` sets `statecount` to 0 for the empty language although the table it leaves has one state; the model follows the code, and `fsm_minimize` counts again.
- Minimization.FsmMinimize: tables that are kept as they are must have their rows in order and a start state that leads to a final one, if there is one; Compaction.FsmCoaccessible says what becomes of the others.
- Brzozowski.FsmMinimizeBrz: full minimality is not claimed, because reversal adds a start state; Brzozowski.ReducedExactly says exactly when it is reached.
- `fsm_minimize` with `g_minimal` off or for nets marked minimized, where it does less.
- Completing.FsmCompletes: the alphabet is given by its largest number, since the code relies on numbers without gaps; adding @ and removing ? are parameters.
- MergeNets.FsmMergeSigma: `.#.` handling, which this version of the code leaves to its caller.
- NetFile.IoNetRead: confusion matrices, and headers with fewer than twelve numbers, which the model rejects. At the end of a truncated alphabet, and at an alphabet line without a space, the model reports an error; the code does not come to an end, or reads through a null pointer.
- NetFile.FomaNetPrint: the lengths of the header fields; `linecount` is copied, not checked against the table.
