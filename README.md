# Hyperautomata simulator core, in Dafny

The Hyperautomata Simulator is a teaching tool for multi-tape ("hyper") automata. An automaton has
states, accept states, an optional start state and transitions. Each transition carries a
*symbol vector* with one condition per tape. Given one input word per tape, the backend runs a
breadth-first search over configurations `[state, pos1, pos2, ...]`. It looks for a run that reads
every tape to its end and stops in an accepting state. It returns the history of configurations,
which the editor replays one snapshot at a time. Words and transitions can be edited during a replay.
The run controller then cuts the history back to the replayed prefix, patches it, puts the tape cursors
back where that prefix left them, and runs the search again from there.

This project models the backend and the run controller:
- the tape cursor (`Tapes`);
- symbol-vector matching (`SymbolVectors`);
- the transition record (`Transitions`);
- the automaton container with `rename_state` (`Automatas`);
- the search node and its identity (`Simulations`);
- the search manager and its loop (`Managers`);
- the save/restore mapping of a manager (`ManagerSerializer`);
- the editor's states and transitions, label text and parallel-offset rule (`GuiTransitions`);
- the editor's transition list and vector-width normalisation (`AutomataManagers`);
- the run controller (`RunManagers`);
- the `AppMode` enumeration (`Constants`).

Python exceptions are explicit `Fault` values (`Basics`). A method that can raise returns a `Status`
or an `Outcome` and keeps the state changes made before the raise.

Objects whose fields the code updates are Dafny classes: `Tape`, `Automata`, `Manager`, the editor
`State` and `Transition`, `AutomataManager` and `RunManager`. Each method states its new state in
terms of a specification function on values, for example `Advanced`, `MatchResult`, `RenamedTable`,
`Search`, `Resimulate` or `Stepped`. Lemmas state what the code promises about those functions.

The central results:
- `Matches` computes `MatchResult`. `MatchResultMeaning` says when a vector matches and which tapes
  it reads.
- `MainLoop` computes `Search`, which terminates by a lexicographic measure: the identifiers not yet
  visited in a finite key space, then the queue length.
- `UpdateReports` says what a returned history is. It extends the given history by at least one
  entry, each along a transition that moves exactly the cursors its vector reads, and ends with every
  tape read to its end. It ends in an accept state exactly when the search reports acceptance.
- `UpdateBreadthFirst` says the search is breadth-first: the returned history is no longer than any
  node still queued. `ExpandInBucketOrder`, `ExpandAppendsDistinct` and `ExpandAppendsAllFresh` say that
  one expansion appends exactly the not-yet-visited successors, in the order of the transitions.
- `RoundTrip` shows that restoring a saved manager gives back the words, the node state and the
  history, with every cursor reset to 0.
- The run-controller methods (`Step`, `AddWord`, `ChangeWord`, `RemoveWord`,
  `UpdateTransitionsInBackend`, `InitializeBackend`) state their new state in terms of `Stepped`,
  `Resimulate` and `Search`. `StepsReplayHistory` and `ResimulateExtendsBackup` then give the
  replay order and the shape of a re-run history.

### Where the code departs from the documented design

The model follows the code in each case below:
- **Failed matches are not atomic.** On a mismatch, `matches` keeps the reads it has already done.
  Its "restore" only rebinds a local name (`FailedMatchKeepsEarlierReads`).
- **`'#'` is always a wildcard.** It is tested before equality, so no vector can demand an exhausted
  tape (`ExhaustedTapeOnlyByWildcard`).
- **Vector length is not checked** against the number of tapes. `zip` pairs up entries only as far
  as the shorter list (`Span` in `MatchResultMeaning`).
- **The search ends at the first dequeued node whose tapes all show `'#'`**, accepting or not
  (`StoppedConsumed`).
- **An empty queue raises** instead of ending in a rejection (`SelfLoopWildcardRaises`).
- **A root whose tapes are already exhausted** leaves `sim` unbound (`Search`).
- **`'#'` enters the alphabet** when a vector carries it (`WildcardEntersAlphabet`).
- **`addTape` ignores a foreign word** after printing a message. For other words it restores the cursors from the
  last history entry, not from the replayed step (`Manager.AddTape`).
- **An empty word cannot make a tape:** `Tape(symbols)` reads `symbols[0]`.
- **`remove_word` keeps the removed word's cursor column** in the kept snapshots
  (`RemovedColumnStays`).
- **`add_word` appends the new tape after the re-run** (`RerunForNewWord`).

## Model

| member | source | states |
|---|---|---|
| Basics.Take | components/managers/run_manager.py:95 | `s[:k]` has `min(k, len(s))` entries, each the entry of `s` at the same index |
| Tapes.Advanced | backend/tape.py:18-25 | a read keeps the word; before the end it moves the cursor by exactly one, at the end it keeps the cursor and shows `'#'`; the symbol afterwards agrees with the cursor, and `0 <= currentPos <= len(symbols)` is preserved |
| Tapes.Seek | backend/manager.py:89-93 | moving a tape to a cursor keeps its word and leaves the symbol consistent with the new cursor |
| Tapes.ReadTimesPosition | backend/tape.py:18-25 | `k` reads never change the word and leave the cursor at `min(pos + k, len)`, with a consistent symbol |
| Tapes.ReadIdempotentAtEnd | backend/tape.py:18-25 | at or past the end a read changes only the symbol, to `'#'`, so a second read changes nothing |
| Tapes.ReadAbcExample | backend/tape.py:18-25 | reading `"abc"` from the start shows `b`, `c`, then `'#'`, and stays there |
| Tapes.Tape.constructor | backend/tape.py:6-10 | a new tape is at position 0 showing `symbols[0]`; the word must be non-empty |
| Tapes.Tape.Clone | backend/manager.py:33 | the deep copy of a tape is a new object with the same three fields |
| Tapes.Tape.Read | backend/tape.py:12-25 | `read()` updates the fields exactly as `Advanced` says |
| Tapes.Copies | backend/manager.py:33 | `copy.deepcopy` of a tape list gives distinct fresh tapes holding the same values, in order |
| Tapes.NewTapes | components/managers/run_manager.py:62 | `[Tape(w) for w in words]` raises exactly when some word is empty; otherwise it gives distinct fresh tapes, each at position 0 over its word |
| SymbolVectors.FirstMismatch | backend/symbolVector.py:30-39 | the index of the first entry that is neither `'#'` nor the tape's symbol, or the length of the zip; every earlier entry agrees |
| SymbolVectors.Matches | backend/symbolVector.py:16-41 | the result and the tapes afterwards are `MatchResult` of the vector and the tapes' values on entry |
| SymbolVectors.ReadOne | backend/symbolVector.py:35 | `tapes[i].read()` advances that tape and leaves every other tape of the distinct list alone |
| SymbolVectors.MatchResultMeaning | backend/symbolVector.py:26-41 | true iff every paired entry is `'#'` or the tape's symbol captured on entry; on true exactly the literal entries' tapes are read once; on false there is a first mismatch, the tapes from it on are untouched and earlier literal matches stay read |
| SymbolVectors.MatchReadsAtMostOnce | backend/symbolVector.py:31-36 | a match never changes a word, and each tape is left alone or read exactly once |
| SymbolVectors.WildcardsAlwaysMatch | backend/symbolVector.py:31-33 | an all-`'#'` vector matches any tapes and reads none of them |
| SymbolVectors.ExhaustedTapeOnlyByWildcard | backend/symbolVector.py:31-34 | a tape showing `'#'` is only accepted by the wildcard and is never read by a successful match |
| SymbolVectors.FailedMatchKeepsEarlierReads | backend/symbolVector.py:37-39 | `["a","c"]` against tapes at `a`,`b` returns false with the first tape already read |
| SymbolVectors.MatchesTestScenario | backend/symbolVector.py:30-41 | tapes at `b`,`b` accept `["b","b"]` and move to `c`,`c`, which reject `["b","c"]` |
| Automatas.Added | backend/automata.py:41-43 | adding a transition appends it to its source's bucket, creating the bucket if absent; other buckets are unchanged and the table stays filed by source |
| Automatas.NoTargetLeftAfterRename | backend/automata.py:67-70 | after renaming `o` to `n != o`, no transition anywhere targets `o` |
| Automatas.RenameMovesBucket | backend/automata.py:63-70 | the bucket of `o` moves to key `n`, in order, with every source set to `n` and targets renamed |
| Automatas.RenameKeepsOtherBuckets | backend/automata.py:63-70 | other buckets keep their transitions and order; only targets equal to `o` change |
| Automatas.RenameKeepsFiled | backend/automata.py:63-70 | a rename keeps every transition filed under its own source state |
| Automatas.SetSources | backend/automata.py:65-66 | the loop over the moved bucket sets every source to the new name |
| Automatas.SetTargets | backend/automata.py:68-70 | the inner loop renames every target equal to the old name in one bucket |
| Automatas.SetAllTargets | backend/automata.py:67-70 | the loop over all buckets keeps the keys and renames the targets in every bucket |
| Automatas.Automata.constructor | backend/automata.py:2-9 | a new automaton has no states, symbols, transitions or accept states, and no start state |
| Automatas.Automata.AddState | backend/automata.py:20-22 | the state joins `states`, and `accept_states` iff accepting; accept states stay states |
| Automatas.Automata.SetStartState | backend/automata.py:31-32 | the start state is set and is a state afterwards |
| Automatas.Automata.AddTransition | backend/automata.py:41-43 | the table becomes `Added(old table, t)`; nothing else changes |
| Automatas.Automata.RenameState | backend/automata.py:53-70 | renaming to the same name changes nothing; otherwise the name is replaced in `states`, `accept_states` and the start state wherever present, and the table becomes `RenamedTable`; the alphabet is untouched and consistency is kept |
| Automatas.Automata.RenameInSets | backend/automata.py:55-62 | the old name is replaced in the state sets and the start state |
| Automatas.Automata.RenameInTable | backend/automata.py:63-70 | the bucket move and the target loop together compute `RenamedTable` |
| Simulations.Make | backend/simulation.py:5-10 | an explicitly empty history raises; otherwise the node keeps its tapes, its state and its history (the default `[[0]*(n+1)]` when none is given), and its id is the last history entry |
| Simulations.DefaultSimulation | backend/simulation.py:5-10 | without arguments the node is in state 0 with the single all-zero entry as its history and id |
| Simulations.DefaultSimulationExample | backend/simulation.py:8-9 | two tapes give the history `[[0, 0, 0]]` |
| Simulations.SameIffLastEntriesAgree | backend/simulation.py:12-22 | two nodes are equal iff their last history entries are, whatever their tapes, states and earlier entries |
| Simulations.StateNotChecked | backend/simulation.py:7-10 | the state field is not checked against the state column of the id |
| Managers.StepCursors | backend/symbolVector.py:30-36 | the cursors after a vector fires: as many as before, each unchanged or, before its word's end, moved by one |
| Managers.SuccessorStep | backend/manager.py:31-38 | a successor's history is the parent's plus one entry `[target] + positions`; the words stay, and the positions are `StepCursors` of the vector: one more on each literal entry's tape not yet at its end, the same elsewhere |
| Managers.Expand | backend/manager.py:31-41 | expanding a node only adds visited ids and appends to the queue; the queue grows exactly when the visited set does |
| Managers.ExpandAppendsNewIds | backend/manager.py:39-41 | every appended node's id was not visited before and is visited afterwards |
| Managers.ExpandAppendsSuccessors | backend/manager.py:31-41 | every appended node is the successor of the expanded node by one of its state's transitions |
| Managers.ExpandMarksOnlyAppended | backend/manager.py:39-41 | every newly visited id belongs to an appended node |
| Managers.ExpandInBucketOrder | backend/manager.py:31-41 | the appended nodes are successors by transitions of the bucket at strictly increasing indices, so they are queued in the order of the bucket |
| Managers.ExpandAppendsDistinct | backend/manager.py:39-41 | the nodes one expansion appends have pairwise distinct ids |
| Managers.ExpandAppendsAllFresh | backend/manager.py:31-41 | every successor whose id was not visited before has its id among the appended nodes; with the two rows above, the appended part is exactly the new successors, in bucket order |
| Managers.SuccessorFits | backend/manager.py:34-36 | a successor keeps the bounds on tapes, cursors and words, and its id lies in the finite key space of targets and bounded positions |
| Managers.ExpandStaysInSpace | backend/manager.py:31-41 | expansion keeps the queue within the bounds and marks only ids of the key space |
| Managers.Explore | backend/manager.py:25-46 | the loop from a popped node; the visited set only grows, and the definition terminates by the pair (unvisited ids of the key space, queue length) |
| Managers.ExploreUnfold | backend/manager.py:31-46 | one round: an empty queue after expansion raises, a consumed next node ends the search with its history, and otherwise the search goes on from that node |
| Managers.Search | backend/manager.py:17-47 | exhausted tapes leave `sim` unbound, an empty queue makes the first pop raise, and the visited set only grows |
| Managers.SuccessorBelow | backend/manager.py:31-38 | a successor of a node rooted at `h0` extends `h0` along transitions and records its cursors in its id |
| Managers.ExpandStaysBelow | backend/manager.py:31-41 | expansion keeps every queued node below the root |
| Managers.ExploreReports | backend/manager.py:25-47 | every history the loop returns extends the root history entry by entry, each along a transition of the previous state whose vector moves the cursors as `StepCursors` says (the first step from the root tapes' cursors), and ends with the root's words all read; it is reported accepted iff its last state accepts |
| Managers.ExpandKeepsLevels | backend/manager.py:31-44 | with the queued history lengths non-decreasing and within one entry of the current node's, the successors land at the back one entry deeper, and the next popped node is no shallower and keeps the invariant |
| Managers.ExploreLevels | backend/manager.py:25-47 | the loop keeps that breadth-first invariant, so the history it returns is no longer than any node left in the queue and at most one entry shorter |
| Managers.Root | backend/manager.py:74 | the node `update` starts from is `Simulation(tapes, history, history[-1][0])` |
| Managers.UpdateReports | backend/manager.py:64-78 | a history returned by `update(h0)` has `h0` as a proper prefix; each later entry follows a transition of the previous entry's state, with the cursors moved exactly as its vector reads (the first step from the manager's tapes); its last entry records the final cursors, every tape keeps its word and shows `'#'`, and it ends in an accept state exactly when reported accepted |
| Managers.FirstStepReadsOne | backend/manager.py:31-38 | with the only transition `q0 -a-> q1` over `"abcde"` from cursor 0, any returned history's first new entry is `[q1, 1]`, so a cursor jump is not a returned history |
| Managers.UpdateBreadthFirst | backend/manager.py:64-78 | `update` finds a shallowest history: the one returned is no longer than any node it leaves queued |
| Managers.SelfLoopWildcardRaises | backend/manager.py:25-43 | a wildcard self-loop on a non-accepting state yields only the already visited root, so the next `pop(0)` raises |
| Managers.SingleReadAccepts | backend/manager.py:31-46 | `q0 -a-> q1` with `q1` accepting over `"a"` returns `[[q0,0],[q1,1]]` |
| Managers.Manager.constructor | backend/manager.py:8-15 | the root node holds the tapes' values with the default history; it is the only visited and queued node |
| Managers.Manager.Candidate | backend/manager.py:32-38 | trying a transition on a fresh deep copy gives exactly `Successor` |
| Managers.Manager.ExpandCurrent | backend/manager.py:31-41 | the transition loop leaves the visited set and the queue as `Expand` says, the tapes untouched |
| Managers.Manager.Round | backend/manager.py:31-46 | one round expands, pops the next node (raising on an empty queue), rebinds the tapes to its copy and reports whether and how the loop ends |
| Managers.Manager.Continue | backend/manager.py:25-46 | the loop after the first pop computes `Explore`, together with the tapes, visited set and queue it leaves |
| Managers.Manager.MainLoop | backend/manager.py:17-47 | `mainLoop` computes `Search` on the state it starts from |
| Managers.Manager.Update | backend/manager.py:64-78 | an empty history raises with nothing changed; otherwise the search is re-rooted at `Root(tapes, history)` and computes `Search` from it |
| Managers.Manager.SetTapes | backend/manager.py:80-93 | every cursor of the snapshot is written to the tape at its index with its symbol recomputed; more cursors than tapes raise after all tapes are moved |
| Managers.Manager.AddTape | backend/manager.py:49-62 | a word with a foreign symbol changes nothing; otherwise the cursors are restored from `history[-1]` and a fresh tape at position 0 is appended, with the empty history, too many cursors and the empty word raising |
| ManagerSerializer.Encode | components/utils/manager_serializer.py:8-17 | the dictionary holds the tape words in order and the node's state and history |
| ManagerSerializer.Serialize | components/utils/manager_serializer.py:5-17 | nothing exactly for no manager, otherwise the encoding of its tapes and node |
| ManagerSerializer.Decode | components/utils/manager_serializer.py:23-29 | a successful restore has one tape per stored word at position 0 and a node with those tapes, the stored state (default 0) and the stored history (default empty) |
| ManagerSerializer.Deserialize | components/utils/manager_serializer.py:19-33 | a falsy dictionary gives nothing; a failing restore raises; otherwise a fresh manager over fresh tapes whose node is the restored one, the only visited and queued node |
| ManagerSerializer.Reroot | components/utils/manager_serializer.py:30-32 | the restored node replaces the root and is the only visited and queued node |
| ManagerSerializer.RoundTrip | components/utils/manager_serializer.py:5-33 | restoring a saved manager gives back the words in order, the node's state and history and its id, with every cursor at 0 |
| ManagerSerializer.PositionsNotSaved | components/utils/manager_serializer.py:8-10 | tapes over the same words save to the same dictionary |
| ManagerSerializer.MissingHistoryFails | components/utils/manager_serializer.py:27-29 | a dictionary without a history cannot be restored, whatever other keys it holds |
| ManagerSerializer.UnrelatedKeysFail | components/utils/manager_serializer.py:19-29 | a dictionary holding only keys the serializer does not use is truthy, so the restore goes on and raises on the empty default history |
| ManagerSerializer.EmptyWordFails | components/utils/manager_serializer.py:23-25 | a saved empty word cannot be restored |
| GuiTransitions.State.constructor | components/state.py:8-21 | a new state keeps its name, position and flags and has empty adjacency lists |
| GuiTransitions.Transition.constructor | components/transition.py:13-25 | the new transition is unflagged, black, undrawn, offset index 0, keeps its vectors, and is appended once to the source's outgoing and the target's incoming list (both of one state for a self-loop); nothing else of either state changes |
| GuiTransitions.Transition.LabelText | components/transition.py:115-121 | the label loop computes `Label` of the vectors |
| GuiTransitions.JoinWithAppend | components/transition.py:121 | joining one more part appends the separator and the part |
| GuiTransitions.BracedLength | components/transition.py:119-120 | a vector of `n > 0` entries takes `2n + 1` label characters, the empty one 2 |
| GuiTransitions.LabelAppend | components/transition.py:115-121 | one more vector adds `", "` and its braced group at the end of the label |
| GuiTransitions.LabelExample | components/transition.py:115-121 | the vectors `(a,#)` and `(b,c)` give `{a,#}, {b,c}` |
| GuiTransitions.ParallelShiftSides | components/transition.py:91-93 | even indices go to the negative side, odd ones to the positive side, at `(index // 2 + 1) * PARALLEL_OFFSET` |
| GuiTransitions.ParallelShiftMirrors | components/transition.py:91-93 | indices `2k` and `2k + 1` are mirror images |
| GuiTransitions.ParallelShiftInjective | components/transition.py:91-93 | two non-negative indices never get the same offset |
| AutomataManagers.FitVectors | components/managers/automata_manager.py:63-70 | the inner loop gives every vector fitted to the width, in order |
| AutomataManagers.FitShape | components/managers/automata_manager.py:66-69 | a fitted vector has exactly the width, keeps its first `min(len, n)` entries and is `'#'` after its old end |
| AutomataManagers.FitIdempotent | components/managers/automata_manager.py:66-69 | fitting twice to the same width is fitting once |
| AutomataManagers.FitKeepsExactWidth | components/managers/automata_manager.py:66-69 | a vector already of the width is left alone |
| AutomataManagers.NegativeWidthDropsFromEnd | components/managers/automata_manager.py:68-69 | with a negative width `lst[:n]` drops entries from the end again on each call |
| AutomataManagers.AutomataManager.constructor | components/managers/automata_manager.py:11-15 | no states, no transitions, width 1 |
| AutomataManagers.AutomataManager.AddState | components/managers/automata_manager.py:32-35 | one fresh state with the given flags is appended and returned; no uniqueness check |
| AutomataManagers.AutomataManager.AddTransition | components/managers/automata_manager.py:49-52 | one fresh transition is appended and returned, registered in the source's outgoing and the target's incoming list |
| AutomataManagers.AutomataManager.SetWordCount | components/managers/automata_manager.py:61-71 | the width is recorded, the transition list is unchanged, and every transition's vectors become `FitAll` of its old vectors, same number and order |
| AutomataManagers.FitAllShape | components/managers/automata_manager.py:61-71 | after `set_word_count(n)` with `n >= 0` every vector is `n` wide and a second call changes nothing |
| RunManagers.PadShape | components/managers/run_manager.py:96-101 | padding keeps the state and the cursors, adds zeros up to the width, and is idempotent |
| RunManagers.BackupSharesHistory | components/managers/run_manager.py:95-101 | the padded backup is the padded prefix of the history; the rest of the history is untouched |
| RunManagers.ZeroAtShape | components/managers/run_manager.py:150-152 | zeroing a column changes one cursor of one snapshot and commutes with the prefix that holds it |
| RunManagers.RemovalKeepsTapesAligned | components/managers/run_manager.py:164-177 | with one tape per word, removing a word removes the tape at the same index, Python's negative indices included; it raises iff the index is below `-len(words)` |
| RunManagers.RemovedColumnStays | components/managers/run_manager.py:97-114 | after a removal the next tape is moved to the removed word's cursor when cursors are restored |
| RunManagers.AddVectorsListed | components/managers/run_manager.py:55-60 | the vector loop lists exactly the old transitions and one backend transition per vector, filed by source |
| RunManagers.CompileListed | components/managers/run_manager.py:52-60 | the compiled table lists exactly the old transitions and one per vector of every editor transition, filed by source |
| RunManagers.VecCharsMeaning | components/managers/run_manager.py:57-58 | the symbols collected from vectors are exactly those occurring in some vector |
| RunManagers.AlphabetMeaning | components/managers/run_manager.py:52-60 | the symbols added to the alphabet are exactly those of some vector of some transition |
| RunManagers.WildcardEntersAlphabet | components/managers/run_manager.py:57-58 | a `'#'` in a vector becomes an alphabet symbol |
| RunManagers.NodesMeaning | components/managers/run_manager.py:47-50 | the states are the editor's names, the accept states those flagged accepting, and the start state, iff some state is flagged start, the last such state |
| RunManagers.AcceptNamesAreNames | components/managers/run_manager.py:47-48 | every accept state is a state |
| RunManagers.AllReadMeaning | components/managers/run_manager.py:214-218 | the cursor loop yields true iff every cursor has a tape and is at or past its word's end; it raises only when every tape is finished and some cursor has no tape |
| RunManagers.VerdictMeaning | components/managers/run_manager.py:206-219 | `is_accepted` is true iff the history is non-empty, its last state accepts and every cursor is at or past its own tape's word end |
| RunManagers.StepsReplayHistory | components/managers/run_manager.py:194-204 | successive steps return the history from the step on, in order, finishing exactly at the last snapshot; the next step returns nothing and stops the run |
| RunManagers.ResimulateExtendsBackup | components/managers/run_manager.py:104-118 | a successful re-run starts its history with the backup and extends it along transitions, with the cursors moved as each vector reads, the first step from the tapes restored to the backup's last cursors, to exhausted tapes over the same words; it sets the step to the backup's length and clears the during-run flag |
| RunManagers.ResimulateFailureKeepsRun | components/managers/run_manager.py:116-118 | a re-run that raises leaves the history, the step and the flag as they were |
| RunManagers.ChangeSharesHistory | components/managers/run_manager.py:148-153 | the patched backup is the prefix of the patched history |
| RunManagers.RestoreCursors | components/managers/run_manager.py:110-114 | the cursor loop moves each tape with a cursor to it and recomputes its symbol |
| RunManagers.ReplayOn | components/managers/run_manager.py:108-118 | the cursor restore and the `update` call leave the run state and tapes as `Resimulate` says, and the manager's node, visited set and queue as `Rerun` says |
| RunManagers.PopTape | components/managers/run_manager.py:168-176 | the tape half of `remove_word` leaves the tapes as `RemovedTape` says, or raises with them unchanged |
| RunManagers.CompileInto | components/managers/run_manager.py:52-60 | the loop extends the table by `Compile` of the editor's transitions and the alphabet by their symbols |
| RunManagers.AddEdge | components/managers/run_manager.py:55-60 | one editor transition adds one backend transition and its symbols per vector |
| RunManagers.AddSymbols | components/managers/run_manager.py:57-58 | every symbol of the vector joins the alphabet |
| RunManagers.AddNodes | components/managers/run_manager.py:47-50 | the state loop adds every name, the accepting ones, and makes the last start-flagged state the start state |
| RunManagers.BuildAutomata | components/managers/run_manager.py:46-60 | the new automaton has exactly the editor's states, accept states, last start state, compiled table and used symbols |
| RunManagers.RunManager.constructor | components/managers/run_manager.py:21-36 | no words, empty history, step 0, no manager, flags cleared, drawing mode |
| RunManagers.RunManager.CanContinueRun | components/managers/run_manager.py:86-91 | true iff no editor transition is flagged for an update |
| RunManagers.RunManager.SetFlags | components/managers/run_manager.py:135-138 | every editor transition gets the given flag |
| RunManagers.RunManager.UpdateRunHistory | components/managers/run_manager.py:93-102 | the backup is `history[:current_step]`, padded in place to one cursor per word for a new word (so the history's snapshots are padded too), and the during-run flag is set |
| RunManagers.RunManager.SimulateFromUpdatedHistory | components/managers/run_manager.py:104-118 | nothing without a manager or a backup; otherwise the run state and tapes become `Resimulate` of the backup, the manager's node is the root over the restored tapes and its visited set and queue are those `Rerun` leaves |
| RunManagers.RunManager.AddWord | components/managers/run_manager.py:120-138 | raises when finished, ignores the empty word, otherwise appends it; while running the backup is padded, the search re-run from it, and only then the new tape appended and every transition flagged |
| RunManagers.RunManager.AppendWord | components/managers/run_manager.py:126-138 | `add_word` past its checks: the word is appended and, while running, the state is `RanForNewWord` |
| RunManagers.RunManager.RerunForNewWord | components/managers/run_manager.py:129-138 | the running part of `add_word` leaves `RanForNewWord`: re-run on the old tapes, then the new tape and the flags, skipped when the re-run raises |
| RunManagers.RunManager.ReplayKept | components/managers/run_manager.py:130-131 | the history update followed by the re-run, which is the `RanForNewWord` state before the new tape and the flags |
| RunManagers.RunManager.AppendTapeAndFlag | components/managers/run_manager.py:132-138 | a fresh tape at position 0 is appended when there is a manager, and every transition is flagged |
| RunManagers.RunManager.ChangeWord | components/managers/run_manager.py:140-162 | an out-of-range index changes nothing; otherwise the word is replaced; while running the word's cursor in the last kept snapshot is zeroed (in the history too), the tape gets the new word and the search is re-run, then every transition is flagged |
| RunManagers.RunManager.ReplaceWord | components/managers/run_manager.py:142-162 | `change_word` for an index in range: the word is replaced and, while running, the state is `ReplayedChangedWord` with every transition flagged unless the re-run raised |
| RunManagers.RunManager.RerunForChangedWord | components/managers/run_manager.py:147-162 | the running part of `change_word` leaves `ReplayedChangedWord`, and every transition flagged unless the re-run raised |
| RunManagers.RunManager.ReplayChanged | components/managers/run_manager.py:148-156 | the patched backup, the reworded tape, then the re-run, together `ReplayedChangedWord` |
| RunManagers.RunManager.FlagAfterChange | components/managers/run_manager.py:158-162 | the flag loop after a successful re-run flags every transition and keeps the `ReplayedChangedWord` state |
| RunManagers.RunManager.PatchBackup | components/managers/run_manager.py:148-153 | the backup is the prefix with the word's cursor zeroed in its last snapshot, and the history's shared snapshot changes with it |
| RunManagers.RunManager.RewordTape | components/managers/run_manager.py:154-155 | the tape at the index gets the new word with its cursor and symbol as they were |
| RunManagers.RunManager.RemoveWord | components/managers/run_manager.py:164-181 | nothing without words; `words.pop` raising changes nothing; otherwise the word and matching tape go and, while running, the search is re-run from the unpatched prefix |
| RunManagers.RunManager.DropTapeAndReplay | components/managers/run_manager.py:168-181 | the tape removal, then while running the backup and the re-run |
| RunManagers.RunManager.UpdateTransitionsInBackend | components/managers/run_manager.py:256-275 | nothing without a manager; otherwise the table is rebuilt from the editor, the alphabet gains the editor's symbols, the other automaton fields stay, the backup is the replayed prefix and the run is re-run from it, leaving the manager's root, visited set and queue as that search does |
| RunManagers.RunManager.RebuildAndReplay | components/managers/run_manager.py:260-275 | the rebuilt table, then the re-run from the backup, with the manager's root, visited set and queue those of the search |
| RunManagers.RunManager.RebuildTable | components/managers/run_manager.py:260-271 | the cleared table is refilled as `Compile` of the editor's transitions and the backup is `history[:current_step]` |
| RunManagers.RunManager.Step | components/managers/run_manager.py:183-204 | does nothing while running with a flagged transition; otherwise the run is on, a pending backend update is applied (`Refreshed`) and, unless it raised, the history advances as `Stepped` says; the automaton's states, accept states and start state never change, without a pending update the table, the alphabet and the backup stay, and with one the alphabet gains the editor's symbols |
| RunManagers.RunManager.RefreshAndAdvance | components/managers/run_manager.py:188-204 | `step` once the run is on: the state `RefreshedTo` the `Refreshed` run, then advanced as `Stepped` says unless the update raised; the same frame on the automaton and the backup as `Step` |
| RunManagers.RunManager.RefreshBackend | components/managers/run_manager.py:190-192 | a pending update rebuilds the backend, adds the editor's symbols to the alphabet and re-runs, leaving `RefreshedTo` the `Refreshed` run; the pending flag is cleared unless that raised; without a pending update the table, the alphabet and the backup stay; the other automaton fields never change |
| RunManagers.RunManager.Advance | components/managers/run_manager.py:194-204 | the snapshot at the step is returned and the step moves on, finishing at the last snapshot; past the end nothing is returned and the run stops, finished |
| RunManagers.RunManager.IsAccepted | components/managers/run_manager.py:206-219 | the result is `Verdict` of the history and the manager's accept states and words |
| RunManagers.RunManager.Restart | components/managers/run_manager.py:229-241 | empty history, step 0, flags cleared, drawing mode, no transition flagged |
| RunManagers.RunManager.ClearAll | components/managers/run_manager.py:243-254 | no words, no editor states or transitions, width 1, empty history, step 0, run stopped, drawing mode; manager, backup and pending flag kept |
| RunManagers.RunManager.InitializeBackend | components/managers/run_manager.py:43-77 | an empty word raises before the manager is replaced; otherwise a fresh manager over the built automaton and fresh tapes; without a start state the history is emptied, otherwise it is the search result from `[start, 0, ..., 0]`, with a raising search leaving history and step as they were |
| RunManagers.RunManager.Launch | components/managers/run_manager.py:63-74 | the manager over the built automaton and tapes, then the empty history or the first search |

## Left out

- Canvas drawing and colouring are not modelled: `draw`, `draw_loop`, `draw_arrow` geometry, `set_color`, `clear`, `State.draw`/`move` and `AutomataManager.draw_all`. They are pixel and `tkinter` work. Only the integer offset rule of `draw_arrow` is modelled (`ParallelShift`).
- Logging, message boxes and the database are not modelled: `save_current_run`, `load_run`, `db_manager` and `current_user`. They are I/O. The serializer's mapping is modelled instead.
- `resume`, `load_history`, `is_finished` and `set_canvas` of `RunManager` are not modelled. They lie outside the modelled operations: each is a field read or write, and `resume` only calls `simulate_from_updated_history`, which is modelled.
- Of `copy.deepcopy` only the values of tapes and histories are kept. Python-level object identity of those copies is not modelled.
- The shallow sharing of snapshot lists is not modelled. `mainLoop` returns the accepted node's own history list (backend/manager.py:46), and a successor's history is a shallow copy of its parent's (backend/manager.py:32). So the controller's history shares its snapshots with nodes still held in `visited` and `queue`, and an in-place patch (padding, zeroing a column) reaches those nodes too. No modelled operation reads those nodes before `update` replaces `sim`, `visited` and `queue` (backend/manager.py:75-77), so the model treats histories as values. The same holds for the list cleared by `restart`.
- Hash-based identity of search nodes is modelled as equality of the last snapshot, with no hash collisions.
- Vector entries and tape symbols are single characters. Python allows a multi-character string as a vector entry, which would never equal a tape symbol.
- The exception caught in `initialize_backend` is returned as a `Status` instead of being shown in a message box.
- The plain `print` of `addTape` for a foreign word is dropped; the call just returns.
- The guard `len(self.queue) >= 0` of `mainLoop` is always true and is left out of the loop condition.
- RunManagers.RunManager.Step: it checks the `AllFlagged` predicate instead of calling `CanContinueRun`. `CanContinueRun` is proved to return exactly that predicate.
- Managers.UpdateReports: each step names the transition taken and the cursors it moves, but not that each literal entry equalled the symbol its tape showed. The shown symbol is cached on the tape and is not part of a snapshot.
- RunManagers.RunManager.AddWord: like `ChangeWord`, `RemoveWord`, `Step` and their helpers, it does not restate the manager's node, visited set and queue after the re-run; `SimulateFromUpdatedHistory`, `ReplayOn` and `UpdateTransitionsInBackend` state them, and the others reach them only through those calls.
- Managers.Explore: its own contract states only that the visited set grows. What it returns is stated by `ExploreUnfold`, `ExploreReports` and `UpdateReports`.
- `SymbolVector.__iter__` is the vector's own sequence, and the backend `Transition` is a datatype of its three fields. Neither has a separate member.
- The colour and size constants other than `PARALLEL_OFFSET` and `COLOR_BLACK` are not modelled.
