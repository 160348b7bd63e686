# LogikSim core: a verified model

LogikSim is an editor and simulator for digital circuits. This Dafny project models the core of the editor and of the
simulator, and proves what they promise. Verify it with `dafny verify dfyconfig.toml`.

## What is modelled

The **simulator** (`SimulationModel`, `SimulationRuns`, `Simulation`, `SimulationQueue`, `TickRefinement`) is a
discrete event simulation of a schematic of elements whose output delays are strictly positive. The class
`Simulation` updates its fields group by group, as the program does. It is proved against a step that treats all
elements of a time point at once, so the order in which groups leave the queue does not matter. On top of that:

- `ElementLaws`: what the moves of a run do, told on the stored values before and after a move alone: which inputs an element
  sees, what each kind of element makes of them, what it drives and when its events arrive.
- `MemoryTraces`, `ClockGenerators`: what flip-flops remember over whole runs, and that an enabled clock generator drives a
  square wave of exactly its two delays.
- `Consistency`, `SimulationStart`: each output agrees with the last pending value of its target, in every run.
- `Interruption`, `Reachability`, `LimitedRuns`: exactly when a limit stops a run, and that runs which are split, cut off
  and resumed end where uninterrupted ones end.
- `SteadyState`: without loops a run ends, with the values of the circuit read as one expression.
- `HistoryTrace`: the history of a wire tells the true past, although it is pruned all the time.

The **schematic** (`Schematic`, `SchematicGeneration`) stores each connection on both sides. Generating one from a
layout makes the connections that the layout names, adds placeholders and moves output inverters to the inputs behind
them; the result is shown to have exactly what the layout asks for, and to be free of the one situation in which a
simulation would start inconsistent.

**Segments of wires** (`Geometry`, `LineMerging`, `LineSplitting`, `TreeNormalization`, `SegmentTree`): lines are merged
and split into a normal form that only depends on what they cover and where they meet. `DepthFirstSearch` decides
whether segments form a tree.

**Selected parts** (`PartSelection`, `PartQueries`, `Selection`, `SelectionSanitization`): lists of intervals mean sets of
unit cells, and every operation is a set operation. `Selection` follows the messages that a layout sends about its
segments, and `MessageValidator` is the reference that accepts the consistent streams; `MessageGeneration` replays a
whole layout.

**Dialogs** (`CircuitUiModel`): opening, saving and leaving, and what has to happen before a circuit may be replaced.

## Where the code and its promises differ

- *Start of a simulation.* An output and its target should always agree up to pending events. For a wire with an
  inverted input that no logic item drives this is false right after construction (`InvertedWireIsInconsistent`): wires
  are not computed during construction. `AlwaysConsistentIff` shows that it is the only case, and
  `GeneratedIsAlwaysConsistent` that schematics generated from a layout never contain it.
- *Deleting a part of a segment.* The validator compares the part of the message with itself
  (src/core/layout_message_validator.cpp:403-411), so it erases the whole segment whatever part is named. The model follows
  the code. `PartialDeletionIsAccepted` is a stream that is accepted and on which a selection fails, and
  `PartialDeletionIsRefused` one that is right and refused. `DeletionFitsIff` gives the exact condition for selections,
  `ComparingAgreesIff` says where comparing with the part of the segment makes a difference, and `ComparingAllFits` that it
  would repair the validator.
- *Comparing a layout with the validator.* The comparison should tell whether both know the same, but it does not notice
  segments that only the validator knows (src/core/layout_message_validator.cpp:102-128); `ComparisonMissesSegment` is an
  example. By `ComparisonIsExactIff` it lacks exactly the test of sizes that it makes for logic items (lines 75
  and 90). After a replay there are no such segments (`FromLayout`).
- *Merging and splitting.* The comment of `merge_split_segments` (src/core/tree_normalization.h:13-23) promises segments
  without internal colliding points, but the function only merges (`MergedNeedsSplitting`); the splitting is done by
  `normalize_segments`. `MergedIsNormalizedIff` says for which segments merging is enough.

## How things are represented

- A time, a delay or a coordinate is an integer without bounds. `None` stands for an infinite time or no limit.
- An ordered line is its axis, its row and two coordinates along the axis (`LinesAreTheirPoints`).
- A failing contract or an exception is the result `false`, `None` or an error; what an object holds afterwards is then
  only specified where the program leaves it usable.
- The event queue is a set from which an earliest group is taken; the order of equal heap entries is left open.
- The timer that limits a run in real time is an arbitrary function from the number of queries to an answer.
- The content of a circuit in the dialogs is the text it serializes to; results of saving and loading are parameters.

## Model

| member | source | states |
|---|---|---|
| `SimulationModel.TickKeepsInv` | src/core/simulation.h:92-94 | Processing a whole time point keeps: at most one pending event per time and input, every pending event in the future and at most one output delay away, at most one event per unconnected input, every history sorted, in range, and pruned to its length. |
| `SimulationModel.TickQueue` | src/core/simulation.cpp:347-354 | After a time point the queue holds exactly the events that were later, and one event for each output of a processed element whose value changed. |
| `SimulationModel.EmittedIsLatest` | src/core/simulation.cpp:193-201 | An event that is submitted for an input is later than every event that was pending for that input. |
| `SimulationRuns.TraceKeepsInv` | src/core/simulation.cpp:347-354 | In every interleaving of time points, state writes and new input values, every state keeps the invariants and time never goes back. |
| `SimulationRuns.WriteKeepsInv` | src/core/simulation.cpp:523-559 | Writing an internal state in a time slot in which the element submitted nothing keeps every invariant. |
| `SimulationRuns.InjectKeepsInv` | src/core/simulation.cpp:561-580 | A new value for an unconnected input with nothing pending keeps every invariant. |
| `Reachability.QuietSlotIsNeeded` | src/core/simulation.cpp:523-559 | Writing a state right after the element changed the same output puts two events on one time and input: the search for a quiet slot is needed. |
| `Reachability.UnchangedIsQuiet` | src/core/simulation.cpp:523-559 | An unchanged internal state in a time step means that the element submitted nothing in it, so the slot is quiet. |
| `Reachability.UnitTickClears` | src/core/simulation.cpp:561-580 | After one time unit nothing is pending for an unconnected input, so the next value can be submitted. |
| `Consistency.TickKeepsConsistent` | src/core/simulation.cpp:305-324 | If the last pending value of a target (or its stored value) equals the output that its driver computes, this still holds after any time point. |
| `Consistency.EmittingIsConsistent` | src/core/simulation.cpp:193-201 | An output that changes submits exactly the new value, as the latest one of its target. |
| `Consistency.TraceKeepsConsistent` | src/core/simulation.cpp:181-342 | Agreement of an output with the last pending value of its target is kept by every run. |
| `SimulationStart.StartConsistentIff` | src/core/simulation.cpp:83-102 | After construction an output agrees with its target exactly when its element does not start high. |
| `SimulationStart.AlwaysConsistentIff` | src/core/simulation.cpp:83-102 | In all reachable states every output agrees with the last value of its target, if and only if no connected wire has an inverted input that no logic item drives. |
| `SimulationStart.InvertedWireIsInconsistent` | src/core/simulation.cpp:326-342 | A wire with an inverted free input: right after construction its output and its target disagree, and nothing is pending. |
| `SteadyState.BoundedSettles` | src/core/simulation.cpp:411-447 | If each pending event time plus remaining rank times the largest delay is bounded, a run without end time ends after finitely many time points. |
| `SteadyState.AcyclicSettles` | src/core/simulation.cpp:411-447 | On a schematic without loops a run without end time terminates from every state. |
| `SteadyState.FixedPointIsEvaluated` | src/core/simulation.cpp:411-447 | A consistent state with an empty queue holds, at every input, the value of the circuit evaluated as one expression. |
| `SteadyState.RunReachesEvaluation` | src/core/simulation.cpp:411-447 | On an acyclic schematic of stateless elements a run without end time terminates with every input equal to the evaluation of the circuit over its unconnected inputs. |
| `SteadyState.ReachableRunReachesEvaluation` | src/core/simulation.cpp:411-447 | The same from every state that any run from construction can reach. |
| `SteadyState.AcyclicIff` | src/core/simulation.cpp:411-447 | A rank that grows along every connection exists exactly if no element drives itself over a chain of connections. |
| `SteadyState.LoopFreeRunReachesEvaluation` | src/core/simulation.cpp:411-447 | From every reachable state of a schematic of stateless elements in which no element drives itself, a run without end time ends with the evaluation of the circuit. |
| `Interruption.RunToSplit` | src/core/simulation.cpp:411-447 | Running to a time and then on to a later one reaches exactly the state of running to the later one: values, histories, queue and event count. |
| `Interruption.ResumeReachesSame` | src/core/simulation.cpp:411-447 | A run cut off after any number of time points and resumed to the same end time reaches the uninterrupted state. |
| `Interruption.ResumeSettlesSame` | src/core/simulation.cpp:411-447 | The same for runs without end time; whether they terminate does not depend on the interruption either. |
| `Interruption.RunOutAfterRunTo` | src/core/simulation.cpp:411-447 | A run to a fixed time followed by one without end time differs from the latter alone in the clock only. |
| `Interruption.TickIgnoresTime` | src/core/simulation.cpp:347-354 | What a time point does depends on the time of its events, not on the time of the clock before. |
| `Reachability.RunToUnit` | src/core/simulation.cpp:561-580 | Running for one time unit is the single step that state writes use. |
| `HistoryTrace.HistoryIsLossless` | src/core/simulation.cpp:466-490 | In every run, the history view reports for each time within the history length the value the input had then, despite pruning. |
| `HistoryTrace.FinishedHistoryIsOld` | src/core/simulation.cpp:449-451 | In a finished simulation no history entry is newer than the history length. |
| `HistoryTrace.ShrinkKeepsCount` | src/core/simulation.cpp:455-462 | Pruning removes no entry that is newer than a time within the history length. |
| `HistoryTrace.MoveFlips` | src/core/simulation.cpp:466-490 | The value looked up for a past time is the same before and after any move. |
| `TickRefinement.GroupRowIsInputsAfter` | src/core/simulation.cpp:155-161 | Applying the events of a group in any order sets exactly the inputs the events name. |
| `TickRefinement.GroupAppliedIsNext` | src/core/simulation.cpp:305-324 | Processing one event group in place is processing one more element of the time point: groups may be taken in any order. |
| `TickRefinement.PoppedGroup` | src/core/simulation.cpp:347-354 | A group taken at the current time belongs to an element that was not processed at this time yet. |
| `TickRefinement.AllProcessed` | src/core/simulation.cpp:347-354 | When no event is left at the current time, exactly the elements with events were processed. |
| `TickRefinement.OnlyActiveMatter` | src/core/simulation.cpp:347-354 | Elements without events at a time point change nothing and submit nothing. |
| `SimulationQueues.SimulationQueue.PopEventGroup` | src/core/component/simulation/simulation_queue.cpp:67-79 | Removes all events of one element at the earliest time and no others, and advances the time to it. |
| `Simulations.Simulation.constructor` | src/core/simulation.cpp:83-102 | Construction reaches the start state: free enable inputs on, logic item outputs off behind their inverters, and one event for each computed output that differs. |
| `Simulations.Simulation.InitializeInputValues` | src/core/element/logicitem/simulation_info.cpp:72-103 | Exactly the free enable inputs are on, and the J and K inputs of a flip-flop if both are free. |
| `Simulations.Simulation.SetOutputsToZero` | src/core/simulation.cpp:32-49 | Additionally exactly the inverted inputs that a logic item drives are on. |
| `Simulations.Simulation.InitializeCircuitState` | src/core/simulation.cpp:326-342 | Every element with logic, except wires, is computed once and submits its changed outputs. |
| `Simulations.Simulation.ProcessEventGroup` | src/core/simulation.cpp:305-324 | Sets exactly the inputs the events name, records the history, updates the state from the row before and the row after (a D flip-flop takes the new data exactly when its clock rises from the old row to the new one, an enabled latch follows its data), and submits exactly the outputs that changed. |
| `Simulations.Simulation.ProcessAllCurrentEvents` | src/core/simulation.cpp:347-354 | The loop over event groups reaches exactly the state of one synchronous step over all elements with events. |
| `Simulations.Simulation.RecordInputHistory` | src/core/simulation.cpp:466-490 | Prunes the history and appends the current time when the value changes. |
| `Simulations.Simulation.SubmitEventsForChangedOutputs` | src/core/simulation.cpp:193-201 | One event, one output delay ahead, for each changed and connected output. |
| `Simulations.Simulation.Run` | src/core/simulation.cpp:411-447 | Negative limits are refused, zero limits do nothing. Otherwise the run makes exactly the time points that are due until the first one at which a check of the limits stops it, by the event limit or by the answer of the timer to the query asked there. A run that no check stops reaches the uninterrupted end: the end time, or an empty queue with every visible history change over. |
| `LimitedRuns.RanIsDetermined` | src/core/simulation.cpp:411-447 | Configuration, start and answers of the timer determine whether a run is interrupted, after how many time points, and its final state. |
| `LimitedRuns.MaxReachedStops` | src/core/simulation.cpp:382-407 | The event limit is never overlooked: the first time point that reaches it has a check, which stops the run. |
| `LimitedRuns.EventLimitIsKept` | src/core/simulation.cpp:411-447 | No time point is processed after the event limit was reached, and a completed run never reached it. |
| `LimitedRuns.UnlimitedRunReachesEnd` | src/core/simulation.cpp:411-447 | Without event limit and timeout a run is not interrupted. |
| `LimitedRuns.ChainReachesSame` | src/core/simulation.cpp:411-447 | Any chain of runs that event limits or timers interrupt and that are resumed to the same end time, or to none, leads to the end exactly where one uninterrupted run does. |
| `Simulations.Simulation.TrySetInternalState` | src/core/simulation.cpp:523-559 | Waits up to ten time units for one in which the state does not change, then writes; fails exactly if the element was busy in all of them. Afterwards the bit holds the value, every other bit, input and history is as after the last time unit, and exactly the outputs that drive another value submit an event. |
| `Simulations.Simulation.SetUnconnectedInput` | src/core/simulation.cpp:561-580 | Refuses connected inputs; otherwise one time unit passes, the given value is the last one on its way to the input and is stored one time unit later, and what is on its way to every other input is as without the call. |
| `Simulations.GetChangedOutputs` | src/core/simulation.cpp:165-179 | The positions at which two output lists differ, ascending and complete. |
| `Schematics.CutValid` | src/core/schematic.cpp:194-221 | Removing any set of connections keeps both directions mutually inverse, and all attributes. |
| `Schematics.ConnectedPointwise` | src/core/schematic.cpp:180-188 | Connecting links the two ends, frees their former partners and leaves every other connection as it was. |
| `Schematics.ConnectedValid` | src/core/schematic.cpp:180-188 | Forward and backward connections stay mutually inverse after connecting any input and output. |
| `Schematics.CutTwice` | src/core/schematic.cpp:194-204 | Clearing one thing after another clears exactly what either names. |
| `Schematics.Schematic.AddElement` | src/core/schematic.cpp:118-168 | Checks fail in the order of the source, and succeed exactly for positive delays and fitting counts; otherwise an unconnected element with the given delays, history length and inverters is appended and nothing else changes; totals stay exact. |
| `Schematics.Schematic.ClearInput` | src/core/schematic.cpp:194-198 | Removes exactly the connection of the input, on both sides; every other end keeps its partner. |
| `Schematics.Schematic.ClearOutput` | src/core/schematic.cpp:200-204 | Removes exactly the connection of the output, on both sides; every other end keeps its partner. |
| `Schematics.Schematic.Connect` | src/core/schematic.cpp:180-188 | Frees both ends and connects them to each other. |
| `Schematics.Schematic.ClearAllConnections` | src/core/schematic.cpp:213-221 | No connection of the element is left on either side, and every other connection is as it was. |
| `Schematics.Schematic.SetInputInverter` | src/core/schematic.cpp:276-279 | Changes the inverter of one input only. |
| `SchematicGeneration.IdsRoundTrip` | src/core/schematic_generation.cpp:360-400 | Logic items keep their ids and wires follow; every element id belongs to exactly one of them, and the conversions are inverse to each other. |
| `SchematicGeneration.IndependentLinksStay` | src/core/schematic_generation.cpp:264-288 | Connections with different ends do not disturb each other: at the end all of them exist. |
| `SchematicGeneration.AddLayoutElements` | src/core/schematic_generation.cpp:149-179 | One element per logic item and wire in the order of their ids, with the types, counts, delays and history lengths the layout asks for; fails exactly if an item is not accepted or a wire that takes time has no length. |
| `SchematicGeneration.CreateConnections` | src/core/schematic_generation.cpp:264-288 | Makes all internal and found connections one after the other and changes nothing else; fails exactly if a connection that the layout names does not exist; if no end is named twice, every named connection is there afterwards. |
| `SchematicGeneration.AddMissingPlaceholders` | src/core/schematic_generation.cpp:322-334 | Every free output of a logic item gets a new placeholder; no connection, id or attribute that existed changes. |
| `SchematicGeneration.FilledConnectsAllItems` | src/core/schematic_generation.cpp:322-334 | After adding placeholders every output of a logic item is connected. |
| `SchematicGeneration.SetOutputInverters` | src/core/schematic_generation.cpp:294-314 | Exactly the inputs driven by inverted outputs of logic items become inverted; the asserted input always exists. |
| `SchematicGeneration.GenerateSchematic` | src/core/schematic_generation.cpp:340-358 | Succeeds exactly if all elements are accepted and all ends of named connections exist. An input of a layout element is only connected as the layout names it, other connections lead to placeholders, and if no end is named twice all named connections are made; types, counts, delays, history lengths and inverters are those of the layout. |
| `GeneratedSimulations.GeneratedIsAlwaysConsistent` | src/core/schematic_generation.cpp:340-358 | Simulations of generated schematics never meet the inverted wire: outputs and targets agree in every run. |
| `PartSelections.CanonicalIsUnique` | src/core/part_selection.cpp:27-32 | Sorted lists without touching parts that cover the same cells are equal. |
| `PartSelections.MergedIsCanonical` | src/core/part_selection.cpp:35-65 | Sorting, scanning and removing equal beginnings gives the sorted list without touching parts that covers the same cells. |
| `PartSelections.OverlappingUnionAssociative` | src/core/part_selection.cpp:35-65 | The scanned operation is associative, so a scan may combine in any order. |
| `PartSelections.SortAndMergeParts` | src/core/part_selection.cpp:35-65 | Any list becomes sorted and non-touching with the same cells. |
| `PartSelections.RemoveCases` | src/core/part_selection.cpp:175-225 | The five cases of removing are exhaustive, so the unknown case is unreachable, and each leaves the stated cells. |
| `PartSelections.SwappedAndPopped` | src/core/part_selection.cpp:199-203 | Overwriting a part with the last one and popping removes that part only. |
| `PartSelections.PartSelection.AddPart` | src/core/part_selection.cpp:166-173 | Set union with the cells of the part. |
| `PartSelections.PartSelection.RemovePart` | src/core/part_selection.cpp:175-225 | Set difference with the cells of the part, by the reverse loop. |
| `PartSelections.PartSelection.InvertedSelection` | src/core/part_selection.cpp:122-146 | The cells of the part that are not selected. |
| `PartSelections.PartSelection.CopyParts` | src/core/part_selection.cpp:270-281 | Adds the selected cells of the source part, shifted to the destination part. |
| `PartSelections.CopiedCellsAre` | src/core/part_selection.cpp:246-264 | Copying part by part copies the cells in the source part, shifted. |
| `PartSelections.CopiedPart` | src/core/part_selection.cpp:231-244 | A shifted part stays inside the destination part, so its offsets need no clamping. |
| `PartSelections.MoveParts` | src/core/part_selection.cpp:304-311 | Copies the cells of the source part to another selection and removes them here. |
| `PartSelections.MovePartsWithin` | src/core/part_selection.cpp:313-318 | Moves the cells of the source part within one selection. |
| `PartSelections.MoveConservesCells` | src/core/part_selection.cpp:304-318 | A move to a free destination keeps the number of selected cells. |
| `PartQueries.MergedAnyOf` | src/core/algorithm/merged_any_of.h:10-28 | Walking through two lists without touching parts at once finds an overlap exactly if there is one. |
| `PartQueries.AnyOverlapsIff` | src/core/geometry/part_selections.cpp:29-39 | Some parts overlap exactly if the selections share a cell. |
| `PartQueries.SelectionsAreDisjoint` | src/core/geometry/part_selections.cpp:35-39 | Selections are disjoint exactly if they share no cell. |
| `PartQueries.GetDisplayStates` | src/core/layout.cpp:400-425 | A part is valid, partly valid or normal depending on its valid cells alone; returning at the first overlap is right. |
| `MessageValidators.MessageValidator.Submit` | src/core/layout_message_validator.cpp:163-165 | Accepts a message exactly if it is allowed, and changes exactly the entries that the message names, as it names them. |
| `MessageValidators.MessageValidator.HandlePartMoved` | src/core/layout_message_validator.cpp:342-398 | Accepts exactly the moves of equal length whose part lies at an end of its segment and whose destination is new or touches the destination part, with true announcements; the source then has its cells without those of the part and the destination its cells with those of its part. |
| `MessageValidators.MessageValidator.HandlePartDeleted` | src/core/layout_message_validator.cpp:400-422 | As written, every accepted deletion erases the whole segment, whatever part it names. |
| `MessageValidators.MessageValidator.HandleIdUpdated` | src/core/layout_message_validator.cpp:328-340 | Renames a segment to a free name; an inserted one has to agree. |
| `MessageValidators.MessageValidator.HandleInserted` | src/core/layout_message_validator.cpp:428-438 | Accepts exactly known, not inserted segments whose line has the length of their part. |
| `MessageValidators.AcceptKeepsIdsUnique` | src/core/layout_message_validator.cpp:159-161 | No two known segments ever have the same unique id. |
| `MessageValidators.AcceptAllConcat` | src/core/layout_message_validator.cpp:163-165 | Accepting a stream in two pieces is accepting it at once. |
| `MessageGeneration.FromLayout` | src/core/layout_message_validator.cpp:45-47 | The validator receives exactly the messages of the layout, and ends in a state that matches it and knows nothing else. |
| `MessageGeneration.ReplayIsAccepted` | src/core/layout_message_generation.h:140-148 | The messages of any layout are accepted as a stream from the empty state, and lead to a state that matches the layout and knows nothing else. |
| `MessageGeneration.ComparisonIsExactIff` | src/core/layout_message_validator.cpp:102-157 | A state that passes the comparison knows nothing but the layout exactly if its sizes are those of the layout, which the comparison does not look at for segments. |
| `MessageGeneration.ComparisonMissesSegment` | src/core/layout_message_validator.cpp:102-128 | A validator with one accepted segment passes the comparison with the empty layout. |
| `MessageGeneration.GenerateAllWireMessages` | src/core/layout_message_generation.h:140-148 | Sends exactly the creation of all segments, wire by wire, followed by the insertion of those of inserted wires, and all of it is accepted. |
| `MessageGeneration.FinishedMatches` | src/core/layout_message_validator.cpp:102-157 | The final state passes all three comparisons with the layout, and holds no segment that the layout does not have. |
| `Selections.FollowFits` | src/core/selection.cpp:319-424 | After an accepted message a selection that named only known cells still does, and none of its contracts fails, unless a deletion named less than the segment. |
| `Selections.FollowAllFits` | src/core/selection.cpp:319-424 | The same for every accepted stream. |
| `Selections.DeletionFitsIff` | src/core/layout_message_validator.cpp:400-422 | A deletion the validator accepts keeps all fitting selections in step exactly if it names the whole segment. |
| `Selections.PartialDeletionIsAccepted` | src/core/layout_message_validator.cpp:403-411 | A stream with a partial deletion that the validator accepts and on which a selection then fails. |
| `Selections.PartialDeletionIsRefused` | src/core/layout_message_validator.cpp:403-419 | A well-formed deletion of half a segment that announces that the rest stays is refused. |
| `Selections.ComparingAgreesIff` | src/core/layout_message_validator.cpp:400-422 | For every state and message: comparing with the part of the segment, as moves do, agrees with the code except for deletions of another part than the whole of a known segment that is not inserted; those differ unless both refuse them, as the part is not at an end and the segment should stay. |
| `Selections.ComparingAllFits` | src/core/layout_message_validator.cpp:403-411 | With that comparison, selections stay in step on every accepted stream. |
| `Selections.FollowRelabels` | src/core/selection.cpp:319-424 | A place is selected after a message exactly if the place it came from was selected: renames rename, moves shift, deletions remove exactly the deleted cells. |
| `Selections.RelabelInjective` | src/core/selection.cpp:338-402 | Renames and moves bring no two selected places together. |
| `Selections.FollowConserves` | src/core/selection.cpp:338-402 | Renames and moves keep the number of selected cells. |
| `Selections.Selection.AddSegment` | src/core/selection.cpp:162-181 | Adds exactly the cells of the part. |
| `Selections.Selection.RemoveSegment` | src/core/selection.cpp:183-200 | Removes exactly the cells of the part, and the entry when nothing is left. |
| `Selections.Selection.SetSelection` | src/core/selection.cpp:202-221 | Replaces the parts of one segment. |
| `Selections.Selection.HandleMoveDifferentSegment` | src/core/selection.cpp:338-380 | Moves the selected cells between two entries, creating or removing them as needed. |
| `Selections.Selection.HandleMoveSameSegment` | src/core/selection.cpp:382-402 | Moves the selected cells within one entry. |
| `Selections.Selection.HandleIdUpdated` | src/core/selection.cpp:319-334 | Renames an entry; fails if the new name has one already. |
| `SelectionSanitization.FindLower` | src/core/selection_sanitization.cpp:72-79 | The closest safe offset below, or the limit. |
| `SelectionSanitization.FindHigher` | src/core/selection_sanitization.cpp:81-89 | The closest safe offset above, or the limit. |
| `SelectionSanitization.FindSanitizedPart` | src/core/selection_sanitization.cpp:91-115 | Shrinking finds no part exactly if fewer than two offsets of the part are safe, and otherwise holds all its safe offsets between safe ends; expanding stops at the closest safe offsets or the line ends. |
| `SelectionSanitization.ShrunkIsLargest` | src/core/selection_sanitization.cpp:91-115 | Every sub-part with safe ends lies within the shrunk part. |
| `SelectionSanitization.ExpandedIsSmallest` | src/core/selection_sanitization.cpp:91-115 | The expanded part lies within every enclosing part with safe ends, and has safe ends itself exactly if there is such a part. |
| `SelectionSanitization.SanitizedEndsAreSafe` | src/core/selection_sanitization.cpp:117-128 | After merging no end is at a crossing: always for shrinking, and for expanding if the line does not end at crossings. |
| `SelectionSanitization.FindSanitizedParts` | src/core/selection_sanitization.cpp:117-128 | The list without touching parts of exactly the cells of what the single parts become, so minimal for expanding and maximal for shrinking; every end is safe or an end of the line. |
| `SelectionSanitization.SanitizedIsUnique` | src/core/selection_sanitization.cpp:91-115 | What a single part becomes is determined by its contract. |
| `SelectionSanitization.SanitizeSelection` | src/core/selection_sanitization.cpp:186-205 | Every selected segment gets exactly the cells of what its parts become or, if it needs no change or is not inserted, stays; entries without parts are deleted. |
| `SelectionSanitization.SanitizingIsIdempotent` | src/core/selection_sanitization.cpp:186-205 | Sanitizing a sanitized selection changes nothing, in both modes and on all lines. |
| `SegmentTrees.SegmentTree.AddSegment` | src/core/segment_tree.cpp:196-210 | Fails exactly if the tree gets a second input; cached input position and output count equal a recount. |
| `SegmentTrees.SegmentTree.AddTree` | src/core/segment_tree.cpp:212-232 | Appends all segments and valid parts; fails exactly if both trees have an input. |
| `SegmentTrees.SegmentTree.UpdateSegment` | src/core/segment_tree.cpp:234-249 | Fails exactly if the length changes, which leaves the tree as it was, or a second input appears. |
| `SegmentTrees.SegmentTree.CopySegment` | src/core/segment_tree.cpp:251-264 | Appends a copy of a segment with its valid parts. |
| `SegmentTrees.SegmentTree.CopySegmentPart` | src/core/segment_tree.cpp:266-289 | The copy spans the part; a kept end keeps its type and a cut end is a shadow point, so it has no connection the segment did not have. It keeps exactly the valid cells of the part, at their places in the grid. |
| `SegmentTrees.SegmentTree.ShrinkSegment` | src/core/segment_tree.cpp:291-316 | The segment spans the part; a kept end keeps its type and a cut end is a shadow point, so no input or output appears and the output count never grows. It keeps exactly the valid cells inside the part, at their places in the grid. |
| `SegmentTrees.SegmentTree.SwapAndMergeSegment` | src/core/segment_tree.cpp:355-378 | The merged segment spans both, has the types of their outer ends, and exactly the valid cells of both at their places in the grid; all others stay, the last taking the free place; fails exactly on wrong index order or segments that do not touch in line. |
| `SegmentTrees.SegmentTree.SwapAndDeleteSegment` | src/core/segment_tree.cpp:380-400 | Removes one segment; the last one is at its index afterwards and all others where they were; all counts stay exact. |
| `SegmentTrees.SegmentTree.RegisterSegment` | src/core/segment_tree.cpp:162-172 | Counts the connections of a segment; fails exactly on a second input. |
| `SegmentTrees.SegmentTree.UnregisterSegment` | src/core/segment_tree.cpp:174-185 | Takes the connections of a segment out; the asserted input position always agrees. |
| `SegmentTrees.SegmentTree.MarkValid` | src/core/segment_tree.cpp:422-435 | Adds exactly the cells of the part to the valid ones of one segment. |
| `SegmentTrees.SegmentTree.UnmarkValid` | src/core/segment_tree.cpp:437-451 | Removes exactly the cells of the part from the valid ones of one segment. |
| `SegmentTrees.MergedHasOneInput` | src/core/segment_tree.cpp:355-378 | Merging never creates a second input. |
| `SegmentInfos.TouchingLinesMakeALineIff` | src/core/vocabulary/ordered_line.h:48-53 | The outer points of two lines that share a point are accepted for a line exactly if the lines are parallel. |
| `SegmentInfos.MergeTouchingIff` | src/core/geometry/segment_info.cpp:40-54 | Merging is defined exactly for parallel segments where one ends where the other begins, in any order. |
| `SegmentInfos.CutAndMerged` | src/core/geometry/segment_info.cpp:26-54 | Cutting a segment anywhere and merging the halves gives it back with its end points. |
| `Geometry.LinesAreTheirPoints` | src/core/vocabulary/ordered_line.h:48-53 | Axis, row and two coordinates stand for exactly the accepted pairs of points, one to one. |
| `LineMerging.MergedSortedIsCanonical` | src/core/tree_normalization.cpp:79-99 | Merging sorted lines of one axis covers the same unit edges with lines that do not touch in their row. |
| `LineMerging.MergedIgnoresTies` | src/core/tree_normalization.cpp:79-82 | The order in which the sort leaves lines with the same beginning does not matter. |
| `LineMerging.MergeLines1DIsCanonical` | src/core/tree_normalization.cpp:65-100 | For any list, the merged lines of an axis cover exactly its unit edges of that axis and do not touch. |
| `LineMerging.CanonicalIsUnique` | src/core/tree_normalization.cpp:65-100 | Non-touching sorted lines of one axis that cover the same edges are equal. |
| `LineMerging.MergedIsCanonicalForm` | src/core/tree_normalization.cpp:117-126 | Two lists have the same merged lines exactly if they cover the same edges; merging twice is merging once. |
| `LineSplitting.SplitSegment` | src/core/tree_normalization.cpp:28-49 | Exactly the pieces between neighbouring split points, each once, in whatever order and however often the points come; no split point is strictly inside a piece and every edge is covered. |
| `LineSplitting.SplitLines` | src/core/tree_normalization.cpp:51-61 | The same for a list of lines; coverage is kept, and pieces are distinct when the lines do not overlap. |
| `TreeNormalization.SplitPointsAreJunctions` | src/core/tree_normalization.cpp:130-140 | The second list of split points are exactly the end points of segments on which segments of both orientations lie. |
| `TreeNormalization.NormalizeSegments` | src/core/tree_normalization.cpp:130-140 | For every list: exactly the covered stretches from one break to the next, each once; the result is normalized. |
| `TreeNormalization.NormalizationIsIdempotent` | src/core/tree_normalization.cpp:130-140 | The normal form of a normal form is itself. |
| `TreeNormalization.NormalizationIsUnique` | src/core/tree_normalization.cpp:144-154 | A list is a normal form of the given segments exactly if it has the same elements as any other one, with repetitions. |
| `TreeNormalization.SameNormalForm` | src/core/tree_normalization.cpp:130-140 | Segments with the same covered edges and junctions have the same normal form. |
| `TreeNormalization.NormalizedIff` | src/core/tree_normalization.h:25-33 | Equal to the own normal form means exactly: no two segments overlap, none could be merged, none needs splitting. |
| `TreeNormalization.SegmentsAreNormalized` | src/core/tree_normalization.cpp:144-154 | The check accepts exactly the documented condition. |
| `TreeNormalization.MergedIsNormalizedIff` | src/core/tree_normalization.h:13-23 | Merging alone gives normalized segments exactly if, in the given segments, no covered stretch of one axis ends in the middle of one of the other axis. |
| `TreeNormalization.MergedNeedsSplitting` | src/core/tree_normalization.h:13-23 | Two lines that form a T are returned unsplit, against the comment. |
| `DepthFirstSearches.DepthFirstVisitor` | src/core/algorithm/depth_first_visitor.h:41-75 | Terminates; reports a loop exactly if the component of the start has one; otherwise the visited nodes are the component and the visited edges a spanning tree of it. |
| `DepthFirstSearches.DepthFirstSearch` | src/core/container/graph/depth_first_search.h:66-117 | The status tells exactly whether the component has a loop, and otherwise whether it is the whole graph. |
| `DepthFirstSearches.GraphIsConnectedTree` | src/core/tree_normalization.cpp:161-168 | Accepts exactly the connected graphs without loops and with at least two nodes. |
| `DepthFirstSearches.FindRootIndex` | src/core/tree_normalization.cpp:102-113 | Finds a leaf if there is one. |
| `DepthFirstSearches.TreeHasLeaf` | src/core/tree_normalization.cpp:102-113 | Every such tree has a leaf, so refusing graphs without one is right. |
| `DepthFirstSearches.SearchGoesOn` | src/core/algorithm/depth_first_visitor.h:54-74 | Visiting one more edge keeps: a tree of visited edges, distinct waiting edges outside of it, and no edge of a visited node forgotten. |
| `DepthFirstSearches.LoopFound` | src/core/algorithm/depth_first_visitor.h:61-64 | A waiting edge to a visited node lies on a loop. |
| `DepthFirstSearches.NoLoopFound` | src/core/algorithm/depth_first_visitor.h:55-57 | When no edge is waiting, every edge of the component is a bridge. |
| `UndirectedEdges.LinkedIffWalk` | src/core/algorithm/depth_first_visitor.h:41-75 | Being linked by edges means that there is a walk. |
| `CircuitUiModels.NothingIsLost` | src/core/circuit_ui_model.cpp:585-695 | In every run the circuit is replaced or the application exits only if the circuit equals the last saved one, the user answers in that step by saving it and the save succeeds, or the user refused to save it in the same dialog. |
| `CircuitUiModels.StepKeepsDialog` | src/core/circuit_ui_model.cpp:585-760 | Every step keeps: a file to open is only asked for over a clean or given up circuit, and the open request fits the action. |
| `CircuitUiModels.LossIsAllowed` | src/core/circuit_ui_model.cpp:624-695 | One step loses the circuit only under these conditions. |
| `CircuitUiModels.GivenUpIsSaidNo` | src/core/circuit_ui_model.cpp:642-643 | A circuit counts as given up only if the user said no to saving it, the dialog is open ever since and the circuit is the same. |
| `CircuitUiModels.ModalIffRequest` | src/core/circuit_ui_model.cpp:619-619 | The model is modal exactly when a request is returned, and remembers that request and the action. |
| `CircuitUiModels.AnswerDescends` | src/core/circuit_ui_model.cpp:624-695 | Each answer strictly descends from asking to save over choosing a file to opening one to no dialog. |
| `CircuitUiModels.OpenDialogKeepsCircuit` | src/core/circuit_ui_model.h:333-340 | While a dialog stays open the circuit does not change, and its save information changes only by a successful save of it. |
| `CircuitUiModels.SavingThenActing` | src/core/circuit_ui_model.cpp:638-671 | Agreeing to save is the same as saving and then starting the action. |
| `CircuitUiModels.CircuitUIModel.FileAction` | src/core/circuit_ui_model.cpp:585-622 | Refused while modal; otherwise asks to save, asks for a file, acts or exits as specified. |
| `CircuitUiModels.CircuitUIModel.SubmitModalResult` | src/core/circuit_ui_model.cpp:624-695 | Refused without a request or with a result of another request, changing nothing; otherwise as specified. |
| `CircuitUiModels.CircuitUIModel.NextModalAction` | src/core/circuit_ui_model.cpp:697-760 | Either a next step or an action, never both. |
| `CircuitUiModels.CircuitUIModel.DoModalAction` | src/core/circuit_ui_model.cpp:789-862 | Performs the action unless an error came first; the circuit is never set while modal. |
| `ElementLaws.AdvanceSetsInputs` | src/core/simulation.cpp:155-161 | Over the stored rows before and after a time point: the events of the time set their inputs, all other inputs keep their values. |
| `ElementLaws.FlipflopDLaw` | src/core/element/logicitem/simulation_info.cpp:240-253 | With set and reset off the state is the data seen after the time point if the clock was seen off before and on after it, and unchanged otherwise; reset comes before set, and without events nothing changes. |
| `ElementLaws.LatchDLaw` | src/core/element/logicitem/simulation_info.cpp:230-238 | An enabled latch that gets events holds the data it sees, otherwise it keeps its state. |
| `ElementLaws.FlipflopMSDLaw` | src/core/element/logicitem/simulation_info.cpp:255-271 | A rising edge stores the data in the master, a falling edge hands the master to the slave. |
| `ElementLaws.FlipflopJKLaw` | src/core/element/logicitem/simulation_info.cpp:185-209 | At a rising edge J sets, K clears and both store the inverse of the slave; a falling edge hands the master to the slave. |
| `ElementLaws.ShiftRegisterLaw` | src/core/element/logicitem/simulation_info.cpp:211-228 | A rising edge takes the two data inputs in, a falling edge moves every bit on by two, and nothing else changes the register. |
| `ElementLaws.ClockGeneratorLaw` | src/core/element/logicitem/simulation_info.cpp:150-183 | When the generator switches on or off and when it stops, in terms of the enable input and of which looped back input changed. |
| `ElementLaws.OutputsShowState` | src/core/element/logicitem/simulation_info.cpp:279-328 | Which bits of the state each kind of element with memory shows at its outputs. |
| `ElementLaws.XorLaw` | src/core/element/logicitem/simulation_info.cpp:356-357 | An xor element drives on exactly if one input, and no other one, appears on, whatever the number of inputs. |
| `ElementLaws.AndLaw` | src/core/element/logicitem/simulation_info.cpp:350-351 | An and element drives on exactly if every input appears on. |
| `ElementLaws.OrLaw` | src/core/element/logicitem/simulation_info.cpp:353-354 | An or element drives on exactly if some input appears on. |
| `ElementLaws.WireLaw` | src/core/element/logicitem/simulation_info.cpp:343-344 | A wire copies what it sees to all its outputs. |
| `ElementLaws.AdvanceSubmits` | src/core/simulation.cpp:181-201 | After a time point the queue holds exactly the later events, and for each connected output that drives another value than before one event for its target, with the new value, exactly one output delay later. |
| `ElementLaws.AdvanceCounts` | src/core/simulation.cpp:347-354 | A time point adds exactly the number of its events to the event count. |
| `ElementLaws.AdvanceRecords` | src/core/simulation.cpp:466-490 | A history gains the time exactly when the first input of an element with a history changes, and loses then exactly the entries older than its length. |
| `ElementLaws.AdvanceLargest` | src/core/simulation.cpp:466-490 | The largest history event is exactly when the latest recorded change falls out of the history of its element. |
| `ElementLaws.WriteLaw` | src/core/simulation.cpp:548-559 | A state write sets one bit, submits exactly one event for each connected output that drives another value, and changes nothing else. |
| `ElementLaws.StartRows` | src/core/simulation.cpp:32-49 | After construction every input behind a logic item appears off; of the other stored values exactly the loose enable inputs, and the loose J and K inputs, are on. |
| `ElementLaws.StartMemory` | src/core/simulation.cpp:326-342 | The state of every kind of element with memory after construction is the one it takes if all inputs had been off before. |
| `ElementLaws.StartSubmits` | src/core/simulation.cpp:326-342 | After construction exactly those events are pending that correct the stored value of a target of an element that is no wire. |
| `MemoryTraces.FlipflopDRemembers` | src/core/element/logicitem/simulation_info.cpp:240-253 | In every run, with set and reset off and no write to it, a D flip-flop holds the data it saw at its last rising edge, whatever else happens in between. |
| `MemoryTraces.FlipflopMSDShows` | src/core/element/logicitem/simulation_info.cpp:255-271 | In every run a master-slave flip-flop shows, after the falling edge, the data it saw at the rising edge before. |
| `MemoryTraces.FlipflopJKToggles` | src/core/element/logicitem/simulation_info.cpp:185-209 | In every run a clock cycle of a JK flip-flop that saw J and K on at the rising edge inverts what it shows. |
| `ClockGenerators.GeneratorAlwaysWorks` | src/core/element/logicitem/simulation_info.cpp:150-183 | In every run from construction that does not write to it, a generator with connected loops stands still with settled loops, or is in a phase whose end is the only event in its loops. |
| `ClockGenerators.PeriodGoesOn` | src/core/element/logicitem/simulation_info.cpp:150-183 | Whatever move is made, a period goes on to its exact end, and the next one begins then unless the generator is disabled. |
| `ClockGenerators.ClockGeneratorIsPeriodic` | src/core/element/logicitem/simulation_info.cpp:150-183 | As long as it stays enabled, a generator drives in every state of every run a square wave: on during exactly the first delay of each period and off during exactly the second. |
| `GeneratedSimulations.GeneratorsAreLooped` | src/core/schematic_generation.cpp:264-274 | The clock generators of a generated schematic have their loops, unless the layout names an end twice or inverts a loop. |
| `Reachability.SetIsLatest` | src/core/simulation.cpp:561-580 | A value set for an unconnected input is the last one on its way to it, and what is on its way to other inputs stays. |
| `LimitedRuns.ChecksAreThousands` | src/core/simulation.cpp:399-447 | Until a limit stops the run, the timer is asked for the q-th time after q thousand events, or at the event limit if that comes first; without a timeout only the event limit is watched. |
| `LimitedRuns.RanEnds` | src/core/simulation.cpp:411-447 | A run that was not interrupted is at its end time with only later events, or has an empty queue and no history change in sight, below the event limit; an interrupted one reached the event limit or was told that its time is up. |
| `SchematicGeneration.CanGenerateIff` | src/core/schematic_generation.cpp:340-358 | Generation succeeds exactly if every item is accepted, no wire that takes time has an output without length, and both ends of every named connection exist. |
| `SchematicGeneration.LastLinkWins` | src/core/schematic_generation.cpp:264-288 | For any list of connections: in the end exactly those are linked whose ends no later connection has taken. |
| `SchematicGeneration.GeneratedIsAsAsked` | src/core/schematic_generation.cpp:340-358 | Elements, connections and inverters of a generated circuit are those that the layout asks for. |
| `MessageValidators.MovedBetween` | src/core/layout_message_validator.cpp:342-398 | A move between segments is accepted exactly under the stated condition on the state and the message, and moves exactly the cells of the part. |
| `MessageValidators.AcceptedIff` | src/core/layout_message_validator.cpp:315-486 | Every message is accepted exactly if it is allowed, and then changes exactly the entries it names. |
| `MessageValidators.CutAndMovedBack` | src/core/layout_message_validator.cpp:342-398 | Cutting off either end of a segment, to a new segment or to a touching one, and moving it back is accepted and restores both segments. |
| `MessageValidators.Undone` | src/core/layout_message_validator.cpp:328-486 | Insertion and removal, renaming there and back, and new end points and the old ones again undo each other. |
| `Selections.Selection.Submit` | src/core/selection.cpp:426-462 | Fails exactly if a renamed entry meets another one or a moved part changes its length; otherwise a place is selected afterwards exactly if the message brings a selected place there or leaves it, for any selection and message. |
| `SegmentTrees.CachesAre` | src/core/segment_tree.cpp:20-57 | What the caches say: no two ends are inputs, the input position is that of the one that is, and the output count is the number of ends that are outputs. |
| `SegmentTrees.HasOneInputIff` | src/core/segment_tree.cpp:162-172 | A tree is refused exactly if two of its segment ends are inputs. |
| `CircuitUiModels.CleanIsReplaced` | src/core/circuit_ui_model.cpp:585-622 | Over a saved circuit, new and example circuits open under their names, and the other actions ask for a file or exit. |
| `CircuitUiModels.SaveIsWritten` | src/core/circuit_ui_model.cpp:697-760 | Saving writes the finished edits to the file of the circuit, and asks for a file where there is none and for Save As. |
| `CircuitUiModels.ChosenFileIsWritten` | src/core/circuit_ui_model.cpp:664-680 | A file chosen for saving gets the content, which belongs to that file from then on; when saving fails nothing changes but an error is reported. |
| `CircuitUiModels.NoActsUnsaved` | src/core/circuit_ui_model.cpp:642-643 | The answer no does the action as if the circuit had been saved, without writing anything. |

## Left out

- Limits of machine integers: times and event counts that overflow 64 bits, 16 bit grid coordinates and offsets, sizes of
  vectors. The exceptions for reaching a maximum number of elements or connections are not modelled.
- Sub-circuits: their outputs cannot be computed by the program either; a schematic with sub-circuit outputs can be built,
  but its simulation is not modelled.
- Simulations.Simulation.Run: a run that neither a limit nor an empty queue ever ends is not specified, as it does not
  return.
- The accuracy of the real time limit, the expected simulation time and all other wall-clock measurements.
- Logic items and decorations in selections and in the validator: their messages only rename and remove ids.
- The comparison of logic items between a layout and the validator; decorations are not compared by the program either.
- Null segments and null ids, which the callers exclude.
- SegmentTrees.SegmentTree.AddSegment: after a second input was refused the tree is not specified, as the segment was
  already stored without being counted.
- Sorting a segment tree into its canonical order, its bounding rectangle and its formatted output.
- SchematicGeneration.AddLayoutElements: the output delays of a logic item are given with the item, and the lengths within a
  wire with the wire.
- SchematicGeneration.CreateConnections: the connections at the end points of a wire are given; finding them by position
  and orientation in the index of a layout is not modelled.
- TreeNormalization.NormalizeSegments: points with both orientations are found by looking at all lines, not by sorting
  pairs of points and orientations; the order of equal points does not matter for the result.
- DepthFirstSearches.DepthFirstVisitor: graphs with parallel edges or self loops are not considered.
- Building the adjacency graph of segments, and the checks of end point types of a segment tree.
- CircuitUiModels.CircuitUIModel.FileAction: file names shown in requests, view points, repaint flags and the closing of
  setting dialogs are not modelled; finishing an edit may change the circuit in any way.
- Rendering, mouse logic, undo and redo, the spatial indices, file formats and the clipboard.
- The ids of sub-circuits stored in a schematic.
- Allocation statistics, printing and formatting.
