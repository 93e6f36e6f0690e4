# A verified model of the digitalsim circuit editor core

digitalsim is a browser editor for digital logic circuits. Nodes (gates,
constants, clocks, splitters, displays and notes) carry input and output
pins, and wires join an output pin to an input pin. A simulation step
propagates 0 / 1 / undefined signals through the circuit. This project
models the logic behind the editor in Dafny and proves what that logic
promises:

- **The circuit graph store** (`SimStore`, `SimStoreFacts`). Three id-keyed
  maps (nodes, pins, wires), three id counters, and the tick. No editing
  operation moves a counter back; restoring a snapshot (undo, redo, loading
  a project) sets them to the snapshot's values. Each store method is proved to move the store to the graph given by
  a function on `Graph` values (`AddNodeSpec`, `RemoveNodeSpec`, ...). The
  properties of those functions are proved as lemmas: pin layout and
  defaults per kind, the removal cascade, exact wire deletion, the
  parameter upsert, counters that no editing operation lowers, a
  well-formedness invariant every operation keeps, and a worked circuit (a
  constant driving a NOT gate) followed from an empty store through two
  parameter changes.
- **The simulation step** (`Simulation`, `SimulationFacts`). Sources are
  evaluated once and wires propagated. Then "evaluate every other node,
  propagate" repeats until a pass changes nothing, for at most 100 passes.
  Nodes and wires are visited in ascending id order, as JavaScript's
  `for...in` visits integer keys. The loops are methods proved equal to
  the specification functions. The lemmas cover the truth tables, what one
  node evaluation writes, last-writer-wins propagation, how the settle loop
  stops, when the oscillation warning fires, and that a NOT gate fed by its
  own output always warns.
- **Editing in the UI store** (`Selection`, `WireEdit`, `SelectionEdits`,
  `UIStore`):
  - selection set algebra, including rectangle select in its three modes;
  - dragging the selection;
  - the wire-draft state machine and the rules for completing a wire;
  - anchor edits on finished wires;
  - copy, paste with old-to-new id remapping and pin matching by name, and
    delete of the selection.
- **Undo/redo history** (`ProjectStore`): a truncate-and-append stack
  capped at 50 entries, with the version check and history reset of
  loading a project.
- **The clipboard slot** (`EditorClipboard`) and the node titles
  (`NodeData`).
- **Orthogonal wire routing** (`WireRoute`, `WireDraftRoute`). The
  routine exists twice in the source, each copy with its own helpers. The
  loops of each copy are proved against one specification function, so
  both return the same list. The route starts and ends on the input's ends, has only
  horizontal and vertical legs, and is a subsequence of the routed list.

Stores are classes whose methods take the other stores they touch as
parameters. A JavaScript `throw` is modelled as an `ok` result that is
false, with nothing changed. Coordinates and numeric parameter values are
integers.

Where the code and its description differ, the model follows the code:
`setNodeParam` runs a simulation step even when the node does not exist
(src/Stores/simStore.ts:233-260). Likewise `deleteSelection` throws, before
changing anything, when a wire's pin is missing
(src/Stores/uiStore.ts:343-347); the model reports that as a failed delete.
`pasteSelection` throws in the same way when a copied position is missing,
which happens when a selected node has no position at copy time
(src/Stores/uiStore.ts:250-257); the model reports a failed paste.

## Model

| member | source | states |
|---|---|---|
| Types.AllKinds | src/Services/types.ts:10-22 | There are exactly twelve node kinds; the list names every kind, each once. |
| NodeData.NodeTitleFromKind | src/Services/data.ts:3-18 | Every one of the twelve kinds has a non-empty title. |
| NodeData.TitlesDistinct | src/Services/data.ts:5-16 | Two different kinds never share a title. |
| NodeData.GateTitles | src/Services/data.ts:6-16 | Gates are titled with their upper-case names; const is "Signal", split "Split Signal", the display "LED". |
| Keys.SortedKeys | src/Services/simulation.ts:128 | The keys of a record as `for...in` visits them: every key exactly once. |
| Keys.SortedKeysIncreasing | src/Services/simulation.ts:35 | That visiting order is strictly ascending. |
| Simulation.InputValues | src/Services/simulation.ts:60 | One value per input pin id, in order; a missing pin reads as undefined. |
| Simulation.EvaluateNode | src/Services/simulation.ts:55-122 | `evaluateNode` returns the table and the change flag of `Evaluate`; its write and change behaviour is proved in `SimulationFacts`. |
| Simulation.PropagateAlong | src/Services/simulation.ts:128-132 | The propagation loop, over a given wire order, gives the table of that many successive wire copies. |
| Simulation.Propagate | src/Services/simulation.ts:124-133 | `propagate` copies every wire's source value in ascending wire-id order. |
| Simulation.CircuitOf | src/Services/simulation.ts:35-42 | The circuit a step runs over carries the nodes and wires and their ascending visiting orders. |
| Simulation.Settle | src/Services/simulation.ts:26-43 | The settle loop from pass `done` ends after more than `done` and at most 100 passes. |
| Simulation.EvaluateSources | src/Services/simulation.ts:16-21 | The first loop evaluates exactly the const and clock nodes, in ascending id order. |
| Simulation.RunPass | src/Services/simulation.ts:33-42 | One settle pass: every non-source node in ascending order, then propagation, and whether any node wrote. |
| Simulation.SettleLoop | src/Services/simulation.ts:26-43 | The loop's final table is the settled one; its counter equals the passes run, or 101 when pass 100 still changed something (the post-increment in the guard). |
| Simulation.SimulateStep | src/Services/simulation.ts:5-53 | A step commits the tick plus one, the settled pin table and the warning flag exactly as `StepSpec` says. |
| SimulationFacts.AllOneIff | src/Services/simulation.ts:66 | `every(v => v === 1)` holds iff every input is exactly 1. |
| SimulationFacts.AnyOneIff | src/Services/simulation.ts:69 | `some(v => v === 1)` holds iff some input is exactly 1. |
| SimulationFacts.AndOrTables | src/Services/simulation.ts:65-82 | AND/OR drive 1 iff all/any inputs are 1; NAND/NOR drive the negations; undefined never counts as 1. |
| SimulationFacts.XorNotTables | src/Services/simulation.ts:71-85 | XOR/XNOR compare the first two inputs with undefined or missing read as 0; NOT drives 0 iff its input is 1. |
| SimulationFacts.GateOutputsDefined | src/Services/simulation.ts:64-96 | Gates, constants and clocks always drive 0 or 1, never undefined. |
| SimulationFacts.OutputShapes | src/Services/simulation.ts:97-106 | A note drives nothing; split drives its first input twice; the display passes its first input; every other kind drives one value. |
| SimulationFacts.ConstTable | src/Services/simulation.ts:86-90 | A constant drives 1 iff its `Value` parameter is truthy, and 0 without one. |
| SimulationFacts.ClockTable | src/Services/simulation.ts:91-96 | A clock drives 1 iff the tick is divisible by its period; the period defaults to 2 when the parameter is absent. |
| SimulationFacts.WriteOutputsFrame | src/Services/simulation.ts:110-117 | The output writes touch no pin outside the node's output list. |
| SimulationFacts.WriteOutputsSets | src/Services/simulation.ts:110-117 | With distinct output pins, output `i` ends holding computed value `i`. |
| SimulationFacts.NoWriteNoChange | src/Services/simulation.ts:109-121 | When no write happened the table is unchanged. |
| SimulationFacts.WroteAnyIff | src/Services/simulation.ts:111-116 | With distinct output pins, a write happened iff some output pin held a different value. |
| SimulationFacts.EvaluateFrame | src/Services/simulation.ts:109-121 | `evaluateNode` leaves every pin other than the node's outputs as it was. |
| SimulationFacts.EvaluateSetsOutputs | src/Services/simulation.ts:109-121 | Each output pin ends with the value the node's kind computes for it. |
| SimulationFacts.EvaluateChangedIff | src/Services/simulation.ts:109-121 | `evaluateNode` returns true iff some output pin's value differed; a false result means the table is unchanged. |
| SimulationFacts.LastWriter | src/Services/simulation.ts:128-132 | Locates the last wire in visiting order that writes a pin, or proves that none writes it. |
| SimulationFacts.PropagateLastWriter | src/Services/simulation.ts:128-132 | Without chaining, a pin ends with the value its last writer read; a pin no wire writes keeps its value. |
| SimulationFacts.PropagateFrame | src/Services/simulation.ts:128-132 | A pin that no visited wire targets is untouched. |
| SimulationFacts.PropagateWritten | src/Services/simulation.ts:131 | Every pin a visited wire targets has an entry afterwards. |
| SimulationFacts.PropagateKeepsPartial | src/Services/simulation.ts:131 | A pin with no entry can only gain an entry that carries just a value. |
| SimulationFacts.PropagatedHighestWireWins | src/Services/simulation.ts:124-133 | Without chaining, when several wires feed one pin, the wire with the highest id decides its value. |
| SimulationFacts.PropagatedUntouched | src/Services/simulation.ts:124-133 | A pin no wire targets keeps its entry exactly. |
| SimulationFacts.PropagatedDangling | src/Services/simulation.ts:131 | A wire whose target pin does not exist creates an entry for it that carries only a value. |
| SimulationFacts.SettleFrom | src/Services/simulation.ts:30-43 | From any pass onward, the loop's table is the one the passes produce, and every pass before the last changed something. |
| SimulationFacts.SettleStopsAtFirstQuietPass | src/Services/simulation.ts:26-43 | The loop runs 1 to 100 passes; every pass but the last changed something; it stops early only on a pass that changed nothing. |
| SimulationFacts.StepWarnsIff | src/Services/simulation.ts:26-48 | The tick advances by one; the warning fires iff each of the first 99 passes changed something, so settling exactly on pass 100 still warns. |
| SimulationFacts.NotLoopPass | src/Services/simulation.ts:74-75 | In a NOT gate wired back to its own input, every pass flips the output and carries the flip round. |
| SimulationFacts.NotLoopSettle | src/Services/simulation.ts:30-43 | Such a loop always uses all 100 passes. |
| SimulationFacts.NotLoopOscillates | src/Services/simulation.ts:30-48 | A NOT gate fed by its own output makes every step warn. |
| SimulationFacts.SourcesOnlyQuiet | src/Services/simulation.ts:35-40 | With only const and clock nodes, a pass evaluates nothing and reports no change. |
| SimulationFacts.SourcesOnlyNeverWarn | src/Services/simulation.ts:26-48 | A circuit of sources only never triggers the warning. |
| SimulationFacts.WriteOutputsShape | src/Services/simulation.ts:110-117 | Writing to existing output pins keeps the same pin ids and changes only values. |
| SimulationFacts.EvalSourcesShape | src/Services/simulation.ts:16-21 | Evaluating sources keeps the pin ids when their outputs exist. |
| SimulationFacts.EvalCombShape | src/Services/simulation.ts:35-40 | A settle pass's evaluations keep the pin ids when outputs exist. |
| SimulationFacts.PropagateShape | src/Services/simulation.ts:128-132 | Propagation keeps the pin ids when every wire target exists. |
| SimulationFacts.SettleShape | src/Services/simulation.ts:26-43 | The settle loop keeps the pin ids and changes only values. |
| SimulationFacts.StepKeepsPinShape | src/Services/simulation.ts:5-53 | When every written pin exists, a step keeps exactly the same pin ids and changes only values. |
| SimStore.Range | src/Stores/simStore.ts:130-156 | The consecutive ids `start .. start + n - 1`, in order. |
| SimStore.NewPinsContents | src/Stores/simStore.ts:133-156 | The fresh pins are exactly the ids from `start`; pin `start + i` has label `i`, the new owner, value 0 and the given direction. |
| SimStore.CreatePins | src/Stores/simStore.ts:130-156 | Each pin-creating loop adds the fresh pins, returns their ids in order and the next free pin id. |
| SimStore.DeleteTouching | src/Stores/simStore.ts:217-220 | The `disconnectPin` loop deletes the id of every wire with an end on the pin. |
| SimStore.SimStore.constructor | src/Stores/simStore.ts:56-64 | The store starts empty, with every counter at 1 and the tick at 0. |
| SimStore.SimStore.SetGraph | src/Stores/projectStore.ts:67-74 | Replacing the graph wholesale leaves the tick alone. |
| SimStore.SimStore.AddNode | src/Stores/simStore.ts:66-174 | `addNode` moves the store to `AddNodeSpec` and returns the new id; the tick stays. |
| SimStore.SimStore.RemoveNode | src/Stores/simStore.ts:175-198 | `removeNode` moves the store to `RemoveNodeSpec`. |
| SimStore.SimStore.AddWire | src/Stores/simStore.ts:199-213 | `addWire` moves the store to `AddWireSpec`. |
| SimStore.SimStore.DisconnectPin | src/Stores/simStore.ts:214-224 | `disconnectPin` moves the store to `DisconnectPinSpec`. |
| SimStore.SimStore.DisconnectWire | src/Stores/simStore.ts:225-232 | `disconnectWire` moves the store to `DisconnectWireSpec`. |
| SimStore.SimStore.Simulate | src/Services/simulation.ts:5-53 | A step commits exactly the new pins and tick of `StepSpec` and reports its warning; nodes, wires and counters are unchanged. |
| SimStore.SimStore.SetNodeParam | src/Stores/simStore.ts:233-261 | The parameter upsert, then one step over the updated graph, which runs even for a missing node. |
| SimStoreFacts.LayoutTable | src/Stores/simStore.ts:76-124 | The pin labels per kind (not In to Out, two-input gates A,B to Out, sources to Out, split In to A,B, display In to Out, note none), with as many outputs as the simulation drives. |
| SimStoreFacts.DefaultsAsRead | src/Stores/simStore.ts:92-116 | A new constant drives 0, a new clock has period 10, the clock's `i` entry is never read, and a note carries its default text. |
| SimStoreFacts.EmptyWellFormed | src/Stores/simStore.ts:57-62 | The empty store is well-formed. |
| SimStoreFacts.AddNodeAllocates | src/Stores/simStore.ts:66-174 | `addNode` returns `nextId` and bumps it by one; it allocates pins contiguously from `nextPinId`, inputs first, each at 0 and owned by the new node; `nextPinId` ends just past them; nothing else changes. |
| SimStoreFacts.AddNodeKeepsWellFormed | src/Stores/simStore.ts:66-174 | On a well-formed graph the new ids are unused, the counters do not go back, and the graph stays well-formed. |
| SimStoreFacts.RemoveNodeCascade | src/Stores/simStore.ts:175-198 | `removeNode` deletes the node, exactly the pins it owns and exactly the wires touching those pins; everything else, counters included, stays. |
| SimStoreFacts.RemoveNodeKeepsWellFormed | src/Stores/simStore.ts:175-198 | Removal keeps a well-formed graph well-formed and keeps the counters. |
| SimStoreFacts.AddWireFacts | src/Stores/simStore.ts:199-213 | `addWire` stores the wire under the old `nextWireId`, which is unused in a well-formed graph, bumps it, changes nothing else and checks no pin. |
| SimStoreFacts.TouchingIdsAreKeys | src/Stores/simStore.ts:218-220 | With wires keyed by their ids, the collected ids are exactly the keys of the wires on the pin. |
| SimStoreFacts.DisconnectPinExact | src/Stores/simStore.ts:214-224 | `disconnectPin(p)` removes exactly the wires with `from == p` or `to == p`. |
| SimStoreFacts.DisconnectPinKeepsWellFormed | src/Stores/simStore.ts:214-224 | Disconnecting a pin keeps the graph well-formed. |
| SimStoreFacts.DisconnectWireExact | src/Stores/simStore.ts:225-232 | `disconnectWire(w)` removes key `w` only, is a no-op when it is absent, and keeps the graph well-formed. |
| SimStoreFacts.SetParamFacts | src/Stores/simStore.ts:233-258 | A no-op for a missing node. Otherwise the value is set, keeping an existing parameter's name and kind or creating a numerical one; other parameters and fields stay. |
| SimStoreFacts.SetParamKeepsWellFormed | src/Stores/simStore.ts:233-258 | The upsert keeps the graph well-formed. |
| SimStoreFacts.WellFormedTargets | src/Services/simulation.ts:110-131 | In a well-formed graph every pin a step writes exists. |
| SimStoreFacts.ValuesOnlyKeepWellFormed | src/Services/simulation.ts:52 | Replacing pins by a table that differs only in values keeps the graph well-formed. |
| SimStoreFacts.StepKeepsWellFormed | src/Services/simulation.ts:5-53 | A step on a well-formed graph changes only pin values and keeps the graph well-formed. |
| SimStoreFacts.SetNodeParamKeepsWellFormed | src/Stores/simStore.ts:233-261 | `setNodeParam` as a whole (upsert, then step) keeps the graph well-formed. |
| SimStoreFacts.ConstNotDrive | src/Services/simulation.ts:109-121 | Evaluating a constant writes its level (1 iff `Value` is truthy) onto its output pin and nothing else. |
| SimStoreFacts.ConstNotSources | src/Services/simulation.ts:16-21 | The source loop over a constant and a NOT gate evaluates only the constant. |
| SimStoreFacts.ConstNotPropagate | src/Services/simulation.ts:124-133 | The wire copies the constant's output onto the gate's input. |
| SimStoreFacts.ConstNotGate | src/Services/simulation.ts:109-121 | Evaluating the NOT gate writes the inverse of its input and reports a change iff the output differed. |
| SimStoreFacts.ConstNotPass | src/Services/simulation.ts:33-42 | One settle pass over the two nodes: the gate inverts its input, then the wire copies the constant again. |
| SimStoreFacts.ConstNotStep | src/Services/simulation.ts:5-53 | Whatever the pins held, one step leaves the gate's input at the constant's level and its output at the inverse, advances the tick by one and does not warn. |
| SimStoreFacts.ConstNotSetValue | src/Stores/simStore.ts:233-258 | Setting the constant's `Value` replaces that value and changes nothing else. |
| SimStoreFacts.ConstNotBuilt | src/Stores/simStore.ts:66-213 | On an empty store, two `addNode` calls and an `addWire` give node 1 (constant, output pin 1) and node 2 (NOT, pins 2 and 3) joined by wire 1, every pin at 0. |
| SimStoreFacts.ConstDrivesNot | src/Stores/simStore.ts:233-261 | End to end: a constant set to 1 and wired to a NOT gate makes the gate output 0; setting it to 0 makes it output 1; neither step warns, and the tick is then 2. |
| EditorClipboard.Clipboard.constructor | src/Stores/editorClipboard.ts:9 | The clipboard starts empty. |
| EditorClipboard.Clipboard.Set | src/Stores/editorClipboard.ts:11-13 | `setClipboard` overwrites the slot. |
| EditorClipboard.Clipboard.Get | src/Stores/editorClipboard.ts:14 | `getClipboard` returns the slot unchanged. |
| EditorClipboard.Clipboard.Clear | src/Stores/editorClipboard.ts:15-16 | `clearClipboard` empties the slot. |
| EditorClipboard.SetGetClear | src/Stores/editorClipboard.ts:11-16 | A read sees the last value set, whatever was set before, and a clear empties the slot. |
| Selection.Dedup | src/Stores/uiStore.ts:124-132 | `Array.from(new Set(s))` has no repeats, is no longer than `s` and has the same members. |
| Selection.DedupKeepsDistinct | src/Stores/uiStore.ts:185-187 | A list without repeats is unchanged by it. |
| Selection.Remove | src/Stores/uiStore.ts:127 | Deleting an id keeps exactly the other members and keeps the list repeat-free. |
| Selection.ToggleSelection | src/Stores/uiStore.ts:122-134 | `toogleSelection(id)` flips membership of `id` only, and the result has no repeats. |
| Selection.ToggleAllFlips | src/Stores/uiStore.ts:190-197 | Toggling a list of distinct ids flips exactly those ids and keeps the set repeat-free. |
| Selection.UpdateSquare | src/Stores/uiStore.ts:145-162 | The rectangle keeps its mode and origin; start is at most end on both axes; each axis's corners are the origin and the cursor. |
| Selection.InsideOf | src/Stores/uiStore.ts:171-179 | The listed ids whose position lies in the closed rectangle, and no others; without repeats and in ascending order when the listed ids are. |
| Selection.Inside | src/Stores/uiStore.ts:171-179 | Exactly the placed ids inside the closed rectangle, each once, in ascending order. |
| Selection.NewSelectionMembers | src/Stores/uiStore.ts:181-202 | Shift gives the union, ctrl the symmetric difference, and none exactly the ids inside; never an id twice. |
| Selection.MoveAllShifts | src/Stores/uiStore.ts:100-106 | A placed node moves by the delta once per time it is listed; no position appears or vanishes. |
| Selection.MoveNodeLands | src/Stores/uiStore.ts:89-107 | Nothing moves unless the dragged id is selected and placed. Then, with a repeat-free selection, it lands on the cursor, the other selected nodes move by the same delta and the rest stay. |
| WireEdit.AddDraftAnchor | src/Stores/uiStore.ts:394-404 | With a draft, the point is appended as the last anchor; without one, there is still none. |
| WireEdit.PopDraftAnchor | src/Stores/uiStore.ts:413-429 | The last anchor is dropped, or the draft is cancelled when it has none; the start pin and cursor stay. |
| WireEdit.PopUndoesAdd | src/Stores/uiStore.ts:394-429 | Removing the last anchor undoes placing it. |
| WireEdit.CompleteWireRules | src/Stores/uiStore.ts:431-484 | A wire is made iff: there is a draft, both pins exist, they are real pins of different nodes with opposite directions, and that output-to-input pair is not wired yet. It carries the draft's anchors when there are any. The draft is kept iff it or a pin is missing. |
| WireEdit.ConnectOutputToInput | src/Stores/uiStore.ts:449-465 | A completed wire always runs from the output pin to the input pin, whichever was clicked first. |
| WireEdit.SliceIndex | src/Stores/uiStore.ts:512-514 | A `slice` argument names a position within the list, counting back from the end when negative. |
| WireEdit.InsertAnchor | src/Stores/uiStore.ts:510-515 | Insertion grows the list by one, puts the point at the sliced position and keeps everything else in order. |
| WireEdit.ReplaceAnchor | src/Stores/uiStore.ts:530-531 | An index in the list is replaced and nothing else; the index just past the end appends. |
| WireEdit.RemoveAnchor | src/Stores/uiStore.ts:547 | The entry at the index goes and the others keep their order; an index outside the list changes nothing. |
| WireEdit.RemoveUndoesInsert | src/Stores/uiStore.ts:505-559 | Removing the anchor just inserted gives back the original list. |
| WireEdit.AnchorEditsFrame | src/Stores/uiStore.ts:505-559 | The three anchor edits change only the named wire's anchors: same wire ids, other wires unchanged, the edited wire's id and pins kept. |
| WireEdit.AddAnchorGrows | src/Stores/uiStore.ts:505-523 | Inserting always grows the anchor list by one, a missing list counting as empty. |
| WireEdit.RemoveLastWireAnchor | src/Stores/uiStore.ts:547-556 | Removing the only anchor leaves no anchor list at all. |
| WireRoute.VecEq | src/Components/Wires/Wire.tsx:17-20 | False if either point is missing, otherwise coordinate equality. |
| WireRoute.Last | src/Components/Wires/Wire.tsx:49 | The last element exists iff the list is non-empty. |
| WireRoute.ManhattanIntermediate | src/Components/Wires/Wire.tsx:26-33 | It returns `[a, b]` iff they share an axis, otherwise `[a, (b.x, a.y), b]`; the legs are horizontal or vertical. |
| WireRoute.PushSegmentPoints | src/Components/Wires/Wire.tsx:47-51 | The inner loop pushes each point of the segment after its first, skipping repeats of the last point. |
| WireRoute.RoutePoints | src/Components/Wires/Wire.tsx:40-52 | The routing pass gives the routed list. |
| WireRoute.CompactPoints | src/Components/Wires/Wire.tsx:55-78 | The compaction pass gives the compacted list, with the last routed point appended when missing. |
| WireRoute.BuildOrthogonalPoints | src/Components/Wires/Wire.tsx:38-80 | `buildOrthogonalPoints` returns `BuildOrthogonal`, whose properties are the lemmas below. |
| WireRoute.PushSegment | src/Components/Wires/Wire.tsx:43-51 | Routing one more segment keeps the list Manhattan and free of repeated neighbours, and ends it on the next point. |
| WireRoute.RoutedShape | src/Components/Wires/Wire.tsx:40-52 | The routed list starts on the first point, ends on the last one routed, and is Manhattan with no repeated neighbours. |
| WireRoute.CompactedPrefix | src/Components/Wires/Wire.tsx:55-74 | Compaction so far starts on the first point, stays Manhattan and ends in line with the next points. |
| WireRoute.CompactedWhole | src/Components/Wires/Wire.tsx:55-78 | The compacted list runs from the first to the last routed point and is Manhattan. |
| WireRoute.BuildEmpty | src/Components/Wires/Wire.tsx:39 | The output is empty iff the input is empty. |
| WireRoute.BuildEnds | src/Components/Wires/Wire.tsx:39-78 | The route starts on the first input point and ends on the last one. |
| WireRoute.BuildManhattan | src/Components/Wires/Wire.tsx:35-78 | Every two consecutive route points share an x or a y. |
| WireRoute.RoutedNoRepeats | src/Components/Wires/Wire.tsx:47-51 | Before compaction the routed list has no two equal neighbours. |
| WireRoute.CompactedIndices | src/Components/Wires/Wire.tsx:55-74 | Compaction keeps the routed list at strictly increasing indices: exactly the indices it keeps, the ends always. |
| WireRoute.BuildIsSubsequence | src/Components/Wires/Wire.tsx:55-78 | The route is a subsequence of the routed list that keeps both of its ends. |
| WireDraftRoute.VecEq | src/Components/Wires/WireDraft.tsx:12-15 | False if either point is missing, otherwise coordinate equality. |
| WireDraftRoute.ManhattanIntermediate | src/Components/Wires/WireDraft.tsx:17-23 | The same segment as the finished-wire copy for every pair of points. |
| WireDraftRoute.SameVecEq | src/Components/Wires/WireDraft.tsx:12-15 | Both copies of `vecEq` agree on every pair of points. |
| WireDraftRoute.BuildOrthogonalPoints | src/Components/Wires/WireDraft.tsx:25-56 | The draft's own routing loops, with its own `vecEq` and `manhattanIntermediate`, end on the routed list of `WireRoute.BuildOrthogonal`, and the whole routine returns that function's list, the one the finished-wire copy is proved to return. |
| WireDraftRoute.Compact | src/Components/Wires/WireDraft.tsx:39-55 | The draft's compaction loop keeps the ends and every corner, then appends the last routed point when the kept list does not end on it. |
| SelectionEdits.InternalWires | src/Stores/uiStore.ts:224-233 | The copied wires are stored wires both of whose pins belong to selected nodes, and every such wire is copied. |
| SelectionEdits.CopyContents | src/Stores/uiStore.ts:210-236 | The copy holds each selected id's node in order (nothing for a missing one), a position entry for every selected id (its position, or a missing value when it has none), and exactly the stored wires between selected nodes. |
| SelectionEdits.CopyUnplaced | src/Stores/uiStore.ts:218-221 | The copied positions hold a missing value exactly when some selected id has no position. |
| SelectionEdits.PresentMembers | src/Stores/uiStore.ts:269-270 | The paste loop skips exactly the missing entries and adds none. |
| SelectionEdits.IdMapRemaps | src/Stores/uiStore.ts:265-273 | Every copied old id maps to the fresh id of its last copy, and nothing else is mapped. |
| SelectionEdits.CopiedParamsStep | src/Stores/uiStore.ts:276-280 | Each `setNodeParam` of a copied parameter sets its value, keeping the default's name and kind. |
| SelectionEdits.PasteNodesCounters | src/Stores/uiStore.ts:269-289 | Pasting `n` nodes advances `nextId` by exactly `n`, never lowers `nextPinId` and leaves the wires alone. |
| SelectionEdits.PasteOneIgnoresPins | src/Stores/uiStore.ts:271-280 | Pasting a node does not depend on pin values. |
| SelectionEdits.PasteOneKeepsShape | src/Stores/uiStore.ts:271-280 | Pasting a node into two pin tables that differ only in values gives tables that differ only in values. |
| SelectionEdits.PasteNodesCopies | src/Stores/uiStore.ts:269-289 | Copy `j` gets id `nextId + j`, the kind of the `j`-th copied node and every copied parameter value. |
| SelectionEdits.PasteNodesFrame | src/Stores/uiStore.ts:269-289 | Nodes outside the fresh ids are left as they were. |
| SelectionEdits.FindPinByName | src/Stores/uiStore.ts:305-311 | A pin is found iff one of the listed pins is a real pin with that name. |
| SelectionEdits.FindPinSameShape | src/Stores/uiStore.ts:305-311 | The pin found by name does not depend on pin values. |
| SelectionEdits.FindPinIsFirst | src/Stores/uiStore.ts:305-311 | The pin found is the first listed one with that name. |
| SelectionEdits.ShiftAnchors | src/Stores/uiStore.ts:314-320 | A pasted wire has anchors iff the original had a non-empty list; they are the originals moved by the offset. |
| SelectionEdits.PastedWireMatches | src/Stores/uiStore.ts:295-322 | A pasted wire runs between the copies of the original's owners, from an output pin and to an input pin with the original pins' names, with shifted anchors. |
| SelectionEdits.PastedWireSameShape | src/Stores/uiStore.ts:295-322 | A pasted wire does not depend on pin values. |
| SelectionEdits.RequestsSameShape | src/Stores/uiStore.ts:292-330 | The wire requests of a paste do not depend on pin values. |
| SelectionEdits.AddWiresIgnoresPins | src/Stores/uiStore.ts:292-330 | Re-creating wires does not depend on pin values and leaves pins as they are. |
| SelectionEdits.AddWiresAppends | src/Stores/uiStore.ts:294-330 | One wire per request, under consecutive fresh wire ids; nothing else changes. |
| SelectionEdits.SelectedWires | src/Stores/uiStore.ts:343-347 | The wires collected for deletion are the stored wires touching a selected node, all of them. |
| SelectionEdits.DisconnectAllRemoves | src/Stores/uiStore.ts:349-351 | Disconnecting the listed wires deletes exactly the keys equal to their ids. |
| SelectionEdits.RemoveAllCascades | src/Stores/uiStore.ts:354-356 | Removing the listed nodes deletes them, the pins they own and the wires on those pins; counters stay. |
| SelectionEdits.DeleteSelectionRemoves | src/Stores/uiStore.ts:336-368 | A delete that does not throw removes the selected nodes, every pin they own and every wire touching one; everything else and every counter stays. |
| UIStore.CopyParams | src/Stores/uiStore.ts:276-280 | The parameter loop gives the node `CopiedData` over its defaults, changes no other node, wire or counter, and advances the tick once per copied entry; on a well-formed store it keeps the store well-formed and changes pin values only. |
| UIStore.PasteNodesLoop | src/Stores/uiStore.ts:269-289 | The node loop of `pasteSelection` performs `PasteNodes` (up to the pin table) and builds the id map, the new ids and the positions; the tick advances once per copied parameter. On a well-formed store the result is well-formed and its pin table is that of `PasteNodes` but for values. |
| UIStore.PasteWiresLoop | src/Stores/uiStore.ts:294-330 | The wire loop adds the requested wires in clipboard order; the tick stays. |
| UIStore.Without | src/Stores/uiStore.ts:360-361 | The positions of exactly the nodes not deleted, unchanged. |
| UIStore.DisconnectWires | src/Stores/uiStore.ts:349-351 | The loop disconnects each collected wire in turn. |
| UIStore.RemoveNodes | src/Stores/uiStore.ts:354-356 | The loop removes each selected node in turn. |
| UIStore.DropPositions | src/Stores/uiStore.ts:359-361 | The `delete` loop leaves `Without` of the positions. |
| UIStore.UIStore.constructor | src/Stores/uiStore.ts:74-81 | No positions, no selection, no draft, nothing selected or edited, no rectangle. |
| UIStore.UIStore.AddNode | src/Stores/uiStore.ts:82-88 | The circuit gains the node and the new id is placed at the position. |
| UIStore.UIStore.MoveNode | src/Stores/uiStore.ts:89-109 | The positions become `MoveNodeSpec`; nothing else changes. |
| UIStore.UIStore.SetSelection | src/Stores/uiStore.ts:118 | The selection becomes the given ids. |
| UIStore.UIStore.AddSelection | src/Stores/uiStore.ts:119-120 | The ids are appended without removing repeats. |
| UIStore.UIStore.ClearSelection | src/Stores/uiStore.ts:121 | The selection empties. |
| UIStore.UIStore.ToogleSelection | src/Stores/uiStore.ts:122-134 | The selection becomes `ToggleSelection`. |
| UIStore.UIStore.StartSquareSelection | src/Stores/uiStore.ts:135-143 | A rectangle of no extent at the start point, with the mode held. |
| UIStore.UIStore.UpdateSquareSelection | src/Stores/uiStore.ts:145-162 | Nothing without a rectangle; otherwise its corners become `UpdateSquare`. |
| UIStore.UIStore.EndSquareSelection | src/Stores/uiStore.ts:164-208 | Nothing without a rectangle; otherwise the selection becomes `NewSelection` of the ids inside and the rectangle goes. |
| UIStore.UIStore.CopySelection | src/Stores/uiStore.ts:210-236 | Nothing for an empty selection; otherwise the clipboard gets `CopyData`. |
| UIStore.UIStore.PasteSelection | src/Stores/uiStore.ts:238-334 | Nothing without copied nodes. Fails with nothing changed exactly when a copied position is missing, where the source throws on the bounding box. Otherwise the circuit becomes the pasted nodes plus the re-made wires, the copies are placed at the offset, the selection is exactly the new ids, and the tick advances once per copied parameter. On a well-formed store the pin table is that of the pasted graph but for values, and the re-made wires are exactly the requests computed over the pasted graph's own pins. |
| UIStore.UIStore.DuplicateSelection | src/Stores/uiStore.ts:370-374 | Copy then paste: the clipboard gets the selection; the paste fails with nothing else changed when a selected id had no position; otherwise the copies land 80 to the right and 80 below, the tick advances once per copied parameter, and on a well-formed store the wires are re-made as `PasteSelection` states. |
| UIStore.UIStore.DeleteSelection | src/Stores/uiStore.ts:336-368 | Fails with nothing changed where the source throws. Otherwise the circuit becomes `DeleteSelectionSpec`, the positions lose the deleted nodes, and the selection empties. |
| UIStore.UIStore.StartWire | src/Stores/uiStore.ts:384-392 | A draft from the pin with no anchors, its end at the start position. |
| UIStore.UIStore.AddWireAnchor | src/Stores/uiStore.ts:394-404 | The draft becomes `AddDraftAnchor`. |
| UIStore.UIStore.UpdateWirePos | src/Stores/uiStore.ts:406-411 | The draft's free end moves to the cursor; nothing without a draft. |
| UIStore.UIStore.RemoveLastAnchor | src/Stores/uiStore.ts:413-429 | The draft becomes `PopDraftAnchor`. |
| UIStore.UIStore.CompleteWire | src/Stores/uiStore.ts:431-484 | The draft is kept or dropped, and at most one wire is added, exactly as `CompleteWireSpec` decides. |
| UIStore.UIStore.CancelWire | src/Stores/uiStore.ts:486-488 | The draft goes. |
| UIStore.UIStore.SelectWire | src/Stores/uiStore.ts:494-496 | The selected wire becomes the given one. |
| UIStore.UIStore.StartEditingWire | src/Stores/uiStore.ts:498-503 | The wire is both edited and selected. |
| UIStore.UIStore.FinishEditingWire | src/Stores/uiStore.ts:561-563 | Editing stops; the selection of the wire stays. |
| UIStore.UIStore.AddAnchorToWire | src/Stores/uiStore.ts:505-523 | The wires become `AddAnchorToWireSpec`; nothing else changes. |
| UIStore.UIStore.MoveWireAnchor | src/Stores/uiStore.ts:525-540 | The wires become `MoveWireAnchorSpec`; nothing else changes. |
| UIStore.UIStore.RemoveWireAnchor | src/Stores/uiStore.ts:542-559 | The wires become `RemoveWireAnchorSpec`; nothing else changes. |
| ProjectStore.Push | src/Stores/projectStore.ts:129-145 | After a push the history is non-empty, its last entry is the snapshot, and the index points at it. |
| ProjectStore.PushKeepsPrefix | src/Stores/projectStore.ts:129-145 | From a valid history, a push keeps the entries up to the current one, appends the snapshot, drops the oldest beyond 50 and leaves nothing to redo. |
| ProjectStore.UndoRedoValid | src/Stores/projectStore.ts:148-172 | Undo and redo keep a history valid and never change its entries. |
| ProjectStore.UndoRedoInverse | src/Stores/projectStore.ts:148-182 | Undo acts iff `canUndo`, redo iff `canRedo`; redo after undo, and undo after redo, return to the start. |
| ProjectStore.ProjectStore.constructor | src/Stores/projectStore.ts:28-31 | An untitled project with an empty history at index -1. |
| ProjectStore.ProjectStore.SetProjectName | src/Stores/projectStore.ts:33-35 | The name changes and the history does not. |
| ProjectStore.ProjectStore.PushHistory | src/Stores/projectStore.ts:111-146 | The history becomes `Push` of the current circuit and positions, stays valid, and has nothing to redo. |
| ProjectStore.ProjectStore.Undo | src/Stores/projectStore.ts:148-159 | The history becomes `UndoHistory`; when it moved, the circuit and positions of the new current entry are restored. |
| ProjectStore.ProjectStore.Redo | src/Stores/projectStore.ts:161-172 | The history becomes `RedoHistory`; when it moved, the circuit and positions of the new current entry are restored. |
| ProjectStore.ProjectStore.LoadProject | src/Stores/projectStore.ts:48-90 | A version other than "1.0" changes nothing. Otherwise: the name, circuit and positions come from the project; selection, draft and wire editing clear; the history holds that one snapshot. |

## Left out

- Rendering and event handling: the React components, `setPinPos`, `setScale`, `setPosition` and `movePosition` (view state only).
- `roundedPathFromPoints` and the SVG path strings, which involve division and string formatting.
- `setNodeTitle`: it only writes a display title that no modelled logic reads.
- Timers: `pushHistoryDebounced` and the auto-tick. History pushes are explicit calls to `PushHistory`.
- `tick` and `setSimState`, which hold no logic.
- File and JSON I/O: `saveProject`, `exportProject`, and the reading and parsing in `loadProject`. A failed parse is not modelled; `LoadProject` receives the parsed project.
- Console output and `alert`.
- Floating-point arithmetic. Coordinates and numeric parameter values are integers.
- The bounding-box centre and cursor arithmetic of `pasteSelection`, which divides by 2: the offset is a parameter of `UIStore.UIStore.PasteSelection`.
- The insertion order of string keys in a parameter record: `UIStore.CopyParams` copies the entries in an unspecified order, which gives the same final record.
- UIStore.UIStore.PasteSelection: the pin values after the simulation steps of `setNodeParam` are not described. On a store that is not well-formed, a step may also add entries for missing pin ids, so there the pin table is left out altogether and the wire requests are stated over the table the wire loop read.
- UIStore.UIStore.DuplicateSelection: as for `PasteSelection`, the pin values are not described.
- UIStore.PasteNodesLoop: as for `PasteSelection`, the pin values are not described.
- UIStore.CopyParams: the pin values after the simulation steps are not described.
- Keys.SortedKeys: JavaScript visits integer keys in ascending order only when they are array indices (0 to 2^32 - 2). Negative or larger ids, which only a loaded project can bring, are visited in insertion order, and the model does not follow that.
- WireEdit.ReplaceAnchor: an index more than one past the end, or a negative one, is modelled as no change. JavaScript would leave a hole in the array, or set a non-index property that the anchor list ignores.
- ProjectStore.ProjectStore.Undo: requires the history to be valid (index within the list, -1 only when it is empty), which every reachable history is.
- ProjectStore.ProjectStore.Redo: requires a valid history, as `Undo` does.
- SimulationFacts.PropagatedHighestWireWins: stated for circuits where no wire reads a pin that a wire writes. With chaining, the value also depends on the visiting order of the reading wires.
- SimStoreFacts.DisconnectPinExact: stated for wires stored under their own ids, as every store operation keeps them.
- SelectionEdits.DeleteSelectionRemoves: stated for wires stored under their own ids.
- Simulation.PeriodNumber: a Boolean period reads as 1 or 0, and every text period is taken as NaN. That is right for non-numeric text, but JavaScript reads numeric text such as "4" as 4 and the empty text as 0, which the model does not. A NaN or zero period gives a clock that always drives 1 (`!NaN` is true). Fractional periods are not representable.
