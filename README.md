# editor-creator core, modelled in Dafny

This project models the core of editor-creator, a React editor built on the G6
graph library. The model covers the following parts.

- **Command engine.** `CommandManager` keeps a table of command templates and an
  undo history: a queue of executed commands and a cursor into it.
- **Commands.** The base command and `undo`, `redo`, `add`, `remove`, `update`,
  `duplicate`, `copy`, `paste`, `toFront`, `toBack`, `showEdges`, `hideEdges`
  and the edge-reconnect command (`ChangeEdgeControl` and its duplicate
  `changeEdgeControll`).
- **Editor shortcuts.** The editor's keyboard-shortcut matching.
- **Helpers.** The selection and batching helpers of `src/utils`.
- **Pointer behaviours.**
  - Edge drawing (`drag-add-edge`) and edge reconnection (`drag-edge-controll`).
  - Click selection, canvas panning and multi-node dragging.
  - Anchor-point drawing and hovering.
- **Behaviour registry.** The behaviour manager that gates behaviours by graph
  type.

## Structure

The G6 graph is an abstract value, `G6.GraphValue`, in `graph.dfy`. It holds:

- node, edge and combo dictionaries, keyed by id and kept in insertion order;
- item states, the hidden set and the drawing order;
- per-node anchor states and the mind-map parent links;
- the mode, the auto-paint switch and a paint counter;
- an appended log of emitted events.

The mutable G6 object is the class `G6Graph.Graph`, whose fields mirror that
value. Each of its methods promises `View() == F(old(View()))` for a pure
function `F` of module `G6`.

Each command is written in two forms:

- **Specification functions** (`Initialized`, `Executed`, `Undone`). The
  round-trip and effect lemmas are proved about these.
- **Imperative methods** (`Init`, `Execute`, `Undo`). These run the source's
  loops over the graph object, with loop invariants, and are proved equal to
  the functions.

Behaviours are classes whose fields are the behaviour's own `this` fields. Each
handler states the new graph and the new fields.

Stand-ins for things the model does not run:

- **`guid()`.** A `Session` object holds a sequence of ids
  (`guid: nat -> Id`) and a draw counter. Freshness of the drawn ids is a
  hypothesis of the lemmas that need it.
- **The clipboard** (`global.clipboard`) is a field of the same `Session`.
- **Injected parameters.** The renderer, the canvas element, bounding boxes and
  `graph.get('dragCanvas')` are parameters of the handlers that read them.

## Model

| member | source | states |
|---|---|---|
| CommandManagement.CommandManager.constructor | src/common/CommandManager/index.ts:13-17 | a new manager has no commands and an empty history with the cursor at 0 |
| CommandManagement.CommandManager.Register | src/common/CommandManager/index.ts:19-24 | the template is stored under `name` with its `name` field overwritten by the key, replacing any earlier entry and dropping any shouldExecute injected for it; key order records first registration; the history invariant is kept |
| CommandManagement.CommandManager.Execute | src/common/CommandManager/index.ts:26-77 | one run is exactly the step function `Step` over graph, history, clipboard and id draws (look-up, merged params, guards, init, before-event, execute, after-event, history update, graph-state event), and the caller's params object afterwards is `CallerSees` |
| CommandManagement.CommandManager.Admit | src/common/CommandManager/index.ts:26-52 | when the look-up, canExecute, shouldExecute or init stops the run, the outcome and state are those of `Step` (skipped, or aborted when init fails) and the caller's params are `CallerSees`; otherwise it hands over the command with its initialised params, for which `Step` is the before-execute event followed by `Performed` |
| CommandManagement.CommandManager.Perform | src/common/CommandManager/index.ts:60-76 | the part after the before-event dispatches to undo, redo or the command's own execute, as `Performed` describes |
| CommandManagement.CommandManager.PerformUndo | src/components/Graph/command/undo.ts:27-36 | undo emits the portal event, runs `undo` of the entry behind the cursor, and moves the cursor back by one, leaving the queue alone |
| CommandManagement.CommandManager.UndoEntry | src/components/Graph/command/undo.ts:31-33 | the portal event is emitted first and the entry's undo then runs on that graph, throwing or not exactly as `Undone` says |
| CommandManagement.CommandManager.StepBack | src/components/Graph/command/undo.ts:35 | the cursor moves back by one entry and the queue is untouched |
| CommandManagement.CommandManager.PerformRedo | src/components/Graph/command/redo.ts:27-34 | redo re-runs `execute` of the entry at the cursor with its recorded params (no new init) and moves the cursor forward by one |
| CommandManagement.CommandManager.PerformOwn | src/common/CommandManager/index.ts:60-72 | an ordinary command executes, and when it can be undone it is pushed onto the history |
| CommandManagement.CommandManager.RunOwn | src/common/CommandManager/index.ts:60-64 | the command's execute, then the after-event; a throwing execute stops the run with no closing events |
| CommandManagement.CommandManager.Push | src/common/CommandManager/index.ts:66-72 | the queue becomes the entries before the cursor plus the command and the cursor moves to its end; the history invariant is kept |
| CommandManagement.CommandManager.Finish | src/common/CommandManager/index.ts:62-76 | the after-execute event and then the graph-state event are appended |
| CommandManagement.CommandManager.CanExecuteCommand | src/common/CommandManager/index.ts:79-81 | an unregistered name throws; otherwise the result is the command's canExecute with its registered params |
| CommandManagement.CommandManager.InjectShouldExecute | src/common/CommandManager/index.ts:83-85 | an unregistered name throws and changes nothing; otherwise later runs of the name consult the injected guard |
| CommandManagement.CommandManager.Clear | src/common/CommandManager/index.ts:87-90 | the queue is empty and the cursor is 0 |
| CommandManagement.SkipsExactly | src/common/CommandManager/index.ts:27-50 | a run returns early, changing nothing (graph, history, clipboard, draws), exactly when the name is unknown, canExecute fails on the merged params, or an injected shouldExecute fails; a throwing run keeps the history |
| CommandManagement.StepKeepsHistoryValid | src/common/CommandManager/index.ts:66-72 | every run keeps `0 <= index <= |queue|` and queues only undoable commands |
| CommandManagement.StaleRestackAborts | src/components/Graph/command/toFront.ts:35-47 | toFront or toBack whose items name an id no item has, once past the guards, aborts: the history is unchanged, auto-paint is left off, nothing is painted and only the before-execute event is emitted |
| CommandManagement.StaleEdgesAbort | src/components/Graph/command/showEdges.ts:37-47 | showEdges or hideEdges given an edge list naming an id no item has, once past the guards, aborts in the same way |
| CommandManagement.CallerSees | src/common/CommandManager/index.ts:33-52 | the caller's params object keeps its keys; it changes only when the run gets past the guards and init succeeds, and then only as `WrittenBack` says |
| CommandManagement.StepRunsOwn | src/common/CommandManager/index.ts:52-72 | a run of a command other than undo and redo that passes the guards and whose init succeeds is the before-event and then the command's own step with the initialised params |
| CommandManagement.SeenPastGuards | src/common/CommandManager/index.ts:33-52 | in a run that passes the guards, the caller's params object is what init wrote back into it (`WrittenBack`), or as passed when init fails |
| CommandManagement.AddStepRecords | src/common/CommandManager/index.ts:52-72 | an add that passes the guards completes, draws an id only for a model without a truthy one, and records the template with the initialised params |
| CommandManagement.AddWritesCallerModel | src/components/Graph/command/add.ts:25-33 | once past the guards, a model object the caller passed to add holds the id the run used (the drawn one when it had none), with its other fields and the caller's other params as passed |
| CommandManagement.SecondAddReusesId | src/components/Graph/command/add.ts:25-33 | the same params object passed again to add, on any later graph and history, draws no id and records an entry naming the id of the first run |
| CommandManagement.RestackWritesCallerItems | src/components/Graph/command/toFront.ts:24-33 | once past the guards, an id array the caller passed to toFront or toBack holds its own ids followed by the selected nodes and then the selected edges |
| CommandManagement.HistoryEffect | src/common/CommandManager/index.ts:66-72 | undo moves the cursor back one and redo forward one over the same queue; an undoable command replaces everything from the cursor on by itself with its initialised params and leaves the cursor at the end; copy leaves the history alone |
| CommandManagement.ClosingEvents | src/common/CommandManager/index.ts:60-76 | a completed run ends with the after-execute event naming the command, followed by the graph-state event |
| CommandManagement.PerformedEnds | src/common/CommandManager/index.ts:60-76 | whichever command ran, the last two events are the after-execute event with its params and the graph-state event |
| CommandManagement.UndoThenRedo | src/components/Graph/command/redo.ts:10-34 | after a completed undo a redo is possible, and a completed redo then gives back the history the undo started from |
| CommandManagement.NothingToRedo | src/components/Graph/command/redo.ts:10-15 | after a completed undoable command, redo cannot run |
| Commands.Init | src/common/CommandManager/index.ts:52 | the dispatched init equals the specification `Initialized` of the command's kind, including failure and the ids drawn |
| Commands.Execute | src/common/CommandManager/index.ts:59 | the dispatched execute equals `Executed` of the kind, throwing included, and only copy changes the clipboard |
| Commands.ExecuteOnGraph | src/common/CommandManager/index.ts:59 | for every kind but copy, the dispatched execute equals `Executed` of the kind, a throw included |
| Commands.ExecuteEditing | src/common/CommandManager/index.ts:59 | base, undo, redo, add, remove, update, duplicate and paste never throw here: their execute ends in the graph `Executed` gives |
| Commands.Undo | src/components/Graph/command/undo.ts:33 | the dispatched undo equals `Undone` of the kind |
| Commands.EditSelectedNode | src/components/Graph/command/base.ts:46-50 | editSelectedNode only appends a label-state Show event |
| Commands.BaseDoesNothing | src/components/Graph/command/base.ts:13-36 | the base command can always run and be undone, its init, execute and undo change nothing, its name is '' and it has no shortcut |
| Commands.UndoableKinds | src/components/Graph/command/undo.ts:21-23 | among the modelled commands, exactly undo, redo and copy stay out of the history |
| Commands.RegistryKeys | src/components/Graph/command/index.ts:20-39 | `changeEdgeControll` is not a registry key while `ChangeEdgeControl` is; the reconnect command under it declares no name of its own, so the base command's `''` is overwritten by the key on registration |
| Commands.KeysAreNames | src/components/Graph/command/undo.ts:6 | only undo and redo declare a name of their own, and each such name is the key the command is registered under |
| Commands.HistoryGuards | src/components/Graph/command/undo.ts:10-15 | undo can run iff not readonly and the cursor is above 0; redo iff not readonly and the cursor is below the queue length |
| Commands.WrittenBack | src/common/CommandManager/index.ts:37-42 | the merge copies one level only: the caller's params keep their keys, every key but the command's in-place one (add's `model`, toFront's and toBack's `items`, remove's `flow`) is as passed, and an object of the same shape passed there holds init's value |
| AddCommand.Initialized | src/components/Graph/command/add.ts:25-33 | a model with a truthy id leaves the params as they are; otherwise only the model's id changes, to the new id, and every other param is kept |
| AddCommand.Init | src/components/Graph/command/add.ts:25-33 | an id is drawn, advancing the draw counter by one, only when the model has no truthy id, and the params become `Initialized` with it |
| AddCommand.Execute | src/components/Graph/command/add.ts:35-45 | the graph becomes `Executed`: the item added, selected alone, with the action menu offered |
| AddCommand.Undo | src/components/Graph/command/add.ts:47-51 | the graph becomes `Undone`: the item with the model's id removed |
| AddCommand.ExecutedItems | src/components/Graph/command/add.ts:35-45 | execute changes the items only by adding the one item |
| AddCommand.ExecuteStores | src/components/Graph/command/add.ts:35-38 | with a new id, the model is stored under it with the requested type and no other item changes |
| AddCommand.ExecuteSelects | src/components/Graph/command/add.ts:40-44 | with a new id, exactly that item is selected, and the graph-state event and then the action-menu event are emitted |
| AddCommand.UndoRestores | src/components/Graph/command/add.ts:47-51 | undoing an add of a new id restores the node, edge and combo dictionaries and the drawing order, leaving nothing selected |
| RemoveCommand.Init | src/components/Graph/command/remove.ts:42-79 | init equals `Initialized`: the flow snapshot filled by the two nested forEach loops, or the mind snapshot, failing when a mind graph has no selected node |
| RemoveCommand.SnapEachNode | src/components/Graph/command/remove.ts:59-71 | the nested forEach loops leave the dictionaries as `SnapNodes`: each node's model and its edges' models added in order |
| RemoveCommand.SnapEach | src/components/Graph/command/remove.ts:66-76 | the edge loop puts each listed edge's model under its id |
| RemoveCommand.Execute | src/components/Graph/command/remove.ts:81-103 | the graph becomes `Executed`: removeChild in a mind graph; otherwise the portal event, every snapshotted id removed in a batch, then afterremovenode when nodes were snapshotted |
| RemoveCommand.Undo | src/components/Graph/command/remove.ts:105-131 | the graph becomes `Undone`: addChild under the recorded parent, or the snapshot's nodes and then its edges added back in a batch |
| RemoveCommand.AddEach | src/components/Graph/command/remove.ts:118-128 | the forEach over a dictionary adds each entry in key order |
| RemoveCommand.SnapEdgesEffect | src/components/Graph/command/remove.ts:66-70 | the inner loop puts exactly the listed edges' models into the edge dictionary, keeping earlier entries |
| RemoveCommand.SnapNodesEffect | src/components/Graph/command/remove.ts:60-71 | the outer loop puts every listed node's model and every edge of those nodes into the dictionaries |
| RemoveCommand.InitSnapshot | src/components/Graph/command/remove.ts:57-77 | in a flow graph the snapshot adds every selected node, every selected edge and every edge of a selected node under its own id with the graph's model, keeping the entries the params already had and every other param |
| RemoveCommand.DoomedMembers | src/components/Graph/command/remove.ts:60-77 | the snapshotted edges are exactly the selected edges and the edges with a selected node at an end |
| RemoveCommand.ExecuteRemoves | src/components/Graph/command/remove.ts:91-101 | in a flow graph execute removes exactly the snapshotted ids and the edges of removed nodes, in one batch, after the nameless portal event, and emits afterremovenode iff nodes were snapshotted |
| RemoveCommand.UndoAdds | src/components/Graph/command/remove.ts:115-129 | when the snapshot's ids are new to the graph, undo adds back exactly its nodes and its edges and no combo |
| RemoveCommand.UndoRestores | src/components/Graph/command/remove.ts:91-129 | undo after execute restores the flow graph's items when the snapshot holds the graph's own entries and every edge of every snapshotted node |
| RemoveCommand.RoundTrip | src/components/Graph/command/remove.ts:42-129 | in a flow graph, remove initialised from default params and then undone brings back every node, edge and combo model under its own id |
| RemoveCommand.InitMind | src/components/Graph/command/remove.ts:46-56 | in a mind graph init fails iff no node is selected, else records the first selected node's model and its parent's id |
| RemoveCommand.MindRoundTrip | src/components/Graph/command/remove.ts:82-113 | with the tree flattened to nodes and parent links, undo after execute in a mind graph puts the one selected node back with its model under its old parent, and the edges removed with it stay removed |
| UpdateCommand.Init | src/components/Graph/command/update.ts:28-35 | init equals `Initialized`: `originModel` is the item's model picked to `updateModel`'s keys; a missing item throws |
| UpdateCommand.Execute | src/components/Graph/command/update.ts:37-45 | the graph becomes `Executed`: `updateModel` written, the layout refreshed iff asked |
| UpdateCommand.Undo | src/components/Graph/command/update.ts:47-51 | the graph becomes `Undone`: `originModel` written back |
| UpdateCommand.InitPicks | src/components/Graph/command/update.ts:28-35 | init fails iff no item has the id; otherwise `originModel` holds, for each key of `updateModel` the item has, the item's value there, and no other key |
| UpdateCommand.ExecuteWrites | src/components/Graph/command/update.ts:37-45 | every field of `updateModel` is written into the item, its other fields are kept, no other item changes, and the layout is refreshed exactly when `forceRefreshLayout` is set |
| UpdateCommand.UndoRestores | src/components/Graph/command/update.ts:47-51 | after execute and undo every field the item had has its old value again, a field the update added keeps the updated value, and no other item changes |
| UpdateCommand.UndoRestoresModel | src/components/Graph/command/update.ts:31-32 | an update that adds no field restores the item's model exactly |
| NodeCopies.PlusTen | src/components/Graph/command/paste.ts:35-36 | JavaScript `x + 10`: a number gains 10, and undefined or NaN gives NaN |
| NodeCopies.Copies | src/components/Graph/command/paste.ts:29-38 | one copy per model, in order |
| NodeCopies.CopiesAt | src/components/Graph/command/duplicate.ts:31-49 | the i-th copy is the i-th model copied under the i-th drawn id |
| NodeCopies.CopyFields | src/components/Graph/command/duplicate.ts:34-47 | a copy has the new id and the moved position, and otherwise the copier's fields over the original's |
| NodeCopies.CopiesFresh | src/components/Graph/command/paste.ts:34 | with fresh draws the copies' ids are distinct and new to the graph |
| NodeCopies.MakeCopies | src/components/Graph/command/paste.ts:29-38 | the map loop that draws one id per model yields `Copies` and advances the draw counter by the number of models |
| NodeCopies.SelectedModelsAre | src/components/Graph/command/duplicate.ts:24-26 | the i-th selected model is the model of the i-th selected node |
| NodeCopies.AddAll | src/components/Graph/command/paste.ts:42-61 | the add loop, selection and single-item menu equal the specification `Added` |
| NodeCopies.RemoveEach | src/components/Graph/command/paste.ts:63-71 | the remove loop equals the specification `Removed` |
| NodeCopies.AddedStores | src/components/Graph/command/paste.ts:45-49 | adding models with distinct new ids adds them as nodes under their ids and changes no edge or combo |
| NodeCopies.AddedSelects | src/components/Graph/command/paste.ts:51-54 | after the add, exactly the added models are selected |
| NodeCopies.AddedThenRemoved | src/components/Graph/command/paste.ts:42-71 | removing the just-added models, which no edge refers to, gives back every node, edge and combo model |
| NodeCopies.RemovedEffect | src/components/Graph/command/duplicate.ts:73-81 | undo removes exactly the models' ids and the edges of the nodes among them |
| CopyCommand.Execute | src/components/Graph/command/copy.ts:18-22 | the clipboard becomes the selected nodes' models; the graph is unchanged |
| CopyCommand.CopyTakesSelected | src/components/Graph/command/copy.ts:18-22 | the clipboard holds, in graph order, the model of every selected node and nothing else |
| PasteCommand.Init | src/components/Graph/command/paste.ts:22-40 | the params become one copy per clipboard model; the clipboard is unchanged |
| PasteCommand.Execute | src/components/Graph/command/paste.ts:42-61 | the graph becomes `Executed` |
| PasteCommand.Undo | src/components/Graph/command/paste.ts:63-71 | the graph becomes `Undone` |
| PasteCommand.InitCopies | src/components/Graph/command/paste.ts:22-40 | as many models as the clipboard holds; the i-th has the i-th drawn id, the position moved by (10, 10) and every other field of the i-th clipboard model |
| PasteCommand.ExecuteAddsCopies | src/components/Graph/command/paste.ts:42-61 | with fresh draws, execute adds exactly the pasted models as new nodes, changes no edge or combo, and leaves exactly them selected |
| PasteCommand.UndoRemovesCopies | src/components/Graph/command/paste.ts:63-71 | undo removes the pasted ids again, giving back every node, edge and combo model |
| DuplicateCommand.Init | src/components/Graph/command/duplicate.ts:23-50 | init equals `Initialized`, failing (throwing) when `mapNode` is defined but not a function and some node is selected; the draw counter advances by the number of copies |
| DuplicateCommand.Execute | src/components/Graph/command/duplicate.ts:52-71 | the graph becomes `Executed` |
| DuplicateCommand.Undo | src/components/Graph/command/duplicate.ts:73-81 | the graph becomes `Undone` |
| DuplicateCommand.InitCopies | src/components/Graph/command/duplicate.ts:23-49 | one copy per selected node in graph order: the i-th drawn id, position moved by (10, 10), the fields `mapNode` returns, or `startNode: false` when there is no `mapNode` |
| DuplicateCommand.DefaultCopier | src/components/Graph/command/duplicate.ts:13-41 | the default `mapNode` is a function returning undefined, so a copy gains only id, x and y |
| DuplicateCommand.NoMapperCopier | src/components/Graph/command/duplicate.ts:42-48 | a null or missing `mapNode` marks every copy `startNode: false` |
| DuplicateCommand.ExecuteAddsCopies | src/components/Graph/command/duplicate.ts:52-64 | with fresh draws, execute adds exactly the copies as new nodes, changes no edge or combo and leaves exactly the copies selected |
| DuplicateCommand.UndoRemovesCopies | src/components/Graph/command/duplicate.ts:73-81 | undo removes the copies again, giving back every node, edge and combo model |
| DuplicateCommand.FreshCopies | src/components/Graph/command/duplicate.ts:37 | with fresh draws the copies carry distinct ids new to the graph |
| G6.Unfound | src/components/Graph/command/toFront.ts:39-41 | the position of the first listed id `findById` finds no item for: every earlier id is found, that one is not, and it is the list's length exactly when every id is found |
| RestackCommand.MoveItem | src/components/Graph/command/toFront.ts:39-45 | one turn of the loop restacks the item and writes its fixed zIndex |
| RestackCommand.Move | src/components/Graph/command/toFront.ts:38-46 | the batch equals `Restacked`: a throw at the first listed id no item has, leaving the batch open (auto-paint off, no paint) with only the items before it moved; otherwise the whole batch `Moved` |
| RestackCommand.MoveAllStack | src/utils/index.ts:222-230 | moving distinct items to the front leaves the others in order followed by the moved ones in list order; to the back puts them first, the last one moved first |
| RestackCommand.MoveAllModels | src/components/Graph/command/toFront.ts:42-44 | each listed item gets the zIndex written over its model and no other item changes |
| RestackCommand.MovedEffect | src/components/Graph/command/toFront.ts:38-46 | the whole batch: that drawing order, that zIndex, one paint, auto-paint restored |
| RestackCommand.MovedTwice | src/components/Graph/command/toFront.ts:49-61 | moving the same items twice: the second move decides both the order and the zIndex |
| RestackCommand.Init | src/components/Graph/command/toFront.ts:24-33 | the params become `Initialized`: the selected node ids and then edge ids pushed onto `items` |
| RestackCommand.Execute | src/components/Graph/command/toFront.ts:35-47 | the run becomes `Executed`: toFront raises each item with zIndex 1, toBack lowers it with zIndex 0, and a listed id no item has makes it throw |
| RestackCommand.MoveEach | src/components/Graph/command/toFront.ts:39-45 | the forEach throws exactly when some listed id has no item, and leaves the graph as `MoveAll` of the ids before the first such one: each moved and given its zIndex, in list order |
| RestackCommand.MoveAllIds | src/components/Graph/command/toFront.ts:39-45 | restacking and writing a zIndex neither add nor remove an item, so findById finds the same ids throughout the loop |
| RestackCommand.Undo | src/components/Graph/command/toBack.ts:48-60 | the run becomes `Undone`: the opposite move with the opposite fixed zIndex, throwing as execute does |
| RestackCommand.InitItems | src/components/Graph/command/toFront.ts:24-33 | init keeps the items already listed and adds exactly the selected nodes, then the selected edges; from an empty list each is listed once |
| RestackCommand.SelectedKinds | src/utils/index.ts:99-105 | in a valid graph the selected node and edge lists hold exactly the selected nodes and edges, once each |
| RestackCommand.ExecuteMoves | src/components/Graph/command/toFront.ts:35-47 | in a valid graph execute does not throw; toFront puts the items last in the drawing order, toBack first; each gets its fixed zIndex, nothing else about the items changes and nothing is emitted |
| RestackCommand.UndoMovesBack | src/components/Graph/command/toFront.ts:49-61 | in a valid graph neither run throws, and undo after execute does not restore the old order or zIndex: the items end as if only the opposite command had run |
| RestackCommand.StaleIdThrows | src/components/Graph/command/toFront.ts:39-44 | a listed id no item has makes execute and undo throw: it is the first unfound id, auto-paint is left off, nothing is painted or emitted, no item appears or disappears, and only the items listed before it got the zIndex |
| EdgeVisibilityCommand.Targets | src/components/Graph/command/showEdges.ts:28-33 | the collected ids are the edges in the state the command changes, in graph order |
| EdgeVisibilityCommand.Pick | src/components/Graph/command/hideEdges.ts:27-32 | the reduce keeps, in order, the keys whose hidden-ness matches |
| EdgeVisibilityCommand.Init | src/components/Graph/command/showEdges.ts:24-35 | the params become `Initialized`: an empty list is replaced by the collected edges |
| EdgeVisibilityCommand.PickEach | src/components/Graph/command/showEdges.ts:27-33 | the reduce over the edges yields `Pick`: the hidden (or visible) ones, in graph order |
| EdgeVisibilityCommand.ChangeEach | src/components/Graph/command/showEdges.ts:41-44 | the forEach throws exactly when some listed id has no item, and switches the ids before the first such one |
| EdgeVisibilityCommand.Execute | src/components/Graph/command/hideEdges.ts:37-46 | the run becomes `Executed`: showEdges emits inside its batch, hideEdges after it; a listed id no item has makes it throw inside the batch, before the event |
| EdgeVisibilityCommand.Undo | src/components/Graph/command/showEdges.ts:49-59 | the run becomes `Undone`: the opposite switch, throwing as execute does |
| EdgeVisibilityCommand.ChangeAllEffect | src/components/Graph/command/showEdges.ts:41-44 | switching exactly changes the listed existing items' hidden-ness and nothing else |
| EdgeVisibilityCommand.InitTargets | src/components/Graph/command/showEdges.ts:24-35 | init on an empty list collects exactly the hidden (showEdges) or visible (hideEdges) edges, each once; a given list is kept |
| EdgeVisibilityCommand.CanExecuteIffTargets | src/components/Graph/command/showEdges.ts:16-22 | the command can run iff, outside readonly mode, init on default params finds an edge to switch |
| EdgeVisibilityCommand.ExecuteSwitches | src/components/Graph/command/showEdges.ts:37-47 | when every listed id has an item, execute does not throw, shows or hides exactly the listed items, changes no item or selection, paints once and emits the one aggregate event |
| EdgeVisibilityCommand.UndoSwitches | src/components/Graph/command/hideEdges.ts:48-58 | when every listed id has an item, undo does not throw and switches the listed items the other way, with one event and one paint |
| EdgeVisibilityCommand.StaleEdgeThrows | src/components/Graph/command/showEdges.ts:41-43 | a listed id no item has makes execute and undo throw: auto-paint is left off, nothing is painted or emitted, no item changes, and only the ids listed before it are switched |
| EdgeVisibilityCommand.RoundTrip | src/components/Graph/command/showEdges.ts:24-59 | with the collected edges neither run throws; showEdges leaves every edge visible, hideEdges every edge hidden, and undo restores every item's old visibility |
| ChangeEdgeControlCommand.Replace | src/components/Graph/command/changeEdgeControl.ts:26-32 | the batch removes the id and adds the edge |
| ChangeEdgeControlCommand.Execute | src/components/Graph/command/changeEdgeControl.ts:23-33 | the graph becomes `Executed`; a null model throws |
| ChangeEdgeControlCommand.Undo | src/components/Graph/command/changeEdgeControll.ts:35-42 | the graph becomes `Undone`; a null model throws |
| ChangeEdgeControlCommand.ReplacedEdge | src/components/Graph/command/changeEdgeControl.ts:27-31 | replacing an edge by a model with the same id stores that model under the id and keeps every other item |
| ChangeEdgeControlCommand.ExecuteOverrides | src/components/Graph/command/changeEdgeControl.ts:23-33 | when `updateModel` keeps the id, the edge becomes the model with the `updateModel` fields written over it, nothing else changes |
| ChangeEdgeControlCommand.RoundTrip | src/components/Graph/command/changeEdgeControl.ts:23-42 | after execute and undo the edge under `model.id` is `model` again and no other item changed |
| ChangeEdgeControlCommand.NullModelThrows | src/components/Graph/command/changeEdgeControl.ts:18-21 | with the default null model both execute and undo throw inside the batch, leaving auto-paint off |
| Utils.ExecuteBatchRestores | src/utils/index.ts:58-67 | executeBatch turns auto-paint off for the callback, then paints exactly once and restores the saved switch |
| Utils.BeginBatch | src/utils/index.ts:59-61 | the saved switch is the old auto-paint value and auto-paint is now off |
| Utils.EndBatch | src/utils/index.ts:65-66 | one paint, then the saved switch back |
| Utils.SelectedItemsAreSelected | src/utils/index.ts:111-116 | in a valid graph the listed selected items are exactly the selected ids |
| Utils.GraphStateCases | src/utils/index.ts:132-155 | getGraphState is MultiSelected for more than one selected item, CanvasSelected for none, and the item's type for one |
| Utils.GraphStateOfOne | src/utils/index.ts:137-147 | with exactly one item selected, the state names its type |
| Utils.ClearSelectedEffect | src/utils/index.ts:118-126 | clearSelectedState deselects exactly the selected items `shouldUpdate` accepts and touches no other state |
| Utils.ClearSelectedState | src/utils/index.ts:118-126 | the loop in a batch equals the specification `ClearSelected` |
| Utils.DeselectEach | src/utils/index.ts:120-124 | the forEach leaves the graph as `Deselect`: every item `shouldUpdate` accepts loses its selected state, the others keep theirs |
| Utils.SetSelectedEffect | src/utils/index.ts:157-169 | afterwards exactly the given existing items are selected, no other state changed, and one event reports the resulting graph state |
| Utils.SelectOneEffect | src/utils/index.ts:157-169 | selecting one existing item leaves it selected alone and reports its type |
| Utils.SetSelectedItems | src/utils/index.ts:157-169 | the batch, nested clear and loop equal the specification `SetSelected` |
| Utils.TraversePreOrder | src/utils/index.ts:69-81 | the callback sees the root first, then each child's subtree in turn, once per item |
| Utils.GetNodeSide | src/utils/index.ts:395-409 | the side is 'right' or a side set in the chain |
| Utils.NodeSideNearest | src/utils/index.ts:395-409 | the side is that of the nearest item of the ancestor chain that sets one, and 'right' when none does |
| Utils.ToInt32 | src/utils/index.ts:480-481 | the result is a signed 32-bit integer congruent to the input modulo 2^32 |
| Utils.HashStep | src/utils/index.ts:480-481 | one step as written, shift, subtract, add and `& hash`, is `int32(31 * h + c)` |
| Utils.HashCodeObject | src/utils/index.ts:475-484 | the loop computes the fold `h := int32(31 * h + code)` from 0 over the string |
| Utils.MeasureDecreases | src/utils/index.ts:186-190 | pushing ids never raises the count of unvisited nodes, and pushing a new node id lowers it |
| Utils.GetFlowRecallEdges | src/utils/index.ts:171-194 | the shared arrays only grow at their ends, only edges are pushed, every in-edge of the node is pushed, every node the call starts on ends with all its in-edges pushed, every pushed edge's source node was started or has no in-edges, and what is pushed stays inside every backwards-closed set holding the node's in-edges; the result is `[]` for a node without in-edges and the shared array otherwise; from empty arrays it is exactly the set of edges reachable backwards from the node |
| Utils.WalkReaches | src/utils/index.ts:178-193 | from empty arrays the pushed edges are backwards closed (with an edge whose source is a node, all that node's in-edges) and lie inside every backwards-closed set holding the node's in-edges: the least such set |
| Utils.SkipStep | src/utils/index.ts:182-188 | a turn that pushes the in-edge and the node's id without recursing keeps the walk's invariant |
| Utils.RecurStep | src/utils/index.ts:182-190 | a turn that pushes and then recurses into a source node not yet visited keeps the walk's invariant, given what the recursive call guarantees |
| Session.Session.constructor | src/utils/index.ts:45-51 | a session starts with an empty clipboard and no id drawn |
| Session.Session.Guid | src/utils/index.ts:45-51 | each call returns the next id of the draw sequence and advances the counter |
| Session.Session.SetClipboard | src/components/Graph/command/copy.ts:21 | the clipboard is replaced |
| EditorShortcuts.DownKeys | src/components/Editor/index.tsx:117 | the held modifiers, in SPECIAL_KEYS order, each once |
| EditorShortcuts.ShouldTriggerShortcut | src/components/Editor/index.tsx:53-82 | the ancestor walk equals `ShouldTrigger`: false with no target, true for the canvas element, and under SVG true iff the target or an ancestor below BODY is `svg` |
| EditorShortcuts.Editor.constructor | src/components/Editor/index.tsx:40-51 | no graph yet and no last pressed element |
| EditorShortcuts.Editor.OnMouseDown | src/components/Editor/index.tsx:94-96 | the pressed element is remembered |
| EditorShortcuts.Editor.ExecuteCommand | src/components/Editor/index.tsx:156-162 | with no graph nothing changes and the params are untouched; otherwise the manager's execute runs with the params, and the caller's params end as `CallerSees` |
| EditorShortcuts.Editor.OnKeyDown | src/components/Editor/index.tsx:98-140 | when the last pressed element lets shortcuts through, the first registered command with a matching shortcut whose canExecute holds is executed with no params; otherwise nothing changes |
| EditorShortcuts.Editor.FindRunnable | src/components/Editor/index.tsx:103-139 | the scan returns `FirstRunnable` over the commands in registration order |
| EditorShortcuts.AnyMatches | src/components/Editor/index.tsx:106-123 | the scan holds iff some shortcut of the list matches |
| EditorShortcuts.FirstRunnableIsFirst | src/components/Editor/index.tsx:103-139 | the chosen command is registered and runnable, and no command registered before it is |
| EditorShortcuts.UndoRedoExclusive | src/components/Editor/index.tsx:117-122 | no key press triggers both undo (meta or ctrl + KeyZ) and redo (with shift too) |
| EditorShortcuts.NoShortcutNeverMatches | src/components/Graph/command/base.ts:36 | a command with no shortcuts never matches |
| EditorShortcuts.ChordExact | src/components/Editor/index.tsx:117-122 | a chord of distinct modifiers and a code matches iff the held modifiers are exactly the listed ones and the code is the last element |
| EditorShortcuts.ZoomCodesUnclaimed | src/components/Graph/command/zoomIn.ts:31-34 | no modelled command's shortcut matches a key event whose code is `Equal` or `Minus`, the codes of the zoom chords |
| Gestures.MarkedIs | src/components/Flow/behavior/dragAddEdge.ts:151-168 | marking nodes changes their anchor states and their `activeAnchorPoints` state and nothing else |
| Gestures.MarkedEffect | src/components/Flow/behavior/dragEdgeControll.ts:147-165 | a touched node has the given anchor states and `activeAnchorPoints` as asked, every other node keeps both, and the items are untouched |
| Gestures.MarkNodes | src/components/Flow/behavior/dragAddEdge.ts:229-232 | the loop over the graph's nodes equals the specification `Marked` |
| Gestures.HiddenAnchors | src/components/Flow/behavior/dragEdgeControll.ts:301-306 | after hiding, no node has anchor states or shows its anchor points |
| AddEdgeGesture.DraftModel | src/components/Flow/behavior/dragAddEdge.ts:136-147 | every field the default edge model sets keeps the default's value in the draft |
| AddEdgeGesture.DraftWithoutDefaults | src/components/Flow/behavior/dragAddEdge.ts:136-147 | with no default fields the draft has the fresh id, the pressed node and anchor as source, the pointer as target, the configured type and the label 'label' |
| AddEdgeGesture.DragAddEdge.constructor | src/components/Flow/behavior/dragAddEdge.ts:39-45 | by default both anchor-state hooks give Enabled, the edge type is `flowEdge` and there is no draft |
| AddEdgeGesture.DragAddEdge.Configured | src/components/Flow/behavior/dragAddEdge.ts:39-45 | the configuration is taken as given, with no draft |
| AddEdgeGesture.DragAddEdge.HandleNodeMouseEnter | src/components/Flow/behavior/dragAddEdge.ts:97-111 | the hovered node's anchors are shown with the source states |
| AddEdgeGesture.DragAddEdge.HandleNodeMouseLeave | src/components/Flow/behavior/dragAddEdge.ts:113-121 | the node's anchors are hidden unless a draft exists |
| AddEdgeGesture.DragAddEdge.HandleNodeMouseDown | src/components/Flow/behavior/dragAddEdge.ts:123-169 | a draft begins only when `shouldBegin` holds and the pressed anchor is Enabled; then the draft is added and every other node's anchors get the target states |
| AddEdgeGesture.DragAddEdge.HandleMouseMove | src/components/Flow/behavior/dragAddEdge.ts:171-197 | without a draft nothing changes; otherwise the draft snaps to an Enabled anchor of another node or follows the pointer |
| AddEdgeGesture.DragAddEdge.HandleMouseUp | src/components/Flow/behavior/dragAddEdge.ts:203-234 | the draft is always removed; the Add command is issued iff the target is an anchor, the draft ends at a node and customValidation holds; the draft is forgotten and all anchors hidden |
| AddEdgeGesture.AddRealEdge | src/components/Flow/behavior/dragAddEdge.ts:211-225 | the after-connect event is emitted, the draft removed and the Add command issued with the draft's model, exactly as one manager `Step` from the withdrawn graph |
| AddEdgeGesture.PressShowsTargets | src/components/Flow/behavior/dragAddEdge.ts:151-168 | a press that begins a draft shows every node's anchors but the source's, with the target states of the pressed anchor |
| AddEdgeGesture.PressAddsDraft | src/components/Flow/behavior/dragAddEdge.ts:136-149 | a press with a fresh id adds the draft edge, ending at the pointer |
| AddEdgeGesture.DiscardRemovesDraft | src/components/Flow/behavior/dragAddEdge.ts:210-211 | an uncommitted release removes the draft and leaves the nodes and the event log as they were |
| AddEdgeGesture.MoveSnaps | src/components/Flow/behavior/dragAddEdge.ts:178-196 | over an Enabled anchor of another node the draft points at that node's anchor; elsewhere it ends at the pointer with no target anchor |
| EdgeControlGesture.CheckOutAndInEdgeMeaning | src/components/Flow/behavior/dragEdgeControll.ts:53-73 | with no rule for the node's shape every node passes; otherwise 'in' bounds the in-degree, 'out' the out-degree, and no flag both, a missing or zero bound bounding nothing |
| EdgeControlGesture.CheckWriteBackIdempotent | src/components/Flow/behavior/dragEdgeControll.ts:63-64 | writing the normalised bounds back changes no later verdict, and a second check writes nothing new |
| EdgeControlGesture.SomeJoinsMeaning | src/components/Flow/behavior/dragEdgeControll.ts:248-257 | the `some` scan answers false iff every visited edge runs between nodes and none joins the pair, true iff a joining edge comes before every edge with a free-point end, and otherwise throws |
| EdgeControlGesture.NodeEdgesSuffice | src/components/Flow/behavior/dragEdgeControll.ts:248-257 | when the scan of the node's own edges answers, it answers whether the graph has an edge from the source to the node; it always answers when every edge at the node runs between nodes |
| EdgeControlGesture.CustomValidationMeaning | src/components/Flow/behavior/dragEdgeControll.ts:260-293 | with both ends of the working edge at nodes, it throws iff some edge has a free-point source or an edge from the same source has a free-point target; otherwise the working edge is rejected iff another edge joins the same two nodes, or its source is transitive and has another outgoing edge |
| EdgeControlGesture.DragEdgeControl.constructor | src/components/Flow/behavior/dragEdgeControll.ts:84-88 | no drag in progress, with the given link rules and multi-edge setting |
| EdgeControlGesture.DragEdgeControl.OnMouseDown | src/components/Flow/behavior/dragEdgeControll.ts:120-166 | off a handle nothing changes; on a handle the edge is swapped for a working copy with the grabbed end at the pointer, the original model, the grabbed end's anchor index and both end nodes are recorded, and the graph equals `Grabbed`: every node but the fixed end shows Enabled anchors, or, when the fixed end is a free point, the node loop throws at its first node |
| EdgeControlGesture.DragEdgeControl.Remember | src/components/Flow/behavior/dragEdgeControll.ts:123-145 | the press records which end was grabbed, that end's anchor index, both end nodes (None for a free point), the original model and the working copy's id, and starts the drag |
| EdgeControlGesture.DragEdgeControl.Grab | src/components/Flow/behavior/dragEdgeControll.ts:136-165 | the press's graph effect and whether it throws equal `Grabbed` (proved about by `GrabEffect` and `GrabFreeEnd`) |
| EdgeControlGesture.DragEdgeControl.OnNodeMouseLeave | src/components/Flow/behavior/dragEdgeControll.ts:201-215 | while dragging, the left node's anchors stay shown as Enabled; otherwise nothing changes |
| EdgeControlGesture.DragEdgeControl.OnMousemove | src/components/Flow/behavior/dragEdgeControll.ts:217-238 | while dragging, the working copy is marked moving and the link rules written back, then it snaps to an anchor that passes `checkOutAndInEdge` and notSelf or follows the pointer; notSelf throws, after the move state is set, when the fixed end is a free point |
| EdgeControlGesture.DragEdgeControl.OnMouseup | src/components/Flow/behavior/dragEdgeControll.ts:295-372 | the release follows `Verdict`: when every check passes the grabbed end is reconnected and the reconnect command is issued; a failed check puts the end back with no command, and the drag ends and all anchors are hidden; a release that throws (a free fixed end in notSelf, a free-point end of the working edge's source or of an edge the isOnlyOneEdge or customValidation scans reach, a free grabbed end in resetEdge) or is no drag changes nothing but the link rules |
| EdgeControlGesture.DragEdgeControl.ResetEdge | src/components/Flow/behavior/dragEdgeControll.ts:308-320 | throws, changing nothing, iff the grabbed end was a free point; otherwise the grabbed end returns to its original node and anchor, the drag ends and every anchor is hidden |
| EdgeControlGesture.DragEdgeControl.Clear | src/components/Flow/behavior/dragEdgeControll.ts:317-319 | no working edge and no drag any more |
| EdgeControlGesture.DragEdgeControl.Reconnect | src/components/Flow/behavior/dragEdgeControll.ts:338-370 | the committing release: before-connect event, states cleared, grabbed end on the anchor, the command run, after-connect event, anchors hidden |
| EdgeControlGesture.DragEdgeControl.Prepare | src/components/Flow/behavior/dragEdgeControll.ts:338-348 | the working copy's updates before the command equal `Connected` |
| EdgeControlGesture.DragEdgeControl.Conclude | src/components/Flow/behavior/dragEdgeControll.ts:362-370 | the after-connect event and hidden anchors |
| EdgeControlGesture.ReconnectUnrecorded | src/components/Flow/behavior/dragEdgeControll.ts:351-360 | with the editor's registry the reconnect call finds no command: the graph keeps the edge as the gesture left it and the history gets no entry |
| EdgeControlGesture.WorkingFields | src/components/Flow/behavior/dragEdgeControll.ts:137-140 | the working copy keeps the edge's other fields and puts the grabbed end at the pointer |
| EdgeControlGesture.SwapKeepsNodes | src/components/Flow/behavior/dragEdgeControll.ts:142-144 | swapping the grabbed edge for its working copy keeps the graph well formed and its nodes unchanged |
| EdgeControlGesture.GrabEffect | src/components/Flow/behavior/dragEdgeControll.ts:147-165 | a press on a handle of an edge whose fixed end is a node does not throw and shows the anchors of every node but the fixed end |
| EdgeControlGesture.GrabFreeEnd | src/components/Flow/behavior/dragEdgeControll.ts:147-153 | when the fixed end is a free point the press throws iff the graph has a node, having only swapped in the working copy |
| ClickItemBehavior.ToggleFlips | src/components/Graph/behavior/clickItem.ts:49-51 | with the multiple-selection key held a click flips only the clicked item's selection and emits the nameless portal event |
| ClickItemBehavior.SingleClickSelectsOnly | src/components/Graph/behavior/clickItem.ts:52-76 | otherwise a non-tag click selects that item alone, opens the action menu and reports its type |
| ClickItemBehavior.TagClickKeeps | src/components/Graph/behavior/clickItem.ts:52-62 | a click on a tag keeps only the item's own selection, selects nothing new, and emits the tag event |
| ClickItemBehavior.CanvasClickClears | src/components/Graph/behavior/clickItem.ts:79-87 | a canvas click deselects every item and reports CanvasSelected, the state the graph is then in |
| ClickItemBehavior.ReportedStateIsFinal | src/components/Graph/behavior/clickItem.ts:74-76 | a handled item click ends by reporting the graph state the click leaves |
| ClickItemBehavior.NoSelectionReported | src/utils/index.ts:137-150 | with no item selected, getGraphState is CanvasSelected |
| ClickItemBehavior.ClickItem.constructor | src/components/Graph/behavior/clickItem.ts:21-28 | multiple selection on, the shift key code (16), the key not held |
| ClickItemBehavior.ClickItem.Configured | src/components/Mind/index.tsx:74-77 | the installed options (the Mind editor's `multiple: false`) replace the defaults, the key not held |
| ClickItemBehavior.ClickItem.HandleItemClick | src/components/Graph/behavior/clickItem.ts:40-77 | the graph becomes `ItemClicked`: ignored edge clicks in a mind graph, toggle or replace, edge to front, graph-state event |
| ClickItemBehavior.ClickItem.HandleCanvasClick | src/components/Graph/behavior/clickItem.ts:79-87 | the graph becomes `CanvasClicked` |
| ClickItemBehavior.ClickItem.HandleKeyDown | src/components/Graph/behavior/clickItem.ts:89-91 | the key counts as held iff `keyCode || which` is the configured code |
| ClickItemBehavior.ClickItem.HandleKeyUp | src/components/Graph/behavior/clickItem.ts:93-95 | any key release ends the hold |
| DragCanvasBehavior.PanKeepsInReach | src/components/Graph/behavior/dragCanvas.ts:85-97 | a pan never takes a drawing that is within reach of the view out of it |
| DragCanvasBehavior.PanFollowsPointer | src/components/Graph/behavior/dragCanvas.ts:72-80 | an uncut pan follows the pointer on the axes `direction` allows and never on the other |
| DragCanvasBehavior.PanUncut | src/components/Graph/behavior/dragCanvas.ts:85-97 | deep inside the reach the pan is exactly the pointer's movement |
| DragCanvasBehavior.ToLower | src/components/Graph/behavior/dragCanvas.ts:228 | the lower-case form has the input's length |
| DragCanvasBehavior.ToLowerMeaning | src/components/Graph/behavior/dragCanvas.ts:228 | lowering replaces each ASCII capital by its small letter and keeps every other character in place |
| DragCanvasBehavior.DragCanvas.constructor | src/components/Graph/behavior/dragCanvas.ts:36-42 | default configuration, no origin, no drag, no key held |
| DragCanvasBehavior.DragCanvas.Configured | src/components/Flow/index.tsx:82-86 | the installed options (the editors' `shouldBegin` and `shouldUpdate`) replace the defaults, no origin, no drag, no key held |
| DragCanvasBehavior.DragCanvas.UpdateViewport | src/components/Graph/behavior/dragCanvas.ts:61-99 | a NaN coordinate changes nothing; otherwise the graph is translated by `PanOf` and the origin advances to the pointer |
| DragCanvasBehavior.DragCanvas.OnMouseDown | src/components/Graph/behavior/dragCanvas.ts:101-144 | ignored for a mouse press with no button down, while a modifier is held or when a shape was hit; otherwise the origin is the press point and no drag is under way |
| DragCanvasBehavior.DragCanvas.OnMouseMove | src/components/Graph/behavior/dragCanvas.ts:146-174 | nothing without an origin or under the 10-pixel threshold; past it the drag begins iff `shouldBegin`, and the view pans whenever `shouldUpdate` holds |
| DragCanvasBehavior.DragCanvas.OnMouseUp | src/components/Graph/behavior/dragCanvas.ts:176-218 | a press that never became a drag only forgets the origin; a drag pans a last time and ends |
| DragCanvasBehavior.DragCanvas.EndDrag | src/components/Graph/behavior/dragCanvas.ts:220-224 | no origin and no drag |
| DragCanvasBehavior.DragCanvas.OnKeyDown | src/components/Graph/behavior/dragCanvas.ts:226-238 | an empty key leaves the hold flag; otherwise a modifier key (shift, ctrl, alt, control in any case) sets it and any other key clears it |
| DragCanvasBehavior.DragCanvas.OnKeyUp | src/components/Graph/behavior/dragCanvas.ts:240-245 | the hold flag, the origin and the drag are all reset |
| DragCanvasBehavior.AllowKeys | src/components/Graph/behavior/dragCanvas.ts:233-237 | "Shift" in any case is a modifier and a letter key is not |
| DragNodeBehavior.Cached | src/components/Flow/behavior/dragNodeCustom.ts:232-236 | a node's start is recorded on its first move and kept afterwards |
| DragNodeBehavior.DragKeeps | src/components/Flow/behavior/dragNodeCustom.ts:229-254 | a round of moves changes only the moved nodes' models, keeping items, states and order |
| DragNodeBehavior.DragStarts | src/components/Flow/behavior/dragNodeCustom.ts:232-236 | a round records the start of each moved node that had none, as it stood before the round, and no other start |
| DragNodeBehavior.DragModels | src/components/Flow/behavior/dragNodeCustom.ts:238-252 | each moved node's model gets the position computed from its start |
| DragNodeBehavior.NoDrift | src/components/Flow/behavior/dragNodeCustom.ts:229-241 | after any moves within one gesture each moved node sits at its gesture-start position plus the latest pointer offset |
| DragNodeBehavior.NumericMove | src/components/Flow/behavior/dragNodeCustom.ts:238-241 | a node whose start is numeric moves by exactly the pointer's offset |
| DragNodeBehavior.DragTargetsMeaning | src/components/Flow/behavior/dragNodeCustom.ts:109-133 | an unselected node moves alone; a selected node moves with exactly the selected unlocked nodes, itself included, none twice |
| DragNodeBehavior.Ceil | src/components/Flow/behavior/dragNodeCustom.ts:337-338 | the least integer not below the input |
| DragNodeBehavior.ExtentBounds | src/components/Flow/behavior/dragNodeCustom.ts:316-334 | the accumulators hold the least minimum and greatest maximum, each reached by a box, and are infinite exactly for no boxes |
| DragNodeBehavior.GroupRectCovers | src/components/Flow/behavior/dragNodeCustom.ts:303-345 | the rectangle frames every selected node from floor(min) to ceil(max), each edge reached by a node, and is unbounded iff no node is selected |
| DragNodeBehavior.DragNode.constructor | src/components/Flow/behavior/dragNodeCustom.ts:72-78 | default configuration and no gesture |
| DragNodeBehavior.DragNode.Configured | src/components/Flow/index.tsx:77-81 | the installed options (the Flow editor's `enableDelegate: true` and `shouldBegin`) replace the defaults, and no gesture |
| DragNodeBehavior.DragNode.OnDragStart | src/components/Flow/behavior/dragNodeCustom.ts:89-142 | a declined press changes nothing; otherwise the movers are `DragTargets`, the origin is the pointer and starts and group rectangle are forgotten |
| DragNodeBehavior.Unlocked | src/components/Flow/behavior/dragNodeCustom.ts:123-129 | the loop keeps exactly the nodes that are not locked, in their order |
| DragNodeBehavior.DragNode.Move | src/components/Flow/behavior/dragNodeCustom.ts:229-254 | one node is placed at its start plus the pointer's offset, its start cached |
| DragNodeBehavior.DragNode.MoveAll | src/components/Flow/behavior/dragNodeCustom.ts:156-158 | the loop over the movers equals `Dragged` |
| DragNodeBehavior.DragNode.Update | src/components/Flow/behavior/dragNodeCustom.ts:229-254 | with the delegate only the start is cached and the rectangle follows; otherwise the node moves |
| DragNodeBehavior.DragNode.UpdateDelegate | src/components/Flow/behavior/dragNodeCustom.ts:256-301 | the first call computes the framing rectangle (the group's for several movers) and marks the delegate drawn; later calls keep it |
| DragNodeBehavior.DragNode.CalculationGroupPosition | src/components/Flow/behavior/dragNodeCustom.ts:303-345 | the accumulator loop returns `GroupRectOf` of the selected nodes' boxes |
| DragNodeBehavior.DragNode.OnDrag | src/components/Flow/behavior/dragNodeCustom.ts:144-169 | nothing before a gesture or when `shouldUpdate` refuses; otherwise every mover is placed (or only the delegate follows) with painting off and one paint after |
| DragNodeBehavior.DragNode.Follow | src/components/Flow/behavior/dragNodeCustom.ts:155-165 | without a delegate every mover is placed as `Dragged` says; with one only the delegate shape moves and the graph is unchanged |
| DragNodeBehavior.DragNode.Reset | src/components/Flow/behavior/dragNodeCustom.ts:198-203 | starts, origin, group rectangle, movers and listener are forgotten |
| DragNodeBehavior.DragNode.OnDragEnd | src/components/Flow/behavior/dragNodeCustom.ts:171-212 | without a gesture nothing changes; otherwise movers are placed a last time, the delegate removed and the gesture forgotten |
| DragNodeBehavior.DragNode.OnOutOfRange | src/components/Flow/behavior/dragNodeCustom.ts:214-227 | the out-of-canvas mouseup listener is installed, bound to this event, only while a gesture is in progress |
| DragNodeBehavior.DragNode.OnBodyMouseUp | src/components/Flow/behavior/dragNodeCustom.ts:217-224 | a page mouseup outside the canvas ends the drag with the bound event |
| AnchorShapes.NatText | src/shape/common/anchor.ts:84-86 | the decimal text of a number is never empty |
| AnchorShapes.NatTextLength | src/shape/common/anchor.ts:121-123 | the text is one character long exactly for numbers below 10 |
| AnchorShapes.DrawnAnchors | src/shape/common/anchor.ts:74-101 | one shape per anchor point in order, anchor i Enabled iff its state is Enabled, carrying its index and class |
| AnchorShapes.FirstOfClass | src/shape/common/anchor.ts:54-56 | the position found holds the class and nothing before it does; None iff no shape has it |
| AnchorShapes.DispatchNames | src/shape/common/anchor.ts:121-133 | the state names acted on are exactly `activeAnchorPoints` and `activeAnchor` plus one character |
| AnchorShapes.RemoveAfterDraw | src/shape/common/anchor.ts:104-111 | removal takes away exactly the drawn anchors: after drawing it gives what removal alone gives |
| AnchorShapes.ShowHideRoundTrip | src/shape/common/anchor.ts:128-133 | showing then hiding the anchors of a group without anchors gives it back |
| AnchorShapes.DrawnClassUnique | src/shape/common/anchor.ts:84-98 | among freshly drawn anchors the class of anchor n < 10 names it and no other |
| AnchorShapes.NodeGroup.constructor | src/shape/common/anchor.ts:65-72 | the group holds the given shapes |
| AnchorShapes.NodeGroup.FindByClassName | src/shape/common/anchor.ts:54 | the scan returns `FirstOfClass` |
| AnchorShapes.NodeGroup.ActiveAnchorPoint | src/shape/common/anchor.ts:47-63 | the anchor named by the state's last character is restyled Active or Default; a missing anchor leaves the group alone |
| AnchorShapes.NodeGroup.DrawAnchorPoints | src/shape/common/anchor.ts:65-102 | the drawn shapes are appended in index order |
| AnchorShapes.NodeGroup.RemoveAnchorPoints | src/shape/common/anchor.ts:104-111 | every shape named `anchorPoint` is removed, the others keep their order |
| AnchorShapes.NodeGroup.SetAnchorPointsState | src/shape/common/anchor.ts:113-134 | the group becomes `AnchorStateSet`: draw on true, remove on false, restyle for `activeAnchor<c>`, ignore other names |
| HoverAnchorBehavior.OnEnterAnchor | src/components/Flow/behavior/hoverAnchor.ts:24-31 | on an anchor point the node gets state `activeAnchor<i>` = true; elsewhere nothing changes |
| HoverAnchorBehavior.OnLeaveAnchor | src/components/Flow/behavior/hoverAnchor.ts:32-39 | on an anchor point the node's state `activeAnchor<i>` becomes false |
| HoverAnchorBehavior.EnterLeaveRoundTrip | src/components/Flow/behavior/hoverAnchor.ts:24-39 | entering then leaving clears exactly the state entering set |
| HoverAnchorBehavior.HoverRestylesAnchor | src/shape/common/anchor.ts:125-127 | hovering drawn anchor i < 10 restyles that anchor's shape and nothing else of the group |
| HoverAnchorBehavior.HoverBeyondNineIgnored | src/shape/common/anchor.ts:121-123 | from the eleventh anchor on the state name is too long, so no anchor is restyled |
| Behaviors.WrappedGate | src/common/behaviorManager/index.ts:41-61 | a wrapped handler runs iff it ran before and the graph is of the wrapper's kind; handlers no event names are unchanged |
| Behaviors.RegisteredGate | src/common/behaviorManager/index.ts:67-86 | after registration a Flow behaviour's handlers never run on a mind graph, a Mind behaviour's only there, and an untyped one's are not gated |
| Behaviors.WrappedTwice | src/common/behaviorManager/index.ts:41-61 | wrapping twice for the same graph type gates like wrapping once |
| Behaviors.RegisterTwice | src/common/behaviorManager/index.ts:67-86 | registering again with the same configuration changes nothing |
| Behaviors.GatesAccumulate | src/common/behaviorManager/index.ts:41-61 | a behaviour configured first as Flow then as Mind ends with handlers that run on no graph |
| Behaviors.Prepare | src/common/behaviorManager/index.ts:71-81 | the merge and the switch on `graphType` equal `Registered` |
| Behaviors.BehaviorManager.constructor | src/common/behaviorManager/index.ts:13-15 | no behaviours, over the given G6 registry |
| Behaviors.BehaviorManager.Register | src/common/behaviorManager/index.ts:63-65 | the behaviour is stored under its name, replacing any earlier one |
| Behaviors.BehaviorManager.GetRegisteredBehaviors | src/common/behaviorManager/index.ts:17-39 | each mode (default 'default') maps name to name for exactly the behaviours offered to the type in that mode: untyped ones and those of that type |
| Behaviors.BehaviorManager.Store | src/common/behaviorManager/index.ts:82-84 | the merged behaviour is stored back and handed to G6 |
| Behaviors.BehaviorManager.RegisteBehaviors | src/common/behaviorManager/index.ts:67-86 | every stored behaviour is replaced by `Registered` of it and the configuration, and G6's registry gets each under its name |
| Model.MergeParams | src/common/CommandManager/index.ts:33-42 | the caller's keys win and every template key the caller lacks is kept |
| Model.Restrict | src/components/Graph/command/update.ts:32 | the restriction (lodash `pick` on a model) holds exactly the listed keys the map has, with their values |

## Left out

- React wiring, rendering, styles and delegate shapes are not modelled. This covers component lifecycles, shape styling, edge and node drawing, and the delegate rectangle's drawing attributes. They are G6 or DOM effects with no logic of the core.
- The zoom commands (zoomIn, zoomOut, autoZoom, resetZoom), pasteHere and the mind-map commands are not in the model's registry. They are floating-point view control, or their code is not part of this model. The zoom commands also have `canUndo` false, and zoomIn and zoomOut have the shortcuts meta/ctrl+Equal and meta/ctrl+Minus; so the shortcut scan of the model skips those two chords, and Commands.UndoableKinds speaks only of the modelled commands. By EditorShortcuts.ZoomCodesUnclaimed no modelled command claims those key codes, so the scan finds the same command for every other key.
- `guid()` is random, so it becomes the session's draw sequence. Freshness of the drawn ids is a hypothesis of the lemmas.
- G6 itself is abstract: `addItem`, `removeItem`, `updateItem`, `setItemState`, `toFront`/`toBack`, paint and emit are functions of `GraphValue`. Events are an appended log, and listeners are not run.
- Model.MergeParams copies the top level only, as the source's spread does, but the objects it shares with the caller are values here. init's writes into them reach the caller through Commands.WrittenBack and CommandManagement.CallerSees: add's `model`, toFront's and toBack's `items`, remove's `flow`. A caller that changes such an object after the run also changes the history entry that shares it; that is not modelled.
- AddCommand.Init and RestackCommand.Init return the initialised params as a new value. The same write into the caller's own object is stated at the manager, by CommandManagement.CallerSees, CommandManagement.AddWritesCallerModel and CommandManagement.RestackWritesCallerItems.
- Commands.WrittenBack reads a caller value of another shape under the in-place key (a string `items`, say) as the default and leaves it as passed. The source would throw on it or write into it.
- Model.Dict keeps keys in insertion order. JavaScript's `Object.keys` lists integer-like keys (such as `"12"`) first, in ascending order, so for such ids the order of remove's snapshot walks differs from the model's. Only the order of the re-added items and their events is affected.
- G6.RemoveChild, G6.AddChild and RemoveCommand.MindRoundTrip flatten the mind map. TreeGraph's `removeChild` removes the whole subtree, and `addChild` rebuilds it from the model's `children` data; the model removes and adds back the one node with its edges and its parent link. The subtree, the `children` data and the tree layout are not modelled.
- G6.SetItemState, G6.ChangeVisibility, G6.ToFront and G6.ToBack leave the graph unchanged for an id with no item, where G6 would throw a TypeError on the missing item. The commands that replay a stored id list (toFront, toBack, showEdges, hideEdges) look each id up first with `G6.Unfound` and throw there, as the source does. Every other caller passes an item it has just found or added.
- Numbers:
  - JavaScript numbers that are coordinates are integers.
  - Bounding boxes are reals, and ±Infinity is `None` / `Unbounded`.
  - NaN is a separate value.
- Bounding boxes, the canvas size and the renderer are parameters, because they come from the canvas:
  - the node boxes read by `calculationGroupPosition`;
  - the drawing box and view size read by `updateViewport`;
  - the canvas element and the renderer read by `shouldTriggerShortcut`.
- `graph.get('dragCanvas')` is a parameter of `onDragStart`. It is written by another behaviour.
- DragCanvasBehavior.DragCanvas.OnMouseDown reads the `window.event` button test as two flags of the event, `touchStart` and `buttonDown`. It requires client coordinates, which every mousedown has.
- `enableOptimize` is not modelled. Hiding shapes while panning is rendering only.
- DragCanvasBehavior.ToLower lowers only ASCII capitals. Unicode case mapping is not modelled.
- DragNodeBehavior.DragNode.Move models `item.updatePosition` (when `updateEdge` is false) as the same model write as `graph.updateItem`. The two differ only in whether edges are redrawn.
- DragNodeBehavior.DragNode.OnOutOfRange keeps one listener. The source adds a new body listener on every mouseleave and removes only the latest, so when the pointer leaves twice in one drag the earlier listener stays attached. That leak is not modelled.
- Behaviors.Wrapped records each wrapper as a gate in a set of graph types. The nesting depth of wrapped functions is not kept; only whether each gate lets a call through matters.
- Behaviors.BehaviorManager.GetRegisteredBehaviors gives the modes as a map. The key order of the modes object is not modelled.
- EdgeControlGesture.DragEdgeControl.OnMouseup writes the normalised link rules after the reset or reconnect. The source writes them before, but neither reads them, so the observable result is the same.
- EdgeControlGesture.DragEdgeControl.OnMouseDown takes the grabbed end's anchor index as an input. G6 computes the edge's `sourceAnchorIndex` / `targetAnchorIndex` when it links an end, from the model's anchor or the nearest anchor, and that computation is not part of this model.
- EdgeControlGesture.CustomValidation passes when an end of the working edge is no node, as the source's guard on `getModel` does for a free point. Should G6 return no object at all for an end, the source would throw there instead; the model does not distinguish the two.
- A free-point end is modelled as G6's point object: `get('id')` on it throws. This covers the press's node loop, notSelf, resetEdge, isOnlyOneEdge (on the working edge's source and on each edge its scan visits) and the first filter of customValidation (on every edge's source and on the target of an edge from the same source).
- AnchorShapes.NodeGroup.DrawAnchorPoints does not model anchor positions or styles. The anchor count is an input: flow nodes have 4.
- HoverAnchorBehavior.HoverBeyondNineIgnored models the code as written. A node with more than ten anchors would not restyle from the eleventh on, but flow nodes have 4 anchors.
- Utils.GetFlowRecallEdges does not follow an in-edge whose source names no node. The source would call `getInEdges` on a missing node and throw.
- The mind recall walk (`getMindRecallEdges`) and the other helpers of `src/utils` are not modelled. These include the Bézier geometry, text measuring, `getTransformTranslateValues`, `cloneEvent`, `focusItem` and `compareArray`. They are floating point, canvas measurement or DOM.
- Event names: `remove.ts:92` and `clickItem.ts:51` emit `onHidePortalTrigger`, which the event enumeration does not declare (it declares `onHidePortalTriger`). The model emits an event with no name there, as the code does, and does not correct the spelling.
- Reconnect name: the edge-control gesture issues `changeEdgeControll`, but the editor registers that command under `ChangeEdgeControl` (`Commands.RegistryKeys`). With the editor's registry the reconnect call is skipped and leaves no history entry (`EdgeControlGesture.ReconnectUnrecorded`). The model keeps this as written.
