/** The command objects of src/components/Graph/command/: the capability
    set every command shares (base.ts), the table under which they are
    registered (index.ts), and a dispatch from a command's kind to the
    module that models it.  undo.ts and redo.ts read and move the history
    of the command manager; their execute is modelled in module
    CommandManager, which owns that history. */
module Commands {
  import opened Model
  import opened G6
  import opened G6Graph
  import opened Utils
  import opened Session
  import opened NodeCopies
  import AddCommand
  import RemoveCommand
  import UpdateCommand
  import DuplicateCommand
  import CopyCommand
  import PasteCommand
  import RestackCommand
  import EdgeVisibilityCommand
  import ChangeEdgeControlCommand

  /** Which command object a template is; `BaseKind` is baseCommand itself. */
  datatype Kind =
    | BaseKind | UndoKind | RedoKind | AddKind | RemoveKind | UpdateKind | DuplicateKind | CopyKind | PasteKind
    | ToFrontKind | ToBackKind | ShowEdgesKind | HideEdgesKind | ChangeEdgeControlKind

  /** A command: its name, its behaviour and its params object. */
  datatype Template = Template(name: string, kind: Kind, params: Params)

  /** A keyboard shortcut: one key code, or modifier names then a key code. */
  datatype Shortcut = Key(code: string) | Chord(keys: seq<string>)

  /** The params each command object is declared with. */
  function DefaultParams(k: Kind): Params
  {
    match k
    case AddKind => AddCommand.DefaultParams
    case RemoveKind => RemoveCommand.DefaultParams
    case UpdateKind => UpdateCommand.DefaultParams
    case DuplicateKind => DuplicateCommand.DefaultParams
    case PasteKind => PasteCommand.DefaultParams
    case ToFrontKind => RestackCommand.DefaultParams
    case ToBackKind => RestackCommand.DefaultParams
    case ShowEdgesKind => EdgeVisibilityCommand.DefaultParams
    case HideEdgesKind => EdgeVisibilityCommand.DefaultParams
    case ChangeEdgeControlKind => ChangeEdgeControlCommand.DefaultParams
    case _ => map[]
  }

  /** The `name` each command object declares: undo.ts and redo.ts declare
      their own; every other command keeps baseCommand's ''. */
  function DeclaredName(k: Kind): string
  {
    match k
    case UndoKind => "undo"
    case RedoKind => "redo"
    case _ => ""
  }

  function Declared(k: Kind): Template
  {
    Template(DeclaredName(k), k, DefaultParams(k))
  }

  /** The table of command/index.ts, keyed as it is exported, restricted to
      the commands this model covers; the editor registers `Declared` of
      each entry under its key, and registering overwrites the command's
      `name` with that key.  The reconnect command is exported under
      `ChangeEdgeControl`, while the reconnect gesture issues
      `changeEdgeControll`. */
  const Registry: map<string, Kind> := map[
    "redo" := RedoKind,
    "undo" := UndoKind,
    "add" := AddKind,
    "remove" := RemoveKind,
    "update" := UpdateKind,
    "copy" := CopyKind,
    "paste" := PasteKind,
    "toFront" := ToFrontKind,
    "toBack" := ToBackKind,
    "duplicate" := DuplicateKind,
    "hideEdges" := HideEdgesKind,
    "showEdges" := ShowEdgesKind,
    "ChangeEdgeControl" := ChangeEdgeControlKind]

  /** The command's `shortcuts` list; commands that declare none inherit
      baseCommand's empty list. */
  function Shortcuts(k: Kind): seq<Shortcut>
  {
    match k
    case UndoKind => [Chord(["metaKey", "KeyZ"]), Chord(["ctrlKey", "KeyZ"])]
    case RedoKind => [Chord(["metaKey", "shiftKey", "KeyZ"]), Chord(["ctrlKey", "shiftKey", "KeyZ"])]
    case RemoveKind => [Key("Delete"), Key("Backspace")]
    case DuplicateKind => [Chord(["shiftKey", "KeyD"])]
    case CopyKind => [Chord(["metaKey", "KeyC"]), Chord(["ctrlKey", "KeyC"])]
    case PasteKind => [Chord(["metaKey", "KeyV"]), Chord(["ctrlKey", "KeyV"])]
    case _ => []
  }

  /** `canUndo`: false for undo, redo and copy, true (baseCommand's) for
      every other command. */
  predicate CanUndo(k: Kind)
  {
    k != UndoKind && k != RedoKind && k != CopyKind
  }

  /** `canExecute`, given the clipboard and the manager's history cursor
      `index` over a history of `length` entries. */
  predicate CanExecute(k: Kind, v: GraphValue, p: Params, clipboard: seq<ItemModel>, index: nat, length: nat)
  {
    match k
    case BaseKind => true
    case UndoKind => v.mode != ReadonlyMode && index > 0
    case RedoKind => v.mode != ReadonlyMode && index < length
    case AddKind => AddCommand.CanExecute(v)
    case RemoveKind => RemoveCommand.CanExecute(v)
    case UpdateKind => UpdateCommand.CanExecute(v, p)
    case DuplicateKind => DuplicateCommand.CanExecute(v)
    case CopyKind => CopyCommand.CanExecute(v)
    case PasteKind => PasteCommand.CanExecute(v, clipboard)
    case ToFrontKind => RestackCommand.CanExecute(v)
    case ToBackKind => RestackCommand.CanExecute(v)
    case ShowEdgesKind => EdgeVisibilityCommand.CanExecute(v, true)
    case HideEdgesKind => EdgeVisibilityCommand.CanExecute(v, false)
    case ChangeEdgeControlKind => ChangeEdgeControlCommand.CanExecute(v)
  }

  /** What `init` leaves: the params, and how many ids have been drawn in
      all once it is done. */
  datatype Prepared = Prepared(params: Params, drawn: nat)

  /** `init` with ids drawn from `guid` starting at draw number `from`;
      None when it throws.  Commands without an init keep their params. */
  function Initialized(k: Kind, v: GraphValue, p: Params, clipboard: seq<ItemModel>, guid: nat -> Id, from: nat): Option<Prepared>
  {
    match k
    case AddKind =>
      if AddCommand.HasId(p) then Some(Prepared(p, from))
      else Some(Prepared(AddCommand.Initialized(p, guid(from)), from + 1))
    case RemoveKind =>
      var q := RemoveCommand.Initialized(v, p);
      if q.None? then None else Some(Prepared(q.value, from))
    case UpdateKind =>
      var q := UpdateCommand.Initialized(v, p);
      if q.None? then None else Some(Prepared(q.value, from))
    case DuplicateKind =>
      var q := DuplicateCommand.Initialized(v, p, guid, from);
      if q.None? then None else Some(Prepared(q.value, from + |ModelsParam(q.value, "models")|))
    case PasteKind => Some(Prepared(PasteCommand.Initialized(clipboard, guid, from), from + |clipboard|))
    case ToFrontKind => Some(Prepared(RestackCommand.Initialized(v, p), from))
    case ToBackKind => Some(Prepared(RestackCommand.Initialized(v, p), from))
    case ShowEdgesKind => Some(Prepared(EdgeVisibilityCommand.Initialized(v, p, true), from))
    case HideEdgesKind => Some(Prepared(EdgeVisibilityCommand.Initialized(v, p, false), from))
    case _ => Some(Prepared(p, from))
  }

  /** The command's own `execute`.  Undo and redo act on the manager's
      history and are not dispatched here; copy writes only the clipboard,
      so the graph is unchanged. */
  function Executed(k: Kind, v: GraphValue, p: Params): Run
  {
    match k
    case AddKind => Ran(AddCommand.Executed(v, p))
    case RemoveKind => Ran(RemoveCommand.Executed(v, p))
    case UpdateKind => Ran(UpdateCommand.Executed(v, p))
    case DuplicateKind => Ran(DuplicateCommand.Executed(v, p))
    case PasteKind => Ran(PasteCommand.Executed(v, p))
    case ToFrontKind => RestackCommand.Executed(v, p, true)
    case ToBackKind => RestackCommand.Executed(v, p, false)
    case ShowEdgesKind => EdgeVisibilityCommand.Executed(v, p, true)
    case HideEdgesKind => EdgeVisibilityCommand.Executed(v, p, false)
    case ChangeEdgeControlKind => ChangeEdgeControlCommand.Executed(v, p)
    case _ => Ran(v)
  }

  /** The command's own `undo`; baseCommand's, which undo, redo and copy
      keep, does nothing. */
  function Undone(k: Kind, v: GraphValue, p: Params): Run
  {
    match k
    case AddKind => Ran(AddCommand.Undone(v, p))
    case RemoveKind => Ran(RemoveCommand.Undone(v, p))
    case UpdateKind => Ran(UpdateCommand.Undone(v, p))
    case DuplicateKind => Ran(DuplicateCommand.Undone(v, p))
    case PasteKind => Ran(PasteCommand.Undone(v, p))
    case ToFrontKind => RestackCommand.Undone(v, p, true)
    case ToBackKind => RestackCommand.Undone(v, p, false)
    case ShowEdgesKind => EdgeVisibilityCommand.Undone(v, p, true)
    case HideEdgesKind => EdgeVisibilityCommand.Undone(v, p, false)
    case ChangeEdgeControlKind => ChangeEdgeControlCommand.Undone(v, p)
    case _ => Ran(v)
  }

  /** The clipboard after the command's `execute`: copy replaces it with
      the selected nodes' models, no other command writes it. */
  function ClipboardAfter(k: Kind, v: GraphValue, clipboard: seq<ItemModel>): seq<ItemModel>
  {
    if k == CopyKind then SelectedModels(v) else clipboard
  }

  /** The param whose object init writes into rather than replaces: add
      sets `model.id`, toFront and toBack push onto `items`, remove fills
      `flow.nodes` and `flow.edges`. */
  function InPlaceKey(k: Kind): Option<string>
  {
    match k
    case AddKind => Some("model")
    case ToFrontKind => Some("items")
    case ToBackKind => Some("items")
    case RemoveKind => Some("flow")
    case _ => None
  }

  /** Both values are the same kind of object: a model, an id array or a
      flow snapshot. */
  predicate SameShape(a: PVal, b: PVal)
  {
    (a.PModel? && b.PModel?) || (a.PIds? && b.PIds?) || (a.PFlow? && b.PFlow?)
  }

  /** The caller's own params object once init has run with params `q`:
      the merge copies only the top level, so an object the caller passed
      under the in-place key is the very one init writes into, and the
      caller then holds the initialised value there.  Every other key keeps
      what the caller passed. */
  function WrittenBack(k: Kind, caller: Params, q: Params): (r: Params)
    ensures r.Keys == caller.Keys
    ensures forall key :: key in caller && InPlaceKey(k) != Some(key) ==> r[key] == caller[key]
    ensures InPlaceKey(k).Some? && InPlaceKey(k).value in caller ==>
      var key := InPlaceKey(k).value;
      r[key] == if key in q && SameShape(caller[key], q[key]) then q[key] else caller[key]
  {
    match InPlaceKey(k)
    case None => caller
    case Some(key) =>
      if key in caller && key in q && SameShape(caller[key], q[key]) then caller[key := q[key]] else caller
  }

  method Init(g: Graph, s: Session, k: Kind, p: Params) returns (q: Option<Params>)
    modifies s`drawn
    ensures var r := Initialized(k, g.View(), p, s.clipboard, s.guid, old(s.drawn));
      && (r.None? <==> q.None?)
      && (r.Some? ==> q.value == r.value.params && s.drawn == r.value.drawn)
      && (r.None? ==> s.drawn == old(s.drawn))
  {
    match k {
      case AddKind =>
        var r := AddCommand.Init(p, s);
        q := Some(r);
      case RemoveKind => q := RemoveCommand.Init(g, p);
      case UpdateKind => q := UpdateCommand.Init(g, p);
      case DuplicateKind => q := DuplicateCommand.Init(g, s, p);
      case PasteKind =>
        var r := PasteCommand.Init(s);
        q := Some(r);
      case ToFrontKind =>
        var r := RestackCommand.Init(g, p);
        q := Some(r);
      case ToBackKind =>
        var r := RestackCommand.Init(g, p);
        q := Some(r);
      case ShowEdgesKind =>
        var r := EdgeVisibilityCommand.Init(g, p, true);
        q := Some(r);
      case HideEdgesKind =>
        var r := EdgeVisibilityCommand.Init(g, p, false);
        q := Some(r);
      case _ => q := Some(p);
    }
  }

  method Execute(g: Graph, s: Session, k: Kind, p: Params) returns (threw: bool)
    modifies g, s`clipboard
    ensures Executed(k, old(g.View()), p) == if threw then Threw(g.View()) else Ran(g.View())
    ensures s.clipboard == ClipboardAfter(k, old(g.View()), old(s.clipboard))
  {
    if k == CopyKind {
      CopyCommand.Execute(g, s);
      threw := false;
    } else {
      threw := ExecuteOnGraph(g, k, p);
    }
  }

  /** The execute of every command but copy, which writes the clipboard. */
  method ExecuteOnGraph(g: Graph, k: Kind, p: Params) returns (threw: bool)
    requires k != CopyKind
    modifies g
    ensures Executed(k, old(g.View()), p) == if threw then Threw(g.View()) else Ran(g.View())
  {
    match k {
      case ToFrontKind => threw := RestackCommand.Execute(g, p, true);
      case ToBackKind => threw := RestackCommand.Execute(g, p, false);
      case ShowEdgesKind => threw := EdgeVisibilityCommand.Execute(g, p, true);
      case HideEdgesKind => threw := EdgeVisibilityCommand.Execute(g, p, false);
      case ChangeEdgeControlKind => threw := ChangeEdgeControlCommand.Execute(g, p);
      case BaseKind | UndoKind | RedoKind | AddKind | RemoveKind | UpdateKind | DuplicateKind | PasteKind =>
        ExecuteEditing(g, k, p);
        threw := false;
    }
  }

  /** The execute of the commands that edit item models and never throw. */
  method ExecuteEditing(g: Graph, k: Kind, p: Params)
    requires k in {BaseKind, UndoKind, RedoKind, AddKind, RemoveKind, UpdateKind, DuplicateKind, PasteKind}
    modifies g
    ensures Executed(k, old(g.View()), p) == Ran(g.View())
  {
    match k {
      case AddKind => AddCommand.Execute(g, p);
      case RemoveKind => RemoveCommand.Execute(g, p);
      case UpdateKind => UpdateCommand.Execute(g, p);
      case DuplicateKind => DuplicateCommand.Execute(g, p);
      case PasteKind => PasteCommand.Execute(g, p);
      case _ =>
    }
  }

  method Undo(g: Graph, k: Kind, p: Params) returns (threw: bool)
    modifies g
    ensures Undone(k, old(g.View()), p) == if threw then Threw(g.View()) else Ran(g.View())
  {
    threw := false;
    match k {
      case AddKind => AddCommand.Undo(g, p);
      case RemoveKind => RemoveCommand.Undo(g, p);
      case UpdateKind => UpdateCommand.Undo(g, p);
      case DuplicateKind => DuplicateCommand.Undo(g, p);
      case PasteKind => PasteCommand.Undo(g, p);
      case ToFrontKind => threw := RestackCommand.Undo(g, p, true);
      case ToBackKind => threw := RestackCommand.Undo(g, p, false);
      case ShowEdgesKind => threw := EdgeVisibilityCommand.Undo(g, p, true);
      case HideEdgesKind => threw := EdgeVisibilityCommand.Undo(g, p, false);
      case ChangeEdgeControlKind => threw := ChangeEdgeControlCommand.Undo(g, p);
      case _ =>
    }
  }

  /** baseCommand.editSelectedNode: announce that the label editor opens. */
  method EditSelectedNode(g: Graph)
    modifies g
    ensures g.View() == Emit(old(g.View()), LabelStateChange(true))
  {
    g.Emit(LabelStateChange(true));
  }

  /** baseCommand's capabilities: it can always run, is always undoable, its
      init, execute and undo change nothing, and it has no shortcut. */
  lemma BaseDoesNothing(v: GraphValue, p: Params, clipboard: seq<ItemModel>, guid: nat -> Id, from: nat, index: nat, length: nat)
    ensures CanExecute(BaseKind, v, p, clipboard, index, length) && CanUndo(BaseKind)
    ensures Initialized(BaseKind, v, p, clipboard, guid, from) == Some(Prepared(p, from))
    ensures Executed(BaseKind, v, p) == Ran(v) && Undone(BaseKind, v, p) == Ran(v)
    ensures ClipboardAfter(BaseKind, v, clipboard) == clipboard
    ensures Shortcuts(BaseKind) == [] && DeclaredName(BaseKind) == ""
  {
  }

  /** Among the modelled commands, only undo, redo and copy stay out of
      the history. */
  lemma UndoableKinds(k: Kind)
    ensures !CanUndo(k) <==> k in {UndoKind, RedoKind, CopyKind}
  {
  }

  /** The name the reconnect gesture issues is not a key of the table: the
      reconnect command is exported as `ChangeEdgeControl` and declares no
      name of its own. */
  lemma RegistryKeys()
    ensures "changeEdgeControll" !in Registry && "ChangeEdgeControl" in Registry
    ensures Registry["ChangeEdgeControl"] == ChangeEdgeControlKind && DeclaredName(ChangeEdgeControlKind) == ""
  {
  }

  /** Only undo and redo declare a name, and it is the key they are
      exported under; every other command is named by registration alone. */
  lemma KeysAreNames()
    ensures forall k: Kind :: DeclaredName(k) != "" <==> k == UndoKind || k == RedoKind
    ensures forall name :: name in Registry && DeclaredName(Registry[name]) != "" ==> DeclaredName(Registry[name]) == name
  {
  }

  /** UndoKind may run exactly when there is an entry behind the cursor, redo
      exactly when there is one at it, outside readonly mode. */
  lemma HistoryGuards(v: GraphValue, p: Params, clipboard: seq<ItemModel>, index: nat, length: nat)
    ensures CanExecute(UndoKind, v, p, clipboard, index, length) <==> v.mode != ReadonlyMode && 0 < index
    ensures CanExecute(RedoKind, v, p, clipboard, index, length) <==> v.mode != ReadonlyMode && index < length
  {
  }
}
