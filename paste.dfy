/** src/components/Graph/command/paste.ts: adds copies of the clipboard's
    models under fresh ids, ten units right and down, selects them, and
    removes them on undo. */
module PasteCommand {
  import opened Model
  import opened G6
  import opened G6Graph
  import opened Utils
  import opened Session
  import opened NodeCopies

  const DefaultParams: Params := map["models" := PModels([])]

  predicate CanExecute(v: GraphValue, clipboard: seq<ItemModel>)
  {
    v.mode != ReadonlyMode && |clipboard| > 0
  }

  /** `{ ...model, id, x: x + 10, y: y + 10 }`. */
  const PasteCopy: (ItemModel, Id) -> ItemModel := Copier(m => map[])

  /** init: the params are replaced by one copy per clipboard model. */
  function Initialized(clipboard: seq<ItemModel>, guid: nat -> Id, from: nat): Params
  {
    map["models" := PModels(Copies(clipboard, PasteCopy, guid, from))]
  }

  function Executed(v: GraphValue, p: Params): GraphValue
  {
    Added(v, ModelsParam(p, "models"))
  }

  function Undone(v: GraphValue, p: Params): GraphValue
  {
    Removed(v, ModelsParam(p, "models"))
  }

  /** init reads the clipboard and draws ids; the clipboard is left as it
      is. */
  method Init(s: Session) returns (q: Params)
    modifies s`drawn
    ensures q == Initialized(s.clipboard, s.guid, old(s.drawn))
    ensures s.drawn == old(s.drawn) + |s.clipboard|
    ensures s.clipboard == old(s.clipboard)
  {
    var models := MakeCopies(s, s.clipboard, PasteCopy);
    q := map["models" := PModels(models)];
  }

  method Execute(g: Graph, p: Params)
    modifies g
    ensures g.View() == Executed(old(g.View()), p)
  {
    AddAll(g, ModelsParam(p, "models"));
  }

  method Undo(g: Graph, p: Params)
    modifies g
    ensures g.View() == Undone(old(g.View()), p)
  {
    RemoveEach(g, ModelsParam(p, "models"));
  }

  /** init yields one model per clipboard model: the i-th has the i-th
      fresh id, the position moved by (10, 10), and every other field of the
      i-th clipboard model. */
  lemma InitCopies(clipboard: seq<ItemModel>, guid: nat -> Id, from: nat)
    ensures var ms := ModelsParam(Initialized(clipboard, guid, from), "models");
      && |ms| == |clipboard|
      && forall i :: 0 <= i < |clipboard| ==>
        && IdOf(ms[i]) == guid(from + i)
        && ms[i].Keys == clipboard[i].Keys + {"id", "x", "y"}
        && ms[i]["x"] == PlusTen(Field(clipboard[i], "x")) && ms[i]["y"] == PlusTen(Field(clipboard[i], "y"))
        && forall k :: k in clipboard[i] && k !in {"id", "x", "y"} ==> ms[i][k] == clipboard[i][k]
  {
    var ms := ModelsParam(Initialized(clipboard, guid, from), "models");
    CopiesAt(clipboard, PasteCopy, guid, from);
    forall i | 0 <= i < |clipboard|
      ensures && IdOf(ms[i]) == guid(from + i)
        && ms[i].Keys == clipboard[i].Keys + {"id", "x", "y"}
        && ms[i]["x"] == PlusTen(Field(clipboard[i], "x")) && ms[i]["y"] == PlusTen(Field(clipboard[i], "y"))
        && forall k :: k in clipboard[i] && k !in {"id", "x", "y"} ==> ms[i][k] == clipboard[i][k]
    {
      CopyFields(clipboard[i], map[], guid(from + i));
    }
  }

  /** With fresh draws, execute after init adds exactly the pasted models
      as new nodes, changes no edge or combo, and leaves exactly them
      selected. */
  lemma ExecuteAddsCopies(v: GraphValue, clipboard: seq<ItemModel>, guid: nat -> Id, from: nat)
    requires Valid(v) && FreshIds(guid, from, |clipboard|, AllIds(v))
    ensures var q := Initialized(clipboard, guid, from);
      && Valid(Executed(v, q))
      && Executed(v, q).nodes.vals == v.nodes.vals + ModelMap(ModelsParam(q, "models"))
      && Executed(v, q).edges.vals == v.edges.vals && Executed(v, q).combos.vals == v.combos.vals
      && forall x :: IsSelected(Executed(v, q), x) <==> x in IdsOf(ModelsParam(q, "models"))
  {
    var ms := ModelsParam(Initialized(clipboard, guid, from), "models");
    CopierIds(m => map[]);
    CopiesFresh(clipboard, PasteCopy, guid, from, AllIds(v));
    AddedStores(v, ms);
    AddedSelects(v, ms);
  }

  /** ... and undo removes them again, giving back every node, edge and
      combo model, when no edge names a drawn id. */
  lemma UndoRemovesCopies(v: GraphValue, clipboard: seq<ItemModel>, guid: nat -> Id, from: nat)
    requires Valid(v) && FreshIds(guid, from, |clipboard|, AllIds(v))
    requires NoEdgeTo(v, Elems(IdsOf(ModelsParam(Initialized(clipboard, guid, from), "models"))))
    ensures var q := Initialized(clipboard, guid, from);
      && Undone(Executed(v, q), q).nodes.vals == v.nodes.vals
      && Undone(Executed(v, q), q).edges.vals == v.edges.vals
      && Undone(Executed(v, q), q).combos.vals == v.combos.vals
  {
    var ms := ModelsParam(Initialized(clipboard, guid, from), "models");
    CopierIds(m => map[]);
    CopiesFresh(clipboard, PasteCopy, guid, from, AllIds(v));
    AddedThenRemoved(v, ms);
  }
}
