/** src/components/Graph/command/changeEdgeControl.ts and its identical
    copy changeEdgeControll.ts: replace an edge by its model with the fields
    of `updateModel` written over it, and on undo put the original model
    back.  There is no init: both params come from the caller. */
module ChangeEdgeControlCommand {
  import opened Model
  import opened G6
  import opened G6Graph
  import opened Utils

  const DefaultParams: Params := map["model" := PNull, "updateModel" := PNull]

  predicate CanExecute(v: GraphValue)
  {
    v.mode != ReadonlyMode
  }

  /** `params.model` is an object; when it is null, reading `model.id`
      throws inside the batch. */
  predicate HasModel(p: Params)
  {
    "model" in p && p["model"].PModel?
  }

  /** Remove the edge with the model's id and add `edge` in its place. */
  function Replaced(v: GraphValue, id: Id, edge: ItemModel): GraphValue
  {
    BatchClosed(AddItem(RemoveItem(BatchOpened(v), id), Edge, edge), v.autoPaint)
  }

  /** execute: `{...model, ...updateModel}` in place of `model.id`; a null
      `updateModel` spreads nothing. */
  function Executed(v: GraphValue, p: Params): Run
  {
    if !HasModel(p) then Threw(BatchOpened(v))
    else
      var m := ModelParam(p, "model");
      Ran(Replaced(v, IdOf(m), Spread(m, ModelParam(p, "updateModel"))))
  }

  /** undo: `model` itself in place of `model.id`. */
  function Undone(v: GraphValue, p: Params): Run
  {
    if !HasModel(p) then Threw(BatchOpened(v))
    else
      var m := ModelParam(p, "model");
      Ran(Replaced(v, IdOf(m), m))
  }

  method Replace(g: Graph, id: Id, edge: ItemModel)
    modifies g
    ensures g.View() == Replaced(old(g.View()), id, edge)
  {
    var saved := BeginBatch(g);
    g.RemoveItem(id);
    g.AddItem(Edge, edge);
    EndBatch(g, saved);
  }

  method Execute(g: Graph, p: Params) returns (threw: bool)
    modifies g
    ensures Executed(old(g.View()), p) == if threw then Threw(g.View()) else Ran(g.View())
  {
    if !HasModel(p) {
      var _ := BeginBatch(g);
      return true;
    }
    var m := ModelParam(p, "model");
    Replace(g, IdOf(m), Spread(m, ModelParam(p, "updateModel")));
    threw := false;
  }

  method Undo(g: Graph, p: Params) returns (threw: bool)
    modifies g
    ensures Undone(old(g.View()), p) == if threw then Threw(g.View()) else Ran(g.View())
  {
    if !HasModel(p) {
      var _ := BeginBatch(g);
      return true;
    }
    var m := ModelParam(p, "model");
    Replace(g, IdOf(m), m);
    threw := false;
  }

  /** Replacing an edge (or adding one under an id no item has) by a model
      that carries the same id stores that model under the id, keeps every
      other edge, node and combo, and keeps the graph valid. */
  lemma ReplacedEdge(v: GraphValue, id: Id, edge: ItemModel)
    requires Valid(v) && IdOf(edge) == id
    requires id !in v.nodes.vals && id !in v.combos.vals
    ensures Valid(Replaced(v, id, edge))
    ensures Replaced(v, id, edge).edges.vals == v.edges.vals[id := edge]
    ensures Replaced(v, id, edge).nodes.vals == v.nodes.vals
    ensures Replaced(v, id, edge).combos.vals == v.combos.vals
  {
    var o := BatchOpened(v);
    assert SameItems(v, o);
    SameItemsAgree(v, o);
    RemoveEdgeOnly(o, id);
    var r := RemoveItem(o, id);
    AddItemValid(r, Edge, edge);
    AddEdgeNew(r, edge);
    var a := AddItem(r, Edge, edge);
    assert SameItems(a, Replaced(v, id, edge));
    SameItemsAgree(a, Replaced(v, id, edge));
  }

  /** Removing what is not a node removes at most that one id. */
  lemma RemoveEdgeOnly(v: GraphValue, id: Id)
    requires Valid(v) && id !in v.nodes.vals && id !in v.combos.vals
    ensures Valid(RemoveItem(v, id)) && id !in AllIds(RemoveItem(v, id))
    ensures RemoveItem(v, id).edges.vals == v.edges.vals - {id}
    ensures RemoveItem(v, id).nodes.vals == v.nodes.vals
    ensures RemoveItem(v, id).combos.vals == v.combos.vals
  {
    RemoveItemValid(v, id);
    assert RemovedBy(v, id) == if id in v.edges.vals then {id} else {};
  }

  /** Adding an edge under a new id. */
  lemma AddEdgeNew(v: GraphValue, edge: ItemModel)
    requires IdOf(edge) !in AllIds(v)
    ensures AddItem(v, Edge, edge).edges.vals == v.edges.vals[IdOf(edge) := edge]
    ensures AddItem(v, Edge, edge).nodes.vals == v.nodes.vals
    ensures AddItem(v, Edge, edge).combos.vals == v.combos.vals
  {
  }

  /** execute: when `updateModel` does not change the id, the edge under
      `model.id` becomes the model with the `updateModel` fields written
      over it, and nothing else changes. */
  lemma ExecuteOverrides(v: GraphValue, p: Params)
    requires Valid(v) && HasModel(p)
    requires "id" !in ModelParam(p, "updateModel")
    requires IdOf(ModelParam(p, "model")) !in v.nodes.vals && IdOf(ModelParam(p, "model")) !in v.combos.vals
    ensures Executed(v, p).Ran? && Valid(Executed(v, p).graph)
    ensures var m := ModelParam(p, "model");
      var u := ModelParam(p, "updateModel");
      var e := Executed(v, p).graph.edges.vals[IdOf(m)];
      && Executed(v, p).graph.edges.vals == v.edges.vals[IdOf(m) := e]
      && e.Keys == m.Keys + u.Keys
      && (forall k :: k in u ==> e[k] == u[k])
      && (forall k :: k in m && k !in u ==> e[k] == m[k])
    ensures Executed(v, p).graph.nodes.vals == v.nodes.vals
  {
    var m := ModelParam(p, "model");
    var s := Spread(m, ModelParam(p, "updateModel"));
    assert IdOf(s) == IdOf(m);
    ReplacedEdge(v, IdOf(m), s);
  }

  /** execute then undo: the edge under `model.id` is `model` again and no
      other item has changed; if that edge was `model` to begin with, the
      edge models are exactly as before (the edge is now drawn last). */
  lemma RoundTrip(v: GraphValue, p: Params, w: GraphValue)
    requires Valid(v) && HasModel(p)
    requires "id" !in ModelParam(p, "updateModel")
    requires IdOf(ModelParam(p, "model")) !in v.nodes.vals && IdOf(ModelParam(p, "model")) !in v.combos.vals
    requires Executed(v, p) == Ran(w)
    ensures Undone(w, p).Ran?
    ensures var m := ModelParam(p, "model");
      Undone(w, p).graph.edges.vals == v.edges.vals[IdOf(m) := m]
    ensures Undone(w, p).graph.nodes.vals == v.nodes.vals
    ensures Undone(w, p).graph.combos.vals == v.combos.vals
    ensures var m := ModelParam(p, "model");
      IdOf(m) in v.edges.vals && v.edges.vals[IdOf(m)] == m ==> Undone(w, p).graph.edges.vals == v.edges.vals
  {
    var m := ModelParam(p, "model");
    var s := Spread(m, ModelParam(p, "updateModel"));
    assert IdOf(s) == IdOf(m);
    ReplacedEdge(v, IdOf(m), s);
    assert w == Replaced(v, IdOf(m), s);
    ReplacedEdge(w, IdOf(m), m);
    assert Undone(w, p) == Ran(Replaced(w, IdOf(m), m));
    WriteTwice(v.edges.vals, IdOf(m), s, m);
  }

  lemma WriteTwice(d: map<Id, ItemModel>, k: Id, a: ItemModel, b: ItemModel)
    ensures d[k := a][k := b] == d[k := b]
    ensures k in d && d[k] == b ==> d[k := b] == d
  {
  }

  /** A null `model` makes both execute and undo throw with the batch still
      open: auto-paint stays off and nothing is painted. */
  lemma NullModelThrows(v: GraphValue, p: Params)
    requires !HasModel(p)
    ensures Executed(v, p).Threw? && Undone(v, p).Threw?
    ensures !Executed(v, p).graph.autoPaint && Executed(v, p).graph.paints == v.paints
    ensures SameItems(Executed(v, p).graph, v)
  {
  }
}
