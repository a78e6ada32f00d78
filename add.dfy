/** src/components/Graph/command/add.ts: adds one item, selects it, and
    removes it again on undo. */
module AddCommand {
  import opened Model
  import opened G6
  import opened G6Graph
  import opened Utils
  import opened Session

  /** The template's params: a node whose model has an empty id. */
  const DefaultParams: Params := map["type" := PType(Node), "model" := PModel(map["id" := Str("")])]

  /** `params.type`. */
  function TypeParam(p: Params): ItemType
  {
    if "type" in p && p["type"].PType? then p["type"].t else Node
  }

  predicate CanExecute(v: GraphValue)
  {
    v.mode != ReadonlyMode
  }

  /** The model already carries an id init keeps. */
  predicate HasId(p: Params)
  {
    var m := ModelParam(p, "model");
    "id" in m && Truthy(m["id"])
  }

  /** init: a model with a truthy id keeps it; any other model gets `newId`. */
  function Initialized(p: Params, newId: Id): (r: Params)
    ensures HasId(p) ==> r == p
    ensures !HasId(p) ==> IdOf(ModelParam(r, "model")) == newId && HasId(r) == (newId != "")
    ensures !HasId(p) ==> ModelParam(r, "model") - {"id"} == ModelParam(p, "model") - {"id"}
    ensures r - {"model"} == p - {"model"}
  {
    var m := ModelParam(p, "model");
    if HasId(p) then p else p["model" := PModel(m["id" := Str(newId)])]
  }

  method Init(p: Params, s: Session) returns (q: Params)
    modifies s`drawn
    ensures HasId(p) ==> q == p && s.drawn == old(s.drawn)
    ensures !HasId(p) ==> q == Initialized(p, s.guid(old(s.drawn))) && s.drawn == old(s.drawn) + 1
  {
    if HasId(p) {
      return p;
    }
    var id := s.Guid();
    q := p["model" := PModel(ModelParam(p, "model")["id" := Str(id)])];
  }

  /** execute: add the item, select only it, and offer its action menu. */
  function Executed(v: GraphValue, p: Params): GraphValue
  {
    var m := ModelParam(p, "model");
    var id := IdOf(m);
    var w := SetSelected(AddItem(v, TypeParam(p), m), [id]);
    Emit(w, ShowActionMenu(if id in AllIds(w) then Some(id) else None))
  }

  /** undo: remove the item with the model's id. */
  function Undone(v: GraphValue, p: Params): GraphValue
  {
    RemoveItem(v, IdOf(ModelParam(p, "model")))
  }

  method Execute(g: Graph, p: Params)
    modifies g
    ensures g.View() == Executed(old(g.View()), p)
  {
    var m := ModelParam(p, "model");
    g.AddItem(TypeParam(p), m);
    SetSelectedItems(g, [IdOf(m)]);
    var item := if IdOf(m) in AllIds(g.View()) then Some(IdOf(m)) else None;
    g.Emit(ShowActionMenu(item));
  }

  method Undo(g: Graph, p: Params)
    modifies g
    ensures g.View() == Undone(old(g.View()), p)
  {
    g.RemoveItem(IdOf(ModelParam(p, "model")));
  }

  /** execute changes the items only by adding the one item. */
  lemma ExecutedItems(v: GraphValue, p: Params)
    ensures SameItems(Executed(v, p), AddItem(v, TypeParam(p), ModelParam(p, "model")))
  {
  }

  /** Adding an item with a new id stores its model under that id with the
      requested type and changes no other item. */
  lemma ExecuteStores(v: GraphValue, p: Params)
    requires Valid(v)
    requires IdOf(ModelParam(p, "model")) !in AllIds(v)
    ensures Valid(Executed(v, p))
    ensures AllIds(Executed(v, p)) == AllIds(v) + {IdOf(ModelParam(p, "model"))}
    ensures ModelOf(Executed(v, p), IdOf(ModelParam(p, "model"))) == Some(ModelParam(p, "model"))
    ensures TypeOf(Executed(v, p), IdOf(ModelParam(p, "model"))) == Some(TypeParam(p))
    ensures forall x :: x != IdOf(ModelParam(p, "model")) ==> ModelOf(Executed(v, p), x) == ModelOf(v, x)
  {
    var m := ModelParam(p, "model");
    var a := AddItem(v, TypeParam(p), m);
    AddItemValid(v, TypeParam(p), m);
    AddItemNew(v, TypeParam(p), m);
    ExecutedItems(v, p);
    SameItemsAgree(a, Executed(v, p));
  }

  /** After adding an item with a new id exactly it is selected, and the
      graph reports its selection and then its action menu. */
  lemma ExecuteSelects(v: GraphValue, p: Params)
    requires Valid(v)
    requires IdOf(ModelParam(p, "model")) !in AllIds(v)
    ensures forall x :: IsSelected(Executed(v, p), x) <==> x == IdOf(ModelParam(p, "model"))
    ensures Executed(v, p).events == v.events + [GraphStateChange(StateOfType(TypeParam(p))),
                                                 ShowActionMenu(Some(IdOf(ModelParam(p, "model"))))]
  {
    var m := ModelParam(p, "model");
    var id := IdOf(m);
    var a := AddItem(v, TypeParam(p), m);
    AddItemValid(v, TypeParam(p), m);
    AddItemNew(v, TypeParam(p), m);
    SelectOneEffect(a, id);
    var r := Executed(v, p);
    var w := SetSelected(a, [id]);
    ExecutedItems(v, p);
    assert SameItems(a, w);
    assert AllIds(r) == AllIds(w) == AllIds(a);
    assert r.states == w.states;
    assert r.events == w.events + [ShowActionMenu(Some(id))];
    forall x
      ensures IsSelected(r, x) <==> x == id
    {
      assert IsSelected(r, x) == IsSelected(w, x);
    }
  }

  /** Undoing an add of a new id that no edge refers to restores the node,
      edge and combo dictionaries (key order included) and the drawing
      order, and leaves nothing selected. */
  lemma UndoRestores(v: GraphValue, p: Params)
    requires Valid(v)
    requires IdOf(ModelParam(p, "model")) !in AllIds(v)
    requires IncidentEdges(v, IdOf(ModelParam(p, "model"))) == {}
    ensures Undone(Executed(v, p), p).nodes == v.nodes
    ensures Undone(Executed(v, p), p).edges == v.edges
    ensures Undone(Executed(v, p), p).combos == v.combos
    ensures Undone(Executed(v, p), p).stack == v.stack
    ensures forall x :: !IsSelected(Undone(Executed(v, p), p), x)
  {
    var m := ModelParam(p, "model");
    var id := IdOf(m);
    ExecuteStores(v, p);
    ExecuteSelects(v, p);
    var w := Executed(v, p);
    ExecutedItems(v, p);
    AddThenRemove(v, TypeParam(p), m, w);
    var u := Undone(w, p);
    forall x
      ensures !IsSelected(u, x)
    {
      if x in AllIds(u) {
        assert x != id;
        assert !IsSelected(w, x);
      }
    }
  }
}
