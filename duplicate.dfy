/** src/components/Graph/command/duplicate.ts: copies the selected nodes
    under fresh ids, ten units right and down, selects the copies, and
    removes them on undo. */
module DuplicateCommand {
  import opened Model
  import opened G6
  import opened G6Graph
  import opened Utils
  import opened Session
  import opened NodeCopies

  /** The template's params: no models, and a `mapNode` that returns
      undefined, so it adds no field. */
  const DefaultParams: Params := map["models" := PModels([]), "mapNode" := PMapper(m => map[])]

  predicate CanExecute(v: GraphValue)
  {
    v.mode != ReadonlyMode && |SelectedNodes(v)| > 0
  }

  /** The copy init makes of each model.  A defined `mapNode` adds the
      fields it returns; a null or missing one adds `startNode: false`; a
      defined value that is not a function throws when called: None. */
  function CopierOf(p: Params): Option<(ItemModel, Id) -> ItemModel>
  {
    if "mapNode" !in p || p["mapNode"].PNull? then Some(Copier(m => map["startNode" := Bool(false)]))
    else if p["mapNode"].PMapper? then Some(Copier(p["mapNode"].f))
    else None
  }

  /** init: `params.models` becomes one copy per selected node.  A failing
      `mapNode` call throws on the first model, before any id is drawn. */
  function Initialized(v: GraphValue, p: Params, guid: nat -> Id, from: nat): Option<Params>
  {
    var ms := SelectedModels(v);
    var c := CopierOf(p);
    if c.None? && ms != [] then None
    else if c.None? then Some(p["models" := PModels([])])
    else Some(p["models" := PModels(Copies(ms, c.value, guid, from))])
  }

  function Executed(v: GraphValue, p: Params): GraphValue
  {
    Added(v, ModelsParam(p, "models"))
  }

  function Undone(v: GraphValue, p: Params): GraphValue
  {
    Removed(v, ModelsParam(p, "models"))
  }

  method Init(g: Graph, s: Session, p: Params) returns (q: Option<Params>)
    modifies s`drawn
    ensures q == Initialized(g.View(), p, s.guid, old(s.drawn))
    ensures s.drawn == old(s.drawn) + (if q.Some? then |ModelsParam(q.value, "models")| else 0)
  {
    var ms := SelectedModels(g.View());
    var c := CopierOf(p);
    if c.None? {
      if ms != [] {
        return None;
      }
      return Some(p["models" := PModels([])]);
    }
    var copies := MakeCopies(s, ms, c.value);
    q := Some(p["models" := PModels(copies)]);
  }

  method Execute(g: Graph, p: Params)
    modifies g
    ensures g.View() == Executed(old(g.View()), p)
  {
    AddAll(g, ModelsParam(p, "models"));
  }

  method Undo(g: Graph, p: Params)
    modifies g
    ensures g.View() == Undone(old(g.View()), p)
  {
    RemoveEach(g, ModelsParam(p, "models"));
  }

  /** init makes one copy per selected node, in graph order: the i-th copy
      is the i-th selected node's model under the i-th fresh id, moved by
      (10, 10), with the fields `mapNode` returns, or `startNode: false`
      when there is no `mapNode`. */
  lemma InitCopies(v: GraphValue, p: Params, guid: nat -> Id, from: nat)
    requires Valid(v) && CopierOf(p).Some?
    ensures Initialized(v, p, guid, from).Some?
    ensures |ModelsParam(Initialized(v, p, guid, from).value, "models")| == |SelectedNodes(v)|
    ensures forall i :: 0 <= i < |SelectedNodes(v)| ==>
      ModelsParam(Initialized(v, p, guid, from).value, "models")[i]
      == CopierOf(p).value(v.nodes.vals[SelectedNodes(v)[i]], guid(from + i))
  {
    SelectedModelsAre(v);
    CopiesAt(SelectedModels(v), CopierOf(p).value, guid, from);
  }

  /** The default `mapNode` is a function, so its branch runs and, as it
      returns undefined, a copy gains no field but id, x and y. */
  lemma DefaultCopier()
    ensures CopierOf(DefaultParams).Some?
    ensures forall m, id :: CopierOf(DefaultParams).value(m, id).Keys == m.Keys + {"id", "x", "y"}
  {
    forall m, id
      ensures CopierOf(DefaultParams).value(m, id).Keys == m.Keys + {"id", "x", "y"}
    {
      CopyFields(m, map[], id);
    }
  }

  /** Only a null or missing `mapNode` marks the copies `startNode: false`. */
  lemma NoMapperCopier(p: Params)
    requires "mapNode" !in p || p["mapNode"].PNull?
    ensures CopierOf(p).Some?
    ensures forall m, id ::
      "startNode" in CopierOf(p).value(m, id) && CopierOf(p).value(m, id)["startNode"] == Bool(false)
  {
    forall m, id
      ensures "startNode" in CopierOf(p).value(m, id) && CopierOf(p).value(m, id)["startNode"] == Bool(false)
    {
      CopyFields(m, map["startNode" := Bool(false)], id);
    }
  }

  /** With fresh draws, execute after init adds exactly the copies as new
      nodes, changes no edge or combo, and leaves exactly the copies
      selected. */
  lemma ExecuteAddsCopies(v: GraphValue, p: Params, guid: nat -> Id, from: nat, q: Params)
    requires Valid(v) && Initialized(v, p, guid, from) == Some(q)
    requires FreshIds(guid, from, |SelectedNodes(v)|, AllIds(v))
    ensures Valid(Executed(v, q))
    ensures Executed(v, q).nodes.vals == v.nodes.vals + ModelMap(ModelsParam(q, "models"))
    ensures Executed(v, q).edges.vals == v.edges.vals && Executed(v, q).combos.vals == v.combos.vals
    ensures forall x :: IsSelected(Executed(v, q), x) <==> x in IdsOf(ModelsParam(q, "models"))
  {
    FreshCopies(v, p, guid, from, q);
    var ms := ModelsParam(q, "models");
    AddedStores(v, ms);
    AddedSelects(v, ms);
  }

  /** ... and undo removes them again, giving back every node, edge and
      combo model, when no edge names a drawn id. */
  lemma UndoRemovesCopies(v: GraphValue, p: Params, guid: nat -> Id, from: nat, q: Params)
    requires Valid(v) && Initialized(v, p, guid, from) == Some(q)
    requires FreshIds(guid, from, |SelectedNodes(v)|, AllIds(v))
    requires NoEdgeTo(v, Elems(IdsOf(ModelsParam(q, "models"))))
    ensures Undone(Executed(v, q), q).nodes.vals == v.nodes.vals
    ensures Undone(Executed(v, q), q).edges.vals == v.edges.vals
    ensures Undone(Executed(v, q), q).combos.vals == v.combos.vals
  {
    FreshCopies(v, p, guid, from, q);
    AddedThenRemoved(v, ModelsParam(q, "models"));
  }

  lemma FreshCopies(v: GraphValue, p: Params, guid: nat -> Id, from: nat, q: Params)
    requires Valid(v) && Initialized(v, p, guid, from) == Some(q)
    requires FreshIds(guid, from, |SelectedNodes(v)|, AllIds(v))
    ensures Distinct(IdsOf(ModelsParam(q, "models"))) && Elems(IdsOf(ModelsParam(q, "models"))) !! AllIds(v)
  {
    var c := CopierOf(p);
    if c.Some? {
      SelectedModelsAre(v);
      if "mapNode" !in p || p["mapNode"].PNull? {
        CopierIds(m => map["startNode" := Bool(false)]);
      } else {
        CopierIds(p["mapNode"].f);
      }
      CopiesFresh(SelectedModels(v), c.value, guid, from, AllIds(v));
    }
  }
}
