/** src/components/Graph/command/update.ts: writes the fields of
    `updateModel` into one item and, on undo, writes back the values those
    fields had before. */
module UpdateCommand {
  import opened Model
  import opened G6
  import opened G6Graph

  /** The template's params. */
  const DefaultParams: Params :=
    map["id" := PStr(""), "originModel" := PModel(map[]), "updateModel" := PModel(map[]),
        "forceRefreshLayout" := PBool(false)]

  predicate CanExecute(v: GraphValue, p: Params)
  {
    v.mode != ReadonlyMode && ModelOf(v, StrParam(p, "id")).Some?
  }

  /** init: `originModel` is the item's model picked down to the fields
      `updateModel` names.  `findById` of a missing id throws: None. */
  function Initialized(v: GraphValue, p: Params): Option<Params>
  {
    var item := ModelOf(v, StrParam(p, "id"));
    if item.None? then None
    else Some(p["originModel" := PModel(Restrict(item.value, ModelParam(p, "updateModel").Keys))])
  }

  /** execute: write `updateModel`, then refresh the layout when asked. */
  function Executed(v: GraphValue, p: Params): GraphValue
  {
    var w := UpdateItem(v, StrParam(p, "id"), ModelParam(p, "updateModel"));
    if FlagParam(p, "forceRefreshLayout") then RefreshLayout(w) else w
  }

  /** undo: write `originModel` back. */
  function Undone(v: GraphValue, p: Params): GraphValue
  {
    UpdateItem(v, StrParam(p, "id"), ModelParam(p, "originModel"))
  }

  method Init(g: Graph, p: Params) returns (q: Option<Params>)
    ensures q == Initialized(g.View(), p)
  {
    var item := ModelOf(g.View(), StrParam(p, "id"));
    if item.None? {
      return None;
    }
    var updatePaths := ModelParam(p, "updateModel").Keys;
    q := Some(p["originModel" := PModel(Restrict(item.value, updatePaths))]);
  }

  method Execute(g: Graph, p: Params)
    modifies g
    ensures g.View() == Executed(old(g.View()), p)
  {
    g.UpdateItem(StrParam(p, "id"), ModelParam(p, "updateModel"));
    if FlagParam(p, "forceRefreshLayout") {
      g.RefreshLayout();
    }
  }

  method Undo(g: Graph, p: Params)
    modifies g
    ensures g.View() == Undone(old(g.View()), p)
  {
    g.UpdateItem(StrParam(p, "id"), ModelParam(p, "originModel"));
  }

  /** init fails exactly when no item has the id, and otherwise records,
      for each field `updateModel` names, the value the item has there;
      fields the item lacks are not recorded. */
  lemma InitPicks(v: GraphValue, p: Params)
    ensures Initialized(v, p).None? <==> StrParam(p, "id") !in AllIds(v)
    ensures Initialized(v, p).Some? ==>
      var origin := ModelParam(Initialized(v, p).value, "originModel");
      var m := ModelOf(v, StrParam(p, "id")).value;
      && origin.Keys == m.Keys * ModelParam(p, "updateModel").Keys
      && (forall k :: k in origin ==> origin[k] == m[k])
      && StrParam(Initialized(v, p).value, "id") == StrParam(p, "id")
      && ModelParam(Initialized(v, p).value, "updateModel") == ModelParam(p, "updateModel")
  {
  }

  /** execute writes every field of `updateModel` into the item, keeps its
      other fields, changes no other item and refreshes the layout exactly
      when `forceRefreshLayout` is set. */
  lemma ExecuteWrites(v: GraphValue, p: Params)
    requires StrParam(p, "id") in AllIds(v)
    ensures var m := ModelOf(v, StrParam(p, "id")).value;
      var r := ModelOf(Executed(v, p), StrParam(p, "id")).value;
      var u := ModelParam(p, "updateModel");
      && ModelOf(Executed(v, p), StrParam(p, "id")).Some?
      && r.Keys == m.Keys + u.Keys
      && (forall k :: k in u ==> r[k] == u[k])
      && (forall k :: k in m && k !in u ==> r[k] == m[k])
    ensures forall x :: x != StrParam(p, "id") ==> ModelOf(Executed(v, p), x) == ModelOf(v, x)
    ensures Executed(v, p).layouts == v.layouts + (if FlagParam(p, "forceRefreshLayout") then 1 else 0)
  {
    var id := StrParam(p, "id");
    UpdateItemModel(v, id, ModelParam(p, "updateModel"));
    var w := UpdateItem(v, id, ModelParam(p, "updateModel"));
    forall x
      ensures ModelOf(Executed(v, p), x) == ModelOf(w, x)
    {
    }
  }

  /** execute then undo: every field the item had comes back with its old
      value; a field `updateModel` added that the item lacked keeps the
      updated value; no other item changes. */
  lemma UndoRestores(v: GraphValue, p: Params, q: Params)
    requires Initialized(v, p) == Some(q)
    ensures var m := ModelOf(v, StrParam(p, "id")).value;
      var r := ModelOf(Undone(Executed(v, q), q), StrParam(p, "id")).value;
      var u := ModelParam(p, "updateModel");
      && ModelOf(Undone(Executed(v, q), q), StrParam(p, "id")).Some?
      && r.Keys == m.Keys + u.Keys
      && (forall k :: k in m ==> r[k] == m[k])
      && (forall k :: k in u && k !in m ==> r[k] == u[k])
    ensures forall x :: x != StrParam(p, "id") ==> ModelOf(Undone(Executed(v, q), q), x) == ModelOf(v, x)
  {
    InitPicks(v, p);
    ExecuteWrites(v, q);
    var id := StrParam(p, "id");
    var w := Executed(v, q);
    UpdateItemModel(w, id, ModelParam(q, "originModel"));
  }

  /** An update that adds no field restores the item's model exactly. */
  lemma UndoRestoresModel(v: GraphValue, p: Params, q: Params)
    requires Initialized(v, p) == Some(q)
    requires ModelParam(p, "updateModel").Keys <= ModelOf(v, StrParam(p, "id")).value.Keys
    ensures ModelOf(Undone(Executed(v, q), q), StrParam(p, "id")) == ModelOf(v, StrParam(p, "id"))
  {
    UndoRestores(v, p, q);
    var id := StrParam(p, "id");
    SameFields(ModelOf(v, id).value, ModelOf(Undone(Executed(v, q), q), id).value, ModelParam(p, "updateModel"));
  }

  lemma SameFields(m: ItemModel, r: ItemModel, u: ItemModel)
    requires r.Keys == m.Keys + u.Keys && u.Keys <= m.Keys
    requires forall k :: k in m ==> r[k] == m[k]
    ensures r == m
  {
  }
}
