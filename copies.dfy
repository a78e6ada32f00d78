/** What src/components/Graph/command/duplicate.ts and paste.ts share:
    both turn a list of node models into copies with fresh ids, moved ten
    units right and down, then add the copies and select exactly them, and
    remove them again on undo. */
module NodeCopies {
  import opened Model
  import opened G6
  import opened G6Graph
  import opened Utils
  import opened Session

  /** `model.x` or `model.y`; a missing field reads as undefined. */
  function Field(m: ItemModel, k: string): Value
  {
    if k in m then m[k] else Undefined
  }

  /** JavaScript `x + 10` for a field value: numbers add, strings and
      objects concatenate, undefined gives NaN. */
  function PlusTen(x: Value): (r: Value)
    ensures x.Num? ==> r == Num(x.n + 10)
    ensures x.Undefined? || x.NaN? ==> r.NaN?
  {
    match x
    case Num(n) => Num(n + 10)
    case Str(s) => Str(s + "10")
    case Bool(b) => Num(if b then 11 else 10)
    case Pt(_) => Str("[object Object]10")
    case Undefined => NaN
    case NaN => NaN
  }

  /** `{ ...model, ...extra, id, x: x + 10, y: y + 10 }`. */
  function Copy(m: ItemModel, extra: ItemModel, id: Id): ItemModel
  {
    Spread(Spread(m, extra), map["id" := Str(id), "x" := PlusTen(Field(m, "x")), "y" := PlusTen(Field(m, "y"))])
  }

  /** The copy function of a command: `extra` gives the fields it adds to
      each model. */
  function Copier(extra: ItemModel -> ItemModel): (ItemModel, Id) -> ItemModel
  {
    (m, id) => Copy(m, extra(m), id)
  }

  /** `models.map(model => copy(model, guid()))`, the i-th copy taking the
      i-th id that `guid()` returns from draw `from` on. */
  function Copies(ms: seq<ItemModel>, copy: (ItemModel, Id) -> ItemModel, guid: nat -> Id, from: nat): (r: seq<ItemModel>)
    ensures |r| == |ms|
  {
    if ms == [] then []
    else
      var init := ms[..|ms| - 1];
      Copies(init, copy, guid, from) + [copy(ms[|ms| - 1], guid(from + |init|))]
  }

  /** The i-th copy is the i-th model copied with the i-th fresh id. */
  lemma {:induction false} CopiesAt(ms: seq<ItemModel>, copy: (ItemModel, Id) -> ItemModel, guid: nat -> Id, from: nat)
    ensures forall i :: 0 <= i < |ms| ==> Copies(ms, copy, guid, from)[i] == copy(ms[i], guid(from + i))
    decreases |ms|
  {
    if ms != [] {
      var init := ms[..|ms| - 1];
      CopiesAt(init, copy, guid, from);
      assert forall i :: 0 <= i < |init| ==> init[i] == ms[i];
    }
  }

  /** A copy has the new id and the moved position, and otherwise the
      fields of `extra` over those of the original. */
  lemma CopyFields(m: ItemModel, extra: ItemModel, id: Id)
    ensures IdOf(Copy(m, extra, id)) == id
    ensures Copy(m, extra, id)["x"] == PlusTen(Field(m, "x"))
    ensures Copy(m, extra, id)["y"] == PlusTen(Field(m, "y"))
    ensures Copy(m, extra, id).Keys == m.Keys + extra.Keys + {"id", "x", "y"}
    ensures forall k :: k in extra && k !in {"id", "x", "y"} ==> Copy(m, extra, id)[k] == extra[k]
    ensures forall k :: k in m && k !in extra && k !in {"id", "x", "y"} ==> Copy(m, extra, id)[k] == m[k]
  {
  }

  /** Every copier gives the copy the id it is handed. */
  lemma CopierIds(extra: ItemModel -> ItemModel)
    ensures forall m, id :: IdOf(Copier(extra)(m, id)) == id
  {
    forall m, id
      ensures IdOf(Copier(extra)(m, id)) == id
    {
      CopyFields(m, extra(m), id);
    }
  }

  /** Copies made with fresh draws by a copier that keeps the id it is
      handed have distinct ids, all new to `used`. */
  lemma CopiesFresh(ms: seq<ItemModel>, copy: (ItemModel, Id) -> ItemModel, guid: nat -> Id, from: nat, used: set<Id>)
    requires forall m, id :: IdOf(copy(m, id)) == id
    requires FreshIds(guid, from, |ms|, used)
    ensures Distinct(IdsOf(Copies(ms, copy, guid, from)))
    ensures Elems(IdsOf(Copies(ms, copy, guid, from))) !! used
  {
    CopiesIds(ms, copy, guid, from);
    DrawnFresh(IdsOf(Copies(ms, copy, guid, from)), guid, from, used);
  }

  /** The i-th copy carries the i-th drawn id. */
  lemma CopiesIds(ms: seq<ItemModel>, copy: (ItemModel, Id) -> ItemModel, guid: nat -> Id, from: nat)
    requires forall m, id :: IdOf(copy(m, id)) == id
    ensures forall i :: 0 <= i < |ms| ==> IdsOf(Copies(ms, copy, guid, from))[i] == guid(from + i)
  {
    var r := Copies(ms, copy, guid, from);
    CopiesAt(ms, copy, guid, from);
    forall i | 0 <= i < |ms|
      ensures IdsOf(r)[i] == guid(from + i)
    {
      assert r[i] == copy(ms[i], guid(from + i));
    }
  }

  /** Ids drawn one after another from fresh draws are distinct and new. */
  lemma DrawnFresh(ids: seq<Id>, guid: nat -> Id, from: nat, used: set<Id>)
    requires FreshIds(guid, from, |ids|, used)
    requires forall i :: 0 <= i < |ids| ==> ids[i] == guid(from + i)
    ensures Distinct(ids) && Elems(ids) !! used
  {
    forall x | x in Elems(ids)
      ensures x !in used
    {
      var i :| 0 <= i < |ids| && ids[i] == x;
    }
  }

  /** The loop `models.map(...)` that calls `guid()` once per model. */
  method MakeCopies(s: Session, ms: seq<ItemModel>, copy: (ItemModel, Id) -> ItemModel) returns (r: seq<ItemModel>)
    modifies s`drawn
    ensures r == Copies(ms, copy, s.guid, old(s.drawn))
    ensures s.drawn == old(s.drawn) + |ms|
  {
    r := [];
    for i := 0 to |ms|
      invariant s.drawn == old(s.drawn) + i
      invariant r == Copies(ms[..i], copy, s.guid, old(s.drawn))
    {
      assert ms[..i + 1][..i] == ms[..i];
      var id := s.Guid();
      r := r + [copy(ms[i], id)];
    }
    PrefixAll(ms);
  }

  /** `nodes.map(node => node.getModel())`. */
  function ModelsOf(d: Dict, ids: seq<Id>): (r: seq<ItemModel>)
    ensures |r| == |ids|
    ensures forall i :: 0 <= i < |ids| && ids[i] in d.vals ==> r[i] == d.vals[ids[i]]
  {
    if ids == [] then []
    else
      var last := ids[|ids| - 1];
      ModelsOf(d, ids[..|ids| - 1]) + [if last in d.vals then d.vals[last] else map[]]
  }

  /** The models of the selected nodes, in graph order. */
  function SelectedModels(v: GraphValue): seq<ItemModel>
  {
    ModelsOf(v.nodes, SelectedNodes(v))
  }

  /** The i-th selected model is the model of the i-th selected node, a
      node that carries the selected state. */
  lemma SelectedModelsAre(v: GraphValue)
    requires Valid(v)
    ensures |SelectedModels(v)| == |SelectedNodes(v)|
    ensures forall i :: 0 <= i < |SelectedNodes(v)| ==>
      && SelectedNodes(v)[i] in v.nodes.vals && IsSelected(v, SelectedNodes(v)[i])
      && SelectedModels(v)[i] == v.nodes.vals[SelectedNodes(v)[i]]
      && IdOf(SelectedModels(v)[i]) == SelectedNodes(v)[i]
  {
    assert forall n :: n in v.nodes.keys <==> n in v.nodes.vals;
  }

  /** execute: add every model in one batch, select exactly them, and
      offer the action menu when there is just one. */
  function Added(v: GraphValue, ms: seq<ItemModel>): GraphValue
  {
    var w := BatchClosed(AddModels(BatchOpened(v), Node, ms), v.autoPaint);
    var r := SetSelected(w, IdsOf(ms));
    if |ms| == 1 then Emit(r, ShowActionMenu(if IdOf(ms[0]) in AllIds(r) then Some(IdOf(ms[0])) else None))
    else r
  }

  /** undo: remove every model's id in one batch. */
  function Removed(v: GraphValue, ms: seq<ItemModel>): GraphValue
  {
    BatchClosed(RemoveAll(BatchOpened(v), IdsOf(ms)), v.autoPaint)
  }

  method AddAll(g: Graph, ms: seq<ItemModel>)
    modifies g
    ensures g.View() == Added(old(g.View()), ms)
  {
    var saved := BeginBatch(g);
    ghost var start := g.View();
    for i := 0 to |ms|
      invariant g.View() == AddModels(start, Node, ms[..i])
    {
      AddModelsStep(start, Node, ms, i);
      g.AddItem(Node, ms[i]);
    }
    PrefixAll(ms);
    EndBatch(g, saved);
    var ids := IdsOf(ms);
    SetSelectedItems(g, ids);
    if |ms| == 1 {
      var item := if IdOf(ms[0]) in AllIds(g.View()) then Some(IdOf(ms[0])) else None;
      g.Emit(ShowActionMenu(item));
    }
  }

  method RemoveEach(g: Graph, ms: seq<ItemModel>)
    modifies g
    ensures g.View() == Removed(old(g.View()), ms)
  {
    var ids := IdsOf(ms);
    RemoveIds(g, ids);
  }

  method RemoveIds(g: Graph, ids: seq<Id>)
    modifies g
    ensures g.View() == BatchClosed(RemoveAll(BatchOpened(old(g.View())), ids), old(g.View()).autoPaint)
  {
    var saved := BeginBatch(g);
    ghost var start := g.View();
    for i := 0 to |ids|
      invariant g.View() == RemoveAll(start, ids[..i])
    {
      RemoveAllStep(start, ids, i);
      g.RemoveItem(ids[i]);
    }
    PrefixAll(ids);
    EndBatch(g, saved);
  }

  /** Adding models with distinct new ids keeps the graph valid, adds them
      as nodes under their ids, and changes no edge or combo. */
  lemma AddedStores(v: GraphValue, ms: seq<ItemModel>)
    requires Valid(v)
    requires Distinct(IdsOf(ms)) && Elems(IdsOf(ms)) !! AllIds(v)
    ensures Valid(Added(v, ms))
    ensures AllIds(Added(v, ms)) == AllIds(v) + Elems(IdsOf(ms))
    ensures Added(v, ms).nodes.vals == v.nodes.vals + ModelMap(ms)
    ensures Added(v, ms).edges.vals == v.edges.vals
    ensures Added(v, ms).combos.vals == v.combos.vals
  {
    var o := BatchOpened(v);
    assert SameItems(v, o);
    SameItemsAgree(v, o);
    AddModelsIds(o, Node, ms);
    AddModelsEffect(o, Node, ms);
    var a := AddModels(o, Node, ms);
    var w := BatchClosed(a, v.autoPaint);
    var r := SetSelected(w, IdsOf(ms));
    assert SameItems(a, w) && SameItems(w, r);
    SameItemsAgree(a, r);
    assert SameItems(r, Added(v, ms));
    SameItemsAgree(r, Added(v, ms));
  }

  /** ... and leaves exactly the added models selected. */
  lemma AddedSelects(v: GraphValue, ms: seq<ItemModel>)
    requires Valid(v)
    requires Distinct(IdsOf(ms)) && Elems(IdsOf(ms)) !! AllIds(v)
    ensures forall x :: IsSelected(Added(v, ms), x) <==> x in IdsOf(ms)
  {
    var o := BatchOpened(v);
    assert SameItems(v, o);
    SameItemsAgree(v, o);
    AddModelsIds(o, Node, ms);
    var a := AddModels(o, Node, ms);
    var w := BatchClosed(a, v.autoPaint);
    assert SameItems(a, w);
    SameItemsAgree(a, w);
    SetSelectedEffect(w, IdsOf(ms));
    var r := SetSelected(w, IdsOf(ms));
    forall x
      ensures IsSelected(Added(v, ms), x) <==> x in IdsOf(ms)
    {
      assert IsSelected(Added(v, ms), x) == IsSelected(r, x);
    }
  }

  /** No edge of the graph names one of `ids` as its source or target. */
  predicate NoEdgeTo(v: GraphValue, ids: set<Id>)
  {
    forall e, n :: e in v.edges.vals && n in ids ==> !Incident(v.edges.vals[e], n)
  }

  /** Removing the models just added, under distinct new ids no edge
      refers to, gives back the node, edge and combo models. */
  lemma AddedThenRemoved(v: GraphValue, ms: seq<ItemModel>)
    requires Valid(v)
    requires Distinct(IdsOf(ms)) && Elems(IdsOf(ms)) !! AllIds(v)
    requires NoEdgeTo(v, Elems(IdsOf(ms)))
    ensures Removed(Added(v, ms), ms).nodes.vals == v.nodes.vals
    ensures Removed(Added(v, ms), ms).edges.vals == v.edges.vals
    ensures Removed(Added(v, ms), ms).combos.vals == v.combos.vals
  {
    var a := Added(v, ms);
    var r := Removed(a, ms);
    var k := Elems(IdsOf(ms));
    assert Valid(a) && a.nodes.vals == v.nodes.vals + ModelMap(ms)
      && a.edges.vals == v.edges.vals && a.combos.vals == v.combos.vals by {
      AddedStores(v, ms);
    }
    assert r.nodes.vals == a.nodes.vals - k && r.edges.vals == a.edges.vals - (k + Swept(a, k))
      && r.combos.vals == a.combos.vals - k by {
      RemovedEffect(a, ms);
    }
    assert k + Swept(a, k) == k by { NoneSwept(v, a, k); }
    assert ModelMap(ms).Keys == k;
    Restored(v, a, r, ModelMap(ms), k);
  }

  /** The map algebra behind AddedThenRemoved: taking fresh keys away again
      leaves each item map as it was. */
  lemma Restored(v: GraphValue, a: GraphValue, r: GraphValue, added: map<Id, ItemModel>, k: set<Id>)
    requires AllIds(v) !! k && added.Keys == k
    requires a.nodes.vals == v.nodes.vals + added && a.edges.vals == v.edges.vals && a.combos.vals == v.combos.vals
    requires r.nodes.vals == a.nodes.vals - k && r.edges.vals == a.edges.vals - k && r.combos.vals == a.combos.vals - k
    ensures r.nodes.vals == v.nodes.vals && r.edges.vals == v.edges.vals && r.combos.vals == v.combos.vals
  {
    UnionMinus(v.nodes.vals, added, k);
    MinusFresh(v.edges.vals, k);
    MinusFresh(v.combos.vals, k);
  }

  /** undo removes exactly the models' ids and the edges of the nodes among
      them. */
  lemma RemovedEffect(a: GraphValue, ms: seq<ItemModel>)
    requires Valid(a)
    ensures Valid(Removed(a, ms))
    ensures Removed(a, ms).nodes.vals == a.nodes.vals - Elems(IdsOf(ms))
    ensures Removed(a, ms).edges.vals == a.edges.vals - (Elems(IdsOf(ms)) + Swept(a, Elems(IdsOf(ms))))
    ensures Removed(a, ms).combos.vals == a.combos.vals - Elems(IdsOf(ms))
  {
    var o := BatchOpened(a);
    assert SameItems(a, o);
    SameItemsAgree(a, o);
    RemoveAllEffect(o, IdsOf(ms));
    assert Swept(o, Elems(IdsOf(ms))) == Swept(a, Elems(IdsOf(ms)));
    assert SameItems(RemoveAll(o, IdsOf(ms)), Removed(a, ms));
    SameItemsAgree(RemoveAll(o, IdsOf(ms)), Removed(a, ms));
  }

  lemma NoneSwept(v: GraphValue, a: GraphValue, k: set<Id>)
    requires NoEdgeTo(v, k) && a.edges.vals == v.edges.vals
    ensures Swept(a, k) == {}
  {
  }

  lemma UnionMinus(m: map<Id, ItemModel>, n: map<Id, ItemModel>, k: set<Id>)
    requires m.Keys !! k && n.Keys == k
    ensures m + n - k == m
  {
  }

  lemma MinusFresh(m: map<Id, ItemModel>, k: set<Id>)
    requires m.Keys !! k
    ensures m - k == m
  {
  }
}
