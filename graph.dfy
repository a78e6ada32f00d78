/** The part of the G6 graph API that the editor's commands and behaviours
    use, over an abstract graph: item models keyed by id, item states,
    visibility, stacking order, the viewport translation, the auto-paint
    switch and the log of emitted events.  G6 itself is a library outside
    the repository; the functions here are the model's reading of it, and
    the class `Graph` is the mutable graph object they describe. */
module G6 {
  import opened Model

  datatype GraphValue = GraphValue(
    kind: GraphType,                     // G6.Graph (Flow) or G6.TreeGraph (Mind)
    mode: Mode,                          // graph.getCurrentMode()
    nodes: Dict,                         // graph.getNodes(), in insertion order
    edges: Dict,                         // graph.getEdges()
    combos: Dict,                        // graph.getCombos()
    states: set<(Id, string)>,           // item states set to true
    hidden: set<Id>,                     // items whose visibility is off
    stack: seq<Id>,                      // drawing order, front last
    anchorStates: map<Id, seq<AnchorPointState>>,  // node.get('anchorPointsState')
    parent: map<Id, Id>,                 // tree parent of a mind node
    locked: set<Id>,                     // node.hasLocked()
    translation: Point,                  // accumulated graph.translate(dx, dy)
    autoPaint: bool,
    paints: nat,                         // number of graph.paint() calls
    layouts: nat,                        // number of graph.refreshLayout() calls
    events: seq<Event>)                  // graph.emit log

  /** How a step that may throw ends: normally, or with a TypeError thrown
      in the given state. */
  datatype Run = Ran(graph: GraphValue) | Threw(graph: GraphValue)

  function EmptyGraph(kind: GraphType): (r: GraphValue)
    ensures Valid(r) && AllIds(r) == {}
  {
    GraphValue(kind, DefaultMode, EmptyDict, EmptyDict, EmptyDict, {}, {}, [], map[], map[], {},
               Point(0, 0), true, 0, 0, [])
  }

  function AllIds(v: GraphValue): set<Id>
  {
    v.nodes.vals.Keys + v.edges.vals.Keys + v.combos.vals.Keys
  }

  /** The position in `ids` of the first id not in `found`, the ids
      `findById` finds an item for; `|ids|` when there is none.  A forEach
      that calls a method on what findById returns throws a TypeError
      there. */
  function Unfound(found: set<Id>, ids: seq<Id>): (n: nat)
    ensures n <= |ids|
    ensures forall i :: 0 <= i < n ==> ids[i] in found
    ensures n < |ids| ==> ids[n] !in found
    ensures n == |ids| <==> Elems(ids) <= found
  {
    if ids == [] then 0
    else if ids[0] !in found then 0
    else 1 + Unfound(found, ids[1..])
  }

  /** Every model is stored under its own id. */
  predicate Keyed(d: Dict)
  {
    forall k :: k in d.vals ==> IdOf(d.vals[k]) == k
  }

  /** The shape of a graph G6 maintains: each item kind is a dictionary
      whose key order lists its keys once, node, edge and combo ids are
      disjoint (findById finds one item), models carry their own ids, and
      the drawing order holds only items. */
  predicate Valid(v: GraphValue)
  {
    DictValid(v.nodes) && DictValid(v.edges) && DictValid(v.combos)
    && Elems(v.stack) <= AllIds(v)
    && Disjoint(v)
    && Keyed(v.nodes) && Keyed(v.edges) && Keyed(v.combos)
  }

  /** The two graphs hold the same items in the same order; they may
      differ in states, visibility, the canvas and the event log. */
  predicate SameItems(v: GraphValue, w: GraphValue)
  {
    v.nodes == w.nodes && v.edges == w.edges && v.combos == w.combos && v.stack == w.stack
  }

  /** Validity and what findById finds depend on the items alone. */
  lemma SameItemsAgree(v: GraphValue, w: GraphValue)
    requires SameItems(v, w) && Valid(v)
    ensures Valid(w)
    ensures AllIds(w) == AllIds(v)
    ensures forall x :: ModelOf(w, x) == ModelOf(v, x) && TypeOf(w, x) == TypeOf(v, x)
  {
  }

  /** Node, edge and combo ids are disjoint. */
  predicate Disjoint(v: GraphValue)
  {
    && v.nodes.vals.Keys !! v.edges.vals.Keys
    && v.nodes.vals.Keys !! v.combos.vals.Keys
    && v.edges.vals.Keys !! v.combos.vals.Keys
  }

  /** item.getType() of the item found by graph.findById(id). */
  function TypeOf(v: GraphValue, id: Id): Option<ItemType>
  {
    if id in v.nodes.vals then Some(Node)
    else if id in v.edges.vals then Some(Edge)
    else if id in v.combos.vals then Some(Combo)
    else None
  }

  /** item.getModel() of the item found by graph.findById(id). */
  function ModelOf(v: GraphValue, id: Id): Option<ItemModel>
  {
    if id in v.nodes.vals then Some(v.nodes.vals[id])
    else if id in v.edges.vals then Some(v.edges.vals[id])
    else if id in v.combos.vals then Some(v.combos.vals[id])
    else None
  }

  /** The edge model `m` has node `id` as its source or its target. */
  predicate Incident(m: ItemModel, id: Id)
  {
    ("source" in m && m["source"] == Str(id)) || ("target" in m && m["target"] == Str(id))
  }

  function IncidentEdges(v: GraphValue, id: Id): set<Id>
  {
    set e | e in v.edges.vals && Incident(v.edges.vals[e], id)
  }

  /** The dictionary without the keys in `r`. */
  function DictRemove(d: Dict, r: set<Id>): (e: Dict)
    ensures e.vals == d.vals - r
    ensures Elems(e.keys) == Elems(d.keys) - r
    ensures DictValid(d) ==> DictValid(e)
    ensures Keyed(d) ==> Keyed(e)
  {
    Dict(Without(d.keys, r), d.vals - r)
  }

  /** Destroys the items in `r`, with everything G6 keeps about them. */
  function Drop(v: GraphValue, r: set<Id>): (w: GraphValue)
    ensures w.nodes == DictRemove(v.nodes, r) && w.edges == DictRemove(v.edges, r)
    ensures w.combos == DictRemove(v.combos, r) && w.stack == Without(v.stack, r)
  {
    v.(nodes := DictRemove(v.nodes, r), edges := DictRemove(v.edges, r),
       combos := DictRemove(v.combos, r),
       states := (set p | p in v.states && p.0 !in r),
       hidden := v.hidden - r, stack := Without(v.stack, r),
       anchorStates := v.anchorStates - r, parent := v.parent - r, locked := v.locked - r)
  }

  /** graph.addItem(type, model): an id already in the graph adds nothing. */
  function AddItem(v: GraphValue, t: ItemType, m: ItemModel): (w: GraphValue)
    ensures IdOf(m) in AllIds(v) ==> w == v
    ensures IdOf(m) !in AllIds(v) ==>
      && w.nodes == (if t == Node then Put(v.nodes, IdOf(m), m) else v.nodes)
      && w.edges == (if t == Edge then Put(v.edges, IdOf(m), m) else v.edges)
      && w.combos == (if t == Combo then Put(v.combos, IdOf(m), m) else v.combos)
      && w.stack == v.stack + [IdOf(m)]
    ensures SameCanvas(w, v)
  {
    var id := IdOf(m);
    if id in AllIds(v) then v
    else
      v.(nodes := if t == Node then Put(v.nodes, id, m) else v.nodes,
         edges := if t == Edge then Put(v.edges, id, m) else v.edges,
         combos := if t == Combo then Put(v.combos, id, m) else v.combos,
         stack := v.stack + [id])
  }

  /** graph.removeItem(id): a node takes its incident edges with it; an
      unknown id removes nothing. */
  function RemoveItem(v: GraphValue, id: Id): (w: GraphValue)
    ensures w.nodes.vals == v.nodes.vals - RemovedBy(v, id)
    ensures w.edges.vals == v.edges.vals - RemovedBy(v, id)
    ensures w.combos.vals == v.combos.vals - RemovedBy(v, id)
    ensures SameCanvas(w, v)
  {
    if id in v.nodes.vals then Drop(v, {id} + IncidentEdges(v, id))
    else if id in v.edges.vals || id in v.combos.vals then Drop(v, {id})
    else v
  }

  /** The ids graph.removeItem(id) destroys. */
  function RemovedBy(v: GraphValue, id: Id): set<Id>
  {
    if id in v.nodes.vals then {id} + IncidentEdges(v, id)
    else if id in v.edges.vals || id in v.combos.vals then {id}
    else {}
  }

  /** graph.updateItem(id, cfg): the fields of `cfg` are written into the
      model (G6's key stays the old id even if `cfg` has another). */
  function UpdateItem(v: GraphValue, id: Id, upd: ItemModel): (w: GraphValue)
    ensures w.nodes.keys == v.nodes.keys && w.edges.keys == v.edges.keys && w.combos.keys == v.combos.keys
    ensures w.nodes.vals.Keys == v.nodes.vals.Keys && w.edges.vals.Keys == v.edges.vals.Keys
    ensures w.combos.vals.Keys == v.combos.vals.Keys
  {
    if id in v.nodes.vals then
      v.(nodes := v.nodes.(vals := v.nodes.vals[id := Spread(v.nodes.vals[id], upd)]))
    else if id in v.edges.vals then
      v.(edges := v.edges.(vals := v.edges.vals[id := Spread(v.edges.vals[id], upd)]))
    else if id in v.combos.vals then
      v.(combos := v.combos.(vals := v.combos.vals[id := Spread(v.combos.vals[id], upd)]))
    else v
  }

  /** graph.setItemState(id, name, value) on an existing item. */
  function SetItemState(v: GraphValue, id: Id, name: string, value: bool): (w: GraphValue)
  {
    if id !in AllIds(v) then v
    else if value then v.(states := v.states + {(id, name)})
    else v.(states := v.states - {(id, name)})
  }

  /** item.changeVisibility(visible) on an existing item. */
  function ChangeVisibility(v: GraphValue, id: Id, visible: bool): (w: GraphValue)
  {
    if id !in AllIds(v) then v
    else if visible then v.(hidden := v.hidden - {id})
    else v.(hidden := v.hidden + {id})
  }

  /** item.toFront(): the item is drawn last. */
  function ToFront(v: GraphValue, id: Id): (w: GraphValue)
  {
    if id !in v.stack then v else v.(stack := Without(v.stack, {id}) + [id])
  }

  /** item.toBack(): the item is drawn first. */
  function ToBack(v: GraphValue, id: Id): (w: GraphValue)
  {
    if id !in v.stack then v else v.(stack := [id] + Without(v.stack, {id}))
  }

  function Emit(v: GraphValue, e: Event): (w: GraphValue)
  {
    v.(events := v.events + [e])
  }

  function SetAutoPaint(v: GraphValue, b: bool): (w: GraphValue)
  {
    v.(autoPaint := b)
  }

  function Paint(v: GraphValue): (w: GraphValue)
  {
    v.(paints := v.paints + 1)
  }

  function Translate(v: GraphValue, dx: int, dy: int): (w: GraphValue)
  {
    v.(translation := Point(v.translation.x + dx, v.translation.y + dy))
  }

  /** node.set('anchorPointsState', s) on an existing node. */
  function SetAnchorPointsState(v: GraphValue, id: Id, s: seq<AnchorPointState>): (w: GraphValue)
  {
    if id in v.nodes.vals then v.(anchorStates := v.anchorStates[id := s]) else v
  }

  function RefreshLayout(v: GraphValue): (w: GraphValue)
  {
    v.(layouts := v.layouts + 1)
  }

  /** treeGraph.removeChild(id). */
  function RemoveChild(v: GraphValue, id: Id): (w: GraphValue)
  {
    RemoveItem(v, id)
  }

  /** treeGraph.addChild(model, parent). */
  function AddChild(v: GraphValue, m: ItemModel, parent: Option<Id>): (w: GraphValue)
  {
    var w := AddItem(v, Node, m);
    if parent.Some? && IdOf(m) in w.nodes.vals && IdOf(m) !in v.nodes.vals
    then w.(parent := w.parent[IdOf(m) := parent.value]) else w
  }

  /** graph.findAllByState(type, name), in graph order. */
  function FindAllByState(v: GraphValue, t: ItemType, name: string): (r: seq<Id>)
    ensures forall id :: id in r <==> id in ItemsOf(v, t).keys && (id, name) in v.states
    ensures Distinct(ItemsOf(v, t).keys) ==> Distinct(r)
  {
    WithState(ItemsOf(v, t).keys, v.states, name)
  }

  /** The ids of `ids` that carry state `name`, in order. */
  function WithState(ids: seq<Id>, states: set<(Id, string)>, name: string): (r: seq<Id>)
    ensures forall id :: id in r <==> id in ids && (id, name) in states
    ensures Distinct(ids) ==> Distinct(r)
  {
    if ids == [] then []
    else
      var init := WithState(ids[..|ids| - 1], states, name);
      var last := ids[|ids| - 1];
      assert ids == ids[..|ids| - 1] + [last];
      if (last, name) !in states then init
      else if Distinct(ids) then DistinctInit(ids); DistinctSnoc(init, last); init + [last]
      else init + [last]
  }

  function ItemsOf(v: GraphValue, t: ItemType): Dict
  {
    match t
    case Node => v.nodes
    case Edge => v.edges
    case Combo => v.combos
  }

  /** node.getEdges(), in graph order. */
  function EdgesOf(v: GraphValue, id: Id): (r: seq<Id>)
    ensures forall e :: e in r <==> e in v.edges.keys && e in v.edges.vals && Incident(v.edges.vals[e], id)
  {
    EdgesAt(v.edges, id, Both)
  }

  /** The end(s) of an edge a query looks at. */
  datatype End = Source | Target | Both

  predicate Touches(m: ItemModel, id: Id, end: End)
  {
    match end
    case Source => EndOf(m, "source") == Some(id)
    case Target => EndOf(m, "target") == Some(id)
    case Both => Incident(m, id)
  }

  /** The edges of `edges`, in key order, whose `end` is node `id`. */
  function EdgesAt(edges: Dict, id: Id, end: End): (r: seq<Id>)
    ensures forall e :: e in r <==> e in edges.keys && e in edges.vals && Touches(edges.vals[e], id, end)
  {
    Filter(edges.keys, e => e in edges.vals && Touches(edges.vals[e], id, end))
  }

  /** The node an edge end refers to, if it is a node id. */
  function EndOf(m: ItemModel, end: string): Option<Id>
  {
    if end in m && m[end].Str? then Some(m[end].s) else None
  }

  /** node.getInEdges(). */
  function InEdges(v: GraphValue, id: Id): (r: seq<Id>)
    ensures forall e :: e in r <==> e in v.edges.keys && e in v.edges.vals && EndOf(v.edges.vals[e], "target") == Some(id)
  {
    EdgesAt(v.edges, id, Target)
  }

  /** node.getOutEdges(). */
  function OutEdges(v: GraphValue, id: Id): (r: seq<Id>)
    ensures forall e :: e in r <==> e in v.edges.keys && e in v.edges.vals && EndOf(v.edges.vals[e], "source") == Some(id)
  {
    EdgesAt(v.edges, id, Source)
  }

  /** Destroying items keeps a graph valid. */
  lemma DropValid(v: GraphValue, r: set<Id>)
    requires Valid(v)
    ensures Valid(Drop(v, r))
  {
    var w := Drop(v, r);
    assert Elems(w.stack) == Elems(v.stack) - r;
  }

  lemma AddItemValid(v: GraphValue, t: ItemType, m: ItemModel)
    requires Valid(v)
    ensures Valid(AddItem(v, t, m))
  {
    var id := IdOf(m);
    if id !in AllIds(v) {
      var w := AddItem(v, t, m);
      assert Elems(w.stack) == Elems(v.stack) + {id};
      AddItemNew(v, t, m);
    }
  }

  lemma RemoveItemValid(v: GraphValue, id: Id)
    requires Valid(v)
    ensures Valid(RemoveItem(v, id))
  {
    if id in v.nodes.vals {
      DropValid(v, {id} + IncidentEdges(v, id));
    } else if id in v.edges.vals || id in v.combos.vals {
      DropValid(v, {id});
    }
  }

  /** Adding an item under a new id makes it findable with its model and
      type and changes what no other id finds. */
  lemma AddItemNew(v: GraphValue, t: ItemType, m: ItemModel)
    requires IdOf(m) !in AllIds(v)
    ensures AllIds(AddItem(v, t, m)) == AllIds(v) + {IdOf(m)}
    ensures ModelOf(AddItem(v, t, m), IdOf(m)) == Some(m)
    ensures TypeOf(AddItem(v, t, m), IdOf(m)) == Some(t)
    ensures forall x :: x != IdOf(m) ==> ModelOf(AddItem(v, t, m), x) == ModelOf(v, x)
    ensures forall x :: x != IdOf(m) ==> TypeOf(AddItem(v, t, m), x) == TypeOf(v, x)
  {
    var w := AddItem(v, t, m);
    match t
    case Node =>
      assert w.nodes.vals == v.nodes.vals[IdOf(m) := m] && w.edges == v.edges && w.combos == v.combos;
    case Edge =>
      assert w.edges.vals == v.edges.vals[IdOf(m) := m] && w.nodes == v.nodes && w.combos == v.combos;
    case Combo =>
      assert w.combos.vals == v.combos.vals[IdOf(m) := m] && w.nodes == v.nodes && w.edges == v.edges;
  }

  /** What findById sees after updateItem: the fields of `upd` written
      into the one item. */
  lemma UpdateItemModel(v: GraphValue, id: Id, upd: ItemModel)
    ensures ModelOf(UpdateItem(v, id, upd), id)
         == if ModelOf(v, id).Some? then Some(Spread(ModelOf(v, id).value, upd)) else None
    ensures forall x :: x != id ==> ModelOf(UpdateItem(v, id, upd), x) == ModelOf(v, x)
    ensures UpdateItem(v, id, upd).layouts == v.layouts
  {
    var w := UpdateItem(v, id, upd);
    if id in v.nodes.vals {
      assert w.edges == v.edges && w.combos == v.combos;
      assert w.nodes.vals == v.nodes.vals[id := Spread(v.nodes.vals[id], upd)];
    } else if id in v.edges.vals {
      assert w.nodes == v.nodes && w.combos == v.combos;
      assert w.edges.vals == v.edges.vals[id := Spread(v.edges.vals[id], upd)];
    } else if id in v.combos.vals {
      assert w.nodes == v.nodes && w.edges == v.edges;
      assert w.combos.vals == v.combos.vals[id := Spread(v.combos.vals[id], upd)];
    }
  }

  /** graph.updateItem touches only the one model. */
  lemma UpdateItemKeeps(v: GraphValue, id: Id, upd: ItemModel)
    ensures AllIds(UpdateItem(v, id, upd)) == AllIds(v)
    ensures SameCanvas(UpdateItem(v, id, upd), v)
    ensures UpdateItem(v, id, upd).stack == v.stack
    ensures UpdateItem(v, id, upd).states == v.states && UpdateItem(v, id, upd).hidden == v.hidden
  {
  }

  /** treeGraph.addChild with a new id adds the node and records its
      parent. */
  lemma AddChildNew(v: GraphValue, m: ItemModel, parent: Option<Id>)
    requires IdOf(m) !in AllIds(v)
    ensures AddChild(v, m, parent).nodes.vals == v.nodes.vals[IdOf(m) := m]
    ensures AddChild(v, m, parent).edges == v.edges
    ensures AddChild(v, m, parent).parent == if parent.Some? then v.parent[IdOf(m) := parent.value] else v.parent
  {
    var w := AddItem(v, Node, m);
    assert w.parent == v.parent;
  }

  /** Removing a key just put under a new key gives the dictionary back. */
  lemma PutThenRemove(d: Dict, id: Id, m: ItemModel)
    requires DictValid(d) && id !in d.vals
    ensures DictRemove(Put(d, id, m), {id}) == d
  {
    WithoutAppended(d.keys, id);
    assert d.vals[id := m] - {id} == d.vals;
  }

  /** Removing an absent key changes nothing. */
  lemma RemoveAbsent(d: Dict, id: Id)
    requires DictValid(d) && id !in d.vals
    ensures DictRemove(d, {id}) == d
  {
    WithoutNone(d.keys, {id});
    assert d.vals - {id} == d.vals;
  }

  /** An item just added under a new id that no edge refers to is removed
      alone. */
  lemma RemoveAddedIsDrop(v: GraphValue, t: ItemType, m: ItemModel, w: GraphValue)
    requires IdOf(m) !in AllIds(v)
    requires IncidentEdges(v, IdOf(m)) == {}
    requires w.nodes == (if t == Node then Put(v.nodes, IdOf(m), m) else v.nodes)
    requires w.edges == (if t == Edge then Put(v.edges, IdOf(m), m) else v.edges)
    requires w.combos == (if t == Combo then Put(v.combos, IdOf(m), m) else v.combos)
    ensures RemoveItem(w, IdOf(m)) == Drop(w, {IdOf(m)})
  {
    var id := IdOf(m);
    if t == Node {
      assert id in w.nodes.vals;
      assert w.edges == v.edges;
      assert IncidentEdges(w, id) == {};
      assert {id} + IncidentEdges(w, id) == {id};
    } else {
      assert id !in w.nodes.vals;
      assert id in w.edges.vals || id in w.combos.vals;
    }
  }

  /** Removing an item just added under a new id that no edge refers to
      restores the dictionaries, key order included, and the drawing order,
      even after changes to anything but these. */
  lemma AddThenRemove(v: GraphValue, t: ItemType, m: ItemModel, w: GraphValue)
    requires Valid(v)
    requires IdOf(m) !in AllIds(v)
    requires IncidentEdges(v, IdOf(m)) == {}
    requires w.nodes == (if t == Node then Put(v.nodes, IdOf(m), m) else v.nodes)
    requires w.edges == (if t == Edge then Put(v.edges, IdOf(m), m) else v.edges)
    requires w.combos == (if t == Combo then Put(v.combos, IdOf(m), m) else v.combos)
    requires w.stack == v.stack + [IdOf(m)]
    ensures RemoveItem(w, IdOf(m)).nodes == v.nodes
    ensures RemoveItem(w, IdOf(m)).edges == v.edges
    ensures RemoveItem(w, IdOf(m)).combos == v.combos
    ensures RemoveItem(w, IdOf(m)).stack == v.stack
    ensures AllIds(RemoveItem(w, IdOf(m))) == AllIds(v)
  {
    var id := IdOf(m);
    assert id !in v.stack;
    WithoutAppended(v.stack, id);
    RemoveAddedIsDrop(v, t, m, w);
    if t == Node {
      PutThenRemove(v.nodes, id, m);
    } else {
      RemoveAbsent(v.nodes, id);
    }
    if t == Edge {
      PutThenRemove(v.edges, id, m);
    } else {
      RemoveAbsent(v.edges, id);
    }
    if t == Combo {
      PutThenRemove(v.combos, id, m);
    } else {
      RemoveAbsent(v.combos, id);
    }
  }

  /** The fields no item operation touches: the canvas, the paint
      counters and the event log. */
  ghost predicate SameCanvas(v: GraphValue, w: GraphValue)
  {
    v.kind == w.kind && v.mode == w.mode && v.translation == w.translation
    && v.autoPaint == w.autoPaint && v.paints == w.paints && v.layouts == w.layouts
    && v.events == w.events
  }

  /** graph.removeItem on each id in turn. */
  function RemoveAll(v: GraphValue, ids: seq<Id>): GraphValue
  {
    if ids == [] then v else RemoveItem(RemoveAll(v, ids[..|ids| - 1]), ids[|ids| - 1])
  }

  lemma RemoveAllStep(v: GraphValue, ids: seq<Id>, i: nat)
    requires i < |ids|
    ensures RemoveAll(v, ids[..i + 1]) == RemoveItem(RemoveAll(v, ids[..i]), ids[i])
  {
    assert ids[..i + 1][..i] == ids[..i];
  }

  /** The edges that go with the nodes among `r` when those are removed. */
  function Swept(v: GraphValue, r: set<Id>): set<Id>
  {
    set e | e in v.edges.vals && exists n :: n in r && n in v.nodes.vals && Incident(v.edges.vals[e], n)
  }

  /** Removing the items of `ids` one by one removes exactly those ids and
      the edges of the removed nodes, and keeps the graph valid. */
  lemma {:induction false} RemoveAllEffect(v: GraphValue, ids: seq<Id>)
    requires Valid(v)
    ensures Valid(RemoveAll(v, ids))
    ensures RemoveAll(v, ids).nodes.vals == v.nodes.vals - Elems(ids)
    ensures RemoveAll(v, ids).edges.vals == v.edges.vals - (Elems(ids) + Swept(v, Elems(ids)))
    ensures RemoveAll(v, ids).combos.vals == v.combos.vals - Elems(ids)
    ensures SameCanvas(RemoveAll(v, ids), v)
    decreases |ids|
  {
    if ids != [] {
      var init := ids[..|ids| - 1];
      var id := ids[|ids| - 1];
      assert Elems(ids) == Elems(init) + {id} by {
        LastSplit(ids);
      }
      RemoveAllEffect(v, init);
      var w := RemoveAll(v, init);
      RemoveItemValid(w, id);
      RemoveOneStep(v, Elems(init), w, id);
    }
  }

  /** One step of RemoveAllEffect. */
  lemma RemoveOneStep(v: GraphValue, r: set<Id>, w: GraphValue, id: Id)
    requires Disjoint(v)
    requires w.nodes.vals == v.nodes.vals - r
    requires w.edges.vals == v.edges.vals - (r + Swept(v, r))
    requires w.combos.vals == v.combos.vals - r
    ensures RemoveItem(w, id).nodes.vals == v.nodes.vals - (r + {id})
    ensures RemoveItem(w, id).edges.vals == v.edges.vals - ((r + {id}) + Swept(v, r + {id}))
    ensures RemoveItem(w, id).combos.vals == v.combos.vals - (r + {id})
  {
    if id in w.nodes.vals {
      RemoveNodeStep(v, r, w, id);
      RemoveNodeEdges(v, r, w, id);
    } else {
      RemoveOtherStep(v, r, w, id);
    }
  }

  lemma RemoveNodeStep(v: GraphValue, r: set<Id>, w: GraphValue, id: Id)
    requires Disjoint(v)
    requires w.nodes.vals == v.nodes.vals - r
    requires w.edges.vals == v.edges.vals - (r + Swept(v, r))
    requires w.combos.vals == v.combos.vals - r
    requires id in w.nodes.vals
    ensures w.nodes.vals - RemovedBy(w, id) == v.nodes.vals - (r + {id})
    ensures w.combos.vals - RemovedBy(w, id) == v.combos.vals - (r + {id})
  {
    var s := RemovedBy(w, id);
    assert s == {id} + IncidentEdges(w, id);
    assert IncidentEdges(w, id) <= v.edges.vals.Keys;
    assert s * v.nodes.vals.Keys == {id};
    assert s * v.combos.vals.Keys == {};
  }

  lemma RemoveOtherStep(v: GraphValue, r: set<Id>, w: GraphValue, id: Id)
    requires Disjoint(v)
    requires w.nodes.vals == v.nodes.vals - r
    requires w.edges.vals == v.edges.vals - (r + Swept(v, r))
    requires w.combos.vals == v.combos.vals - r
    requires id !in w.nodes.vals
    ensures w.nodes.vals - RemovedBy(w, id) == v.nodes.vals - (r + {id})
    ensures w.edges.vals - RemovedBy(w, id) == v.edges.vals - ((r + {id}) + Swept(v, r + {id}))
    ensures w.combos.vals - RemovedBy(w, id) == v.combos.vals - (r + {id})
  {
    assert id !in v.nodes.vals - r;
    assert Swept(v, r + {id}) == Swept(v, r) by {
      if id in v.nodes.vals {
        assert r + {id} == r;
      }
    }
    assert RemovedBy(w, id) == {id} * (w.edges.vals.Keys + w.combos.vals.Keys);
  }

  lemma RemoveNodeEdges(v: GraphValue, r: set<Id>, w: GraphValue, id: Id)
    requires Disjoint(v)
    requires w.nodes.vals == v.nodes.vals - r
    requires w.edges.vals == v.edges.vals - (r + Swept(v, r))
    requires id in w.nodes.vals
    ensures w.edges.vals - RemovedBy(w, id) == v.edges.vals - ((r + {id}) + Swept(v, r + {id}))
  {
    var s := RemovedBy(w, id);
    assert s == {id} + IncidentEdges(w, id);
    var t := v.edges.vals - ((r + {id}) + Swept(v, r + {id}));
    forall e
      ensures e in w.edges.vals - s <==> e in t
    {
      if e in v.edges.vals && e !in r && e != id {
        var m := v.edges.vals[e];
        assert e in Swept(v, r + {id}) <==> e in Swept(v, r) || Incident(m, id);
      }
    }
    assert w.edges.vals - s == t;
  }

  /** graph.addItem(t, d[k]) for each key k of `ks` in turn. */
  function AddKeys(v: GraphValue, t: ItemType, d: Dict, ks: seq<Id>): GraphValue
  {
    if ks == [] then v
    else
      var w := AddKeys(v, t, d, ks[..|ks| - 1]);
      var k := ks[|ks| - 1];
      if k in d.vals then AddItem(w, t, d.vals[k]) else w
  }

  lemma AddKeysAt(v: GraphValue, t: ItemType, d: Dict, ks: seq<Id>, i: nat)
    requires i < |ks|
    ensures AddKeys(v, t, d, ks[..i + 1])
         == var w := AddKeys(v, t, d, ks[..i]);
            if ks[i] in d.vals then AddItem(w, t, d.vals[ks[i]]) else w
  {
    assert ks[..i + 1][..i] == ks[..i];
  }

  /** `m` extended by `extra` where `t` is the item type `u`. */
  function AddedIf(u: ItemType, t: ItemType, m: map<Id, ItemModel>, extra: map<Id, ItemModel>): map<Id, ItemModel>
  {
    if u == t then m + extra else m
  }

  /** `w` is `v` with the models of `extra` added to its items of type `t`. */
  predicate AddedAs(w: GraphValue, v: GraphValue, t: ItemType, extra: map<Id, ItemModel>)
  {
    && w.nodes.vals == AddedIf(Node, t, v.nodes.vals, extra)
    && w.edges.vals == AddedIf(Edge, t, v.edges.vals, extra)
    && w.combos.vals == AddedIf(Combo, t, v.combos.vals, extra)
  }

  /** Adding the models of a dictionary under new ids, one by one, keeps
      the graph valid and adds exactly their ids. */
  lemma {:induction false} AddKeysIds(v: GraphValue, t: ItemType, d: Dict, ks: seq<Id>)
    requires Valid(v) && Keyed(d)
    requires Distinct(ks) && Elems(ks) <= d.vals.Keys && Elems(ks) !! AllIds(v)
    ensures Valid(AddKeys(v, t, d, ks))
    ensures AllIds(AddKeys(v, t, d, ks)) == AllIds(v) + Elems(ks)
    decreases |ks|
  {
    if ks != [] {
      var init := ks[..|ks| - 1];
      var k := ks[|ks| - 1];
      assert Elems(ks) == Elems(init) + {k} by {
        LastSplit(ks);
      }
      DistinctInit(ks);
      AddKeysIds(v, t, d, init);
      var w := AddKeys(v, t, d, init);
      AddItemValid(w, t, d.vals[k]);
      AddItemNew(w, t, d.vals[k]);
    }
  }

  /** ... and adds exactly the dictionary's entries to the items of type `t`. */
  lemma {:induction false} AddKeysEffect(v: GraphValue, t: ItemType, d: Dict, ks: seq<Id>)
    requires Valid(v) && Keyed(d)
    requires Distinct(ks) && Elems(ks) <= d.vals.Keys && Elems(ks) !! AllIds(v)
    ensures AddedAs(AddKeys(v, t, d, ks), v, t, Restrict(d.vals, Elems(ks)))
    decreases |ks|
  {
    if ks == [] {
      assert Restrict(d.vals, {}) == map[];
    } else {
      var init := ks[..|ks| - 1];
      var k := ks[|ks| - 1];
      assert Elems(ks) == Elems(init) + {k} by {
        LastSplit(ks);
      }
      DistinctInit(ks);
      AddKeysEffect(v, t, d, init);
      AddKeysIds(v, t, d, init);
      var w := AddKeys(v, t, d, init);
      var m := d.vals[k];
      var before := Restrict(d.vals, Elems(init));
      RestrictAdd(d.vals, Elems(init), k);
      AddOneKey(v, t, before, w, m);
    }
  }

  lemma RestrictAdd(d: map<Id, ItemModel>, s: set<Id>, k: Id)
    requires k in d
    ensures Restrict(d, s + {k}) == Restrict(d, s)[k := d[k]]
  {
  }

  lemma RestrictAbsent(d: map<Id, ItemModel>, s: set<Id>, k: Id)
    requires k !in d
    ensures Restrict(d, s + {k}) == Restrict(d, s)
  {
  }

  /** Restricting to two key sets one after the other restricts to their
      union. */
  lemma RestrictUnion(base: map<Id, ItemModel>, d: map<Id, ItemModel>, a: set<Id>, b: set<Id>)
    ensures base + Restrict(d, a) + Restrict(d, b) == base + Restrict(d, a + b)
  {
  }

  /** ... and changes none of the canvas fields. */
  lemma {:induction false} AddKeysCanvas(v: GraphValue, t: ItemType, d: Dict, ks: seq<Id>)
    ensures SameCanvas(AddKeys(v, t, d, ks), v)
    decreases |ks|
  {
    if ks != [] {
      AddKeysCanvas(v, t, d, ks[..|ks| - 1]);
    }
  }

  /** One step of AddKeysEffect. */
  lemma AddOneKey(v: GraphValue, t: ItemType, before: map<Id, ItemModel>, w: GraphValue, m: ItemModel)
    requires Valid(w) && IdOf(m) !in AllIds(w)
    requires AddedAs(w, v, t, before)
    ensures Valid(AddItem(w, t, m))
    ensures AllIds(AddItem(w, t, m)) == AllIds(w) + {IdOf(m)}
    ensures AddedAs(AddItem(w, t, m), v, t, before[IdOf(m) := m])
  {
    var k := IdOf(m);
    AddItemValid(w, t, m);
    AddItemNew(w, t, m);
    AddKeysStep(v.nodes.vals, before, k, m);
    AddKeysStep(v.edges.vals, before, k, m);
    AddKeysStep(v.combos.vals, before, k, m);
  }

  /** `models.forEach(model => graph.addItem(type, model))`. */
  function AddModels(v: GraphValue, t: ItemType, ms: seq<ItemModel>): GraphValue
  {
    if ms == [] then v else AddItem(AddModels(v, t, ms[..|ms| - 1]), t, ms[|ms| - 1])
  }

  lemma AddModelsStep(v: GraphValue, t: ItemType, ms: seq<ItemModel>, i: nat)
    requires i < |ms|
    ensures AddModels(v, t, ms[..i + 1]) == AddItem(AddModels(v, t, ms[..i]), t, ms[i])
  {
    assert ms[..i + 1][..i] == ms[..i];
  }

  /** The models keyed by their ids, a later model winning. */
  function ModelMap(ms: seq<ItemModel>): (r: map<Id, ItemModel>)
    ensures r.Keys == Elems(IdsOf(ms))
  {
    if ms == [] then map[]
    else
      var init := ms[..|ms| - 1];
      assert IdsOf(ms) == IdsOf(init) + [IdOf(ms[|ms| - 1])];
      ElemsConcat(IdsOf(init), [IdOf(ms[|ms| - 1])]);
      ModelMap(init)[IdOf(ms[|ms| - 1]):= ms[|ms| - 1]]
  }

  /** Adding models with distinct new ids keeps the graph valid and adds
      exactly their ids ... */
  lemma {:induction false} AddModelsIds(v: GraphValue, t: ItemType, ms: seq<ItemModel>)
    requires Valid(v)
    requires Distinct(IdsOf(ms)) && Elems(IdsOf(ms)) !! AllIds(v)
    ensures Valid(AddModels(v, t, ms))
    ensures AllIds(AddModels(v, t, ms)) == AllIds(v) + Elems(IdsOf(ms))
    decreases |ms|
  {
    if ms != [] {
      var init := ms[..|ms| - 1];
      var m := ms[|ms| - 1];
      assert IdsOf(ms) == IdsOf(init) + [IdOf(m)];
      ElemsConcat(IdsOf(init), [IdOf(m)]);
      DistinctInit(IdsOf(ms));
      AddModelsIds(v, t, init);
      var w := AddModels(v, t, init);
      AddItemValid(w, t, m);
      AddItemNew(w, t, m);
    }
  }

  /** ... and adds exactly those models under their ids to the items of
      type `t`. */
  lemma {:induction false} AddModelsEffect(v: GraphValue, t: ItemType, ms: seq<ItemModel>)
    requires Valid(v)
    requires Distinct(IdsOf(ms)) && Elems(IdsOf(ms)) !! AllIds(v)
    ensures AddedAs(AddModels(v, t, ms), v, t, ModelMap(ms))
    decreases |ms|
  {
    if ms != [] {
      var init := ms[..|ms| - 1];
      var m := ms[|ms| - 1];
      assert IdsOf(ms) == IdsOf(init) + [IdOf(m)];
      ElemsConcat(IdsOf(init), [IdOf(m)]);
      DistinctInit(IdsOf(ms));
      AddModelsEffect(v, t, init);
      AddModelsIds(v, t, init);
      AddOneKey(v, t, ModelMap(init), AddModels(v, t, init), m);
    }
  }

  /** ... and changes none of the canvas fields. */
  lemma {:induction false} AddModelsCanvas(v: GraphValue, t: ItemType, ms: seq<ItemModel>)
    ensures SameCanvas(AddModels(v, t, ms), v)
    decreases |ms|
  {
    if ms != [] {
      AddModelsCanvas(v, t, ms[..|ms| - 1]);
    }
  }

  lemma AddKeysStep(base: map<Id, ItemModel>, before: map<Id, ItemModel>, k: Id, m: ItemModel)
    ensures (base + before)[k := m] == base + before[k := m]
  {
  }
}

/** The mutable G6 graph object, whose methods are the operations of
    module G6 applied in place. */
module G6Graph {
  import opened Model
  import opened G6

  /** The G6 graph object. */
  class Graph {
    const kind: GraphType
    var mode: Mode
    var nodes: Dict
    var edges: Dict
    var combos: Dict
    var states: set<(Id, string)>
    var hidden: set<Id>
    var stack: seq<Id>
    var anchorStates: map<Id, seq<AnchorPointState>>
    var parent: map<Id, Id>
    var locked: set<Id>
    var translation: Point
    var autoPaint: bool
    var paints: nat
    var layouts: nat
    var events: seq<Event>

    function View(): GraphValue
      reads this
    {
      GraphValue(kind, mode, nodes, edges, combos, states, hidden, stack, anchorStates, parent,
                 locked, translation, autoPaint, paints, layouts, events)
    }

    constructor (k: GraphType)
      ensures View() == EmptyGraph(k)
    {
      kind := k;
      mode := DefaultMode;
      nodes, edges, combos := EmptyDict, EmptyDict, EmptyDict;
      states, hidden, stack := {}, {}, [];
      anchorStates, parent, locked := map[], map[], {};
      translation := Point(0, 0);
      autoPaint, paints, layouts := true, 0, 0;
      events := [];
    }

    /** Installs a whole new graph state of the same kind. */
    method Load(v: GraphValue)
      requires v.kind == kind
      modifies this
      ensures View() == v
    {
      LoadItems(v);
      LoadStates(v);
      LoadCanvas(v);
    }

    method LoadItems(v: GraphValue)
      modifies this`mode, this`nodes, this`edges, this`combos, this`locked
      ensures mode == v.mode && nodes == v.nodes && edges == v.edges && combos == v.combos
      ensures locked == v.locked
    {
      mode, nodes, edges, combos, locked := v.mode, v.nodes, v.edges, v.combos, v.locked;
    }

    method LoadStates(v: GraphValue)
      modifies this`states, this`hidden, this`stack, this`anchorStates, this`parent
      ensures states == v.states && hidden == v.hidden && stack == v.stack
      ensures anchorStates == v.anchorStates && parent == v.parent
    {
      states, hidden, stack, anchorStates, parent := v.states, v.hidden, v.stack, v.anchorStates, v.parent;
    }

    method LoadCanvas(v: GraphValue)
      modifies this`translation, this`autoPaint, this`paints, this`layouts, this`events
      ensures translation == v.translation && autoPaint == v.autoPaint && paints == v.paints
      ensures layouts == v.layouts && events == v.events
    {
      translation, autoPaint, paints, layouts, events := v.translation, v.autoPaint, v.paints, v.layouts, v.events;
    }

    method SetMode(m: Mode)
      modifies this
      ensures View() == old(View()).(mode := m)
    {
      mode := m;
    }

    method AddItem(t: ItemType, m: ItemModel)
      modifies this
      ensures View() == G6.AddItem(old(View()), t, m)
    {
      Load(G6.AddItem(View(), t, m));
    }

    method RemoveItem(id: Id)
      modifies this
      ensures View() == G6.RemoveItem(old(View()), id)
    {
      Load(G6.RemoveItem(View(), id));
    }

    method UpdateItem(id: Id, upd: ItemModel)
      modifies this
      ensures View() == G6.UpdateItem(old(View()), id, upd)
    {
      Load(G6.UpdateItem(View(), id, upd));
    }

    method SetItemState(id: Id, name: string, value: bool)
      modifies this
      ensures View() == G6.SetItemState(old(View()), id, name, value)
    {
      Load(G6.SetItemState(View(), id, name, value));
    }

    method ChangeVisibility(id: Id, visible: bool)
      modifies this
      ensures View() == G6.ChangeVisibility(old(View()), id, visible)
    {
      Load(G6.ChangeVisibility(View(), id, visible));
    }

    method ToFront(id: Id)
      modifies this
      ensures View() == G6.ToFront(old(View()), id)
    {
      Load(G6.ToFront(View(), id));
    }

    method ToBack(id: Id)
      modifies this
      ensures View() == G6.ToBack(old(View()), id)
    {
      Load(G6.ToBack(View(), id));
    }

    method Emit(e: Event)
      modifies this
      ensures View() == G6.Emit(old(View()), e)
    {
      events := events + [e];
    }

    method SetAutoPaint(b: bool)
      modifies this
      ensures View() == G6.SetAutoPaint(old(View()), b)
    {
      autoPaint := b;
    }

    method Paint()
      modifies this
      ensures View() == G6.Paint(old(View()))
    {
      paints := paints + 1;
    }

    method Translate(dx: int, dy: int)
      modifies this
      ensures View() == G6.Translate(old(View()), dx, dy)
    {
      translation := Point(translation.x + dx, translation.y + dy);
    }

    method SetAnchorPointsState(id: Id, s: seq<AnchorPointState>)
      modifies this
      ensures View() == G6.SetAnchorPointsState(old(View()), id, s)
    {
      Load(G6.SetAnchorPointsState(View(), id, s));
    }

    method RefreshLayout()
      modifies this
      ensures View() == G6.RefreshLayout(old(View()))
    {
      layouts := layouts + 1;
    }

    method RemoveChild(id: Id)
      modifies this
      ensures View() == G6.RemoveChild(old(View()), id)
    {
      Load(G6.RemoveChild(View(), id));
    }

    method AddChild(m: ItemModel, p: Option<Id>)
      modifies this
      ensures View() == G6.AddChild(old(View()), m, p)
    {
      Load(G6.AddChild(View(), m, p));
    }
  }
}
