/** src/components/Graph/command/remove.ts: deletes the selection.  In a
    flow graph init snapshots the selected nodes, their edges and the
    selected edges into `params.flow`; execute removes them in one batch and
    undo adds the nodes back, then the edges.  In a mind graph the first
    selected node and its parent are kept in `params.mind`. */
module RemoveCommand {
  import opened Model
  import opened G6
  import opened G6Graph
  import opened Utils

  /** The template's params: empty flow dictionaries, no mind model. */
  const DefaultParams: Params := map["flow" := PFlow(EmptyDict, EmptyDict), "mind" := PMind(None, Some(""))]

  /** `params.flow.nodes` and `params.flow.edges`. */
  function FlowOf(p: Params): (Dict, Dict)
  {
    if "flow" in p && p["flow"].PFlow? then (p["flow"].nodes, p["flow"].edges) else (EmptyDict, EmptyDict)
  }

  /** `params.mind.model` and `params.mind.parent`. */
  function MindOf(p: Params): (Option<ItemModel>, Option<Id>)
  {
    if "mind" in p && p["mind"].PMind? then (p["mind"].model, p["mind"].parent) else (None, Some(""))
  }

  predicate CanExecute(v: GraphValue)
  {
    v.mode != ReadonlyMode && (|SelectedNodes(v)| > 0 || |SelectedEdges(v)| > 0)
  }

  /** `edges[model.id] = model` for the model of edge `e`. */
  function SnapEdge(v: GraphValue, edges: Dict, e: Id): Dict
  {
    if e in v.edges.vals then Put(edges, IdOf(v.edges.vals[e]), v.edges.vals[e]) else edges
  }

  /** The inner loop of init: each edge of `es` into `edges`. */
  function SnapEdges(v: GraphValue, edges: Dict, es: seq<Id>): Dict
  {
    if es == [] then edges else SnapEdge(v, SnapEdges(v, edges, es[..|es| - 1]), es[|es| - 1])
  }

  /** The outer loop of init: each node of `ns` into `nodes` and its edges
      into `edges`. */
  function SnapNodes(v: GraphValue, nodes: Dict, edges: Dict, ns: seq<Id>): (Dict, Dict)
  {
    if ns == [] then (nodes, edges)
    else
      var (n1, e1) := SnapNodes(v, nodes, edges, ns[..|ns| - 1]);
      var n := ns[|ns| - 1];
      var n2 := if n in v.nodes.vals then Put(n1, IdOf(v.nodes.vals[n]), v.nodes.vals[n]) else n1;
      (n2, SnapEdges(v, e1, EdgesOf(v, n)))
  }

  /** init.  In a mind graph it reads `selectedNodes[0]`, which throws when
      no node is selected: the result is then None and the command stops. */
  function Initialized(v: GraphValue, p: Params): Option<Params>
  {
    var nodes := SelectedNodes(v);
    if v.kind == Mind then
      if nodes == [] then None
      else
        var n := nodes[0];
        var model := if n in v.nodes.vals then v.nodes.vals[n] else map[];
        var parent := if n in v.parent then Some(v.parent[n]) else None;
        Some(p["mind" := PMind(Some(model), parent)])
    else
      var (n0, e0) := FlowOf(p);
      var (n1, e1) := SnapNodes(v, n0, e0, nodes);
      Some(p["flow" := PFlow(n1, SnapEdges(v, e1, SelectedEdges(v)))])
  }

  /** execute. */
  function Executed(v: GraphValue, p: Params): GraphValue
  {
    if v.kind == Mind then
      var (model, _) := MindOf(p);
      if model.None? then v else RemoveChild(v, IdOf(model.value))
    else
      var (nodes, edges) := FlowOf(p);
      var w := Emit(v, UndefinedEvent);
      var r := BatchClosed(RemoveAll(BatchOpened(w), nodes.keys + edges.keys), w.autoPaint);
      if |nodes.keys| > 0 then Emit(r, AfterRemoveNode) else r
  }

  /** undo: every node of the snapshot, then every edge. */
  function Undone(v: GraphValue, p: Params): GraphValue
  {
    if v.kind == Mind then
      var (model, parent) := MindOf(p);
      if model.None? then v else AddChild(v, model.value, parent)
    else
      var (nodes, edges) := FlowOf(p);
      var w := AddKeys(BatchOpened(v), Node, nodes, nodes.keys);
      BatchClosed(AddKeys(w, Edge, edges, edges.keys), v.autoPaint)
  }

  method Init(g: Graph, p: Params) returns (q: Option<Params>)
    ensures q == Initialized(g.View(), p)
  {
    var v := g.View();
    var selectedNodes := SelectedNodes(v);
    if g.kind == Mind {
      if selectedNodes == [] {
        return None;
      }
      var n := selectedNodes[0];
      var model := if n in v.nodes.vals then v.nodes.vals[n] else map[];
      var parent := if n in v.parent then Some(v.parent[n]) else None;
      return Some(p["mind" := PMind(Some(model), parent)]);
    }
    var (n0, e0) := FlowOf(p);
    var nodes, edges := SnapEachNode(v, n0, e0, selectedNodes);
    edges := SnapEach(v, edges, SelectedEdges(v));
    q := Some(p["flow" := PFlow(nodes, edges)]);
  }

  /** The forEach over the selected nodes: each node's model into `nodes`,
      its edges' models into `edges`. */
  method SnapEachNode(v: GraphValue, n0: Dict, e0: Dict, ns: seq<Id>) returns (nodes: Dict, edges: Dict)
    ensures (nodes, edges) == SnapNodes(v, n0, e0, ns)
  {
    nodes, edges := n0, e0;
    for i := 0 to |ns|
      invariant (nodes, edges) == SnapNodes(v, n0, e0, ns[..i])
    {
      var n := ns[i];
      assert ns[..i + 1][..i] == ns[..i];
      if n in v.nodes.vals {
        var model := v.nodes.vals[n];
        nodes := Put(nodes, IdOf(model), model);
      }
      edges := SnapEach(v, edges, EdgesOf(v, n));
    }
    PrefixAll(ns);
  }

  /** `es.forEach(edge => edges[edge.getModel().id] = edge.getModel())`. */
  method SnapEach(v: GraphValue, edges: Dict, es: seq<Id>) returns (r: Dict)
    ensures r == SnapEdges(v, edges, es)
  {
    r := edges;
    for j := 0 to |es|
      invariant r == SnapEdges(v, edges, es[..j])
    {
      assert es[..j + 1][..j] == es[..j];
      r := SnapEdge(v, r, es[j]);
    }
    PrefixAll(es);
  }

  method Execute(g: Graph, p: Params)
    modifies g
    ensures g.View() == Executed(old(g.View()), p)
  {
    if g.kind == Mind {
      var (model, _) := MindOf(p);
      if model.None? {
        return;
      }
      g.RemoveChild(IdOf(model.value));
      return;
    }
    var (nodes, edges) := FlowOf(p);
    g.Emit(UndefinedEvent);
    var saved := BeginBatch(g);
    var ids := nodes.keys + edges.keys;
    ghost var start := g.View();
    for i := 0 to |ids|
      invariant g.View() == RemoveAll(start, ids[..i])
    {
      RemoveAllStep(start, ids, i);
      g.RemoveItem(ids[i]);
    }
    PrefixAll(ids);
    EndBatch(g, saved);
    if |nodes.keys| > 0 {
      g.Emit(AfterRemoveNode);
    }
  }

  method Undo(g: Graph, p: Params)
    modifies g
    ensures g.View() == Undone(old(g.View()), p)
  {
    if g.kind == Mind {
      var (model, parent) := MindOf(p);
      if model.None? {
        return;
      }
      g.AddChild(model.value, parent);
      return;
    }
    var (nodes, edges) := FlowOf(p);
    var saved := BeginBatch(g);
    AddEach(g, Node, nodes);
    AddEach(g, Edge, edges);
    EndBatch(g, saved);
  }

  /** `Object.keys(d).forEach(id => graph.addItem(t, d[id]))`. */
  method AddEach(g: Graph, t: ItemType, d: Dict)
    modifies g
    ensures g.View() == AddKeys(old(g.View()), t, d, d.keys)
  {
    ghost var start := g.View();
    for i := 0 to |d.keys|
      invariant g.View() == AddKeys(start, t, d, d.keys[..i])
    {
      AddKeysAt(start, t, d, d.keys, i);
      var k := d.keys[i];
      if k in d.vals {
        g.AddItem(t, d.vals[k]);
      }
    }
    PrefixAll(d.keys);
  }

  // ------------------------------------------------------------- the snapshot

  /** The edges a flow snapshot holds: the selected edges and every edge of
      a selected node. */
  function Doomed(v: GraphValue): set<Id>
  {
    Elems(SelectedEdges(v)) + Swept(v, Elems(SelectedNodes(v)))
  }

  /** The inner loop puts the models of the listed edges into `edges`. */
  lemma {:induction false} SnapEdgesEffect(v: GraphValue, edges: Dict, es: seq<Id>)
    requires Keyed(v.edges) && DictValid(edges)
    ensures DictValid(SnapEdges(v, edges, es))
    ensures SnapEdges(v, edges, es).vals == edges.vals + Restrict(v.edges.vals, Elems(es))
    decreases |es|
  {
    if es == [] {
      assert Restrict(v.edges.vals, {}) == map[];
    } else {
      var init := es[..|es| - 1];
      var e := es[|es| - 1];
      assert Elems(es) == Elems(init) + {e} by {
        LastSplit(es);
      }
      SnapEdgesEffect(v, edges, init);
      if e in v.edges.vals {
        RestrictAdd(v.edges.vals, Elems(init), e);
        AddKeysStep(edges.vals, Restrict(v.edges.vals, Elems(init)), e, v.edges.vals[e]);
      } else {
        RestrictAbsent(v.edges.vals, Elems(init), e);
      }
    }
  }

  /** The outer loop puts the models of the listed nodes into `nodes` and
      the models of all their edges into `edges`. */
  lemma {:induction false} SnapNodesEffect(v: GraphValue, nodes: Dict, edges: Dict, ns: seq<Id>)
    requires Valid(v) && DictValid(nodes) && DictValid(edges)
    requires Elems(ns) <= v.nodes.vals.Keys
    ensures DictValid(SnapNodes(v, nodes, edges, ns).0) && DictValid(SnapNodes(v, nodes, edges, ns).1)
    ensures SnapNodes(v, nodes, edges, ns).0.vals == nodes.vals + Restrict(v.nodes.vals, Elems(ns))
    ensures SnapNodes(v, nodes, edges, ns).1.vals == edges.vals + Restrict(v.edges.vals, Swept(v, Elems(ns)))
    decreases |ns|
  {
    if ns == [] {
      assert Restrict(v.nodes.vals, {}) == map[];
      assert Swept(v, {}) == {};
      assert Restrict(v.edges.vals, {}) == map[];
    } else {
      var init := ns[..|ns| - 1];
      var n := ns[|ns| - 1];
      assert Elems(ns) == Elems(init) + {n} by {
        LastSplit(ns);
      }
      SnapNodesEffect(v, nodes, edges, init);
      var (n1, e1) := SnapNodes(v, nodes, edges, init);
      RestrictAdd(v.nodes.vals, Elems(init), n);
      AddKeysStep(nodes.vals, Restrict(v.nodes.vals, Elems(init)), n, v.nodes.vals[n]);
      SnapEdgesEffect(v, e1, EdgesOf(v, n));
      SweptAdd(v, Elems(init), n);
      RestrictUnion(edges.vals, v.edges.vals, Swept(v, Elems(init)), Elems(EdgesOf(v, n)));
    }
  }

  /** The edges of one more node are the edges listed by node.getEdges(). */
  lemma SweptAdd(v: GraphValue, s: set<Id>, n: Id)
    requires DictValid(v.edges) && n in v.nodes.vals
    ensures Swept(v, s + {n}) == Swept(v, s) + Elems(EdgesOf(v, n))
  {
    forall e
      ensures e in Swept(v, s + {n}) <==> e in Swept(v, s) || e in EdgesOf(v, n)
    {
      if e in v.edges.vals && Incident(v.edges.vals[e], n) {
        assert e in Swept(v, s + {n});
      }
    }
  }

  /** In a flow graph init snapshots every selected node and, with no
      duplicate keys, every selected edge and every edge of a selected node,
      each under its id with the graph's model; entries the params already
      had stay unless overwritten. */
  lemma InitSnapshot(v: GraphValue, p: Params)
    requires Valid(v) && v.kind == Flow
    requires DictValid(FlowOf(p).0) && DictValid(FlowOf(p).1)
    ensures Initialized(v, p).Some?
    ensures DictValid(FlowOf(Initialized(v, p).value).0) && DictValid(FlowOf(Initialized(v, p).value).1)
    ensures FlowOf(Initialized(v, p).value).0.vals
         == FlowOf(p).0.vals + Restrict(v.nodes.vals, Elems(SelectedNodes(v)))
    ensures FlowOf(Initialized(v, p).value).1.vals == FlowOf(p).1.vals + Restrict(v.edges.vals, Doomed(v))
    ensures forall k :: k != "flow" ==> (k in Initialized(v, p).value <==> k in p)
    ensures forall k :: k != "flow" && k in p ==> Initialized(v, p).value[k] == p[k]
  {
    var (n0, e0) := FlowOf(p);
    var sel := SelectedNodes(v);
    var (n1, e1) := SnapNodes(v, n0, e0, sel);
    var e2 := SnapEdges(v, e1, SelectedEdges(v));
    assert Initialized(v, p) == Some(p["flow" := PFlow(n1, e2)]);
    assert FlowOf(p["flow" := PFlow(n1, e2)]) == (n1, e2);
    SnapFlow(v, n0, e0);
  }

  lemma SnapFlow(v: GraphValue, n0: Dict, e0: Dict)
    requires Valid(v) && DictValid(n0) && DictValid(e0)
    ensures DictValid(SnapNodes(v, n0, e0, SelectedNodes(v)).0)
    ensures DictValid(SnapEdges(v, SnapNodes(v, n0, e0, SelectedNodes(v)).1, SelectedEdges(v)))
    ensures SnapNodes(v, n0, e0, SelectedNodes(v)).0.vals == n0.vals + Restrict(v.nodes.vals, Elems(SelectedNodes(v)))
    ensures SnapEdges(v, SnapNodes(v, n0, e0, SelectedNodes(v)).1, SelectedEdges(v)).vals
         == e0.vals + Restrict(v.edges.vals, Doomed(v))
  {
    var sel := SelectedNodes(v);
    assert Elems(sel) <= v.nodes.vals.Keys;
    SnapNodesEffect(v, n0, e0, sel);
    var (n1, e1) := SnapNodes(v, n0, e0, sel);
    SnapEdgesEffect(v, e1, SelectedEdges(v));
    RestrictUnion(e0.vals, v.edges.vals, Swept(v, Elems(sel)), Elems(SelectedEdges(v)));
    assert Swept(v, Elems(sel)) + Elems(SelectedEdges(v)) == Doomed(v);
  }

  /** What Doomed holds, in the source's words. */
  lemma DoomedMembers(v: GraphValue)
    requires Valid(v)
    ensures forall n :: n in Elems(SelectedNodes(v)) <==> n in v.nodes.vals && IsSelected(v, n)
    ensures forall e :: e in Doomed(v) <==>
      e in v.edges.vals && (IsSelected(v, e) || exists n :: n in Elems(SelectedNodes(v)) && Incident(v.edges.vals[e], n))
  {
    assert forall n :: n in v.nodes.keys <==> n in v.nodes.vals;
    assert forall e :: e in v.edges.keys <==> e in v.edges.vals;
    forall e
      ensures e in Doomed(v) <==>
        e in v.edges.vals && (IsSelected(v, e) || exists n :: n in Elems(SelectedNodes(v)) && Incident(v.edges.vals[e], n))
    {
      if e in v.edges.vals && exists n :: n in Elems(SelectedNodes(v)) && Incident(v.edges.vals[e], n) {
        var n :| n in Elems(SelectedNodes(v)) && Incident(v.edges.vals[e], n);
        assert n in v.nodes.vals;
        assert e in Swept(v, Elems(SelectedNodes(v)));
      }
    }
  }

  // ------------------------------------------------------------ execute, undo

  /** The ids a flow execute removes: the snapshot's node keys, then its
      edge keys. */
  function Targets(p: Params): seq<Id>
  {
    FlowOf(p).0.keys + FlowOf(p).1.keys
  }

  /** In a flow graph execute removes exactly the snapshotted ids and the
      edges of the removed nodes, inside one batch, after an event with no
      name and, when nodes were removed, followed by afterremovenode. */
  lemma ExecuteRemoves(v: GraphValue, p: Params)
    requires Valid(v) && v.kind == Flow
    ensures Valid(Executed(v, p))
    ensures Executed(v, p).nodes.vals == v.nodes.vals - Elems(Targets(p))
    ensures Executed(v, p).edges.vals == v.edges.vals - (Elems(Targets(p)) + Swept(v, Elems(Targets(p))))
    ensures Executed(v, p).combos.vals == v.combos.vals - Elems(Targets(p))
    ensures Executed(v, p).events
         == v.events + [UndefinedEvent] + (if |FlowOf(p).0.keys| > 0 then [AfterRemoveNode] else [])
    ensures Executed(v, p).kind == Flow
    ensures Executed(v, p).autoPaint == v.autoPaint && Executed(v, p).paints == v.paints + 1
  {
    var o := BatchOpened(Emit(v, UndefinedEvent));
    assert SameItems(v, o);
    SameItemsAgree(v, o);
    RemoveAllEffect(o, Targets(p));
    var k := Elems(Targets(p));
    assert Swept(o, k) == Swept(v, k);
  }

  /** Every entry of `a` is an entry of `m`. */
  predicate SubMap(a: map<Id, ItemModel>, m: map<Id, ItemModel>)
  {
    forall k :: k in a ==> k in m && a[k] == m[k]
  }

  /** Removing a map's keys in `k` and putting back the entries of `a`
      gives the map back when `a` holds every removed entry. */
  lemma Rejoin(m: map<Id, ItemModel>, k: set<Id>, a: map<Id, ItemModel>)
    requires SubMap(a, m) && m.Keys * k <= a.Keys
    ensures (m - k) + a == m
  {
  }

  lemma MinusDisjoint(m: map<Id, ItemModel>, k: set<Id>)
    requires m.Keys !! k
    ensures m - k == m
  {
  }

  /** A dictionary whose entries are entries of a graph dictionary is keyed
      like it. */
  lemma SubDictKeyed(d: Dict, src: Dict)
    requires DictValid(d) && Keyed(src) && SubMap(d.vals, src.vals)
    ensures Keyed(d)
    ensures Elems(d.keys) == d.vals.Keys
    ensures Restrict(d.vals, Elems(d.keys)) == d.vals
  {
  }

  /** Adding a whole dictionary of new ids adds exactly its entries. */
  lemma AddDict(o: GraphValue, t: ItemType, d: Dict)
    requires Valid(o) && DictValid(d) && Keyed(d) && d.vals.Keys !! AllIds(o)
    ensures Valid(AddKeys(o, t, d, d.keys))
    ensures AllIds(AddKeys(o, t, d, d.keys)) == AllIds(o) + d.vals.Keys
    ensures AddKeys(o, t, d, d.keys).nodes.vals == AddedIf(Node, t, o.nodes.vals, d.vals)
    ensures AddKeys(o, t, d, d.keys).edges.vals == AddedIf(Edge, t, o.edges.vals, d.vals)
    ensures AddKeys(o, t, d, d.keys).combos.vals == AddedIf(Combo, t, o.combos.vals, d.vals)
  {
    AddKeysIds(o, t, d, d.keys);
    AddKeysEffect(o, t, d, d.keys);
    RestrictAll(d.vals, Elems(d.keys));
  }

  lemma RestrictAll(d: map<Id, ItemModel>, s: set<Id>)
    requires s == d.Keys
    ensures Restrict(d, s) == d
  {
  }

  /** Adding a node dictionary and then an edge dictionary under new ids
      adds exactly their entries. */
  lemma AddBoth(o: GraphValue, n: Dict, e: Dict)
    requires Valid(o)
    requires DictValid(n) && DictValid(e) && Keyed(n) && Keyed(e)
    requires n.vals.Keys !! AllIds(o) && e.vals.Keys !! AllIds(o) && n.vals.Keys !! e.vals.Keys
    ensures Valid(AddKeys(AddKeys(o, Node, n, n.keys), Edge, e, e.keys))
    ensures AddKeys(AddKeys(o, Node, n, n.keys), Edge, e, e.keys).nodes.vals == o.nodes.vals + n.vals
    ensures AddKeys(AddKeys(o, Node, n, n.keys), Edge, e, e.keys).edges.vals == o.edges.vals + e.vals
    ensures AddKeys(AddKeys(o, Node, n, n.keys), Edge, e, e.keys).combos.vals == o.combos.vals
  {
    AddDict(o, Node, n);
    var a := AddKeys(o, Node, n, n.keys);
    AddDict(a, Edge, e);
  }

  /** In a flow graph undo adds the snapshot's nodes and then its edges,
      all under ids the graph does not have, in one batch. */
  lemma UndoAdds(x: GraphValue, q: Params)
    requires Valid(x) && x.kind == Flow
    requires DictValid(FlowOf(q).0) && DictValid(FlowOf(q).1)
    requires Keyed(FlowOf(q).0) && Keyed(FlowOf(q).1)
    requires FlowOf(q).0.vals.Keys !! AllIds(x) && FlowOf(q).1.vals.Keys !! AllIds(x)
    requires FlowOf(q).0.vals.Keys !! FlowOf(q).1.vals.Keys
    ensures Valid(Undone(x, q))
    ensures Undone(x, q).nodes.vals == x.nodes.vals + FlowOf(q).0.vals
    ensures Undone(x, q).edges.vals == x.edges.vals + FlowOf(q).1.vals
    ensures Undone(x, q).combos.vals == x.combos.vals
  {
    var (n, e) := FlowOf(q);
    var o := BatchOpened(x);
    assert SameItems(x, o);
    SameItemsAgree(x, o);
    AddBoth(o, n, e);
    var b := AddKeys(AddKeys(o, Node, n, n.keys), Edge, e, e.keys);
    assert SameItems(b, Undone(x, q));
    SameItemsAgree(b, Undone(x, q));
  }

  /** Undo after execute restores the flow graph's items whenever the
      snapshot's entries are the graph's own and it holds every edge of
      every snapshotted node. */
  lemma UndoRestores(v: GraphValue, q: Params)
    requires Valid(v) && v.kind == Flow
    requires DictValid(FlowOf(q).0) && DictValid(FlowOf(q).1)
    requires SubMap(FlowOf(q).0.vals, v.nodes.vals) && SubMap(FlowOf(q).1.vals, v.edges.vals)
    requires Swept(v, FlowOf(q).0.vals.Keys) <= FlowOf(q).1.vals.Keys
    ensures Undone(Executed(v, q), q).nodes.vals == v.nodes.vals
    ensures Undone(Executed(v, q), q).edges.vals == v.edges.vals
    ensures Undone(Executed(v, q), q).combos.vals == v.combos.vals
    ensures Valid(Undone(Executed(v, q), q))
  {
    var (n, e) := FlowOf(q);
    SubDictKeyed(n, v.nodes);
    SubDictKeyed(e, v.edges);
    ElemsConcat(n.keys, e.keys);
    var k := Elems(Targets(q));
    SweptCovered(v, n.vals.Keys, e.vals.Keys);
    ExecuteRemoves(v, q);
    var x := Executed(v, q);
    UndoAdds(x, q);
    Rejoin(v.nodes.vals, k, n.vals);
    Rejoin(v.edges.vals, k + Swept(v, k), e.vals);
    MinusDisjoint(v.combos.vals, k);
  }

  /** Only nodes sweep edges: adding edge ids to the removed set sweeps
      nothing more. */
  lemma SweptCovered(v: GraphValue, ns: set<Id>, es: set<Id>)
    requires Disjoint(v) && es <= v.edges.vals.Keys
    requires Swept(v, ns) <= es
    ensures Swept(v, ns + es) <= es
  {
    forall x | x in Swept(v, ns + es)
      ensures x in Swept(v, ns)
    {
      var y :| y in ns + es && y in v.nodes.vals && Incident(v.edges.vals[x], y);
      assert y in ns;
    }
  }

  /** In a flow graph, executing a remove initialised from fresh params
      and undoing it brings back every node, edge and combo model under its
      own id. */
  lemma RoundTrip(v: GraphValue, p: Params, q: Params)
    requires Valid(v) && v.kind == Flow && FlowOf(p) == (EmptyDict, EmptyDict)
    requires Initialized(v, p) == Some(q)
    ensures Undone(Executed(v, q), q).nodes.vals == v.nodes.vals
    ensures Undone(Executed(v, q), q).edges.vals == v.edges.vals
    ensures Undone(Executed(v, q), q).combos.vals == v.combos.vals
    ensures Valid(Undone(Executed(v, q), q))
  {
    FreshSnapshot(v, p, q);
    var sn := Elems(SelectedNodes(v));
    RestrictSub(v.nodes.vals, sn);
    RestrictSub(v.edges.vals, Doomed(v));
    UndoRestores(v, q);
  }

  /** InitSnapshot for fresh params. */
  lemma FreshSnapshot(v: GraphValue, p: Params, q: Params)
    requires Valid(v) && v.kind == Flow && FlowOf(p) == (EmptyDict, EmptyDict)
    requires Initialized(v, p) == Some(q)
    ensures DictValid(FlowOf(q).0) && DictValid(FlowOf(q).1)
    ensures FlowOf(q).0.vals == Restrict(v.nodes.vals, Elems(SelectedNodes(v)))
    ensures FlowOf(q).1.vals == Restrict(v.edges.vals, Doomed(v))
    ensures Elems(SelectedNodes(v)) <= v.nodes.vals.Keys
    ensures Swept(v, Elems(SelectedNodes(v))) <= Doomed(v)
  {
    var (n, e) := FlowOf(q);
    var sn := Elems(SelectedNodes(v));
    assert DictValid(n) && DictValid(e) && n.vals == map[] + Restrict(v.nodes.vals, sn)
      && e.vals == map[] + Restrict(v.edges.vals, Doomed(v)) by {
      InitSnapshot(v, p);
    }
    assert map[] + Restrict(v.nodes.vals, sn) == Restrict(v.nodes.vals, sn);
    assert map[] + Restrict(v.edges.vals, Doomed(v)) == Restrict(v.edges.vals, Doomed(v));
  }

  lemma RestrictSub(m: map<Id, ItemModel>, s: set<Id>)
    ensures SubMap(Restrict(m, s), m)
    ensures Restrict(m, s).Keys == m.Keys * s
  {
  }

  // -------------------------------------------------------------- mind graph

  /** In a mind graph init fails exactly when no node is selected, and
      otherwise keeps the model and the parent of the first selected node. */
  lemma InitMind(v: GraphValue, p: Params)
    requires Valid(v) && v.kind == Mind
    ensures Initialized(v, p).None? <==> forall n :: n in v.nodes.vals ==> !IsSelected(v, n)
    ensures Initialized(v, p).Some? ==>
      var n := SelectedNodes(v)[0];
      && n in v.nodes.vals && IsSelected(v, n)
      && MindOf(Initialized(v, p).value).0 == Some(v.nodes.vals[n])
      && MindOf(Initialized(v, p).value).1 == (if n in v.parent then Some(v.parent[n]) else None)
  {
    assert forall n :: n in v.nodes.keys <==> n in v.nodes.vals;
    if SelectedNodes(v) != [] {
      assert SelectedNodes(v)[0] in SelectedNodes(v);
    }
  }

  /** In a mind graph, undo after execute puts the removed node back with
      its model and its parent; the edges that went with it stay removed. */
  lemma MindRoundTrip(v: GraphValue, p: Params, q: Params)
    requires Valid(v) && v.kind == Mind
    requires Initialized(v, p) == Some(q)
    ensures SelectedNodes(v) != []
    ensures Undone(Executed(v, q), q).nodes.vals == v.nodes.vals
    ensures Undone(Executed(v, q), q).edges.vals == v.edges.vals - IncidentEdges(v, SelectedNodes(v)[0])
    ensures forall x :: x in v.nodes.vals ==>
      (x in Undone(Executed(v, q), q).parent <==> x in v.parent)
      && (x in v.parent ==> Undone(Executed(v, q), q).parent[x] == v.parent[x])
  {
    InitMind(v, p);
    var n := SelectedNodes(v)[0];
    var model := v.nodes.vals[n];
    var par := if n in v.parent then Some(v.parent[n]) else None;
    assert IdOf(model) == n;
    assert MindOf(q) == (Some(model), par);
    assert Executed(v, q) == RemoveChild(v, n);
    assert Undone(RemoveChild(v, n), q) == AddChild(RemoveChild(v, n), model, par);
    ReAddChild(v, n, par);
  }

  /** Removing a mind node and adding its model back under its old parent. */
  lemma ReAddChild(v: GraphValue, n: Id, par: Option<Id>)
    requires Valid(v) && n in v.nodes.vals
    requires par == if n in v.parent then Some(v.parent[n]) else None
    ensures AddChild(RemoveChild(v, n), v.nodes.vals[n], par).nodes.vals == v.nodes.vals
    ensures AddChild(RemoveChild(v, n), v.nodes.vals[n], par).edges.vals == v.edges.vals - IncidentEdges(v, n)
    ensures forall x :: x in v.nodes.vals ==>
      (x in AddChild(RemoveChild(v, n), v.nodes.vals[n], par).parent <==> x in v.parent)
      && (x in v.parent ==> AddChild(RemoveChild(v, n), v.nodes.vals[n], par).parent[x] == v.parent[x])
  {
    var w := RemoveChild(v, n);
    RemovedNodeFree(v, n);
    AddChildNew(w, v.nodes.vals[n], par);
    ParentAfterRemove(v, n);
  }

  lemma RemovedNodeFree(v: GraphValue, n: Id)
    requires Valid(v) && n in v.nodes.vals
    ensures n !in AllIds(RemoveChild(v, n))
    ensures RemoveChild(v, n).nodes.vals[n := v.nodes.vals[n]] == v.nodes.vals
    ensures RemoveChild(v, n).edges.vals == v.edges.vals - IncidentEdges(v, n)
  {
  }

  lemma ParentAfterRemove(v: GraphValue, n: Id)
    requires Disjoint(v) && n in v.nodes.vals
    ensures forall x :: x in v.nodes.vals && x != n ==>
      (x in RemoveChild(v, n).parent <==> x in v.parent)
      && (x in v.parent ==> RemoveChild(v, n).parent[x] == v.parent[x])
    ensures n !in RemoveChild(v, n).parent
  {
    var r := {n} + IncidentEdges(v, n);
    assert RemoveChild(v, n).parent == v.parent - r;
    assert forall x :: x in v.nodes.vals && x != n ==> x !in r;
  }
}
