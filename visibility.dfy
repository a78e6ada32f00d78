/** src/components/Graph/command/showEdges.ts and hideEdges.ts, one the
    mirror of the other: switch the visibility of a list of edges (by
    default every edge currently hidden, for showEdges with `show` true, or
    every edge currently visible, for hideEdges) and announce it with one
    aggregate event; undo switches the same edges back. */
module EdgeVisibilityCommand {
  import opened Model
  import opened G6
  import opened G6Graph
  import opened Utils

  const DefaultParams: Params := map["edges" := PIds([])]

  /** The edge is in the state the command changes: hidden for showEdges,
      visible for hideEdges. */
  predicate Flippable(v: GraphValue, e: Id, show: bool)
  {
    (e in v.hidden) == show
  }

  /** Not readonly, and some edge is hidden (showEdges) or visible
      (hideEdges). */
  predicate CanExecute(v: GraphValue, show: bool)
  {
    v.mode != ReadonlyMode && exists e :: e in v.edges.keys && Flippable(v, e, show)
  }

  /** The edges init collects, in graph order. */
  function Targets(v: GraphValue, show: bool): (r: seq<Id>)
    ensures forall e :: e in r <==> e in v.edges.keys && Flippable(v, e, show)
    ensures DictValid(v.edges) ==> Distinct(r)
  {
    Pick(v.edges.keys, v.hidden, show)
  }

  /** The ids of `keys` whose membership in `hidden` is `show`, in order. */
  function Pick(keys: seq<Id>, hidden: set<Id>, show: bool): (r: seq<Id>)
    ensures forall e :: e in r <==> e in keys && (e in hidden) == show
    ensures Distinct(keys) ==> Distinct(r)
  {
    Filter(keys, Applies(hidden, show))
  }

  /** The test of the command's filter: hidden for showEdges, shown for
      hideEdges. */
  function Applies(hidden: set<Id>, show: bool): Id -> bool
  {
    e => (e in hidden) == show
  }

  /** The loop of init over the graph's edges. */
  method PickEach(keys: seq<Id>, hidden: set<Id>, show: bool) returns (edges: seq<Id>)
    ensures edges == Pick(keys, hidden, show)
  {
    edges := [];
    for i := 0 to |keys|
      invariant edges == Filter(keys[..i], Applies(hidden, show))
    {
      FilterAt(keys, i, Applies(hidden, show));
      if Applies(hidden, show)(keys[i]) {
        edges := edges + [keys[i]];
      }
    }
    PrefixAll(keys);
  }

  /** init: an empty `params.edges` is replaced by the edges the command
      applies to; a given list is kept. */
  function Initialized(v: GraphValue, p: Params, show: bool): Params
  {
    if |IdsParam(p, "edges")| == 0 then p["edges" := PIds(Targets(v, show))] else p
  }

  /** The forEach of `edge.changeVisibility(visible)`. */
  function ChangeAll(v: GraphValue, ids: seq<Id>, visible: bool): GraphValue
  {
    if ids == [] then v else ChangeVisibility(ChangeAll(v, ids[..|ids| - 1], visible), ids[|ids| - 1], visible)
  }

  lemma ChangeAllStep(v: GraphValue, ids: seq<Id>, i: nat, visible: bool)
    requires i < |ids|
    ensures ChangeAll(v, ids[..i + 1], visible) == ChangeVisibility(ChangeAll(v, ids[..i], visible), ids[i], visible)
  {
    assert ids[..i + 1][..i] == ids[..i];
  }

  /** A batch of visibility changes with the aggregate event emitted inside
      it, as showEdges does on execute and both commands do on undo. */
  function FlipInside(v: GraphValue, ids: seq<Id>, visible: bool): GraphValue
  {
    BatchClosed(Emit(ChangeAll(BatchOpened(v), ids, visible), AfterVisibilityChangeAllEdges), v.autoPaint)
  }

  /** The forEach inside its batch up to the first listed id findById
      finds no item for, where `changeVisibility` throws: the batch stays
      open (auto-paint off, no paint) and no event is emitted. */
  function Stopped(v: GraphValue, ids: seq<Id>, visible: bool): GraphValue
  {
    ChangeAll(BatchOpened(v), ids[..Unfound(AllIds(v), ids)], visible)
  }

  /** execute: showEdges emits inside its batch, hideEdges after it; both
      throw at a listed id no item has. */
  function Executed(v: GraphValue, p: Params, show: bool): Run
  {
    var ids := IdsParam(p, "edges");
    if Unfound(AllIds(v), ids) < |ids| then Threw(Stopped(v, ids, show))
    else if show then Ran(FlipInside(v, ids, true))
    else Ran(Emit(BatchClosed(ChangeAll(BatchOpened(v), ids, false), v.autoPaint), AfterVisibilityChangeAllEdges))
  }

  /** undo: the opposite switch, the event inside the batch; it throws as
      execute does. */
  function Undone(v: GraphValue, p: Params, show: bool): Run
  {
    var ids := IdsParam(p, "edges");
    if Unfound(AllIds(v), ids) < |ids| then Threw(Stopped(v, ids, !show))
    else Ran(FlipInside(v, ids, !show))
  }

  method Init(g: Graph, p: Params, show: bool) returns (q: Params)
    ensures q == Initialized(g.View(), p, show)
  {
    q := p;
    if |IdsParam(p, "edges")| == 0 {
      var edges := PickEach(g.edges.keys, g.hidden, show);
      q := p["edges" := PIds(edges)];
    }
  }

  /** Switches each listed edge, without the batch, up to the first id
      findById does not find. */
  method ChangeEach(g: Graph, ids: seq<Id>, visible: bool) returns (threw: bool)
    modifies g
    ensures var n := Unfound(AllIds(old(g.View())), ids);
      threw == (n < |ids|) && g.View() == ChangeAll(old(g.View()), ids[..n], visible)
  {
    ghost var start := g.View();
    ghost var n := Unfound(AllIds(start), ids);
    var i := 0;
    while i < |ids|
      invariant i <= n
      invariant g.View() == ChangeAll(start, ids[..i], visible)
    {
      ChangeAllStep(start, ids, i, visible);
      assert AllIds(g.View()) == AllIds(start) by { ChangeAllEffect(start, ids[..i], visible); }
      if ids[i] !in AllIds(g.View()) {
        assert i == n;
        return true;
      }
      g.ChangeVisibility(ids[i], visible);
      i := i + 1;
    }
    PrefixAll(ids);
    threw := false;
  }

  method Execute(g: Graph, p: Params, show: bool) returns (threw: bool)
    modifies g
    ensures Executed(old(g.View()), p, show) == if threw then Threw(g.View()) else Ran(g.View())
  {
    ghost var ids := IdsParam(p, "edges");
    var saved := BeginBatch(g);
    assert AllIds(g.View()) == AllIds(old(g.View()));
    threw := ChangeEach(g, IdsParam(p, "edges"), show);
    if threw {
      return;
    }
    assert ids[..Unfound(AllIds(old(g.View())), ids)] == ids;
    if show {
      g.Emit(AfterVisibilityChangeAllEdges);
    }
    EndBatch(g, saved);
    if !show {
      g.Emit(AfterVisibilityChangeAllEdges);
    }
  }

  method Undo(g: Graph, p: Params, show: bool) returns (threw: bool)
    modifies g
    ensures Undone(old(g.View()), p, show) == if threw then Threw(g.View()) else Ran(g.View())
  {
    ghost var ids := IdsParam(p, "edges");
    var saved := BeginBatch(g);
    assert AllIds(g.View()) == AllIds(old(g.View()));
    threw := ChangeEach(g, IdsParam(p, "edges"), !show);
    if threw {
      return;
    }
    assert ids[..Unfound(AllIds(old(g.View())), ids)] == ids;
    g.Emit(AfterVisibilityChangeAllEdges);
    EndBatch(g, saved);
  }

  /** The hidden set after switching `ids`: the existing ones among them
      leave it (visible) or join it (hidden); no item and no other state
      changes. */
  function Switched(v: GraphValue, ids: seq<Id>, visible: bool): set<Id>
  {
    if visible then v.hidden - (Elems(ids) * AllIds(v)) else v.hidden + (Elems(ids) * AllIds(v))
  }

  lemma {:induction false} ChangeAllEffect(v: GraphValue, ids: seq<Id>, visible: bool)
    ensures ChangeAll(v, ids, visible).hidden == Switched(v, ids, visible)
    ensures SameItems(ChangeAll(v, ids, visible), v)
    ensures SameCanvas(ChangeAll(v, ids, visible), v)
    ensures ChangeAll(v, ids, visible).states == v.states
  {
    if ids == [] {
      assert Elems(ids) == {};
    } else {
      var init := ids[..|ids| - 1];
      var x := ids[|ids| - 1];
      ChangeAllEffect(v, init, visible);
      var w := ChangeAll(v, init, visible);
      LastSplit(ids);
      ElemsConcat(init, [x]);
      SwitchedStep(v, w, init, x, visible);
    }
  }

  lemma SwitchedStep(v: GraphValue, w: GraphValue, init: seq<Id>, x: Id, visible: bool)
    requires w.hidden == Switched(v, init, visible) && SameItems(w, v)
    requires Elems(init + [x]) == Elems(init) + Elems([x])
    ensures ChangeVisibility(w, x, visible).hidden == Switched(v, init + [x], visible)
  {
    assert Elems([x]) == {x};
    assert AllIds(w) == AllIds(v);
  }

  /** init on an empty list collects exactly the edges in the state the
      command changes, each once; a given list is kept. */
  lemma InitTargets(v: GraphValue, p: Params, show: bool)
    requires Valid(v)
    ensures |IdsParam(p, "edges")| > 0 ==> Initialized(v, p, show) == p
    ensures |IdsParam(p, "edges")| == 0 ==>
      var ids := IdsParam(Initialized(v, p, show), "edges");
      && (forall e :: e in ids <==> e in v.edges.vals && Flippable(v, e, show))
      && Distinct(ids)
  {
    assert forall e :: e in v.edges.keys <==> e in v.edges.vals;
  }

  /** The command can run exactly when, outside readonly mode, init on the
      default params finds an edge to switch. */
  lemma CanExecuteIffTargets(v: GraphValue, show: bool)
    ensures CanExecute(v, show) <==> v.mode != ReadonlyMode && |IdsParam(Initialized(v, DefaultParams, show), "edges")| > 0
  {
    var ids := IdsParam(Initialized(v, DefaultParams, show), "edges");
    assert ids == Targets(v, show);
    if v.mode != ReadonlyMode && |ids| > 0 {
      assert ids[0] in ids;
    }
  }

  /** execute shows (showEdges) or hides (hideEdges) exactly the listed
      items, changes no item, selection or other visibility, paints once
      and emits the one aggregate event. */
  lemma ExecuteSwitches(v: GraphValue, p: Params, show: bool)
    requires Elems(IdsParam(p, "edges")) <= AllIds(v)
    ensures Executed(v, p, show).Ran?
    ensures Executed(v, p, show).graph.hidden == Switched(v, IdsParam(p, "edges"), show)
    ensures SameItems(Executed(v, p, show).graph, v) && Executed(v, p, show).graph.states == v.states
    ensures Executed(v, p, show).graph.events == v.events + [AfterVisibilityChangeAllEdges]
    ensures Executed(v, p, show).graph.paints == v.paints + 1 && Executed(v, p, show).graph.autoPaint == v.autoPaint
  {
    var o := BatchOpened(v);
    ChangeAllEffect(o, IdsParam(p, "edges"), show);
    assert AllIds(o) == AllIds(v);
  }

  /** undo switches the listed items the other way, with the same single
      event and paint. */
  lemma UndoSwitches(v: GraphValue, p: Params, show: bool)
    requires Elems(IdsParam(p, "edges")) <= AllIds(v)
    ensures Undone(v, p, show).Ran?
    ensures Undone(v, p, show).graph.hidden == Switched(v, IdsParam(p, "edges"), !show)
    ensures SameItems(Undone(v, p, show).graph, v) && Undone(v, p, show).graph.states == v.states
    ensures Undone(v, p, show).graph.events == v.events + [AfterVisibilityChangeAllEdges]
    ensures Undone(v, p, show).graph.paints == v.paints + 1 && Undone(v, p, show).graph.autoPaint == v.autoPaint
  {
    var o := BatchOpened(v);
    ChangeAllEffect(o, IdsParam(p, "edges"), !show);
    assert AllIds(o) == AllIds(v);
  }

  /** A listed id findById finds no item for: execute and undo throw inside
      their batch, with auto-paint left off, nothing painted or emitted, no
      item changed, and only the edges listed before it switched. */
  lemma StaleEdgeThrows(v: GraphValue, p: Params, show: bool)
    requires !(Elems(IdsParam(p, "edges")) <= AllIds(v))
    ensures Executed(v, p, show).Threw? && Undone(v, p, show).Threw?
    ensures var ids := IdsParam(p, "edges");
      var n := Unfound(AllIds(v), ids);
      var w := Executed(v, p, show).graph;
      && n < |ids| && ids[n] !in AllIds(v)
      && w.hidden == Switched(v, ids[..n], show)
      && SameItems(w, v) && w.states == v.states
      && w.autoPaint == false && w.paints == v.paints && w.events == v.events
  {
    var ids := IdsParam(p, "edges");
    var o := BatchOpened(v);
    ChangeAllEffect(o, ids[..Unfound(AllIds(v), ids)], show);
    assert AllIds(o) == AllIds(v);
  }

  /** With the edges init collects, showEdges leaves every edge visible and
      hideEdges every edge hidden, and undo brings back exactly the old
      visibility of every item. */
  lemma RoundTrip(v: GraphValue, show: bool)
    requires Valid(v)
    ensures var q := Initialized(v, DefaultParams, show);
      && Executed(v, q, show).Ran?
      && Undone(Executed(v, q, show).graph, q, show).Ran?
    ensures var q := Initialized(v, DefaultParams, show);
      forall e :: e in v.edges.vals ==> (e in Executed(v, q, show).graph.hidden) == !show
    ensures var q := Initialized(v, DefaultParams, show);
      Undone(Executed(v, q, show).graph, q, show).graph.hidden == v.hidden
  {
    var q := Initialized(v, DefaultParams, show);
    InitTargets(v, DefaultParams, show);
    var ids := IdsParam(q, "edges");
    assert Elems(ids) <= AllIds(v);
    ExecuteSwitches(v, q, show);
    var w := Executed(v, q, show).graph;
    assert AllIds(w) == AllIds(v);
    UndoSwitches(w, q, show);
    assert Elems(ids) * AllIds(v) == Elems(ids);
    if show {
      assert Elems(ids) <= v.hidden;
    } else {
      assert Elems(ids) !! v.hidden;
    }
  }
}
