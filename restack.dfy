/** src/components/Graph/command/toFront.ts and toBack.ts, one the mirror
    of the other: move every listed item to the front (toFront, `front`
    true) or the back (toBack) of the drawing order and write a fixed zIndex
    into its model, all inside one batch; undo makes the opposite move. */
module RestackCommand {
  import opened Model
  import opened G6
  import opened G6Graph
  import opened Utils

  /** The update `item.update({ zIndex })` writes: 1 at the front, 0 at the
      back. */
  function ZIndexOf(front: bool): ItemModel
  {
    map["zIndex" := Num(if front then 1 else 0)]
  }

  /** One turn of the forEach: `toFront`/`toBack`, then the zIndex. */
  function MoveOne(v: GraphValue, id: Id, front: bool): GraphValue
  {
    UpdateItem(if front then ToFront(v, id) else ToBack(v, id), id, ZIndexOf(front))
  }

  /** The forEach over `ids`. */
  function MoveAll(v: GraphValue, ids: seq<Id>, front: bool): GraphValue
  {
    if ids == [] then v else MoveOne(MoveAll(v, ids[..|ids| - 1], front), ids[|ids| - 1], front)
  }

  /** The whole batch, when findById finds every listed item. */
  function Moved(v: GraphValue, ids: seq<Id>, front: bool): GraphValue
  {
    BatchClosed(MoveAll(BatchOpened(v), ids, front), v.autoPaint)
  }

  /** The forEach inside its batch: at the first listed id findById finds
      no item for, `toFront`/`toBack` throws, leaving the batch open
      (auto-paint off, no paint) with only the items before it moved;
      otherwise the whole batch. */
  function Restacked(v: GraphValue, ids: seq<Id>, front: bool): Run
  {
    var n := Unfound(AllIds(v), ids);
    if n < |ids| then Threw(MoveAll(BatchOpened(v), ids[..n], front)) else Ran(Moved(v, ids, front))
  }

  /** One turn of the forEach on the graph object. */
  method MoveItem(g: Graph, id: Id, front: bool)
    modifies g
    ensures g.View() == MoveOne(old(g.View()), id, front)
  {
    if front {
      g.ToFront(id);
    } else {
      g.ToBack(id);
    }
    g.UpdateItem(id, ZIndexOf(front));
  }

  method Move(g: Graph, ids: seq<Id>, front: bool) returns (threw: bool)
    modifies g
    ensures Restacked(old(g.View()), ids, front) == if threw then Threw(g.View()) else Ran(g.View())
  {
    ghost var n := Unfound(AllIds(g.View()), ids);
    var saved := BeginBatch(g);
    assert AllIds(g.View()) == AllIds(old(g.View()));
    threw := MoveEach(g, ids, front);
    if !threw {
      assert ids[..n] == ids;
      EndBatch(g, saved);
    }
  }

  /** The forEach of the command, up to the first id findById does not
      find. */
  method MoveEach(g: Graph, ids: seq<Id>, front: bool) returns (threw: bool)
    modifies g
    ensures var n := Unfound(AllIds(old(g.View())), ids);
      threw == (n < |ids|) && g.View() == MoveAll(old(g.View()), ids[..n], front)
  {
    ghost var start := g.View();
    ghost var n := Unfound(AllIds(start), ids);
    var i := 0;
    while i < |ids|
      invariant i <= n
      invariant g.View() == MoveAll(start, ids[..i], front)
    {
      MoveAllStep(start, ids, i, front);
      assert AllIds(g.View()) == AllIds(start) by { MoveAllIds(start, ids[..i], front); }
      if ids[i] !in AllIds(g.View()) {
        assert i == n;
        return true;
      }
      MoveItem(g, ids[i], front);
      i := i + 1;
    }
    PrefixAll(ids);
    threw := false;
  }

  /** Restacking and writing a zIndex neither add nor remove an item. */
  lemma {:induction false} MoveAllIds(v: GraphValue, ids: seq<Id>, front: bool)
    ensures AllIds(MoveAll(v, ids, front)) == AllIds(v)
  {
    if ids != [] {
      MoveAllIds(v, ids[..|ids| - 1], front);
      MoveOneModels(MoveAll(v, ids[..|ids| - 1], front), ids[|ids| - 1], front);
    }
  }

  lemma MoveAllStep(v: GraphValue, ids: seq<Id>, i: nat, front: bool)
    requires i < |ids|
    ensures MoveAll(v, ids[..i + 1], front) == MoveOne(MoveAll(v, ids[..i], front), ids[i], front)
  {
    assert ids[..i + 1][..i] == ids[..i];
  }

  function Reversed(s: seq<Id>): (r: seq<Id>)
    ensures |r| == |s| && forall i :: 0 <= i < |s| ==> r[i] == s[|s| - 1 - i]
  {
    if s == [] then [] else [s[|s| - 1]] + Reversed(s[..|s| - 1])
  }

  lemma ReversedElems(s: seq<Id>)
    ensures Elems(Reversed(s)) == Elems(s)
  {
    var r := Reversed(s);
    forall y
      ensures y in r <==> y in s
    {
      if y in r {
        var i :| 0 <= i < |r| && r[i] == y;
        assert s[|s| - 1 - i] == y;
      }
      if y in s {
        var i :| 0 <= i < |s| && s[i] == y;
        assert r[|s| - 1 - i] == y;
      }
    }
  }

  /** Moving distinct items of the drawing order to the front leaves the
      other items in their order, followed by the moved ones in list order;
      moving them to the back puts them first, the last one moved first. */
  lemma {:induction false} MoveAllStack(v: GraphValue, ids: seq<Id>, front: bool)
    requires Distinct(ids) && Elems(ids) <= Elems(v.stack)
    ensures MoveAll(v, ids, front).stack
         == if front then Without(v.stack, Elems(ids)) + ids
            else Reversed(ids) + Without(v.stack, Elems(ids))
  {
    if ids != [] {
      var init := ids[..|ids| - 1];
      var x := ids[|ids| - 1];
      LastSplit(ids);
      DistinctInit(ids);
      ElemsConcat(init, [x]);
      assert Elems(ids) == Elems(init) + {x};
      assert Elems(init) <= Elems(v.stack);
      MoveAllStack(v, init, front);
      var w := MoveAll(v, init, front);
      assert x in Elems(v.stack);
      StackStep(v.stack, init, x, front, w.stack);
      MoveOneStack(w, x, front);
    } else {
      assert Elems(ids) == {};
      WithoutNone(v.stack, {});
    }
  }

  /** The drawing order after one turn, for an item in it. */
  lemma MoveOneStack(w: GraphValue, x: Id, front: bool)
    requires x in w.stack
    ensures MoveOne(w, x, front).stack
         == if front then Without(w.stack, {x}) + [x] else [x] + Without(w.stack, {x})
  {
  }

  lemma StackStep(s: seq<Id>, init: seq<Id>, x: Id, front: bool, t: seq<Id>)
    requires x in Elems(s) && x !in init
    requires t == if front then Without(s, Elems(init)) + init
                  else Reversed(init) + Without(s, Elems(init))
    ensures x in t
    ensures (if front then Without(t, {x}) + [x] else [x] + Without(t, {x}))
         == if front then Without(s, Elems(init + [x])) + (init + [x])
            else Reversed(init + [x]) + Without(s, Elems(init + [x]))
  {
    assert x in Without(s, Elems(init)) by { StillThere(s, Elems(init), x); }
    assert Without(Without(s, Elems(init)), {x}) == Without(s, Elems(init + [x])) by {
      ElemsSnoc(init, x);
      WithoutTwice(s, Elems(init), {x});
    }
    if front {
      StackStepFront(s, init, x);
    } else {
      StackStepBack(s, init, x);
    }
  }

  lemma StackStepFront(s: seq<Id>, init: seq<Id>, x: Id)
    requires x !in init
    requires Without(Without(s, Elems(init)), {x}) == Without(s, Elems(init + [x]))
    ensures Without(Without(s, Elems(init)) + init, {x}) + [x]
         == Without(s, Elems(init + [x])) + (init + [x])
  {
    var rest := Without(s, Elems(init));
    assert Without(init, {x}) == init by { WithoutNone(init, {x}); }
    WithoutConcat(rest, init, {x});
  }

  lemma StackStepBack(s: seq<Id>, init: seq<Id>, x: Id)
    requires x !in init
    requires Without(Without(s, Elems(init)), {x}) == Without(s, Elems(init + [x]))
    ensures [x] + Without(Reversed(init) + Without(s, Elems(init)), {x})
         == Reversed(init + [x]) + Without(s, Elems(init + [x]))
  {
    var rest := Without(s, Elems(init));
    assert Without(Reversed(init), {x}) == Reversed(init) by {
      ReversedElems(init);
      WithoutNone(Reversed(init), {x});
    }
    WithoutConcat(Reversed(init), rest, {x});
    ReversedSnoc(init, x);
  }

  lemma StillThere(s: seq<Id>, r: set<Id>, x: Id)
    requires x in Elems(s) && x !in r
    ensures x in Without(s, r)
  {
    assert x in Elems(Without(s, r));
  }

  lemma ElemsSnoc(s: seq<Id>, x: Id)
    ensures Elems(s + [x]) == Elems(s) + {x}
  {
    ElemsConcat(s, [x]);
    assert Elems([x]) == {x};
  }

  lemma ReversedSnoc(s: seq<Id>, x: Id)
    ensures Reversed(s + [x]) == [x] + Reversed(s)
  {
    assert (s + [x])[..|s|] == s;
  }

  /** Writing the same fields twice is writing them once. */
  lemma SpreadTwice(m: ItemModel, u: ItemModel)
    ensures Spread(Spread(m, u), u) == Spread(m, u)
  {
  }

  /** Restacking changes the drawing order only. */
  lemma RestackKeeps(w: GraphValue, x: Id, front: bool)
    ensures var t := if front then ToFront(w, x) else ToBack(w, x);
      && t.nodes == w.nodes && t.edges == w.edges && t.combos == w.combos
      && SameCanvas(t, w) && t.states == w.states && t.hidden == w.hidden
  {
  }

  /** One turn writes the zIndex into the one item and changes nothing
      else about the items. */
  lemma MoveOneModels(w: GraphValue, x: Id, front: bool)
    ensures forall y ::
      ModelOf(MoveOne(w, x, front), y)
        == if y == x && ModelOf(w, y).Some? then Some(Spread(ModelOf(w, y).value, ZIndexOf(front)))
           else ModelOf(w, y)
    ensures AllIds(MoveOne(w, x, front)) == AllIds(w)
    ensures SameCanvas(MoveOne(w, x, front), w)
    ensures MoveOne(w, x, front).states == w.states && MoveOne(w, x, front).hidden == w.hidden
  {
    var t := if front then ToFront(w, x) else ToBack(w, x);
    RestackKeeps(w, x, front);
    assert AllIds(t) == AllIds(w);
    assert forall y :: ModelOf(t, y) == ModelOf(w, y);
    UpdateItemModel(t, x, ZIndexOf(front));
    UpdateItemKeeps(t, x, ZIndexOf(front));
  }

  /** The models after moving `ids`. */
  function MovedModel(v: GraphValue, ids: seq<Id>, front: bool, x: Id): Option<ItemModel>
  {
    if x in ids && ModelOf(v, x).Some? then Some(Spread(ModelOf(v, x).value, ZIndexOf(front)))
    else ModelOf(v, x)
  }

  /** Each listed item that exists gets the zIndex written over its model;
      no other item changes, and no item appears or disappears. */
  lemma {:induction false} MoveAllModels(v: GraphValue, ids: seq<Id>, front: bool)
    ensures forall x :: ModelOf(MoveAll(v, ids, front), x) == MovedModel(v, ids, front, x)
    ensures AllIds(MoveAll(v, ids, front)) == AllIds(v)
    ensures SameCanvas(MoveAll(v, ids, front), v)
    ensures MoveAll(v, ids, front).states == v.states && MoveAll(v, ids, front).hidden == v.hidden
  {
    if ids != [] {
      var init := ids[..|ids| - 1];
      var x := ids[|ids| - 1];
      var w := MoveAll(v, init, front);
      var r := MoveOne(w, x, front);
      assert MoveAll(v, ids, front) == r;
      MoveAllModels(v, init, front);
      assert AllIds(r) == AllIds(w) && SameCanvas(r, w) && r.states == w.states && r.hidden == w.hidden by {
        MoveOneModels(w, x, front);
      }
      LastSplit(ids);
      forall y
        ensures ModelOf(r, y) == MovedModel(v, ids, front, y)
      {
        var before := ModelOf(w, y);
        var written := if before.Some? then Some(Spread(before.value, ZIndexOf(front))) else None;
        assert ModelOf(r, y) == if y == x then written else before by {
          MoveOneModels(w, x, front);
        }
        ModelsStep(v, init, x, front, y, before, ModelOf(r, y), written);
      }
    }
  }

  lemma ModelsStep(v: GraphValue, init: seq<Id>, x: Id, front: bool, y: Id,
                   before: Option<ItemModel>, after: Option<ItemModel>, written: Option<ItemModel>)
    requires before == MovedModel(v, init, front, y)
    requires written == if before.Some? then Some(Spread(before.value, ZIndexOf(front))) else None
    requires after == if y == x then written else before
    ensures after == MovedModel(v, init + [x], front, y)
  {
    assert y in init + [x] <==> y in init || y == x;
    if y == x && y in init && ModelOf(v, y).Some? {
      SpreadTwice(ModelOf(v, y).value, ZIndexOf(front));
    }
  }
  /** The whole batch: the drawing order as above, the zIndex written into
      each listed item, nothing else about the items changed, one paint and
      the auto-paint switch as before. */
  lemma MovedEffect(v: GraphValue, ids: seq<Id>, front: bool)
    requires Distinct(ids) && Elems(ids) <= Elems(v.stack)
    ensures Moved(v, ids, front).stack
         == if front then Without(v.stack, Elems(ids)) + ids
            else Reversed(ids) + Without(v.stack, Elems(ids))
    ensures forall x :: ModelOf(Moved(v, ids, front), x) == MovedModel(v, ids, front, x)
    ensures AllIds(Moved(v, ids, front)) == AllIds(v)
    ensures Moved(v, ids, front).states == v.states && Moved(v, ids, front).hidden == v.hidden
    ensures Moved(v, ids, front).events == v.events
    ensures Moved(v, ids, front).autoPaint == v.autoPaint && Moved(v, ids, front).paints == v.paints + 1
  {
    var o := BatchOpened(v);
    var m := MoveAll(o, ids, front);
    MoveAllStack(o, ids, front);
    MoveAllModels(o, ids, front);
    BatchKeeps(v, m);
    OpenedModels(v, ids, front);
  }

  /** Opening and closing a batch leaves the items alone. */
  lemma BatchKeeps(v: GraphValue, m: GraphValue)
    ensures BatchOpened(v).stack == v.stack && AllIds(BatchOpened(v)) == AllIds(v)
    ensures SameCanvas(BatchOpened(v).(autoPaint := v.autoPaint), v)
    ensures BatchOpened(v).states == v.states && BatchOpened(v).hidden == v.hidden
    ensures SameItems(BatchClosed(m, v.autoPaint), m)
    ensures BatchClosed(m, v.autoPaint).states == m.states && BatchClosed(m, v.autoPaint).hidden == m.hidden
    ensures BatchClosed(m, v.autoPaint).events == m.events && BatchClosed(m, v.autoPaint).paints == m.paints + 1
    ensures BatchClosed(m, v.autoPaint).autoPaint == v.autoPaint
    ensures forall x :: ModelOf(BatchClosed(m, v.autoPaint), x) == ModelOf(m, x)
    ensures AllIds(BatchClosed(m, v.autoPaint)) == AllIds(m)
  {
  }

  lemma OpenedModels(v: GraphValue, ids: seq<Id>, front: bool)
    ensures forall x :: MovedModel(BatchOpened(v), ids, front, x) == MovedModel(v, ids, front, x)
  {
    assert forall x :: ModelOf(BatchOpened(v), x) == ModelOf(v, x);
  }

  /** Writing `b` over `a` over a model is writing `b` alone when `b` names
      every field `a` names. */
  lemma SpreadOver(m: ItemModel, a: ItemModel, b: ItemModel)
    requires a.Keys <= b.Keys
    ensures Spread(Spread(m, a), b) == Spread(m, b)
  {
  }

  /** Moving the same items twice: the second move decides both the order
      and the zIndex; the first leaves no trace. */
  lemma MovedTwice(v: GraphValue, ids: seq<Id>, first: bool, w: GraphValue, second: bool)
    requires Distinct(ids) && Elems(ids) <= Elems(v.stack)
    requires w == Moved(v, ids, first)
    ensures Moved(w, ids, second).stack
         == if second then Without(v.stack, Elems(ids)) + ids
            else Reversed(ids) + Without(v.stack, Elems(ids))
    ensures forall x :: ModelOf(Moved(w, ids, second), x) == MovedModel(v, ids, second, x)
  {
    MovedEffect(v, ids, first);
    TwiceStack(v.stack, ids, first, w.stack);
    MovedEffect(w, ids, second);
    TwiceModels(v, w, ids, first, second);
  }

  lemma TwiceModels(v: GraphValue, w: GraphValue, ids: seq<Id>, first: bool, second: bool)
    requires forall x :: ModelOf(w, x) == MovedModel(v, ids, first, x)
    ensures forall x :: MovedModel(w, ids, second, x) == MovedModel(v, ids, second, x)
  {
    forall x
      ensures MovedModel(w, ids, second, x) == MovedModel(v, ids, second, x)
    {
      if x in ids && ModelOf(v, x).Some? {
        SpreadOver(ModelOf(v, x).value, ZIndexOf(first), ZIndexOf(second));
      }
    }
  }

  /** After a first move the items are still in the drawing order, and the
      rest of it, without them, is as it was. */
  lemma TwiceStack(s: seq<Id>, ids: seq<Id>, first: bool, t: seq<Id>)
    requires Elems(ids) <= Elems(s)
    requires t == if first then Without(s, Elems(ids)) + ids else Reversed(ids) + Without(s, Elems(ids))
    ensures Elems(ids) <= Elems(t)
    ensures Without(t, Elems(ids)) == Without(s, Elems(ids))
  {
    var e := Elems(ids);
    var rest := Without(s, e);
    WithoutAll(ids, e);
    ReversedElems(ids);
    WithoutAll(Reversed(ids), e);
    if first {
      WithoutConcat(rest, ids, e);
      ElemsConcat(rest, ids);
    } else {
      WithoutConcat(Reversed(ids), rest, e);
      ElemsConcat(Reversed(ids), rest);
    }
    WithoutTwice(s, e, e);
    assert e + e == e;
  }

  const DefaultParams: Params := map["items" := PIds([])]

  /** Both commands: not readonly, and a node or an edge selected. */
  predicate CanExecute(v: GraphValue)
  {
    v.mode != ReadonlyMode && (|SelectedNodes(v)| > 0 || |SelectedEdges(v)| > 0)
  }

  /** init: the ids of the selected nodes, then of the selected edges, are
      pushed onto `params.items`. */
  function Initialized(v: GraphValue, p: Params): Params
  {
    p["items" := PIds(IdsParam(p, "items") + SelectedNodes(v) + SelectedEdges(v))]
  }

  /** execute: toFront raises each item and sets its zIndex to 1; toBack
      lowers it and sets 0. */
  function Executed(v: GraphValue, p: Params, front: bool): Run
  {
    Restacked(v, IdsParam(p, "items"), front)
  }

  /** undo: the opposite move, with the opposite fixed zIndex. */
  function Undone(v: GraphValue, p: Params, front: bool): Run
  {
    Restacked(v, IdsParam(p, "items"), !front)
  }

  method Init(g: Graph, p: Params) returns (q: Params)
    ensures q == Initialized(g.View(), p)
  {
    var items := IdsParam(p, "items");
    var nodes := SelectedNodes(g.View());
    var edges := SelectedEdges(g.View());
    q := p["items" := PIds(items + nodes + edges)];
  }

  method Execute(g: Graph, p: Params, front: bool) returns (threw: bool)
    modifies g
    ensures Executed(old(g.View()), p, front) == if threw then Threw(g.View()) else Ran(g.View())
  {
    threw := Move(g, IdsParam(p, "items"), front);
  }

  method Undo(g: Graph, p: Params, front: bool) returns (threw: bool)
    modifies g
    ensures Undone(old(g.View()), p, front) == if threw then Threw(g.View()) else Ran(g.View())
  {
    threw := Move(g, IdsParam(p, "items"), !front);
  }

  /** init keeps the items already listed and the other params, and adds
      exactly the selected nodes and edges, nodes first; starting from an
      empty list it lists each once. */
  lemma InitItems(v: GraphValue, p: Params)
    requires Valid(v)
    ensures var before := IdsParam(p, "items");
      var after := IdsParam(Initialized(v, p), "items");
      && |before| <= |after| && after[..|before|] == before
      && (forall x :: x in after <==>
            x in before || ((TypeOf(v, x) == Some(Node) || TypeOf(v, x) == Some(Edge)) && (x, SELECTED) in v.states))
      && (forall i, j ::
            (|before| <= i < |after| && |before| <= j < |after|
             && TypeOf(v, after[i]) == Some(Node) && TypeOf(v, after[j]) == Some(Edge)) ==> i < j)
      && (before == [] ==> Distinct(after))
      && (|after| > |before| <==> |SelectedNodes(v)| > 0 || |SelectedEdges(v)| > 0)
    ensures Initialized(v, p) - {"items"} == p - {"items"}
  {
    var before := IdsParam(p, "items");
    var ns := SelectedNodes(v);
    var es := SelectedEdges(v);
    var after := IdsParam(Initialized(v, p), "items");
    SelectedKinds(v);
    assert after == before + ns + es;
    assert after[..|before|] == before;
    if before == [] {
      assert after == ns + es;
      DistinctConcat(ns, es);
    }
  }

  /** In a valid graph the selected node list and the selected edge list
      hold exactly the selected nodes and edges, once each. */
  lemma SelectedKinds(v: GraphValue)
    requires Valid(v)
    ensures forall x :: x in SelectedNodes(v) <==> TypeOf(v, x) == Some(Node) && (x, SELECTED) in v.states
    ensures forall x :: x in SelectedEdges(v) <==> TypeOf(v, x) == Some(Edge) && (x, SELECTED) in v.states
    ensures Distinct(SelectedNodes(v)) && Distinct(SelectedEdges(v))
    ensures Elems(SelectedNodes(v)) !! Elems(SelectedEdges(v))
  {
    assert forall x :: x in v.nodes.keys <==> x in v.nodes.vals;
    assert forall x :: x in v.edges.keys <==> x in v.edges.vals;
  }

  /** Two lists without repetitions and without common elements make a
      list without repetitions. */
  lemma DistinctConcat(a: seq<Id>, b: seq<Id>)
    requires Distinct(a) && Distinct(b) && Elems(a) !! Elems(b)
    ensures Distinct(a + b)
  {
    forall i, j | 0 <= i < j < |a + b|
      ensures (a + b)[i] != (a + b)[j]
    {
      if i < |a| && j >= |a| {
        assert (a + b)[i] in Elems(a) && (a + b)[j] in Elems(b);
      }
    }
  }

  /** execute: toFront puts the items last in the drawing order, toBack
      first (the last listed first); each gets the fixed zIndex, nothing
      else about the items changes, and nothing is emitted. */
  lemma ExecuteMoves(v: GraphValue, p: Params, front: bool)
    requires Valid(v)
    requires Distinct(IdsParam(p, "items")) && Elems(IdsParam(p, "items")) <= Elems(v.stack)
    ensures Executed(v, p, front).Ran?
    ensures var ids := IdsParam(p, "items");
      Executed(v, p, front).graph.stack
        == if front then Without(v.stack, Elems(ids)) + ids else Reversed(ids) + Without(v.stack, Elems(ids))
    ensures forall x ::
      ModelOf(Executed(v, p, front).graph, x)
        == if x in IdsParam(p, "items") && ModelOf(v, x).Some?
           then Some(Spread(ModelOf(v, x).value, map["zIndex" := Num(if front then 1 else 0)]))
           else ModelOf(v, x)
    ensures AllIds(Executed(v, p, front).graph) == AllIds(v)
    ensures Executed(v, p, front).graph.states == v.states && Executed(v, p, front).graph.events == v.events
  {
    assert Executed(v, p, front) == Ran(Moved(v, IdsParam(p, "items"), front));
    MovedEffect(v, IdsParam(p, "items"), front);
  }

  /** undo after execute does not bring back the old order or zIndex: the
      items end where the opposite command would have put them, with the
      opposite fixed zIndex, as if execute had not run. */
  lemma UndoMovesBack(v: GraphValue, p: Params, front: bool)
    requires Valid(v)
    requires Distinct(IdsParam(p, "items")) && Elems(IdsParam(p, "items")) <= Elems(v.stack)
    ensures Executed(v, p, front).Ran? && Undone(Executed(v, p, front).graph, p, front).Ran?
    ensures Undone(Executed(v, p, front).graph, p, front).graph.stack == Executed(v, p, !front).graph.stack
    ensures forall x :: ModelOf(Undone(Executed(v, p, front).graph, p, front).graph, x)
                     == ModelOf(Executed(v, p, !front).graph, x)
  {
    var ids := IdsParam(p, "items");
    var w := Moved(v, ids, front);
    assert Executed(v, p, front) == Ran(w);
    assert Executed(v, p, !front) == Ran(Moved(v, ids, !front));
    MovedEffect(v, ids, front);
    assert Undone(w, p, front) == Ran(Moved(w, ids, !front));
    MovedTwice(v, ids, front, w, !front);
    MovedEffect(v, ids, !front);
  }

  /** A listed id findById finds no item for: execute and undo throw inside
      their batch, with auto-paint left off, nothing painted or emitted, and
      only the items listed before it restacked and given the zIndex. */
  lemma StaleIdThrows(v: GraphValue, p: Params, front: bool)
    requires !(Elems(IdsParam(p, "items")) <= AllIds(v))
    ensures Executed(v, p, front).Threw? && Undone(v, p, front).Threw?
    ensures var ids := IdsParam(p, "items");
      var n := Unfound(AllIds(v), ids);
      var w := Executed(v, p, front).graph;
      && n < |ids| && ids[n] !in AllIds(v)
      && w.autoPaint == false && w.paints == v.paints && w.events == v.events
      && AllIds(w) == AllIds(v)
      && forall x :: ModelOf(w, x) == MovedModel(v, ids[..n], front, x)
  {
    var ids := IdsParam(p, "items");
    var n := Unfound(AllIds(v), ids);
    var w := MoveAll(BatchOpened(v), ids[..n], front);
    assert Executed(v, p, front) == Threw(w);
    MoveAllModels(BatchOpened(v), ids[..n], front);
    OpenedModels(v, ids[..n], front);
  }
}
