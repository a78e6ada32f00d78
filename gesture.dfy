/** What the pointer behaviours share: the G6 event they receive, the shape
    under the pointer, and the loops that switch the anchor points of a set
    of nodes on or off. */
module Gestures {
  import opened Model
  import opened G6
  import opened G6Graph

  /** The shape under the pointer (`e.target`), with the attributes the
      behaviours read through `target.get(...)` and `target.get('attrs')`. */
  datatype Shape = Shape(
    name: string,
    className: string,
    isAnchorPoint: bool,
    anchorPointIndex: Value,
    anchorPointState: Option<AnchorPointState>,
    isTag: bool)

  /** A shape that is not part of any anchor, control point or tag. */
  function PlainShape(name: string): Shape
  {
    Shape(name, "", false, Undefined, None, false)
  }

  /** A G6 pointer event: the item hit (`e.item`), the shape hit
      (`e.target`) and the pointer in canvas coordinates. */
  datatype GraphEvent = GraphEvent(item: Option<Id>, target: Shape, x: int, y: int)

  /** An anchor-point shape always belongs to a node, so G6 reports that
      node as the event's item. */
  predicate Delivered(e: GraphEvent)
  {
    e.target.isAnchorPoint || e.target.name == ANCHOR_POINT_NAME ==> e.item.Some?
  }

  /** `edge.getModel()` of the edge `d`, `{}` when it is not an edge. */
  function EdgeModel(v: GraphValue, d: Id): ItemModel
  {
    if d in v.edges.vals then v.edges.vals[d] else map[]
  }

  /** The node at one end (`source` or `target`) of the edge `d`:
      `edge.getSource()` / `edge.getTarget()` when that end is a node of
      the graph, None when it is a free point. */
  function EndNode(v: GraphValue, d: Id, end: string): Option<Id>
  {
    var n := EndOf(EdgeModel(v, d), end);
    if n.Some? && n.value in v.nodes.vals then n else None
  }

  /** Every flow node has four anchor points (flowNode.getAnchorPoints). */
  const ANCHOR_COUNT: nat := 4

  /** `node.set('anchorPointsState', s)` then
      `graph.setItemState(node, 'activeAnchorPoints', on)`. */
  function Mark(v: GraphValue, id: Id, s: seq<AnchorPointState>, on: bool): GraphValue
  {
    SetItemState(SetAnchorPointsState(v, id, s), id, ACTIVE_ANCHOR_POINTS, on)
  }

  /** `Mark` applied to every node of `ids` outside `skip`, in order, with
      the node's anchor states given by `states`. */
  function Marked(v: GraphValue, ids: seq<Id>, states: Id -> seq<AnchorPointState>, on: bool, skip: set<Id>): GraphValue
    decreases |ids|
  {
    if ids == [] then v
    else
      var w := Marked(v, ids[..|ids| - 1], states, on, skip);
      var id := ids[|ids| - 1];
      if id in skip then w else Mark(w, id, states(id), on)
  }

  lemma MarkedStep(v: GraphValue, ids: seq<Id>, states: Id -> seq<AnchorPointState>, on: bool, skip: set<Id>, i: nat)
    requires i < |ids|
    ensures Marked(v, ids[..i + 1], states, on, skip)
         == var w := Marked(v, ids[..i], states, on, skip);
            if ids[i] in skip then w else Mark(w, ids[i], states(ids[i]), on)
  {
    assert ids[..i + 1][..i] == ids[..i];
  }

  /** The nodes of `ids` that `Marked` touches. */
  function Touched(v: GraphValue, ids: seq<Id>, skip: set<Id>): set<Id>
  {
    set id | id in ids && id in v.nodes.vals && id !in skip
  }

  /** The anchor states `Marked` leaves: the touched nodes' from `states`,
      every other entry as it was. */
  function MarkedAnchors(v: GraphValue, ids: seq<Id>, states: Id -> seq<AnchorPointState>, skip: set<Id>)
    : map<Id, seq<AnchorPointState>>
  {
    map id | id in v.anchorStates.Keys + Touched(v, ids, skip) ::
      if id in Touched(v, ids, skip) then states(id) else v.anchorStates[id]
  }

  /** The item states `Marked` leaves: `activeAnchorPoints` is `on` for
      every touched node. */
  function MarkedStates(v: GraphValue, ids: seq<Id>, on: bool, skip: set<Id>): set<(Id, string)>
  {
    var flags := set id | id in Touched(v, ids, skip) :: (id, ACTIVE_ANCHOR_POINTS);
    if on then v.states + flags else v.states - flags
  }

  /** Marking nodes changes their anchor states and their
      `activeAnchorPoints` state, and nothing else. */
  lemma {:induction false} MarkedIs(v: GraphValue, ids: seq<Id>, states: Id -> seq<AnchorPointState>, on: bool, skip: set<Id>)
    requires forall id :: id in ids ==> id in v.nodes.vals
    ensures Marked(v, ids, states, on, skip)
         == v.(anchorStates := MarkedAnchors(v, ids, states, skip), states := MarkedStates(v, ids, on, skip))
    decreases |ids|
  {
    if ids != [] {
      var init := ids[..|ids| - 1];
      var id := ids[|ids| - 1];
      MarkedIs(v, init, states, on, skip);
      LastSplit(ids);
      if id !in skip {
        MarkStep(v, init, id, states, on, skip);
      } else {
        assert Touched(v, ids, skip) == Touched(v, init, skip);
      }
    } else {
      assert Touched(v, ids, skip) == {};
    }
  }

  /** One marked node on top of the closed form for the nodes before it. */
  lemma MarkStep(v: GraphValue, init: seq<Id>, id: Id, states: Id -> seq<AnchorPointState>, on: bool, skip: set<Id>)
    requires id in v.nodes.vals && id !in skip
    ensures var w := v.(anchorStates := MarkedAnchors(v, init, states, skip), states := MarkedStates(v, init, on, skip));
      Mark(w, id, states(id), on)
      == v.(anchorStates := MarkedAnchors(v, init + [id], states, skip), states := MarkedStates(v, init + [id], on, skip))
  {
    var ids := init + [id];
    assert Touched(v, ids, skip) == Touched(v, init, skip) + {id};
    var a := MarkedAnchors(v, init, states, skip);
    assert a[id := states(id)] == MarkedAnchors(v, ids, states, skip);
    var flags := set x | x in Touched(v, init, skip) :: (x, ACTIVE_ANCHOR_POINTS);
    var flags' := set x | x in Touched(v, ids, skip) :: (x, ACTIVE_ANCHOR_POINTS);
    assert flags' == flags + {(id, ACTIVE_ANCHOR_POINTS)};
    if on {
      assert MarkedStates(v, init, on, skip) + {(id, ACTIVE_ANCHOR_POINTS)} == MarkedStates(v, ids, on, skip);
    } else {
      assert MarkedStates(v, init, on, skip) - {(id, ACTIVE_ANCHOR_POINTS)} == MarkedStates(v, ids, on, skip);
    }
  }

  /** What `Marked` over all nodes promises node by node: a touched node
      has the given anchor states and `activeAnchorPoints` = `on`; every
      other node keeps both, and the items and the canvas are untouched. */
  lemma MarkedEffect(v: GraphValue, states: Id -> seq<AnchorPointState>, on: bool, skip: set<Id>)
    requires Valid(v)
    ensures var w := Marked(v, v.nodes.keys, states, on, skip);
      && SameItems(v, w)
      && (forall id :: id in v.nodes.vals && id !in skip ==>
            id in w.anchorStates && w.anchorStates[id] == states(id)
            && ((id, ACTIVE_ANCHOR_POINTS) in w.states <==> on))
      && (forall id :: id !in v.nodes.vals || id in skip ==>
            (id in w.anchorStates <==> id in v.anchorStates)
            && (id in w.anchorStates ==> w.anchorStates[id] == v.anchorStates[id])
            && ((id, ACTIVE_ANCHOR_POINTS) in w.states <==> (id, ACTIVE_ANCHOR_POINTS) in v.states))
      && (forall id, name :: name != ACTIVE_ANCHOR_POINTS ==> ((id, name) in w.states <==> (id, name) in v.states))
      && w.events == v.events && w.translation == v.translation && w.paints == v.paints
  {
    MarkedIs(v, v.nodes.keys, states, on, skip);
    assert forall id :: id in Touched(v, v.nodes.keys, skip) <==> id in v.nodes.vals && id !in skip;
  }

  /** The loop `graph.getNodes().forEach(node => { if skipped return; mark })`. */
  method MarkNodes(g: Graph, states: Id -> seq<AnchorPointState>, on: bool, skip: set<Id>)
    modifies g
    ensures g.View() == Marked(old(g.View()), old(g.nodes.keys), states, on, skip)
  {
    var ids := g.nodes.keys;
    ghost var start := g.View();
    for i := 0 to |ids|
      invariant g.View() == Marked(start, ids[..i], states, on, skip)
    {
      MarkedStep(start, ids, states, on, skip, i);
      if ids[i] !in skip {
        g.SetAnchorPointsState(ids[i], states(ids[i]));
        g.SetItemState(ids[i], ACTIVE_ANCHOR_POINTS, on);
      }
    }
    PrefixAll(ids);
  }

  /** No anchor states: the list a node gets when its anchors are hidden. */
  function NoAnchors(id: Id): seq<AnchorPointState>
  {
    []
  }

  /** Every anchor Enabled. */
  function AllEnabled(id: Id): seq<AnchorPointState>
  {
    seq(ANCHOR_COUNT, _ => Enabled)
  }

  /** After hiding the anchors of every node, no node has anchor states or
      shows its anchor points. */
  lemma HiddenAnchors(v: GraphValue)
    requires Valid(v)
    ensures var w := Marked(v, v.nodes.keys, NoAnchors, false, {});
      forall id :: id in v.nodes.vals ==>
        id in w.anchorStates && w.anchorStates[id] == [] && (id, ACTIVE_ANCHOR_POINTS) !in w.states
  {
    MarkedEffect(v, NoAnchors, false, {});
  }
}
