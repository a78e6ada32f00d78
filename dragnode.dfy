/** The drag-node behaviour of flow graphs
    (src/components/Flow/behavior/dragNodeCustom.ts): pressing on a node
    chooses what moves (the node alone, or every unlocked selected node),
    and every move puts each of them at its position at the start of the
    gesture plus the pointer's offset from where the gesture began. */
module DragNodeBehavior {
  import opened Model
  import opened G6
  import opened G6Graph
  import opened Gestures
  import opened AnchorShapes

  /** `n + x` in JavaScript, for a number `n` and a field value `x`. */
  function Plus(n: int, x: Value): Value
  {
    match x
    case Num(m) => Num(n + m)
    case Bool(b) => Num(n + if b then 1 else 0)
    case Str(s) => Str(IntText(n) + s)
    case Pt(_) => Str(IntText(n) + "[object Object]")
    case Undefined => NaN
    case NaN => NaN
  }

  /** `this.point[nodeId]`: a node's position when the gesture first moved it. */
  datatype Start = Start(x: Value, y: Value)

  function Field(m: ItemModel, k: string): Value
  {
    if k in m then m[k] else Undefined
  }

  /** `{ x: model.x, y: model.y }` of the item's model. */
  function StartOf(v: GraphValue, id: Id): Start
  {
    var m := if ModelOf(v, id).Some? then ModelOf(v, id).value else map[];
    Start(Field(m, "x"), Field(m, "y"))
  }

  /** `_update`'s caching: a node's start is recorded on its first move. */
  function Cached(point: map<Id, Start>, v: GraphValue, id: Id): (r: map<Id, Start>)
    ensures id in r && forall k :: k != id ==> (k in r <==> k in point) && (k in point ==> r[k] == point[k])
    ensures id in point ==> r == point
  {
    if id in point then point else point[id := StartOf(v, id)]
  }

  /** `{ x, y }`: the start shifted by the pointer's offset from the origin. */
  function Placed(s: Start, origin: Point, e: GraphEvent): ItemModel
  {
    map["x" := Plus(e.x - origin.x, s.x), "y" := Plus(e.y - origin.y, s.y)]
  }

  /** The graph and the start positions after a round of `_update`. */
  datatype Step = Step(graph: GraphValue, point: map<Id, Start>)

  /** `_update(id, e)` for each of `ids` in turn, without the delegate. */
  function Dragged(v: GraphValue, point: map<Id, Start>, ids: seq<Id>, origin: Point, e: GraphEvent): Step
  {
    if ids == [] then Step(v, point)
    else
      var s := Dragged(v, point, ids[..|ids| - 1], origin, e);
      var id := ids[|ids| - 1];
      var p := Cached(s.point, s.graph, id);
      Step(UpdateItem(s.graph, id, Placed(p[id], origin, e)), p)
  }

  lemma DraggedStep(v: GraphValue, point: map<Id, Start>, ids: seq<Id>, origin: Point, e: GraphEvent, i: nat)
    requires i < |ids|
    ensures Dragged(v, point, ids[..i + 1], origin, e)
         == var s := Dragged(v, point, ids[..i], origin, e);
            var p := Cached(s.point, s.graph, ids[i]);
            Step(UpdateItem(s.graph, ids[i], Placed(p[ids[i]], origin, e)), p)
  {
    assert ids[..i + 1][..i] == ids[..i];
  }

  /** The last of `ids` is not among the others, and `ids` holds exactly
      the others and it. */
  lemma DistinctLast(ids: seq<Id>)
    requires Distinct(ids) && ids != []
    ensures var init := ids[..|ids| - 1];
      && Distinct(init) && ids[|ids| - 1] !in init
      && forall x :: x in ids <==> x in init || x == ids[|ids| - 1]
  {
    var init := ids[..|ids| - 1];
    var id := ids[|ids| - 1];
    forall k | 0 <= k < |init|
      ensures init[k] != id
    {
      assert init[k] == ids[k];
    }
    LastSplit(ids);
  }

  /** A round of moves changes only the moved items' models. */
  lemma {:induction false} DragKeeps(v: GraphValue, point: map<Id, Start>, ids: seq<Id>, origin: Point, e: GraphEvent)
    ensures var s := Dragged(v, point, ids, origin, e);
      && AllIds(s.graph) == AllIds(v) && s.graph.states == v.states && s.graph.stack == v.stack
      && (forall id :: id !in ids ==> ModelOf(s.graph, id) == ModelOf(v, id))
    decreases |ids|
  {
    if ids != [] {
      var init := ids[..|ids| - 1];
      var id := ids[|ids| - 1];
      assert forall x :: x in init ==> x in ids;
      DragKeeps(v, point, init, origin, e);
      var s := Dragged(v, point, init, origin, e);
      var p := Cached(s.point, s.graph, id);
      UpdateItemModel(s.graph, id, Placed(p[id], origin, e));
      UpdateItemKeeps(s.graph, id, Placed(p[id], origin, e));
    }
  }

  /** A round of moves records the start of each moved node that had none,
      as the node stood before the round, and no other start. */
  lemma {:induction false} DragStarts(v: GraphValue, point: map<Id, Start>, ids: seq<Id>, origin: Point, e: GraphEvent)
    requires Distinct(ids)
    ensures var s := Dragged(v, point, ids, origin, e);
      && (forall id :: id in ids ==> id in s.point && s.point[id] == if id in point then point[id] else StartOf(v, id))
      && (forall id :: id !in ids ==> (id in s.point <==> id in point) && (id in point ==> s.point[id] == point[id]))
    decreases |ids|
  {
    if ids != [] {
      var init := ids[..|ids| - 1];
      var id := ids[|ids| - 1];
      DistinctLast(ids);
      DragStarts(v, point, init, origin, e);
      DragKeeps(v, point, init, origin, e);
      var s := Dragged(v, point, init, origin, e);
      assert StartOf(s.graph, id) == StartOf(v, id);
    }
  }

  /** Each moved node's model gets the position written from its start. */
  lemma {:induction false} DragModels(v: GraphValue, point: map<Id, Start>, ids: seq<Id>, origin: Point, e: GraphEvent)
    requires Distinct(ids)
    ensures var s := Dragged(v, point, ids, origin, e);
      forall id :: id in ids && id in s.point ==>
        ModelOf(s.graph, id) == if ModelOf(v, id).Some? then Some(Spread(ModelOf(v, id).value, Placed(s.point[id], origin, e))) else None
    decreases |ids|
  {
    if ids != [] {
      var init := ids[..|ids| - 1];
      var id := ids[|ids| - 1];
      DistinctLast(ids);
      DragModels(v, point, init, origin, e);
      DragKeeps(v, point, init, origin, e);
      var s := Dragged(v, point, init, origin, e);
      var p := Cached(s.point, s.graph, id);
      UpdateItemModel(s.graph, id, Placed(p[id], origin, e));
      DragStarts(v, point, init, origin, e);
    }
  }

  /** Writing a position over a written position keeps only the last. */
  lemma PlacedTwice(m: ItemModel, a: ItemModel, b: ItemModel)
    requires a.Keys == b.Keys
    ensures Spread(Spread(m, a), b) == Spread(m, b)
  {
  }

  /** Positions do not drift: after any number of moves in one gesture,
      each moved node sits at its position when the gesture began plus the
      latest pointer offset, whatever the earlier moves were. */
  lemma NoDrift(v: GraphValue, ids: seq<Id>, origin: Point, e1: GraphEvent, e2: GraphEvent)
    requires Distinct(ids)
    ensures var s1 := Dragged(v, map[], ids, origin, e1);
      var s2 := Dragged(s1.graph, s1.point, ids, origin, e2);
      forall id :: id in ids && ModelOf(v, id).Some? ==>
        ModelOf(s2.graph, id) == Some(Spread(ModelOf(v, id).value, Placed(StartOf(v, id), origin, e2)))
  {
    var s1 := Dragged(v, map[], ids, origin, e1);
    var s2 := Dragged(s1.graph, s1.point, ids, origin, e2);
    forall id | id in ids && ModelOf(v, id).Some?
      ensures ModelOf(s2.graph, id) == Some(Spread(ModelOf(v, id).value, Placed(StartOf(v, id), origin, e2)))
    {
      var m := ModelOf(v, id).value;
      var start := StartOf(v, id);
      assert id in s1.point && s1.point[id] == start by {
        DragStarts(v, map[], ids, origin, e1);
      }
      assert ModelOf(s1.graph, id) == Some(Spread(m, Placed(start, origin, e1))) by {
        DragModels(v, map[], ids, origin, e1);
      }
      assert id in s2.point && s2.point[id] == start by {
        DragStarts(s1.graph, s1.point, ids, origin, e2);
      }
      assert ModelOf(s2.graph, id) == Some(Spread(Spread(m, Placed(start, origin, e1)), Placed(start, origin, e2))) by {
        DragModels(s1.graph, s1.point, ids, origin, e2);
      }
      PlacedTwice(m, Placed(start, origin, e1), Placed(start, origin, e2));
    }
  }

  /** A node whose start is a number moves by exactly the pointer's offset. */
  lemma NumericMove(x: int, y: int, origin: Point, e: GraphEvent)
    ensures Placed(Start(Num(x), Num(y)), origin, e)
         == map["x" := Num(x + e.x - origin.x), "y" := Num(y + e.y - origin.y)]
  {
  }

  /** The lock test of `node.hasLocked()`, as a filter. */
  function Free(v: GraphValue): Id -> bool
  {
    n => n !in v.locked
  }

  /** What `onDragStart` puts in `targets` when the node `item` is pressed. */
  function DragTargets(v: GraphValue, item: Id): seq<Id>
  {
    var nodes := FindAllByState(v, Node, SELECTED);
    if item !in nodes then []
    else if |nodes| > 1 then Filter(nodes, Free(v))
    else [item]
  }

  /** The loop of `onDragStart` that keeps the selected nodes that are not
      locked. */
  method Unlocked(v: GraphValue, nodes: seq<Id>) returns (ts: seq<Id>)
    ensures ts == Filter(nodes, Free(v))
  {
    ts := [];
    for i := 0 to |nodes|
      invariant ts == Filter(nodes[..i], Free(v))
    {
      FilterAt(nodes, i, Free(v));
      if Free(v)(nodes[i]) {
        ts := ts + [nodes[i]];
      }
    }
    PrefixAll(nodes);
  }

  /** An unselected node moves alone (through `target`); a selected node
      moves together with exactly the selected nodes that are not locked,
      itself included; no node is listed twice. */
  lemma DragTargetsMeaning(v: GraphValue, item: Id)
    requires item !in v.locked
    ensures var sel := FindAllByState(v, Node, SELECTED);
      var r := DragTargets(v, item);
      && (item !in sel ==> r == [])
      && (item in sel ==> item in r && forall t :: t in r <==> t in sel && t !in v.locked)
      && (Distinct(v.nodes.keys) ==> Distinct(r))
  {
    var sel := FindAllByState(v, Node, SELECTED);
    if item in sel && |sel| <= 1 {
      assert sel == [item];
    }
  }

  /** `element.getBBox()` of a node: its extent on the canvas. */
  datatype Box = Box(minX: real, minY: real, maxX: real, maxY: real)

  /** The four accumulators of `calculationGroupPosition`; None stands for
      the initial Infinity (or -Infinity). */
  datatype Bounds = Bounds(minX: Option<real>, minY: Option<real>, maxX: Option<real>, maxY: Option<real>)

  function Lower(m: Option<real>, a: real): Option<real>
  {
    if m.None? || a < m.value then Some(a) else m
  }

  function Upper(m: Option<real>, a: real): Option<real>
  {
    if m.None? || a > m.value then Some(a) else m
  }

  /** The smallest minimum and largest maximum over the boxes. */
  function Extent(boxes: seq<Box>): Bounds
  {
    if boxes == [] then Bounds(None, None, None, None)
    else
      var b := Extent(boxes[..|boxes| - 1]);
      var l := boxes[|boxes| - 1];
      Bounds(Lower(b.minX, l.minX), Lower(b.minY, l.minY), Upper(b.maxX, l.maxX), Upper(b.maxY, l.maxY))
  }

  /** The rectangle that frames the selection; `Unbounded` is what the
      infinite accumulators give when nothing is selected. */
  datatype GroupRect =
    | Unbounded
    | GroupRect(x: int, y: int, width: int, height: int, minX: real, minY: real)

  function Ceil(r: real): (c: int)
    ensures r <= c as real < r + 1.0
  {
    -((-r).Floor)
  }

  function GroupRectOf(boxes: seq<Box>): GroupRect
  {
    var b := Extent(boxes);
    if b.minX.None? || b.minY.None? || b.maxX.None? || b.maxY.None? then Unbounded
    else
      var x := b.minX.value.Floor;
      var y := b.minY.value.Floor;
      GroupRect(x, y, Ceil(b.maxX.value) - x, Ceil(b.maxY.value) - y, b.minX.value, b.minY.value)
  }

  /** The boxes of the given nodes, in order. */
  function Boxes(ids: seq<Id>, bbox: Id -> Box): (r: seq<Box>)
    ensures |r| == |ids| && forall i :: 0 <= i < |ids| ==> r[i] == bbox(ids[i])
  {
    seq(|ids|, i requires 0 <= i < |ids| => bbox(ids[i]))
  }

  function SelectedBoxes(v: GraphValue, bbox: Id -> Box): seq<Box>
  {
    Boxes(FindAllByState(v, Node, SELECTED), bbox)
  }

  /** The accumulators hold the least minimum and the greatest maximum, each
      reached by some box; they are all infinite exactly for no boxes. */
  lemma {:induction false} ExtentBounds(boxes: seq<Box>)
    ensures var b := Extent(boxes);
      && (boxes == [] ==> b == Bounds(None, None, None, None))
      && (boxes != [] ==>
        && b.minX.Some? && b.minY.Some? && b.maxX.Some? && b.maxY.Some?
        && (forall i :: 0 <= i < |boxes| ==>
              && b.minX.value <= boxes[i].minX && b.minY.value <= boxes[i].minY
              && boxes[i].maxX <= b.maxX.value && boxes[i].maxY <= b.maxY.value)
        && (exists i :: 0 <= i < |boxes| && boxes[i].minX == b.minX.value)
        && (exists i :: 0 <= i < |boxes| && boxes[i].minY == b.minY.value)
        && (exists i :: 0 <= i < |boxes| && boxes[i].maxX == b.maxX.value)
        && (exists i :: 0 <= i < |boxes| && boxes[i].maxY == b.maxY.value))
    decreases |boxes|
  {
    if boxes != [] {
      var init := boxes[..|boxes| - 1];
      var n := |boxes| - 1;
      ExtentBounds(init);
      assert forall i :: 0 <= i < |init| ==> init[i] == boxes[i];
      if init != [] {
        var b := Extent(init);
        var i0 :| 0 <= i0 < |init| && init[i0].minX == b.minX.value;
        var i1 :| 0 <= i1 < |init| && init[i1].minY == b.minY.value;
        var i2 :| 0 <= i2 < |init| && init[i2].maxX == b.maxX.value;
        var i3 :| 0 <= i3 < |init| && init[i3].maxY == b.maxY.value;
        var r := Extent(boxes);
        assert boxes[if r.minX.value == boxes[n].minX then n else i0].minX == r.minX.value;
        assert boxes[if r.minY.value == boxes[n].minY then n else i1].minY == r.minY.value;
        assert boxes[if r.maxX.value == boxes[n].maxX then n else i2].maxX == r.maxX.value;
        assert boxes[if r.maxY.value == boxes[n].maxY then n else i3].maxY == r.maxY.value;
      } else {
        assert boxes[0].minX == Extent(boxes).minX.value;
      }
    }
  }

  /** `calculationGroupPosition` frames every selected node: the rectangle
      starts at the floor of the least minimum, ends at the ceiling of the
      greatest maximum, and each of its edges is reached by some node; it
      is unbounded exactly when no node is selected. */
  lemma GroupRectCovers(boxes: seq<Box>)
    ensures boxes == [] <==> GroupRectOf(boxes) == Unbounded
    ensures boxes != [] ==> var r := GroupRectOf(boxes);
      && (forall i :: 0 <= i < |boxes| ==>
            && r.x as real <= boxes[i].minX && boxes[i].maxX <= (r.x + r.width) as real
            && r.y as real <= boxes[i].minY && boxes[i].maxY <= (r.y + r.height) as real)
      && r.x as real <= r.minX < r.x as real + 1.0
      && r.y as real <= r.minY < r.y as real + 1.0
      && (exists i :: 0 <= i < |boxes| && boxes[i].minX == r.minX)
      && (exists i :: 0 <= i < |boxes| && boxes[i].minY == r.minY)
      && (exists i :: 0 <= i < |boxes| && boxes[i].maxX <= (r.x + r.width) as real < boxes[i].maxX + 1.0)
      && (exists i :: 0 <= i < |boxes| && boxes[i].maxY <= (r.y + r.height) as real < boxes[i].maxY + 1.0)
  {
    ExtentBounds(boxes);
  }

  class DragNode {
    const updateEdge: bool
    const enableDelegate: bool
    const shouldBegin: GraphEvent -> bool
    const shouldUpdate: GraphEvent -> bool
    const shouldEnd: GraphEvent -> bool
    var targets: seq<Id>
    var target: Option<Id>
    var origin: Option<Point>
    var point: map<Id, Start>
    var originPoint: Option<GroupRect>  // `{}` is None
    var shape: bool                     // the delegate rectangle is drawn
    var fn: Option<GraphEvent>          // the body mouseup listener, with the event it ends the drag with

    /** A gesture in progress always has something to move. */
    predicate Valid()
      reads this
    {
      origin.Some? ==> targets != [] || target.Some?
    }

    /** The nodes a move applies `_update` to. */
    function Movers(): seq<Id>
      reads this
      requires Valid() && origin.Some?
    {
      if targets != [] then targets else [target.value]
    }

    /** getDefaultCfg and the initial fields, with G6's default hooks. */
    constructor ()
      ensures Valid() && updateEdge && !enableDelegate
      ensures targets == [] && target.None? && origin.None? && point == map[]
      ensures originPoint.None? && !shape && fn.None?
      ensures forall e :: shouldBegin(e) && shouldUpdate(e) && shouldEnd(e)
    {
      updateEdge := true;
      enableDelegate := false;
      shouldBegin := _ => true;
      shouldUpdate := _ => true;
      shouldEnd := _ => true;
      targets := [];
      target := None;
      origin := None;
      point := map[];
      originPoint := None;
      shape := false;
      fn := None;
    }

    /** The behaviour as an editor installs it: the options it passes
        replace the defaults, as the Flow editor does with
        `enableDelegate: true` and its own `shouldBegin`. */
    constructor Configured(updateEdge: bool, enableDelegate: bool, shouldBegin: GraphEvent -> bool,
                           shouldUpdate: GraphEvent -> bool, shouldEnd: GraphEvent -> bool)
      ensures Valid() && this.updateEdge == updateEdge && this.enableDelegate == enableDelegate
      ensures this.shouldBegin == shouldBegin && this.shouldUpdate == shouldUpdate && this.shouldEnd == shouldEnd
      ensures targets == [] && target.None? && origin.None? && point == map[]
      ensures originPoint.None? && !shape && fn.None?
    {
      this.updateEdge := updateEdge;
      this.enableDelegate := enableDelegate;
      this.shouldBegin := shouldBegin;
      this.shouldUpdate := shouldUpdate;
      this.shouldEnd := shouldEnd;
      targets := [];
      target := None;
      origin := None;
      point := map[];
      originPoint := None;
      shape := false;
      fn := None;
    }

    /** The press that `onDragStart` ignores: the canvas is being dragged,
        `shouldBegin` refuses, the node is locked, or an anchor point was
        pressed. */
    predicate Declines(v: GraphValue, e: GraphEvent, dragCanvas: bool)
      requires e.item.Some?
    {
      dragCanvas || !shouldBegin(e) || e.item.value in v.locked || e.target.isAnchorPoint
    }

    /** node:dragstart; `dragCanvas` is `graph.get('dragCanvas')`. */
    method OnDragStart(g: Graph, e: GraphEvent, dragCanvas: bool)
      requires e.item.Some?
      modifies this`targets, this`target, this`origin, this`point, this`originPoint
      ensures Declines(g.View(), e, dragCanvas) ==>
        && targets == old(targets) && target == old(target) && origin == old(origin)
        && point == old(point) && originPoint == old(originPoint)
      ensures !Declines(g.View(), e, dragCanvas) ==>
        && targets == DragTargets(g.View(), e.item.value)
        && target == (if e.item.value in FindAllByState(g.View(), Node, SELECTED) then old(target) else e.item)
        && origin == Some(Point(e.x, e.y)) && point == map[] && originPoint.None?
        && Valid()
      ensures old(Valid()) ==> Valid()
    {
      var v := g.View();
      if dragCanvas || !shouldBegin(e) {
        return;
      }
      var item := e.item.value;
      if item in v.locked {
        return;
      }
      if e.target.isAnchorPoint {
        return;
      }
      var nodes := FindAllByState(v, Node, SELECTED);
      var ts: seq<Id> := [];
      if item !in nodes {
        target := e.item;
      } else if |nodes| > 1 {
        ts := Unlocked(v, nodes);
      } else {
        ts := [item];
      }
      targets := ts;
      origin := Some(Point(e.x, e.y));
      point := map[];
      originPoint := None;
      DragTargetsMeaning(v, item);
    }

    /** `_update` without the delegate: the node goes to its start plus the
        pointer's offset. */
    method Move(g: Graph, id: Id, e: GraphEvent)
      requires origin.Some?
      modifies g, this`point
      ensures point == Cached(old(point), old(g.View()), id)
      ensures g.View() == UpdateItem(old(g.View()), id, Placed(point[id], origin.value, e))
    {
      if id !in point {
        point := point[id := StartOf(g.View(), id)];
      }
      g.UpdateItem(id, Placed(point[id], origin.value, e));
    }

    /** `targets.forEach(t => _update(t, e))`. */
    method MoveAll(g: Graph, ids: seq<Id>, e: GraphEvent)
      requires origin.Some?
      modifies g, this`point
      ensures Step(g.View(), point) == Dragged(old(g.View()), old(point), ids, origin.value, e)
    {
      for i := 0 to |ids|
        invariant Step(g.View(), point) == Dragged(old(g.View()), old(point), ids[..i], origin.value, e)
      {
        DraggedStep(old(g.View()), old(point), ids, origin.value, e, i);
        Move(g, ids[i], e);
      }
      PrefixAll(ids);
    }

    /** `_update`: with `force`, the start is recorded and only the delegate
        rectangle follows the pointer. */
    method Update(g: Graph, id: Id, e: GraphEvent, force: bool, bbox: Id -> Box)
      requires origin.Some? && (targets != [] || target.Some?)
      modifies g, this`point, this`shape, this`originPoint
      ensures point == Cached(old(point), old(g.View()), id)
      ensures force ==>
        && g.View() == old(g.View()) && shape
        && originPoint == if !old(shape) && targets != [] then Some(GroupRectOf(SelectedBoxes(g.View(), bbox))) else old(originPoint)
      ensures !force ==>
        && g.View() == UpdateItem(old(g.View()), id, Placed(point[id], origin.value, e))
        && shape == old(shape) && originPoint == old(originPoint)
    {
      if force {
        if id !in point {
          point := point[id := StartOf(g.View(), id)];
        }
        UpdateDelegate(g, bbox);
      } else {
        Move(g, id, e);
      }
    }

    /** `_updateDelegate`: the first call draws the rectangle, framing the
        selection when several nodes move; later calls only move it. */
    method UpdateDelegate(g: Graph, bbox: Id -> Box)
      requires targets != [] || target.Some?
      modifies this`shape, this`originPoint
      ensures shape
      ensures originPoint == if !old(shape) && targets != [] then Some(GroupRectOf(SelectedBoxes(g.View(), bbox))) else old(originPoint)
    {
      if !shape {
        if targets != [] {
          var r := CalculationGroupPosition(g, bbox);
          originPoint := Some(r);
        }
        shape := true;
      }
    }

    /** `calculationGroupPosition` over the selected nodes' boxes. */
    method CalculationGroupPosition(g: Graph, bbox: Id -> Box) returns (r: GroupRect)
      ensures r == GroupRectOf(SelectedBoxes(g.View(), bbox))
    {
      var nodes := FindAllByState(g.View(), Node, SELECTED);
      ghost var boxes := Boxes(nodes, bbox);
      var minx: Option<real>, miny: Option<real>, maxx: Option<real>, maxy: Option<real> := None, None, None, None;
      var i := 0;
      while i < |nodes|
        invariant 0 <= i <= |nodes|
        invariant Bounds(minx, miny, maxx, maxy) == Extent(boxes[..i])
      {
        assert boxes[..i + 1][..i] == boxes[..i];
        var b := bbox(nodes[i]);
        if minx.None? || b.minX < minx.value {
          minx := Some(b.minX);
        }
        if miny.None? || b.minY < miny.value {
          miny := Some(b.minY);
        }
        if maxx.None? || b.maxX > maxx.value {
          maxx := Some(b.maxX);
        }
        if maxy.None? || b.maxY > maxy.value {
          maxy := Some(b.maxY);
        }
        i := i + 1;
      }
      assert boxes[..|nodes|] == boxes;
      if minx.None? || miny.None? || maxx.None? || maxy.None? {
        return Unbounded;
      }
      var x := minx.value.Floor;
      var y := miny.value.Floor;
      r := GroupRect(x, y, Ceil(maxx.value) - x, Ceil(maxy.value) - y, minx.value, miny.value);
    }

    /** node:drag: nothing before a gesture began or when `shouldUpdate`
        refuses; otherwise every mover is put in place (or, with the
        delegate, only the rectangle follows), painted once. */
    method OnDrag(g: Graph, e: GraphEvent, bbox: Id -> Box)
      requires Valid()
      modifies g, this`point, this`shape, this`originPoint
      ensures Valid()
      ensures origin.None? || !shouldUpdate(e) ==>
        g.View() == old(g.View()) && point == old(point) && shape == old(shape) && originPoint == old(originPoint)
      ensures origin.Some? && shouldUpdate(e) && !enableDelegate ==>
        var s := Dragged(SetAutoPaint(old(g.View()), false), old(point), Movers(), origin.value, e);
        && g.View() == SetAutoPaint(Paint(s.graph), old(g.View()).autoPaint)
        && point == s.point && shape == old(shape) && originPoint == old(originPoint)
      ensures origin.Some? && shouldUpdate(e) && enableDelegate ==>
        && g.View() == SetAutoPaint(Paint(SetAutoPaint(old(g.View()), false)), old(g.View()).autoPaint)
        && point == (if targets != [] then old(point) else Cached(old(point), old(g.View()), target.value))
        && shape
        && originPoint == if !old(shape) && targets != [] then Some(GroupRectOf(SelectedBoxes(old(g.View()), bbox))) else old(originPoint)
    {
      if origin.None? {
        return;
      }
      if !shouldUpdate(e) {
        return;
      }
      var autoPaint := g.autoPaint;
      g.SetAutoPaint(false);
      Follow(g, e, bbox);
      g.Paint();
      g.SetAutoPaint(autoPaint);
    }

    /** What one drag event does between switching auto-paint off and the
        paint: the movers follow the pointer, or only the delegate does. */
    method Follow(g: Graph, e: GraphEvent, bbox: Id -> Box)
      requires Valid() && origin.Some?
      modifies g, this`point, this`shape, this`originPoint
      ensures Valid()
      ensures !enableDelegate ==>
        var s := Dragged(old(g.View()), old(point), Movers(), origin.value, e);
        && g.View() == s.graph && point == s.point && shape == old(shape) && originPoint == old(originPoint)
      ensures enableDelegate ==>
        && g.View() == old(g.View())
        && point == (if targets != [] then old(point) else Cached(old(point), old(g.View()), target.value))
        && shape
        && originPoint == if !old(shape) && targets != [] then Some(GroupRectOf(SelectedBoxes(old(g.View()), bbox))) else old(originPoint)
    {
      if targets != [] {
        if enableDelegate {
          UpdateDelegate(g, bbox);
        } else {
          MoveAll(g, targets, e);
        }
      } else {
        Update(g, target.value, e, enableDelegate, bbox);
      }
    }

    /** Forgets the gesture: `point`, `origin`, `originPoint`, `targets`,
        `target` and the listener. */
    method Reset()
      modifies this`targets, this`target, this`origin, this`point, this`originPoint, this`fn
      ensures targets == [] && target.None? && origin.None? && point == map[] && originPoint.None? && fn.None?
    {
      point := map[];
      origin := None;
      originPoint := None;
      targets := [];
      target := None;
      fn := None;
    }

    /** node:dragend: every mover is put in place a last time, the
        delegate is removed and the gesture is forgotten. */
    method OnDragEnd(g: Graph, e: GraphEvent)
      requires Valid()
      modifies g, this`targets, this`target, this`origin, this`point, this`originPoint, this`shape, this`fn
      ensures Valid()
      ensures old(origin).None? || !shouldEnd(e) ==>
        && g.View() == old(g.View()) && targets == old(targets) && target == old(target) && origin == old(origin)
        && point == old(point) && originPoint == old(originPoint) && shape == old(shape) && fn == old(fn)
      ensures old(origin).Some? && shouldEnd(e) ==>
        var s := Dragged(SetAutoPaint(old(g.View()), false), old(point), old(Movers()), old(origin).value, e);
        && g.View() == SetAutoPaint(Paint(s.graph), old(g.View()).autoPaint)
        && targets == [] && target.None? && origin.None? && point == map[]
        && originPoint.None? && !shape && fn.None?
    {
      if origin.None? || !shouldEnd(e) {
        return;
      }
      var autoPaint := g.autoPaint;
      g.SetAutoPaint(false);
      shape := false;
      if targets != [] {
        MoveAll(g, targets, e);
      } else if target.Some? {
        MoveAll(g, [target.value], e);
      }
      Reset();
      g.Paint();
      g.SetAutoPaint(autoPaint);
    }

    /** canvas:mouseleave: while a gesture is in progress, a listener for a
        mouseup outside the canvas is installed, bound to this event. */
    method OnOutOfRange(e: GraphEvent)
      modifies this`fn
      ensures fn == if origin.Some? then Some(e) else old(fn)
    {
      if origin.Some? {
        fn := Some(e);
      }
    }

    /** A mouseup on the page: outside the canvas, the listener ends the
        drag with the event it was bound to. */
    method OnBodyMouseUp(g: Graph, onCanvas: bool)
      requires Valid()
      modifies g, this`targets, this`target, this`origin, this`point, this`originPoint, this`shape, this`fn
      ensures Valid()
      ensures old(fn).None? || onCanvas || old(origin).None? || !shouldEnd(old(fn).value) ==>
        && g.View() == old(g.View()) && targets == old(targets) && target == old(target) && origin == old(origin)
        && point == old(point) && originPoint == old(originPoint) && shape == old(shape) && fn == old(fn)
      ensures old(fn).Some? && !onCanvas && old(origin).Some? && shouldEnd(old(fn).value) ==>
        var s := Dragged(SetAutoPaint(old(g.View()), false), old(point), old(Movers()), old(origin).value, old(fn).value);
        && g.View() == SetAutoPaint(Paint(s.graph), old(g.View()).autoPaint)
        && origin.None? && fn.None? && !shape
    {
      if fn.Some? && !onCanvas {
        OnDragEnd(g, fn.value);
      }
    }
  }
}
