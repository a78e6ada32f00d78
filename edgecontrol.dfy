/** The drag-edge-controll behaviour of flow graphs
    (src/components/Flow/behavior/dragEdgeControll.ts): grabbing the start
    or end handle of an edge replaces the edge by a working copy whose
    grabbed end follows the pointer; on release over an anchor that passes
    the link rules and validations the edge is reconnected there, otherwise
    the grabbed end goes back where it was. */
module EdgeControlGesture {
  import opened Model
  import opened G6
  import opened G6Graph
  import opened Session
  import opened Commands
  import opened CommandManagement
  import opened Gestures

  const EDGE_CONTROLL_POINT_START: string := "edge-controll-point-start"
  const EDGE_CONTROLL_POINT_END: string := "edge-controll-point-end"

  /** The command name the release issues (EditorCommand.ChangeEdgeControll). */
  const CHANGE_EDGE_CONTROLL: string := "changeEdgeControll"

  // ---------------------------------------------------------------------
  // Link rules: checkOutAndInEdge

  /** One bound of a link rule: absent, a number, or the Infinity that an
      absent or zero bound is replaced by. */
  datatype Limit = Missing | Finite(n: int) | Infinite

  /** The `in` / `out` bounds of a link rule for one node shape. */
  datatype Rule = Rule(inLimit: Limit, outLimit: Limit)

  /** `defaultEdge.linkRule`: a rule per node shape. */
  type LinkRule = map<string, Rule>

  /** Which degree `checkOutAndInEdge` looks at. */
  datatype Flag = InFlag | OutFlag | NoFlag

  /** `limit || Infinity`. */
  function Normalised(l: Limit): Limit
  {
    if l == Missing || l == Finite(0) then Infinite else l
  }

  /** `degree < limit` in JavaScript, where an absent limit compares false. */
  predicate Below(degree: nat, l: Limit)
  {
    l.Infinite? || (l.Finite? && degree < l.n)
  }

  /** `model.shape` as a property key: a missing shape looks up the key
      "undefined". */
  function ShapeOf(m: ItemModel): string
  {
    if "shape" in m && m["shape"].Str? then m["shape"].s else "undefined"
  }

  function NodeModel(v: GraphValue, n: Id): ItemModel
  {
    if n in v.nodes.vals then v.nodes.vals[n] else map[]
  }

  /** The verdict of `checkOutAndInEdge` and the link rules it leaves
      behind (`checkOutAndInEdge` writes the normalised bounds back into
      the rule). */
  datatype Checked = Checked(ok: bool, linkRule: Option<LinkRule>)

  function CheckOutAndInEdge(v: GraphValue, node: Id, flag: Flag, linkRule: Option<LinkRule>): Checked
  {
    if linkRule.None? then Checked(true, linkRule)
    else
      var shape := ShapeOf(NodeModel(v, node));
      if shape !in linkRule.value then Checked(true, linkRule)
      else
        var c := linkRule.value[shape];
        var c' := Rule(Normalised(c.inLimit), Normalised(c.outLimit));
        var ins := |InEdges(v, node)|;
        var outs := |OutEdges(v, node)|;
        var ok := (flag == InFlag && Below(ins, c'.inLimit))
               || (flag == OutFlag && Below(outs, c'.outLimit))
               || (Below(ins, c'.inLimit) && Below(outs, c'.outLimit));
        Checked(ok, Some(linkRule.value[shape := c']))
  }

  /** A bound as the rule's author means it: absent or 0 means no bound. */
  predicate Allows(degree: nat, l: Limit)
  {
    match l
    case Missing => true
    case Finite(n) => n == 0 || degree < n
    case Infinite => true
  }

  /** `checkOutAndInEdge` in terms of the rule as written: with no rule
      for the node's shape every node passes; otherwise the 'in' flag bounds
      the in-degree, the 'out' flag the out-degree, and no flag bounds
      both, where a missing or zero bound does not bound anything. */
  lemma CheckOutAndInEdgeMeaning(v: GraphValue, node: Id, flag: Flag, linkRule: Option<LinkRule>)
    ensures var r := CheckOutAndInEdge(v, node, flag, linkRule);
      r.ok <==>
        (linkRule.None? || ShapeOf(NodeModel(v, node)) !in linkRule.value ||
         (var c := linkRule.value[ShapeOf(NodeModel(v, node))];
          var ins := |InEdges(v, node)|;
          var outs := |OutEdges(v, node)|;
          match flag
          case InFlag => Allows(ins, c.inLimit)
          case OutFlag => Allows(outs, c.outLimit)
          case NoFlag => Allows(ins, c.inLimit) && Allows(outs, c.outLimit)))
  {
    if linkRule.Some? && ShapeOf(NodeModel(v, node)) in linkRule.value {
      var c := linkRule.value[ShapeOf(NodeModel(v, node))];
      AllowsNormalised(|InEdges(v, node)|, c.inLimit);
      AllowsNormalised(|OutEdges(v, node)|, c.outLimit);
    }
  }

  lemma AllowsNormalised(degree: nat, l: Limit)
    ensures Below(degree, Normalised(l)) <==> Allows(degree, l)
  {
  }

  /** Writing the normalised bounds back changes no later verdict, and a
      second `checkOutAndInEdge` writes nothing new. */
  lemma CheckWriteBackIdempotent(v: GraphValue, node: Id, flag: Flag, flag': Flag, linkRule: Option<LinkRule>)
    ensures var r := CheckOutAndInEdge(v, node, flag, linkRule);
      var r' := CheckOutAndInEdge(v, node, flag', r.linkRule);
      r'.ok == CheckOutAndInEdge(v, node, flag', linkRule).ok && r'.linkRule == r.linkRule
  {
    var shape := ShapeOf(NodeModel(v, node));
    if linkRule.Some? && shape in linkRule.value {
      var c := linkRule.value[shape];
      var c' := Rule(Normalised(c.inLimit), Normalised(c.outLimit));
      assert Normalised(c'.inLimit) == c'.inLimit && Normalised(c'.outLimit) == c'.outLimit;
      assert linkRule.value[shape := c'][shape := c'] == linkRule.value[shape := c'];
    }
  }

  // ---------------------------------------------------------------------
  // Validations

  /** `isAnchor`: the shape under the pointer is an anchor point. */
  predicate IsAnchor(e: GraphEvent)
  {
    e.target.name == ANCHOR_POINT_NAME
  }

  /** `addEdgeCheck`: false off an anchor, else `checkOutAndInEdge` on the
      anchor's node. */
  function AddEdgeCheck(v: GraphValue, e: GraphEvent, flag: Flag, linkRule: Option<LinkRule>): Checked
    requires Delivered(e)
  {
    if !IsAnchor(e) then Checked(false, linkRule)
    else CheckOutAndInEdge(v, e.item.value, flag, linkRule)
  }

  /** The edges, one of them `d`, that run from the node `s` to the node
      `t`. */
  function Parallel(v: GraphValue, s: Id, t: Id): set<Id>
  {
    set x | x in v.edges.vals && EndNode(v, x, "source") == Some(s) && EndNode(v, x, "target") == Some(t)
  }

  /** The edges that leave the node `s`. */
  function Leaving(v: GraphValue, s: Id): set<Id>
  {
    set x | x in v.edges.vals && EndNode(v, x, "source") == Some(s)
  }

  /** Both ends of the edge `x` are nodes. `.get('id')` on an end that
      is a free point has nothing to call and throws. */
  predicate Nodal(v: GraphValue, x: Id)
  {
    EndNode(v, x, "source").Some? && EndNode(v, x, "target").Some?
  }

  /** Every edge at the node `n` runs between two nodes. */
  predicate NodalAt(v: GraphValue, n: Id)
  {
    forall x :: x in IncidentEdges(v, n) ==> Nodal(v, x)
  }

  /** The edge `x` runs from the node `s` to the node `t`. */
  predicate Joins(v: GraphValue, x: Id, s: Id, t: Id)
  {
    EndNode(v, x, "source") == Some(s) && EndNode(v, x, "target") == Some(t)
  }

  /** The first filter of customValidation reads `.get('id')` on an end
      that is no node: the source of any edge, or the target of an edge
      whose source is `s`. */
  predicate FilterThrows(v: GraphValue, s: Id)
  {
    exists x :: x in v.edges.vals &&
      (EndNode(v, x, "source").None? || (EndNode(v, x, "source") == Some(s) && EndNode(v, x, "target").None?))
  }

  /** `customValidation`, None where it throws: with both ends of `d` at
      nodes, reject when another edge joins the same pair, or when the
      source node is transitive and has more than one outgoing edge. */
  function CustomValidation(v: GraphValue, d: Id): Option<bool>
  {
    var s := EndNode(v, d, "source");
    var t := EndNode(v, d, "target");
    if s.None? || t.None? then Some(true)
    else if FilterThrows(v, s.value) then None
    else
      var edgeExist := |Parallel(v, s.value, t.value)| > 1;
      var transitive := |Leaving(v, s.value)| > 1 && "transitive" in NodeModel(v, s.value)
                        && NodeModel(v, s.value)["transitive"] == Bool(true);
      Some(!(edgeExist || transitive))
  }

  /** `edges.some(...)` of isOnlyOneEdge, visiting `xs` in order: whether
      an edge runs from `s` to `t`, None when an edge visited before the
      first such one has an end that is no node. */
  function SomeJoins(v: GraphValue, xs: seq<Id>, s: Id, t: Id): Option<bool>
    decreases |xs|
  {
    if xs == [] then Some(false)
    else if !Nodal(v, xs[0]) then None
    else if Joins(v, xs[0], s, t) then Some(true)
    else SomeJoins(v, xs[1..], s, t)
  }

  /** The scan answers false exactly when every edge it visits is between
      nodes and none joins `s` to `t`, and true exactly when a joining edge
      comes before every edge with a free end. */
  lemma SomeJoinsMeaning(v: GraphValue, xs: seq<Id>, s: Id, t: Id)
    ensures SomeJoins(v, xs, s, t) == Some(false) <==>
      forall i :: 0 <= i < |xs| ==> Nodal(v, xs[i]) && !Joins(v, xs[i], s, t)
    ensures SomeJoins(v, xs, s, t) == Some(true) <==>
      exists i :: 0 <= i < |xs| && Joins(v, xs[i], s, t) && forall j :: 0 <= j < i ==> Nodal(v, xs[j])
  {
    SomeJoinsFalse(v, xs, s, t);
    SomeJoinsTrue(v, xs, s, t);
  }

  lemma {:induction false} SomeJoinsFalse(v: GraphValue, xs: seq<Id>, s: Id, t: Id)
    ensures SomeJoins(v, xs, s, t) == Some(false) <==>
      forall i :: 0 <= i < |xs| ==> Nodal(v, xs[i]) && !Joins(v, xs[i], s, t)
    decreases |xs|
  {
    if xs != [] {
      var ys := xs[1..];
      SomeJoinsFalse(v, ys, s, t);
      assert forall i :: 0 < i < |xs| ==> ys[i - 1] == xs[i];
    }
  }

  lemma {:induction false} SomeJoinsTrue(v: GraphValue, xs: seq<Id>, s: Id, t: Id)
    ensures SomeJoins(v, xs, s, t) == Some(true) <==>
      exists i :: 0 <= i < |xs| && Joins(v, xs[i], s, t) && forall j :: 0 <= j < i ==> Nodal(v, xs[j])
    decreases |xs|
  {
    if xs != [] {
      var ys := xs[1..];
      SomeJoinsTrue(v, ys, s, t);
      if SomeJoins(v, xs, s, t) == Some(true) && !Joins(v, xs[0], s, t) {
        var i :| 0 <= i < |ys| && Joins(v, ys[i], s, t) && forall j :: 0 <= j < i ==> Nodal(v, ys[j]);
        assert Joins(v, xs[i + 1], s, t);
        assert forall j :: 0 < j < i + 1 ==> xs[j] == ys[j - 1];
      }
      if exists i :: 0 <= i < |xs| && Joins(v, xs[i], s, t) && forall j :: 0 <= j < i ==> Nodal(v, xs[j]) {
        var i :| 0 <= i < |xs| && Joins(v, xs[i], s, t) && forall j :: 0 <= j < i ==> Nodal(v, xs[j]);
        if i > 0 && !Joins(v, xs[0], s, t) {
          assert Nodal(v, xs[0]);
          assert forall j :: 0 <= j < i - 1 ==> ys[j] == xs[j + 1];
          assert Joins(v, ys[i - 1], s, t);
        }
      }
    }
  }

  /** Looking only at the node's own edges decides whether the graph has
      an edge from `s` to the node: the scan's answer, when it gives one,
      is that, and it gives one whenever every edge at the node runs
      between nodes. */
  lemma NodeEdgesSuffice(v: GraphValue, s: Id, n: Id)
    requires Valid(v)
    ensures SomeJoins(v, EdgesOf(v, n), s, n).Some? ==>
      SomeJoins(v, EdgesOf(v, n), s, n).value == (Parallel(v, s, n) != {})
    ensures NodalAt(v, n) ==> SomeJoins(v, EdgesOf(v, n), s, n) == Some(Parallel(v, s, n) != {})
  {
    var xs := EdgesOf(v, n);
    SomeJoinsMeaning(v, xs, s, n);
    JoiningAtNode(v, s, n);
    if NodalAt(v, n) {
      NodalAtNode(v, n);
    }
  }

  /** An edge from `s` to `n` is one of `n`'s own edges, and every one of
      those that joins `s` to `n` is such an edge. */
  lemma JoiningAtNode(v: GraphValue, s: Id, n: Id)
    requires Valid(v)
    ensures Parallel(v, s, n) != {} <==> exists i :: 0 <= i < |EdgesOf(v, n)| && Joins(v, EdgesOf(v, n)[i], s, n)
  {
    var xs := EdgesOf(v, n);
    if Parallel(v, s, n) != {} {
      var x :| x in Parallel(v, s, n);
      assert x in Elems(v.edges.keys);
      assert EdgeModel(v, x) == v.edges.vals[x];
      assert Incident(v.edges.vals[x], n);
      assert x in xs;
      var i :| 0 <= i < |xs| && xs[i] == x;
      assert Joins(v, xs[i], s, n);
    }
    if exists i :: 0 <= i < |xs| && Joins(v, xs[i], s, n) {
      var i :| 0 <= i < |xs| && Joins(v, xs[i], s, n);
      assert xs[i] in v.edges.vals;
      assert xs[i] in Parallel(v, s, n);
    }
  }

  /** With every edge at `n` between nodes, every edge the scan visits is. */
  lemma NodalAtNode(v: GraphValue, n: Id)
    requires NodalAt(v, n)
    ensures forall i :: 0 <= i < |EdgesOf(v, n)| ==> Nodal(v, EdgesOf(v, n)[i])
  {
    var xs := EdgesOf(v, n);
    forall i | 0 <= i < |xs|
      ensures Nodal(v, xs[i])
    {
      assert xs[i] in IncidentEdges(v, n);
    }
  }

  /** A set holding `d` has more than one element exactly when it holds
      another. */
  lemma MoreThanOne(r: set<Id>, d: Id)
    requires d in r
    ensures |r| > 1 <==> exists x :: x in r && x != d
  {
    if exists x :: x in r && x != d {
      var x :| x in r && x != d;
      assert {d, x} <= r;
      assert |{d, x}| == 2;
      CardSubset({d, x}, r);
    } else {
      assert r == {d};
    }
  }

  lemma CardSubset(a: set<Id>, b: set<Id>)
    requires a <= b
    ensures |a| <= |b|
  {
    assert b == a + (b - a);
  }

  /** customValidation in terms of the other edges: with both ends of the
      working edge `d` at nodes, it throws exactly when the filter reaches
      an edge end that is a free point; otherwise `d` is rejected exactly
      when another edge already joins its two nodes, or its source is
      transitive and already has another outgoing edge. */
  lemma CustomValidationMeaning(v: GraphValue, d: Id)
    requires d in v.edges.vals
    requires Nodal(v, d)
    ensures CustomValidation(v, d).None? <==> FilterThrows(v, EndNode(v, d, "source").value)
    ensures var s := EndNode(v, d, "source").value;
      var t := EndNode(v, d, "target").value;
      CustomValidation(v, d) == Some(false) <==>
        !FilterThrows(v, s) &&
        ((exists x :: x in Parallel(v, s, t) && x != d)
         || ((exists x :: x in Leaving(v, s) && x != d)
             && "transitive" in NodeModel(v, s) && NodeModel(v, s)["transitive"] == Bool(true)))
  {
    var s := EndNode(v, d, "source").value;
    var t := EndNode(v, d, "target").value;
    MoreThanOne(Parallel(v, s, t), d);
    MoreThanOne(Leaving(v, s), d);
  }

  // ---------------------------------------------------------------------
  // The behaviour

  /** Which grabbed end a handle stands for. */
  function PointName(start: bool): string
  {
    if start then "source" else "target"
  }

  function AnchorName(start: bool): string
  {
    if start then "sourceAnchor" else "targetAnchor"
  }

  predicate IsControlPoint(s: Shape)
  {
    s.className == EDGE_CONTROLL_POINT_END || s.className == EDGE_CONTROLL_POINT_START
  }

  /** The working copy: the edge's model without its cached end points and
      with the grabbed end at the pointer. */
  function Working(m: ItemModel, start: bool, x: int, y: int): ItemModel
  {
    Spread(Omit(m, {"startPoint", "endPoint", PointName(start)}), map[PointName(start) := Pt(Point(x, y))])
  }

  /** The end of an edge that stays put while the other is dragged. */
  function FixedName(start: bool): string
  {
    if start then "target" else "source"
  }

  /** The update that puts the grabbed end on the anchor under the pointer. */
  function Snap(e: GraphEvent, start: bool): ItemModel
    requires e.item.Some?
  {
    map[AnchorName(start) := e.target.anchorPointIndex, PointName(start) := Str(e.item.value)]
  }

  /** The graph after a press on a handle of edge `d`: the edge swapped for
      its working copy, then every node but the fixed end showing Enabled
      anchors. When the fixed end is no node, the node loop's
      `.get('id')` on it throws at the first node. */
  function Grabbed(v: GraphValue, d: Id, e: GraphEvent, start: bool): Run
  {
    var w := AddItem(RemoveItem(v, d), Edge, Working(EdgeModel(v, d), start, e.x, e.y));
    var fixed := EndNode(v, d, FixedName(start));
    if fixed.Some? then Ran(Marked(w, w.nodes.keys, AllEnabled, true, {fixed.value}))
    else if w.nodes.keys == [] then Ran(w)
    else Threw(w)
  }

  /** How a release ends; `Thrown` is a TypeError from `.get('id')` on an
      end that is no node, which leaves the graph and the drag as they
      were. */
  datatype Release = Ignored | Reset | Reconnected | Thrown

  class DragEdgeControl {
    var addingEdge: bool
    /** The working copy of the edge being reconnected. */
    var edge: Option<Id>
    var initEdgeModel: Option<ItemModel>
    var initAnchorIndex: Value
    var isStartControlPoint: bool
    /** The nodes at the two ends of the grabbed edge. */
    var source: Option<Id>
    var target: Option<Id>
    /** `graph.get('defaultEdge').linkRule`, which the checks write back into. */
    var linkRule: Option<LinkRule>
    const allowMultiEdge: bool

    /** While an edge is being dragged there is a working copy. */
    predicate Valid()
      reads this
    {
      addingEdge ==> edge.Some?
    }

    constructor (linkRule: Option<LinkRule>, allowMultiEdge: bool)
      ensures Valid() && !addingEdge && edge.None? && initEdgeModel.None? && initAnchorIndex == Num(0)
      ensures !isStartControlPoint && source.None? && target.None?
      ensures this.linkRule == linkRule && this.allowMultiEdge == allowMultiEdge
    {
      addingEdge := false;
      edge := None;
      initEdgeModel := None;
      initAnchorIndex := Num(0);
      isStartControlPoint := false;
      source, target := None, None;
      this.linkRule := linkRule;
      this.allowMultiEdge := allowMultiEdge;
    }

    /** `this[pointName]`: the original node at the grabbed end. */
    function GrabbedEnd(): Option<Id>
      reads this
    {
      if isStartControlPoint then source else target
    }

    /** The update that returns the grabbed end to where it was. */
    function ResetUpdate(): ItemModel
      reads this
      requires GrabbedEnd().Some?
    {
      map[AnchorName(isStartControlPoint) := initAnchorIndex, PointName(isStartControlPoint) := Str(GrabbedEnd().value)]
    }

    /** `this.edge.getSource()` / `getTarget()` at the fixed end of the
        working edge `d`. */
    function FixedEndOf(v: GraphValue, d: Id): Option<Id>
      reads this
    {
      EndNode(v, d, FixedName(isStartControlPoint))
    }

    /** `notSelf`: the node under the pointer is not the fixed end (which
        must be a node, or notSelf throws). */
    predicate NotSelf(v: GraphValue, e: GraphEvent, d: Id)
      reads this
      requires e.item.Some? && FixedEndOf(v, d).Some?
    {
      FixedEndOf(v, d).value != e.item.value
    }

    /** `isOnlyOneEdge(node)`, None where it throws: multi-edges allowed,
        or the node has no edge from the working edge's source to it. It
        throws when that source, or an end of an edge the scan visits, is
        no node. */
    function IsOnlyOneEdge(v: GraphValue, node: Id, d: Id): Option<bool>
      reads this
    {
      if allowMultiEdge then Some(true)
      else
        var s := EndNode(v, d, "source");
        if s.None? then None
        else if s.value == "" || node == "" then Some(true)
        else
          var j := SomeJoins(v, EdgesOf(v, node), s.value, node);
          if j.None? then None else Some(!j.value)
    }

    /** How `resetEdge` ends: it throws when the grabbed end was no node. */
    function Resetting(): Release
      reads this
    {
      if GrabbedEnd().None? then Thrown else Reset
    }

    /** The flag `checkOutAndInEdge` gets for a grabbed end's drag or release. */
    function Flag(): Flag
      reads this
    {
      if isStartControlPoint then OutFlag else InFlag
    }

    /** Edge mousedown: on a handle, swap the edge for a working copy and
        show the anchors of every node but the fixed end. `anchorIndex` is
        the grabbed end's `sourceAnchorIndex` / `targetAnchorIndex` item
        property, the anchor G6 linked that end to. */
    method OnMouseDown(g: Graph, e: GraphEvent, anchorIndex: Value) returns (threw: bool)
      requires e.item.Some? && e.item.value in g.edges.vals
      modifies g, this`isStartControlPoint, this`initAnchorIndex, this`source, this`target
      modifies this`initEdgeModel, this`edge, this`addingEdge
      ensures !IsControlPoint(e.target) ==>
        !threw && g.View() == old(g.View()) && edge == old(edge) && addingEdge == old(addingEdge)
        && initEdgeModel == old(initEdgeModel)
      ensures IsControlPoint(e.target) ==>
        var d := e.item.value;
        var m := EdgeModel(old(g.View()), d);
        && isStartControlPoint == (e.target.className == EDGE_CONTROLL_POINT_START)
        && initAnchorIndex == anchorIndex
        && source == EndNode(old(g.View()), d, "source") && target == EndNode(old(g.View()), d, "target")
        && initEdgeModel == Some(m) && addingEdge
        && edge == Some(IdOf(Working(m, isStartControlPoint, e.x, e.y)))
        && Grabbed(old(g.View()), d, e, isStartControlPoint) == if threw then Threw(g.View()) else Ran(g.View())
      ensures old(Valid()) ==> Valid()
    {
      if !IsControlPoint(e.target) {
        return false;
      }
      var start := e.target.className == EDGE_CONTROLL_POINT_START;
      var d := e.item.value;
      var m := g.edges.vals[d];
      Remember(start, m, EndNode(g.View(), d, "source"), EndNode(g.View(), d, "target"), e, anchorIndex);
      threw := Grab(g, d, e, start);
    }

    /** The fields a press on a handle sets. */
    method Remember(start: bool, m: ItemModel, s: Option<Id>, t: Option<Id>, e: GraphEvent, anchorIndex: Value)
      modifies this`isStartControlPoint, this`initAnchorIndex, this`source, this`target
      modifies this`initEdgeModel, this`edge, this`addingEdge
      ensures isStartControlPoint == start && initAnchorIndex == anchorIndex
      ensures source == s && target == t && initEdgeModel == Some(m) && addingEdge
      ensures edge == Some(IdOf(Working(m, start, e.x, e.y)))
    {
      isStartControlPoint := start;
      initAnchorIndex := anchorIndex;
      source, target := s, t;
      initEdgeModel := Some(m);
      edge := Some(IdOf(Working(m, start, e.x, e.y)));
      addingEdge := true;
    }

    /** The graph part of a press on a handle. */
    static method Grab(g: Graph, d: Id, e: GraphEvent, start: bool) returns (threw: bool)
      requires d in g.edges.vals
      modifies g
      ensures Grabbed(old(g.View()), d, e, start) == if threw then Threw(g.View()) else Ran(g.View())
    {
      var fixed := EndNode(g.View(), d, FixedName(start));
      var working := Working(g.edges.vals[d], start, e.x, e.y);
      g.RemoveItem(d);
      g.AddItem(Edge, working);
      if fixed.None? {
        return g.nodes.keys != [];
      }
      MarkNodes(g, AllEnabled, true, {fixed.value});
      threw := false;
    }

    /** Node mouseleave while dragging: the node's anchors stay shown. */
    method OnNodeMouseLeave(g: Graph, e: GraphEvent)
      requires e.item.Some?
      modifies g
      ensures g.View() == if addingEdge then Mark(old(g.View()), e.item.value, AllEnabled(e.item.value), true)
                          else old(g.View())
    {
      if addingEdge {
        g.SetAnchorPointsState(e.item.value, AllEnabled(e.item.value));
        g.SetItemState(e.item.value, ACTIVE_ANCHOR_POINTS, true);
      }
    }

    /** The working copy `d` after a pointer move: snapped to an anchor
        that passes the link-rule and notSelf checks, or following the
        pointer; notSelf throws when the fixed end is no node. */
    function Moved(v: GraphValue, e: GraphEvent, d: Id): Run
      reads this
      requires Delivered(e)
    {
      var follow := map[PointName(isStartControlPoint) := Pt(Point(e.x, e.y))];
      if !AddEdgeCheck(v, e, Flag(), linkRule).ok then Ran(UpdateItem(v, d, follow))
      else if FixedEndOf(v, d).None? then Threw(v)
      else if NotSelf(v, e, d) then Ran(UpdateItem(v, d, Snap(e, isStartControlPoint)))
      else Ran(UpdateItem(v, d, follow))
    }

    /** Mousemove while dragging: mark the working copy as moving, then snap
        its grabbed end to an anchor that passes the checks, or let it
        follow the pointer. */
    method OnMousemove(g: Graph, e: GraphEvent) returns (threw: bool)
      requires Valid() && Delivered(e)
      modifies g, this`linkRule
      ensures Valid()
      ensures !addingEdge ==> !threw && g.View() == old(g.View()) && linkRule == old(linkRule)
      ensures addingEdge ==>
        var d := edge.value;
        var b := SetItemState(old(g.View()), d, "move", true);
        && linkRule == AddEdgeCheck(b, e, Flag(), old(linkRule)).linkRule
        && old(Moved(b, e, d)) == if threw then Threw(g.View()) else Ran(g.View())
    {
      if !addingEdge {
        return false;
      }
      var d := edge.value;
      g.SetItemState(d, "move", true);
      var c := AddEdgeCheck(g.View(), e, Flag(), linkRule);
      linkRule := c.linkRule;
      threw := false;
      if !c.ok {
        g.UpdateItem(d, map[PointName(isStartControlPoint) := Pt(Point(e.x, e.y))]);
      } else if FixedEndOf(g.View(), d).None? {
        threw := true;
      } else if NotSelf(g.View(), e, d) {
        g.UpdateItem(d, Snap(e, isStartControlPoint));
      } else {
        g.UpdateItem(d, map[PointName(isStartControlPoint) := Pt(Point(e.x, e.y))]);
      }
    }

    /** How a release over `e` ends. */
    function Verdict(v: GraphValue, e: GraphEvent): Release
      reads this
      requires Delivered(e)
    {
      if !AddEdgeCheck(v, e, Flag(), linkRule).ok then
        if edge.Some? && addingEdge then Resetting() else Ignored
      else if !(addingEdge && edge.Some?) then Ignored
      else
        var d := edge.value;
        if FixedEndOf(v, d).None? then Thrown
        else if !NotSelf(v, e, d) then Resetting()
        else Validated(v, e.item.value, d)
    }

    /** How a release on `node` ends once notSelf has passed: isOnlyOneEdge,
        then customValidation, each of which may throw. */
    function Validated(v: GraphValue, node: Id, d: Id): Release
      reads this
    {
      var one := IsOnlyOneEdge(v, node, d);
      var valid := CustomValidation(v, d);
      if one.None? then Thrown
      else if !one.value then Resetting()
      else if valid.None? then Thrown
      else if !valid.value then Resetting()
      else Reconnected
    }

    /** A release that resets has a grabbed end to put back, and one that
        reconnects has a node under the pointer. */
    lemma VerdictCases(v: GraphValue, e: GraphEvent)
      requires Delivered(e)
      ensures Verdict(v, e) == Reset ==> edge.Some? && GrabbedEnd().Some?
      ensures Verdict(v, e) == Reconnected ==> edge.Some? && e.item.Some?
    {
    }

    /** The params of the reconnect command: the original model under the
        working copy's id, and the new end. */
    function ReconnectParams(id: Id, e: GraphEvent): Params
      reads this
      requires e.item.Some?
    {
      var original := if initEdgeModel.Some? then initEdgeModel.value else map[];
      map["model" := PModel(Spread(original, map["id" := Str(id)])),
          "updateModel" := PModel(Snap(e, isStartControlPoint))]
    }

    /** The graph a reconnecting release hands to the command: the
        before-connect event, the drag and move states cleared, and the
        grabbed end put on the anchor. */
    function Connected(v: GraphValue, d: Id, e: GraphEvent): GraphValue
      reads this
      requires e.item.Some?
    {
      var b := SetItemState(SetItemState(Emit(v, BeforeConnect(d)), d, "drag", false), d, "move", false);
      UpdateItem(b, d, Snap(e, isStartControlPoint))
    }

    /** Mouseup: reconnect the grabbed end to the anchor under the pointer
        when every check passes, else put it back; a release that is not
        part of a drag changes only the written-back link rules. */
    method OnMouseup(g: Graph, m: CommandManager, s: Session, e: GraphEvent) returns (r: Release)
      requires Valid() && Delivered(e) && m.Valid()
      modifies g, m`queue, m`index, s`drawn, s`clipboard
      modifies this`linkRule, this`edge, this`initEdgeModel, this`addingEdge
      ensures Valid() && m.Valid()
      ensures r == old(Verdict(g.View(), e))
      ensures linkRule == old(AddEdgeCheck(g.View(), e, Flag(), linkRule).linkRule)
      ensures r == Ignored || r == Thrown ==>
        && g.View() == old(g.View()) && edge == old(edge) && addingEdge == old(addingEdge)
        && initEdgeModel == old(initEdgeModel)
        && m.Recorded() == old(m.Recorded()) && s.drawn == old(s.drawn) && s.clipboard == old(s.clipboard)
      ensures r == Reset ==>
        var w := UpdateItem(old(g.View()), old(edge).value, old(ResetUpdate()));
        && g.View() == Marked(w, w.nodes.keys, NoAnchors, false, {})
        && edge.None? && !addingEdge && initEdgeModel.None?
        && m.Recorded() == old(m.Recorded()) && s.drawn == old(s.drawn) && s.clipboard == old(s.clipboard)
      ensures r == Reconnected ==>
        var d := old(edge).value;
        var id := IdOf(EdgeModel(old(g.View()), d));
        var x := Step(old(Connected(g.View(), d, e)), old(m.Recorded()), m.Lookup(CHANGE_EDGE_CONTROLL),
                      old(ReconnectParams(id, e)), m.GuardOf(CHANGE_EDGE_CONTROLL), old(s.clipboard), s.guid, old(s.drawn));
        var w := Emit(x.graph, AfterConnect(id));
        && g.View() == Marked(w, w.nodes.keys, NoAnchors, false, {})
        && edge.None? && !addingEdge && initEdgeModel.None?
        && m.Recorded() == x.history && s.drawn == x.drawn && s.clipboard == x.clipboard
    {
      r := Verdict(g.View(), e);
      VerdictCases(g.View(), e);
      var written := AddEdgeCheck(g.View(), e, Flag(), linkRule).linkRule;
      if r == Reset {
        var _ := ResetEdge(g);
      } else if r == Reconnected {
        Reconnect(g, m, s, e);
      }
      linkRule := written;
    }

    /** resetEdge then hideAnchors; resetEdge throws, before any write, when
        the grabbed end was no node. */
    method ResetEdge(g: Graph) returns (threw: bool)
      requires edge.Some?
      modifies g, this`edge, this`initEdgeModel, this`addingEdge
      ensures threw == old(GrabbedEnd()).None?
      ensures threw ==>
        g.View() == old(g.View()) && edge == old(edge) && addingEdge == old(addingEdge)
        && initEdgeModel == old(initEdgeModel)
      ensures !threw ==>
        var w := UpdateItem(old(g.View()), old(edge).value, old(ResetUpdate()));
        && g.View() == Marked(w, w.nodes.keys, NoAnchors, false, {})
        && edge.None? && !addingEdge && initEdgeModel.None?
    {
      if GrabbedEnd().None? {
        return true;
      }
      threw := false;
      var upd := ResetUpdate();
      g.UpdateItem(edge.value, upd);
      Clear();
      MarkNodes(g, NoAnchors, false, {});
    }

    /** The end of every drag: no working edge any more. */
    method Clear()
      modifies this`edge, this`initEdgeModel, this`addingEdge
      ensures edge.None? && !addingEdge && initEdgeModel.None?
    {
      initEdgeModel := None;
      edge := None;
      addingEdge := false;
    }

    /** The committing branch of the release. */
    method Reconnect(g: Graph, m: CommandManager, s: Session, e: GraphEvent)
      requires edge.Some? && e.item.Some? && m.Valid()
      modifies g, m`queue, m`index, s`drawn, s`clipboard, this`edge, this`initEdgeModel, this`addingEdge
      ensures m.Valid() && edge.None? && !addingEdge && initEdgeModel.None?
      ensures var d := old(edge).value;
        var id := IdOf(EdgeModel(old(g.View()), d));
        var x := Step(old(Connected(g.View(), d, e)), old(m.Recorded()), m.Lookup(CHANGE_EDGE_CONTROLL),
                      old(ReconnectParams(id, e)), m.GuardOf(CHANGE_EDGE_CONTROLL), old(s.clipboard), s.guid, old(s.drawn));
        var w := Emit(x.graph, AfterConnect(id));
        && g.View() == Marked(w, w.nodes.keys, NoAnchors, false, {})
        && m.Recorded() == x.history && s.drawn == x.drawn && s.clipboard == x.clipboard
    {
      var d := edge.value;
      var id := IdOf(EdgeModel(g.View(), d));
      var params := ReconnectParams(id, e);
      Prepare(g, d, Snap(e, isStartControlPoint));
      var _, _ := m.Execute(g, s, CHANGE_EDGE_CONTROLL, params);
      Conclude(g, id);
      Clear();
    }

    /** What the release does to the working copy before the command. */
    static method Prepare(g: Graph, d: Id, snap: ItemModel)
      modifies g
      ensures g.View() == UpdateItem(SetItemState(SetItemState(Emit(old(g.View()), BeforeConnect(d)), d, "drag", false), d, "move", false), d, snap)
    {
      g.Emit(BeforeConnect(d));
      g.SetItemState(d, "drag", false);
      g.SetItemState(d, "move", false);
      g.UpdateItem(d, snap);
    }

    /** What the release does after the command. */
    static method Conclude(g: Graph, id: Id)
      modifies g
      ensures var w := Emit(old(g.View()), AfterConnect(id));
        g.View() == Marked(w, w.nodes.keys, NoAnchors, false, {})
    {
      g.Emit(AfterConnect(id));
      MarkNodes(g, NoAnchors, false, {});
    }
  }

  /** The reconnect command is registered under a different name, so with
      the editor's command registry the release's command call finds
      nothing: the graph keeps the edge as the gesture left it and the
      history gets no entry. */
  lemma ReconnectUnrecorded(m: CommandManager, v: GraphValue, h: History, p: Params,
                            clipboard: seq<ItemModel>, guid: nat -> Id, from: nat)
    requires m.Valid() && m.command.Keys == Registry.Keys && HistoryValid(h)
    ensures var x := Step(v, h, m.Lookup(CHANGE_EDGE_CONTROLL), p, m.GuardOf(CHANGE_EDGE_CONTROLL), clipboard, guid, from);
      x.outcome == Skipped && x.graph == v && x.history == h && x.drawn == from
  {
    RegistryKeys();
  }

  /** The working copy keeps the edge's other fields and puts the grabbed
      end at the pointer. */
  lemma WorkingFields(m: ItemModel, start: bool, x: int, y: int)
    ensures var w := Working(m, start, x, y);
      && w[PointName(start)] == Pt(Point(x, y))
      && (forall k :: k in m && k !in {"startPoint", "endPoint", PointName(start)} ==> k in w && w[k] == m[k])
      && (forall k :: k in w ==> k in m || k == PointName(start))
  {
    var o := Omit(m, {"startPoint", "endPoint", PointName(start)});
    assert forall k :: k in o <==> k in m && k !in {"startPoint", "endPoint", PointName(start)};
  }

  /** A press on a handle of an edge whose fixed end is a node shows the
      anchors of every other node. */
  lemma GrabEffect(v: GraphValue, d: Id, e: GraphEvent, start: bool)
    requires Valid(v) && d in v.edges.vals
    requires EndNode(v, d, FixedName(start)).Some?
    ensures var x := Grabbed(v, d, e, start);
      && x.Ran?
      && forall n :: n in v.nodes.vals && n != EndNode(v, d, FixedName(start)).value ==>
           n in x.graph.anchorStates && x.graph.anchorStates[n] == AllEnabled(n)
           && (n, ACTIVE_ANCHOR_POINTS) in x.graph.states
  {
    var w := Working(EdgeModel(v, d), start, e.x, e.y);
    SwapKeepsNodes(v, d, w);
    MarkedEffect(AddItem(RemoveItem(v, d), Edge, w), AllEnabled, true, {EndNode(v, d, FixedName(start)).value});
  }

  /** With a fixed end that is no node, a press throws exactly when the
      graph has a node, and it has marked no node when it does. */
  lemma GrabFreeEnd(v: GraphValue, d: Id, e: GraphEvent, start: bool)
    requires Valid(v) && d in v.edges.vals
    requires EndNode(v, d, FixedName(start)).None?
    ensures var x := Grabbed(v, d, e, start);
      && (x.Threw? <==> v.nodes.vals != map[])
      && x.graph == AddItem(RemoveItem(v, d), Edge, Working(EdgeModel(v, d), start, e.x, e.y))
  {
    var w := Working(EdgeModel(v, d), start, e.x, e.y);
    SwapKeepsNodes(v, d, w);
    var u := AddItem(RemoveItem(v, d), Edge, w);
    if u.nodes.keys != [] {
      assert u.nodes.keys[0] in u.nodes.vals;
    }
  }

  /** Swapping an edge for another keeps the graph valid and its nodes. */
  lemma SwapKeepsNodes(v: GraphValue, d: Id, w: ItemModel)
    requires Valid(v) && d in v.edges.vals
    ensures var u := AddItem(RemoveItem(v, d), Edge, w);
      Valid(u) && u.nodes.vals == v.nodes.vals
  {
    var r := RemoveItem(v, d);
    assert d !in v.nodes.vals && RemovedBy(v, d) == {d};
    assert r.nodes.vals == v.nodes.vals;
    assert Valid(r) by { RemoveItemValid(v, d); }
    assert AddItem(r, Edge, w).nodes == r.nodes;
    AddItemValid(r, Edge, w);
  }
}
