/** The drag-add-edge behaviour of flow graphs
    (src/components/Flow/behavior/dragAddEdge.ts): pressing an enabled
    anchor point of a node starts a draft edge that follows the pointer,
    snaps to an enabled anchor of another node, and on release is either
    thrown away or replaced by an Add command for the same edge. */
module AddEdgeGesture {
  import opened Model
  import opened G6
  import opened G6Graph
  import opened Session
  import opened Commands
  import opened CommandManagement
  import opened Gestures

  /** The target anchor is a shape that is an anchor point in the Enabled
      state. */
  predicate IsEnabledAnchorPoint(e: GraphEvent)
  {
    e.target.isAnchorPoint && e.target.anchorPointState == Some(Enabled)
  }

  /** The node the edge `d` starts from. */
  function SourceOf(v: GraphValue, d: Id): Option<Id>
  {
    match ModelOf(v, d)
    case None => None
    case Some(m) => EndOf(m, "source")
  }

  /** The node under the pointer is not the draft's source node. */
  predicate IsNotSelf(v: GraphValue, e: GraphEvent, d: Id)
    requires e.item.Some?
  {
    SourceOf(v, d) != Some(e.item.value)
  }

  predicate CanFindTargetAnchorPoint(v: GraphValue, e: GraphEvent, d: Id)
    requires Delivered(e)
  {
    IsEnabledAnchorPoint(e) && IsNotSelf(v, e, d)
  }

  /** `isPlainObject(edge.getTarget())`: the edge still ends at a free
      point rather than at a node. */
  predicate EndsAtPoint(v: GraphValue, d: Id)
  {
    match ModelOf(v, d)
    case None => false
    case Some(m) => "target" in m && m["target"].Pt?
  }

  predicate ShouldAddRealEdge(v: GraphValue, e: GraphEvent, d: Id)
  {
    e.target.isAnchorPoint && !EndsAtPoint(v, d)
  }

  /** The draft edge of a press at anchor `index` of node `source`: the
      listed fields, then the default edge model's fields on top. */
  function DraftModel(id: Id, edgeType: string, source: Id, index: Value, x: int, y: int, defaults: ItemModel)
    : (m: ItemModel)
    ensures forall k :: k in defaults ==> k in m && m[k] == defaults[k]
  {
    Spread(map["id" := Str(id), "label" := Str("label"), "type" := Str(edgeType), "source" := Str(source),
                "sourceAnchor" := index, "target" := Pt(Point(x, y))],
           defaults)
  }

  /** Without default fields the draft is the edge from the pressed anchor
      to the pointer, under the fresh id. */
  lemma DraftWithoutDefaults(id: Id, edgeType: string, source: Id, index: Value, x: int, y: int)
    ensures var m := DraftModel(id, edgeType, source, index, x, y, map[]);
      && IdOf(m) == id && EndOf(m, "source") == Some(source) && m["sourceAnchor"] == index
      && m["target"] == Pt(Point(x, y)) && m["type"] == Str(edgeType) && m["label"] == Str("label")
  {
  }

  /** The draft's update on a pointer move: snap to the anchor under the
      pointer, or follow the pointer with no target anchor. */
  function MoveUpdate(v: GraphValue, e: GraphEvent, d: Id): ItemModel
    requires Delivered(e)
  {
    if CanFindTargetAnchorPoint(v, e, d)
    then map["target" := Str(e.item.value), "targetAnchor" := e.target.anchorPointIndex]
    else map["target" := Pt(Point(e.x, e.y)), "targetAnchor" := Undefined]
  }

  /** The params the release passes to the Add command. */
  function AddEdgeParams(m: ItemModel): Params
  {
    map["type" := PType(Edge), "model" := PModel(m)]
  }

  /** The graph a committed release hands to the Add command: the
      after-connect event, then the draft removed. */
  function Withdrawn(v: GraphValue, d: Id): GraphValue
  {
    RemoveItem(Emit(v, AfterConnect(d)), d)
  }

  class DragAddEdge {
    /** The draft edge while a drag is in progress. */
    var edge: Option<Id>
    const edgeType: string
    const sourceState: (Id, nat) -> AnchorPointState
    const targetState: (Id, Value, Id, nat) -> AnchorPointState
    const defaultEdgeModel: ItemModel
    const shouldBegin: GraphEvent -> bool
    const customValidation: GraphEvent -> bool

    /** The behaviour with its default configuration. */
    constructor ()
      ensures edge == None && edgeType == "flowEdge" && defaultEdgeModel == map[]
      ensures forall n, i :: sourceState(n, i) == Enabled
      ensures forall n, i, t, j :: targetState(n, i, t, j) == Enabled
      ensures forall e :: shouldBegin(e) && customValidation(e)
    {
      edge := None;
      edgeType := "flowEdge";
      sourceState := (n, i) => Enabled;
      targetState := (n, i, t, j) => Enabled;
      defaultEdgeModel := map[];
      shouldBegin := e => true;
      customValidation := e => true;
    }

    /** The behaviour with a user configuration. */
    constructor Configured(edgeType: string, sourceState: (Id, nat) -> AnchorPointState,
                           targetState: (Id, Value, Id, nat) -> AnchorPointState, defaultEdgeModel: ItemModel,
                           shouldBegin: GraphEvent -> bool, customValidation: GraphEvent -> bool)
      ensures edge == None && this.edgeType == edgeType && this.sourceState == sourceState
      ensures this.targetState == targetState && this.defaultEdgeModel == defaultEdgeModel
      ensures this.shouldBegin == shouldBegin && this.customValidation == customValidation
    {
      edge := None;
      this.edgeType := edgeType;
      this.sourceState := sourceState;
      this.targetState := targetState;
      this.defaultEdgeModel := defaultEdgeModel;
      this.shouldBegin := shouldBegin;
      this.customValidation := customValidation;
    }

    /** The anchor states of a hovered source node. */
    function SourceStates(n: Id): seq<AnchorPointState>
    {
      seq(ANCHOR_COUNT, i requires 0 <= i => sourceState(n, i))
    }

    /** The anchor states a press at anchor `index` of `source` gives to
        every other node. */
    function TargetStates(source: Id, index: Value): Id -> seq<AnchorPointState>
    {
      n => seq(ANCHOR_COUNT, j requires 0 <= j => targetState(source, index, n, j))
    }

    /** A press on an anchor starts a draft only when `shouldBegin` holds
        and the anchor is Enabled. */
    predicate Begins(e: GraphEvent)
    {
      shouldBegin(e) && IsEnabledAnchorPoint(e)
    }

    /** The graph after a press that begins a draft with id `id`: the
        draft added, then every other node's anchors shown with the
        target states. */
    function Pressed(v: GraphValue, e: GraphEvent, id: Id): GraphValue
      requires e.item.Some?
    {
      var source := e.item.value;
      var index := e.target.anchorPointIndex;
      var w := AddItem(v, Edge, DraftModel(id, edgeType, source, index, e.x, e.y, defaultEdgeModel));
      Marked(w, w.nodes.keys, TargetStates(source, index), true, {source})
    }

    /** Node mouseenter: show the node's anchors with the source states. */
    method HandleNodeMouseEnter(g: Graph, e: GraphEvent)
      requires e.item.Some?
      modifies g
      ensures g.View() == Mark(old(g.View()), e.item.value, SourceStates(e.item.value), true)
    {
      var node := e.item.value;
      g.SetAnchorPointsState(node, SourceStates(node));
      g.SetItemState(node, ACTIVE_ANCHOR_POINTS, true);
    }

    /** Node mouseleave: hide the node's anchors, unless a draft is being
        dragged. */
    method HandleNodeMouseLeave(g: Graph, e: GraphEvent)
      requires e.item.Some?
      modifies g
      ensures g.View() == if edge.None? then Mark(old(g.View()), e.item.value, [], false) else old(g.View())
    {
      if edge.None? {
        g.SetAnchorPointsState(e.item.value, []);
        g.SetItemState(e.item.value, ACTIVE_ANCHOR_POINTS, false);
      }
    }

    /** Node mousedown: begin a draft edge from the pressed anchor. */
    method HandleNodeMouseDown(g: Graph, s: Session, e: GraphEvent)
      requires Delivered(e)
      modifies g, s`drawn, this`edge
      ensures !Begins(e) ==> g.View() == old(g.View()) && edge == old(edge) && s.drawn == old(s.drawn)
      ensures Begins(e) ==>
        var id := s.guid(old(s.drawn));
        && s.drawn == old(s.drawn) + 1
        && edge == Some(IdOf(DraftModel(id, edgeType, e.item.value, e.target.anchorPointIndex, e.x, e.y, defaultEdgeModel)))
        && g.View() == Pressed(old(g.View()), e, id)
    {
      if !shouldBegin(e) || !IsEnabledAnchorPoint(e) {
        return;
      }
      var source := e.item.value;
      var index := e.target.anchorPointIndex;
      var id := s.Guid();
      var model := DraftModel(id, edgeType, source, index, e.x, e.y, defaultEdgeModel);
      g.AddItem(Edge, model);
      edge := Some(IdOf(model));
      MarkNodes(g, TargetStates(source, index), true, {source});
    }

    /** Mousemove: the draft follows the pointer or snaps to an anchor. */
    method HandleMouseMove(g: Graph, e: GraphEvent)
      requires Delivered(e)
      modifies g
      ensures edge.None? ==> g.View() == old(g.View())
      ensures edge.Some? ==> g.View() == UpdateItem(old(g.View()), edge.value, MoveUpdate(old(g.View()), e, edge.value))
    {
      if edge.None? {
        return;
      }
      var d := edge.value;
      if IsEnabledAnchorPoint(e) && IsNotSelf(g.View(), e, d) {
        g.UpdateItem(d, map["target" := Str(e.item.value), "targetAnchor" := e.target.anchorPointIndex]);
      } else {
        g.UpdateItem(d, map["target" := Pt(Point(e.x, e.y)), "targetAnchor" := Undefined]);
      }
    }

    /** Mouseup: drop the draft; when it ends at a node's anchor and passes
        `customValidation`, issue the Add command for it. Either way the
        drag ends and every node's anchors are hidden. */
    method HandleMouseUp(g: Graph, m: CommandManager, s: Session, e: GraphEvent) returns (connected: bool)
      requires m.Valid()
      requires edge.Some? ==> edge.value in g.edges.vals
      modifies g, m`queue, m`index, s`drawn, s`clipboard, this`edge
      ensures m.Valid() && edge.None?
      ensures connected <==> old(edge).Some? && ShouldAddRealEdge(old(g.View()), e, old(edge).value) && customValidation(e)
      ensures old(edge).None? ==>
        && g.View() == old(g.View()) && m.Recorded() == old(m.Recorded())
        && s.drawn == old(s.drawn) && s.clipboard == old(s.clipboard)
      ensures old(edge).Some? && !connected ==>
        var w := RemoveItem(old(g.View()), old(edge).value);
        && g.View() == Marked(w, w.nodes.keys, NoAnchors, false, {})
        && m.Recorded() == old(m.Recorded()) && s.drawn == old(s.drawn) && s.clipboard == old(s.clipboard)
      ensures connected ==>
        var d := old(edge).value;
        var r := Step(Withdrawn(old(g.View()), d), old(m.Recorded()), m.Lookup("add"),
                      AddEdgeParams(EdgeModel(old(g.View()), d)), m.GuardOf("add"), old(s.clipboard), s.guid, old(s.drawn));
        && g.View() == Marked(r.graph, r.graph.nodes.keys, NoAnchors, false, {})
        && m.Recorded() == r.history && s.drawn == r.drawn && s.clipboard == r.clipboard
    {
      if edge.None? {
        return false;
      }
      var d := edge.value;
      connected := ShouldAddRealEdge(g.View(), e, d) && customValidation(e);
      if !connected {
        g.RemoveItem(d);
      } else {
        AddRealEdge(g, m, s, d);
      }
      edge := None;
      MarkNodes(g, NoAnchors, false, {});
    }
  }

  /** The committed release: the after-connect event, the draft removed,
      and the Add command issued with the draft's model. */
  method AddRealEdge(g: Graph, m: CommandManager, s: Session, d: Id)
    requires m.Valid() && d in g.edges.vals
    modifies g, m`queue, m`index, s`drawn, s`clipboard
    ensures m.Valid()
    ensures var r := Step(Withdrawn(old(g.View()), d), old(m.Recorded()), m.Lookup("add"),
                          AddEdgeParams(EdgeModel(old(g.View()), d)), m.GuardOf("add"), old(s.clipboard), s.guid, old(s.drawn));
      && g.View() == r.graph && m.Recorded() == r.history && s.drawn == r.drawn && s.clipboard == r.clipboard
  {
    g.Emit(AfterConnect(d));
    var model := g.edges.vals[d];
    g.RemoveItem(d);
    var _, _ := m.Execute(g, s, "add", AddEdgeParams(model));
  }

  /** A press that begins a draft shows the anchors of every node but the
      source, each with the target states of the pressed anchor, and leaves
      the source node's anchors as they were. */
  lemma PressShowsTargets(b: DragAddEdge, v: GraphValue, e: GraphEvent, id: Id)
    requires Valid(v) && e.item.Some?
    ensures var w := b.Pressed(v, e, id);
      && (forall n :: n in v.nodes.vals && n != e.item.value ==>
            n in w.anchorStates && |w.anchorStates[n]| == ANCHOR_COUNT
            && (forall j :: 0 <= j < ANCHOR_COUNT ==>
                  w.anchorStates[n][j] == b.targetState(e.item.value, e.target.anchorPointIndex, n, j))
            && (n, ACTIVE_ANCHOR_POINTS) in w.states)
      && (e.item.value in w.anchorStates <==> e.item.value in v.anchorStates)
      && (e.item.value in v.anchorStates ==> w.anchorStates[e.item.value] == v.anchorStates[e.item.value])
  {
    var source := e.item.value;
    var u := AddItem(v, Edge, DraftModel(id, b.edgeType, source, e.target.anchorPointIndex, e.x, e.y, b.defaultEdgeModel));
    AddItemValid(v, Edge, DraftModel(id, b.edgeType, source, e.target.anchorPointIndex, e.x, e.y, b.defaultEdgeModel));
    assert u.nodes == v.nodes && u.anchorStates == v.anchorStates;
    MarkedEffect(u, b.TargetStates(source, e.target.anchorPointIndex), true, {source});
  }

  /** A press with a fresh id adds the draft edge itself, ending at the
      pointer. */
  lemma PressAddsDraft(b: DragAddEdge, v: GraphValue, e: GraphEvent, id: Id)
    requires Valid(v) && e.item.Some? && b.defaultEdgeModel == map[] && id !in AllIds(v)
    ensures var w := b.Pressed(v, e, id);
      && id in w.edges.vals && w.edges.vals[id] == DraftModel(id, b.edgeType, e.item.value, e.target.anchorPointIndex, e.x, e.y, map[])
      && SourceOf(w, id) == Some(e.item.value) && EndsAtPoint(w, id)
  {
    var source := e.item.value;
    var m := DraftModel(id, b.edgeType, source, e.target.anchorPointIndex, e.x, e.y, map[]);
    DraftWithoutDefaults(id, b.edgeType, source, e.target.anchorPointIndex, e.x, e.y);
    var u := AddItem(v, Edge, m);
    AddItemValid(v, Edge, m);
    MarkedEffect(u, b.TargetStates(source, e.target.anchorPointIndex), true, {source});
    assert id in u.edges.vals && u.edges.vals[id] == m;
  }

  /** A release that is not committed leaves no trace of the draft. */
  lemma DiscardRemovesDraft(v: GraphValue, d: Id)
    requires Valid(v) && d in v.edges.vals
    ensures var w := RemoveItem(v, d);
      var x := Marked(w, w.nodes.keys, NoAnchors, false, {});
      d !in AllIds(x) && x.nodes.vals == v.nodes.vals && x.events == v.events
  {
    var w := RemoveItem(v, d);
    assert d !in v.nodes.vals && RemovedBy(v, d) == {d};
    assert d !in AllIds(w) && w.nodes.vals == v.nodes.vals && w.events == v.events;
    assert Valid(w) by { RemoveItemValid(v, d); }
    var x := Marked(w, w.nodes.keys, NoAnchors, false, {});
    assert SameItems(w, x) && x.events == w.events by { MarkedEffect(w, NoAnchors, false, {}); }
  }

  /** Moving a draft over an Enabled anchor of another node points it at
      that node's anchor; anywhere else it ends at the pointer with no
      target anchor. */
  lemma MoveSnaps(v: GraphValue, e: GraphEvent, d: Id)
    requires Delivered(e) && d in v.edges.vals && Valid(v)
    ensures var w := UpdateItem(v, d, MoveUpdate(v, e, d));
      && d in w.edges.vals
      && (CanFindTargetAnchorPoint(v, e, d) ==>
            w.edges.vals[d]["target"] == Str(e.item.value) && w.edges.vals[d]["targetAnchor"] == e.target.anchorPointIndex)
      && (!CanFindTargetAnchorPoint(v, e, d) ==>
            w.edges.vals[d]["target"] == Pt(Point(e.x, e.y)) && w.edges.vals[d]["targetAnchor"] == Undefined
            && EndsAtPoint(w, d))
  {
    assert d !in v.nodes.vals;
  }
}
