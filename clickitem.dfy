/** The click-item behaviour (src/components/Graph/behavior/clickItem.ts):
    a click on an item selects it alone, or toggles it while the multiple
    selection key is held; a click on the canvas clears the selection. */
module ClickItemBehavior {
  import opened Model
  import opened G6
  import opened G6Graph
  import opened Utils

  /** The key that turns a click into a toggle: shift. */
  const SHIFT_KEY_CODE: int := 16

  /** A keyboard event: `e.keyCode || e.which`, where 0 stands for a
      missing code. */
  function PressedCode(keyCode: int, which: int): int
  {
    if keyCode != 0 then keyCode else which
  }

  /** `isMind(graph) && isEdge(item)`: the mind map ignores edge clicks. */
  predicate Ignored(v: GraphValue, id: Id)
  {
    v.kind == Mind && TypeOf(v, id) == Some(Edge)
  }

  /** The graph after a click on the item `id` over a shape that is a tag
      (`tag`) or not, at (x, y); `toggle` is `multiple && keydown`. */
  function ItemClicked(v: GraphValue, id: Id, tag: bool, x: int, y: int, toggle: bool): GraphValue
  {
    if Ignored(v, id) then v
    else
      var b := ClickApplied(v, id, tag, x, y, toggle);
      Emit(b, GraphStateChange(GetGraphState(b)))
  }

  /** The click's selection change, its first event and the edge's move to
      the front, before the graph state is reported. */
  function ClickApplied(v: GraphValue, id: Id, tag: bool, x: int, y: int, toggle: bool): GraphValue
  {
    var selected := (id, SELECTED) in v.states;
    var a :=
      if toggle then Emit(SetItemState(v, id, SELECTED, !selected), UndefinedEvent)
      else
        var c := ClearSelected(v, other => other != id);
        if tag then Emit(c, ClickTag(id, x, y))
        else Emit(if selected then c else SetItemState(c, id, SELECTED, true), ShowActionMenu(Some(id)));
    if TypeOf(v, id) == Some(Edge) then ToFront(a, id) else a
  }

  /** The graph after a click on the canvas. */
  function CanvasClicked(v: GraphValue): GraphValue
  {
    Emit(ClearSelected(v, Everything), GraphStateChange(CanvasSelected))
  }

  /** Moving an item to the front keeps the graph valid and its states. */
  lemma ToFrontKeeps(v: GraphValue, id: Id)
    requires Valid(v)
    ensures Valid(ToFront(v, id)) && ToFront(v, id).states == v.states
    ensures AllIds(ToFront(v, id)) == AllIds(v) && TypeOf(ToFront(v, id), id) == TypeOf(v, id)
  {
    if id in v.stack {
      assert Elems(ToFront(v, id).stack) == Elems(v.stack) by {
        ElemsConcat(Without(v.stack, {id}), [id]);
      }
    }
  }

  /** The state a click reports is the state of the graph it leaves. */
  lemma ReportedStateIsFinal(v: GraphValue, id: Id, tag: bool, x: int, y: int, toggle: bool)
    requires !Ignored(v, id)
    ensures var r := ItemClicked(v, id, tag, x, y, toggle);
      |r.events| > 0 && r.events[|r.events| - 1] == GraphStateChange(GetGraphState(r))
  {
  }

  /** Emitting an event changes no item's selection. */
  lemma EmitKeepsSelection(b: GraphValue, e: Event)
    ensures forall o :: IsSelected(Emit(b, e), o) <==> IsSelected(b, o)
    ensures Emit(b, e).events == b.events + [e]
  {
  }

  /** With the multiple-selection key held, a click flips the item's
      selection and leaves every other item's as it was; it then emits the
      portal event, which names no member of the event enumeration. */
  lemma ToggleFlips(v: GraphValue, id: Id, tag: bool, x: int, y: int)
    requires Valid(v) && id in AllIds(v) && !Ignored(v, id)
    ensures var r := ItemClicked(v, id, tag, x, y, true);
      && (IsSelected(r, id) <==> !IsSelected(v, id))
      && (forall o :: o != id ==> (IsSelected(r, o) <==> IsSelected(v, o)))
      && |r.events| > |v.events| && r.events[..|v.events| + 1] == v.events + [UndefinedEvent]
  {
    var b := ClickApplied(v, id, tag, x, y, true);
    ToggleApplied(v, id, tag, x, y);
    EmitKeepsSelection(b, GraphStateChange(GetGraphState(b)));
    assert (b.events + [GraphStateChange(GetGraphState(b))])[..|v.events| + 1] == b.events;
  }

  lemma ToggleApplied(v: GraphValue, id: Id, tag: bool, x: int, y: int)
    requires Valid(v) && id in AllIds(v)
    ensures var b := ClickApplied(v, id, tag, x, y, true);
      && (IsSelected(b, id) <==> !IsSelected(v, id))
      && (forall o :: o != id ==> (IsSelected(b, o) <==> IsSelected(v, o)))
      && b.events == v.events + [UndefinedEvent]
  {
    var selected := (id, SELECTED) in v.states;
    ToFrontKeeps(Emit(SetItemState(v, id, SELECTED, !selected), UndefinedEvent), id);
  }

  /** Without it, a click on an item that is not a tag selects that item
      alone, opens the action menu, and reports the item's own type. */
  lemma SingleClickSelectsOnly(v: GraphValue, id: Id, x: int, y: int)
    requires Valid(v) && id in AllIds(v) && !Ignored(v, id)
    ensures var r := ItemClicked(v, id, false, x, y, false);
      && (forall o :: IsSelected(r, o) <==> o == id)
      && r.events == v.events + [ShowActionMenu(Some(id)), GraphStateChange(StateOfType(TypeOf(v, id).value))]
  {
    var b := ClickApplied(v, id, false, x, y, false);
    SingleClickApplied(v, id, x, y);
    GraphStateOfOne(b, id);
    EmitKeepsSelection(b, GraphStateChange(GetGraphState(b)));
  }

  lemma SingleClickApplied(v: GraphValue, id: Id, x: int, y: int)
    requires Valid(v) && id in AllIds(v)
    ensures var b := ClickApplied(v, id, false, x, y, false);
      && Valid(b) && TypeOf(b, id) == TypeOf(v, id)
      && (forall o :: IsSelected(b, o) <==> o == id)
      && b.events == v.events + [ShowActionMenu(Some(id))]
  {
    var c := ClearSelected(v, other => other != id);
    var s := if (id, SELECTED) in v.states then c else SetItemState(c, id, SELECTED, true);
    SelectsOnly(v, id);
    SameItemsAgree(v, s);
    var a := Emit(s, ShowActionMenu(Some(id)));
    ToFrontKeeps(a, id);
  }

  /** Clearing the other items and selecting this one leaves it selected
      alone. */
  lemma SelectsOnly(v: GraphValue, id: Id)
    requires Valid(v) && id in AllIds(v)
    ensures var c := ClearSelected(v, other => other != id);
      var s := if (id, SELECTED) in v.states then c else SetItemState(c, id, SELECTED, true);
      && SameItems(s, v)
      && s.events == v.events
      && (forall o :: IsSelected(s, o) <==> o == id)
  {
    ClearSelectedEffect(v, other => other != id);
  }

  /** A click on a tag keeps only the item's own selection, and selects
      nothing new: the tag event replaces the action menu. */
  lemma TagClickKeeps(v: GraphValue, id: Id, x: int, y: int)
    requires Valid(v) && id in AllIds(v) && !Ignored(v, id)
    ensures var r := ItemClicked(v, id, true, x, y, false);
      && (forall o :: IsSelected(r, o) <==> o == id && IsSelected(v, id))
      && r.events[..|v.events| + 1] == v.events + [ClickTag(id, x, y)]
  {
    var b := ClickApplied(v, id, true, x, y, false);
    TagApplied(v, id, x, y);
    EmitKeepsSelection(b, GraphStateChange(GetGraphState(b)));
    assert (b.events + [GraphStateChange(GetGraphState(b))])[..|v.events| + 1] == b.events;
  }

  lemma TagApplied(v: GraphValue, id: Id, x: int, y: int)
    requires Valid(v) && id in AllIds(v)
    ensures var b := ClickApplied(v, id, true, x, y, false);
      && (forall o :: IsSelected(b, o) <==> o == id && IsSelected(v, id))
      && b.events == v.events + [ClickTag(id, x, y)]
  {
    var c := ClearSelected(v, other => other != id);
    ClearSelectedEffect(v, other => other != id);
    ToFrontKeeps(Emit(c, ClickTag(id, x, y)), id);
  }

  /** A canvas click deselects every item, and the state it reports is the
      one the graph is then in. */
  lemma CanvasClickClears(v: GraphValue)
    requires Valid(v)
    ensures var r := CanvasClicked(v);
      && (forall o :: !IsSelected(r, o))
      && r.events == v.events + [GraphStateChange(GetGraphState(r))]
  {
    ClearSelectedEffect(v, Everything);
    var c := ClearSelected(v, Everything);
    NoSelectionReported(c);
    EmitKeepsSelection(c, GraphStateChange(CanvasSelected));
  }

  /** With no item selected, getGraphState reports the canvas. */
  lemma NoSelectionReported(v: GraphValue)
    requires Valid(v) && forall o :: !IsSelected(v, o)
    ensures GetGraphState(v) == CanvasSelected
  {
    forall o | o in v.nodes.keys || o in v.edges.keys || o in v.combos.keys
      ensures (o, SELECTED) !in v.states
    {
      assert o in Elems(v.nodes.keys) || o in Elems(v.edges.keys) || o in Elems(v.combos.keys);
      assert !IsSelected(v, o);
    }
    NoneWithState(v.nodes.keys, v.states, SELECTED);
    NoneWithState(v.edges.keys, v.states, SELECTED);
    NoneWithState(v.combos.keys, v.states, SELECTED);
  }

  /** Ids none of which carries a state give no ids with it. */
  lemma {:induction false} NoneWithState(ids: seq<Id>, states: set<(Id, string)>, name: string)
    requires forall o :: o in ids ==> (o, name) !in states
    ensures WithState(ids, states, name) == []
    decreases |ids|
  {
    if ids != [] {
      assert forall o :: o in ids[..|ids| - 1] ==> o in ids;
      NoneWithState(ids[..|ids| - 1], states, name);
    }
  }

  class ClickItem {
    const multiple: bool
    const keyCode: int
    var keydown: bool

    /** getDefaultCfg: multiple selection on, with shift. */
    constructor ()
      ensures multiple && keyCode == SHIFT_KEY_CODE && !keydown
    {
      multiple := true;
      keyCode := SHIFT_KEY_CODE;
      keydown := false;
    }

    /** The behaviour as an editor installs it: the Mind editor passes
        `multiple: false`, which turns multiple selection off. */
    constructor Configured(multiple: bool, keyCode: int)
      ensures this.multiple == multiple && this.keyCode == keyCode && !keydown
    {
      this.multiple := multiple;
      this.keyCode := keyCode;
      keydown := false;
    }

    /** node:click, edge:click and combo:click. */
    method HandleItemClick(g: Graph, item: Id, tag: bool, x: int, y: int)
      modifies g
      ensures g.View() == ItemClicked(old(g.View()), item, tag, x, y, multiple && keydown)
    {
      var v := g.View();
      if Ignored(v, item) {
        return;
      }
      var isSelected := (item, SELECTED) in g.states;
      if multiple && keydown {
        g.SetItemState(item, SELECTED, !isSelected);
        g.Emit(UndefinedEvent);
      } else {
        ClearSelectedState(g, other => other != item);
        if tag {
          g.Emit(ClickTag(item, x, y));
        } else {
          if !isSelected {
            g.SetItemState(item, SELECTED, true);
          }
          g.Emit(ShowActionMenu(Some(item)));
        }
      }
      if TypeOf(v, item) == Some(Edge) {
        g.ToFront(item);
      }
      g.Emit(GraphStateChange(GetGraphState(g.View())));
    }

    /** canvas:click. */
    method HandleCanvasClick(g: Graph)
      modifies g
      ensures g.View() == CanvasClicked(old(g.View()))
    {
      ClearSelectedState(g, Everything);
      g.Emit(GraphStateChange(CanvasSelected));
    }

    /** keydown: the toggle key is held exactly when the pressed key is it. */
    method HandleKeyDown(code: int, which: int)
      modifies this`keydown
      ensures keydown <==> PressedCode(code, which) == keyCode
    {
      keydown := PressedCode(code, which) == keyCode;
    }

    /** keyup: any key released ends the toggle. */
    method HandleKeyUp()
      modifies this`keydown
      ensures !keydown
    {
      keydown := false;
    }
  }
}
