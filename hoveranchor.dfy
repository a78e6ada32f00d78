/** The hover-anchor behaviour of flow graphs
    (src/components/Flow/behavior/hoverAnchor.ts): hovering an anchor point
    turns the node's `activeAnchor<index>` state on, leaving turns it off;
    the node's shape then restyles that anchor (anchor.ts). */
module HoverAnchorBehavior {
  import opened Model
  import opened G6
  import opened G6Graph
  import opened Gestures
  import opened AnchorShapes

  /** shouldBegin: only anchor-point shapes start the behaviour. */
  predicate ShouldBegin(e: GraphEvent)
  {
    e.target.name == ANCHOR_POINT_NAME
  }

  /** `'activeAnchor' + target.cfg.anchorPointIndex`. */
  function HoverStateName(e: GraphEvent): string
  {
    ACTIVE_ANCHOR + ValueText(e.target.anchorPointIndex)
  }

  /** The graph after a mouseover (`on`) or mouseout (`!on`). */
  function Hovered(v: GraphValue, e: GraphEvent, on: bool): GraphValue
    requires Delivered(e)
  {
    if !ShouldBegin(e) then v else SetItemState(v, e.item.value, HoverStateName(e), on)
  }

  /** mouseover. */
  method OnEnterAnchor(g: Graph, e: GraphEvent)
    requires Delivered(e)
    modifies g
    ensures g.View() == Hovered(old(g.View()), e, true)
  {
    if !ShouldBegin(e) {
      return;
    }
    g.SetItemState(e.item.value, HoverStateName(e), true);
  }

  /** mouseout. */
  method OnLeaveAnchor(g: Graph, e: GraphEvent)
    requires Delivered(e)
    modifies g
    ensures g.View() == Hovered(old(g.View()), e, false)
  {
    if !ShouldBegin(e) {
      return;
    }
    g.SetItemState(e.item.value, HoverStateName(e), false);
  }

  /** Entering then leaving an anchor clears the state entering set, and
      only it: a node that did not have it gets its graph back. */
  lemma EnterLeaveRoundTrip(v: GraphValue, e: GraphEvent)
    requires Delivered(e) && ShouldBegin(e) && e.item.value in AllIds(v)
    ensures var w := Hovered(Hovered(v, e, true), e, false);
      && w.states == v.states - {(e.item.value, HoverStateName(e))}
      && ((e.item.value, HoverStateName(e)) !in v.states ==> w == v)
  {
    var key := (e.item.value, HoverStateName(e));
    if key !in v.states {
      assert v.states + {key} - {key} == v.states;
    }
  }

  /** The first character of a number's text is a digit. */
  lemma {:induction false} NatTextStartsWithDigit(n: nat)
    ensures exists d :: 0 <= d < 10 && NatText(n)[0] == DigitChar(d)
    decreases n
  {
    if n >= 10 {
      NatTextStartsWithDigit(n / 10);
      assert NatText(n)[0] == NatText(n / 10)[0];
    } else {
      assert NatText(n)[0] == DigitChar(n);
    }
  }

  /** Skipping a prefix without the class shifts the first match. */
  lemma {:induction false} FirstOfClassAfter(a: seq<GroupShape>, b: seq<GroupShape>, c: string)
    requires forall s :: s in a ==> s.shape.className != c
    ensures var r := FirstOfClass(b, c);
      FirstOfClass(a + b, c) == if r.Some? then Some(|a| + r.value) else None
    decreases |a|
  {
    if a != [] {
      assert (a + b)[1..] == a[1..] + b;
      assert forall s :: s in a[1..] ==> s in a;
      assert a[0] in a;
      FirstOfClassAfter(a[1..], b, c);
    } else {
      assert a + b == b;
    }
  }

  /** Hovering the drawn anchor `i` of a node, for `i` below ten, restyles
      that anchor's shape and nothing else of the node's group (the
      node's other shapes do not use that class). */
  lemma HoverRestylesAnchor(others: seq<GroupShape>, count: nat, states: seq<AnchorPointState>,
                            i: nat, node: Id, x: int, y: int, on: bool)
    requires i < count && i < 10
    requires forall s :: s in others ==> s.shape.className != AnchorClass(i)
    ensures var name := HoverStateName(GraphEvent(Some(node), AnchorShapeAt(i, states).shape, x, y));
      var group := others + DrawnAnchors(count, states);
      var k := |others| + i;
      AnchorStateSet(group, name, on, count, states)
      == group[k := group[k].(look := Some(if on then Active else Default))]
  {
    var name := HoverStateName(GraphEvent(Some(node), AnchorShapeAt(i, states).shape, x, y));
    assert name == ACTIVE_ANCHOR + NatText(i);
    assert DropLast(name) == ACTIVE_ANCHOR;
    assert LastChar(name) == NatText(i);
    DrawnClassUnique(count, states, i);
    FirstOfClassAfter(others, DrawnAnchors(count, states), AnchorClass(i));
  }

  /** From the eleventh anchor on, the hover state names more than one
      character after `activeAnchor`, so the shape ignores it and no
      anchor is restyled. */
  lemma HoverBeyondNineIgnored(group: seq<GroupShape>, count: nat, states: seq<AnchorPointState>,
                               i: nat, node: Id, x: int, y: int, on: bool)
    requires i >= 10
    ensures var name := HoverStateName(GraphEvent(Some(node), AnchorShapeAt(i, states).shape, x, y));
      AnchorStateSet(group, name, on, count, states) == group
  {
    var name := HoverStateName(GraphEvent(Some(node), AnchorShapeAt(i, states).shape, x, y));
    assert name == ACTIVE_ANCHOR + NatText(i);
    assert |NatText(i)| >= 2;
    assert DropLast(name) != ACTIVE_ANCHOR by {
      assert |DropLast(name)| > |ACTIVE_ANCHOR|;
    }
    NatTextStartsWithDigit(i);
    assert name[|ACTIVE_ANCHOR|] == NatText(i)[0];
    assert name != ACTIVE_ANCHOR_POINTS by {
      if |name| == |ACTIVE_ANCHOR_POINTS| {
        assert ACTIVE_ANCHOR_POINTS[|ACTIVE_ANCHOR|] == 'P';
      }
    }
  }
}
