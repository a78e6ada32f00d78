/** The anchor points of a flow node (src/shape/common/anchor.ts): the
    shapes a node's group holds for its anchors, drawn and removed as the
    node's `activeAnchorPoints` state turns on and off, and restyled one by
    one by its `activeAnchor<i>` states. */
module AnchorShapes {
  import opened Model
  import opened Gestures

  // ----------------------------------------------------------- JS strings

  function DigitChar(d: nat): char
    requires d < 10
  {
    "0123456789"[d]
  }

  /** `String(n)` of a natural number: its decimal digits. */
  function NatText(n: nat): (r: string)
    ensures |r| >= 1
    decreases n
  {
    if n < 10 then [DigitChar(n)] else NatText(n / 10) + [DigitChar(n % 10)]
  }

  /** `String(n)` of an integer. */
  function IntText(n: int): string
  {
    if n < 0 then "-" + NatText(-n) else NatText(n)
  }

  /** `'' + x`: how a value reads when concatenated to a string. */
  function ValueText(x: Value): string
  {
    match x
    case Str(s) => s
    case Num(n) => IntText(n)
    case Bool(b) => if b then "true" else "false"
    case Pt(_) => "[object Object]"
    case Undefined => "undefined"
    case NaN => "NaN"
  }

  /** `name.slice(0, -1)`. */
  function DropLast(s: string): string
  {
    if s == [] then [] else s[..|s| - 1]
  }

  /** `name.slice(-1)`. */
  function LastChar(s: string): string
  {
    if s == [] then [] else [s[|s| - 1]]
  }

  /** A number's text is one character exactly below ten. */
  lemma NatTextLength(n: nat)
    ensures |NatText(n)| == 1 <==> n < 10
  {
  }

  /** Different one-digit numbers have different texts. */
  lemma DigitCharInjective(a: nat, b: nat)
    requires a < 10 && b < 10
    ensures DigitChar(a) == DigitChar(b) <==> a == b
  {
  }

  // ---------------------------------------------------------- node groups

  /** A shape of a node's group, with the style the anchor code last gave it
      (`Active` or `Default` after `activeAnchorPoint`, None as drawn). */
  datatype GroupShape = GroupShape(shape: Shape, look: Option<AnchorPointState>)

  const ANCHOR_CLASS_PREFIX: string := "anchor"

  /** The class name of the anchor with the given index: `anchor${index}`. */
  function AnchorClass(i: nat): string
  {
    ANCHOR_CLASS_PREFIX + NatText(i)
  }

  /** The shape drawAnchorPoints adds for anchor `i`: Enabled exactly when
      the node's `anchorPointsState[i]` is Enabled, Disabled otherwise
      (a missing entry included). */
  function AnchorShapeAt(i: nat, states: seq<AnchorPointState>): GroupShape
  {
    var enabled := i < |states| && states[i] == Enabled;
    GroupShape(Shape(ANCHOR_POINT_NAME, AnchorClass(i), true, Num(i),
                     Some(if enabled then Enabled else Disabled), false),
               None)
  }

  /** The shapes drawAnchorPoints adds, one per anchor point, in order. */
  function DrawnAnchors(count: nat, states: seq<AnchorPointState>): (r: seq<GroupShape>)
    ensures |r| == count
    ensures forall i :: 0 <= i < count ==> r[i] == AnchorShapeAt(i, states)
  {
    seq(count, i requires 0 <= i => AnchorShapeAt(i, states))
  }

  predicate IsAnchorShape(s: GroupShape)
  {
    s.shape.name == ANCHOR_POINT_NAME
  }

  predicate KeptByRemoval(s: GroupShape)
  {
    !IsAnchorShape(s)
  }

  /** The group after removeAnchorPoints: every shape named `anchorPoint`
      is gone, the others keep their order. */
  function WithoutAnchors(shapes: seq<GroupShape>): seq<GroupShape>
  {
    Filter(shapes, KeptByRemoval)
  }

  /** The position of the first shape whose class name is `c`
      (`group.findByClassName(c)`), None when there is none. */
  function FirstOfClass(shapes: seq<GroupShape>, c: string): (r: Option<nat>)
    ensures r.Some? ==>
      && r.value < |shapes| && shapes[r.value].shape.className == c
      && forall j :: 0 <= j < r.value ==> shapes[j].shape.className != c
    ensures r.None? ==> forall j :: 0 <= j < |shapes| ==> shapes[j].shape.className != c
    decreases |shapes|
  {
    if shapes == [] then None
    else if shapes[0].shape.className == c then Some(0)
    else
      var rest := FirstOfClass(shapes[1..], c);
      if rest.Some? then Some(rest.value + 1) else None
  }

  /** The group after activeAnchorPoint(name, value): the first shape of
      class `anchor` + the name's last character is restyled Active or
      Default; a group without it is left alone. */
  function Activated(shapes: seq<GroupShape>, name: string, value: bool): seq<GroupShape>
  {
    var k := FirstOfClass(shapes, ANCHOR_CLASS_PREFIX + LastChar(name));
    if k.None? then shapes
    else shapes[k.value := shapes[k.value].(look := Some(if value then Active else Default))]
  }

  /** Which branch setAnchorPointsState takes for a state name. */
  datatype Dispatch = NotAnchorState | ActivateOne | DrawAll | RemoveAll

  function DispatchOf(name: string, value: bool): Dispatch
  {
    if name != ACTIVE_ANCHOR_POINTS && DropLast(name) != ACTIVE_ANCHOR then NotAnchorState
    else if DropLast(name) == ACTIVE_ANCHOR then ActivateOne
    else if value then DrawAll
    else RemoveAll
  }

  /** The group after setAnchorPointsState(name, value) on a node with
      `count` anchor points and anchor states `states`. */
  function AnchorStateSet(shapes: seq<GroupShape>, name: string, value: bool, count: nat,
                          states: seq<AnchorPointState>): seq<GroupShape>
  {
    match DispatchOf(name, value)
    case NotAnchorState => shapes
    case ActivateOne => Activated(shapes, name, value)
    case DrawAll => shapes + DrawnAnchors(count, states)
    case RemoveAll => WithoutAnchors(shapes)
  }

  /** The state names of the anchor code are exactly `activeAnchorPoints`
      and `activeAnchor` followed by one character. */
  lemma DispatchNames(name: string, value: bool)
    ensures DispatchOf(name, value) == NotAnchorState <==>
      name != ACTIVE_ANCHOR_POINTS && !(|name| == |ACTIVE_ANCHOR| + 1 && name[..|ACTIVE_ANCHOR|] == ACTIVE_ANCHOR)
    ensures DispatchOf(name, value) == ActivateOne <==>
      |name| == |ACTIVE_ANCHOR| + 1 && name[..|ACTIVE_ANCHOR|] == ACTIVE_ANCHOR
  {
    if |name| == |ACTIVE_ANCHOR| + 1 && name[..|ACTIVE_ANCHOR|] == ACTIVE_ANCHOR {
      assert DropLast(name) == ACTIVE_ANCHOR;
    }
    if DropLast(name) == ACTIVE_ANCHOR {
      assert |name| == |ACTIVE_ANCHOR| + 1;
      assert name[..|ACTIVE_ANCHOR|] == DropLast(name);
    }
  }

  /** Drawn anchors are the only shapes removal takes away: removing after
      drawing gives what removing alone gives, and a group without anchors
      gets back exactly its shapes. */
  lemma {:induction false} RemoveAfterDraw(shapes: seq<GroupShape>, count: nat, states: seq<AnchorPointState>)
    ensures WithoutAnchors(shapes + DrawnAnchors(count, states)) == WithoutAnchors(shapes)
    decreases count
  {
    if count > 0 {
      var d := DrawnAnchors(count, states);
      var d' := DrawnAnchors(count - 1, states);
      assert d == d' + [d[count - 1]];
      var all := shapes + d;
      assert all[..|all| - 1] == shapes + d';
      assert all[|all| - 1] == d[count - 1];
      RemoveAfterDraw(shapes, count - 1, states);
    } else {
      assert shapes + DrawnAnchors(count, states) == shapes;
    }
  }

  /** Removal keeps a group without anchor shapes as it is. */
  lemma {:induction false} RemoveNoAnchors(shapes: seq<GroupShape>)
    requires forall s :: s in shapes ==> !IsAnchorShape(s)
    ensures WithoutAnchors(shapes) == shapes
    decreases |shapes|
  {
    if shapes != [] {
      var init := shapes[..|shapes| - 1];
      assert forall s :: s in init ==> s in shapes;
      RemoveNoAnchors(init);
      assert shapes[|shapes| - 1] in shapes;
      LastSplit(shapes);
    }
  }

  /** Showing then hiding the anchors of a node whose group holds no
      anchors gives the group back. */
  lemma ShowHideRoundTrip(shapes: seq<GroupShape>, count: nat, states: seq<AnchorPointState>)
    requires forall s :: s in shapes ==> !IsAnchorShape(s)
    ensures var shown := AnchorStateSet(shapes, ACTIVE_ANCHOR_POINTS, true, count, states);
      AnchorStateSet(shown, ACTIVE_ANCHOR_POINTS, false, count, states) == shapes
  {
    RemoveAfterDraw(shapes, count, states);
    RemoveNoAnchors(shapes);
  }

  /** Among freshly drawn anchors, the class of anchor `n < 10` names
      anchor `n` and no other. */
  lemma DrawnClassUnique(count: nat, states: seq<AnchorPointState>, n: nat)
    requires n < count && n < 10
    ensures FirstOfClass(DrawnAnchors(count, states), AnchorClass(n)) == Some(n)
  {
    var d := DrawnAnchors(count, states);
    var r := FirstOfClass(d, AnchorClass(n));
    assert d[n].shape.className == AnchorClass(n);
    if r.Some? && r.value != n {
      var k := r.value;
      assert k < n;
      assert NatText(k) == NatText(n) by {
        assert AnchorClass(k) == AnchorClass(n);
        assert AnchorClass(k)[|ANCHOR_CLASS_PREFIX|..] == NatText(k);
      }
      DigitCharInjective(k, n);
      assert false;
    }
  }

  /** The group of a node (`item.getContainer()`), whose children the
      anchor code adds, finds, restyles and removes. */
  class NodeGroup {
    var shapes: seq<GroupShape>

    constructor (initial: seq<GroupShape>)
      ensures shapes == initial
    {
      shapes := initial;
    }

    /** `group.findByClassName(c)`: a scan for the first child of class `c`. */
    method FindByClassName(c: string) returns (k: Option<nat>)
      ensures k == FirstOfClass(shapes, c)
    {
      var i := 0;
      while i < |shapes|
        invariant 0 <= i <= |shapes|
        invariant forall j :: 0 <= j < i ==> shapes[j].shape.className != c
      {
        if shapes[i].shape.className == c {
          return Some(i);
        }
        i := i + 1;
      }
      return None;
    }

    /** activeAnchorPoint: restyle the anchor named by the state's last
        character. */
    method ActiveAnchorPoint(name: string, value: bool)
      modifies this
      ensures shapes == Activated(old(shapes), name, value)
    {
      var k := FindByClassName(ANCHOR_CLASS_PREFIX + LastChar(name));
      if k.Some? {
        shapes := shapes[k.value := shapes[k.value].(look := Some(if value then Active else Default))];
      }
    }

    /** drawAnchorPoints: one shape per anchor point, in index order. */
    method DrawAnchorPoints(count: nat, states: seq<AnchorPointState>)
      modifies this
      ensures shapes == old(shapes) + DrawnAnchors(count, states)
    {
      var i := 0;
      while i < count
        invariant 0 <= i <= count
        invariant shapes == old(shapes) + DrawnAnchors(i, states)
      {
        assert DrawnAnchors(i + 1, states) == DrawnAnchors(i, states) + [AnchorShapeAt(i, states)];
        shapes := shapes + [AnchorShapeAt(i, states)];
        i := i + 1;
      }
    }

    /** removeAnchorPoints: every child named `anchorPoint` is removed. */
    method RemoveAnchorPoints()
      modifies this
      ensures shapes == WithoutAnchors(old(shapes))
    {
      shapes := WithoutAnchors(shapes);
    }

    /** setAnchorPointsState: the shape callback of a node's state change. */
    method SetAnchorPointsState(name: string, value: bool, count: nat, states: seq<AnchorPointState>)
      modifies this
      ensures shapes == AnchorStateSet(old(shapes), name, value, count, states)
    {
      if name != ACTIVE_ANCHOR_POINTS && DropLast(name) != ACTIVE_ANCHOR {
        return;
      }
      if DropLast(name) == ACTIVE_ANCHOR {
        ActiveAnchorPoint(name, value);
      } else if value {
        DrawAnchorPoints(count, states);
      } else {
        RemoveAnchorPoints();
      }
    }
  }
}
