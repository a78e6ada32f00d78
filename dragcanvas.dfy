/** The drag-canvas behaviour (src/components/Graph/behavior/dragCanvas.ts):
    pressing on the empty canvas and moving more than a few pixels pans the
    graph, unless a modifier key is held; the pan is cut on an axis when it
    would push the drawing out of reach of the view. */
module DragCanvasBehavior {
  import opened Model
  import opened G6
  import opened G6Graph

  /** The distance the pointer must travel before a drag starts. */
  const DRAG_OFFSET: int := 10

  /** The keys that, held down, leave the canvas to other behaviours. */
  const ALLOW_EVENTS: seq<string> := ["shift", "ctrl", "alt", "control"]

  /** A pointer event: the client position (None where `+e.clientX` or
      `+e.clientY` is NaN), whether it hit a shape, whether it is a touch
      start, and whether a mouse button is down (or no `window.event`
      exists). */
  datatype PointerEvent = PointerEvent(
    clientX: Option<int>,
    clientY: Option<int>,
    onShape: bool,
    touchStart: bool,
    buttonDown: bool)

  /** `graph.get('canvas').getCanvasBBox()`: where the drawing lies. */
  datatype BBox = BBox(minX: int, maxX: int, minY: int, maxY: int)

  /** The view: its size and how far past its edges the drawing may go. */
  datatype Viewport = Viewport(width: int, height: int, scalableRange: int)

  /** What updateViewport decides: the new origin and the translation. */
  datatype Pan = Pan(origin: Point, dx: int, dy: int)

  function Abs(x: int): nat
  {
    if x < 0 then -x else x
  }

  /** The pointer moved less than the drag offset from the origin
      (false when a coordinate is NaN, as every comparison with NaN is). */
  predicate WithinOffset(origin: Point, e: PointerEvent)
  {
    e.clientX.Some? && e.clientY.Some?
    && Abs(origin.x - e.clientX.value) + Abs(origin.y - e.clientY.value) < DRAG_OFFSET
  }

  /** A move along one axis is cut when it would take the drawing's near
      edge past the far side of the view, or its far edge past the near
      side (each widened by the scalable range). */
  function Clamped(d: int, lo: int, hi: int, size: int, range: int): int
  {
    if (lo <= size + range && lo + d > size + range) || (hi + range >= 0 && hi + range + d < 0) then 0
    else d
  }

  /** updateViewport for a pointer at `c`: the delta from the origin, kept
      to one axis by `direction`, cut per axis by the bounds, and the
      pointer as the next origin. */
  function PanOf(origin: Point, c: Point, direction: string, box: BBox, view: Viewport): Pan
  {
    var dx := if direction == "y" then 0 else c.x - origin.x;
    var dy := if direction == "x" then 0 else c.y - origin.y;
    Pan(c,
        Clamped(dx, box.minX, box.maxX, view.width, view.scalableRange),
        Clamped(dy, box.minY, box.maxY, view.height, view.scalableRange))
  }

  /** The drawing is within reach of the view on both axes. */
  predicate InReach(box: BBox, view: Viewport)
  {
    && box.minX <= view.width + view.scalableRange && box.maxX + view.scalableRange >= 0
    && box.minY <= view.height + view.scalableRange && box.maxY + view.scalableRange >= 0
  }

  function Shifted(box: BBox, dx: int, dy: int): BBox
  {
    BBox(box.minX + dx, box.maxX + dx, box.minY + dy, box.maxY + dy)
  }

  /** A pan never takes a drawing that is within reach out of reach. */
  lemma PanKeepsInReach(origin: Point, c: Point, direction: string, box: BBox, view: Viewport)
    requires InReach(box, view)
    ensures var p := PanOf(origin, c, direction, box, view);
      InReach(Shifted(box, p.dx, p.dy), view)
  {
  }

  /** An uncut pan follows the pointer exactly on the axes `direction`
      allows, and never moves along the other one. */
  lemma PanFollowsPointer(origin: Point, c: Point, direction: string, box: BBox, view: Viewport)
    ensures var p := PanOf(origin, c, direction, box, view);
      && p.origin == c
      && (direction == "x" ==> p.dy == 0)
      && (direction == "y" ==> p.dx == 0)
      && (p.dx == 0 || p.dx == c.x - origin.x)
      && (p.dy == 0 || p.dy == c.y - origin.y)
  {
  }

  /** Deep inside the view's reach, the pan is the pointer's movement. */
  lemma PanUncut(origin: Point, c: Point, box: BBox, view: Viewport)
    requires box.maxX + view.scalableRange + (c.x - origin.x) >= 0
    requires box.minX + (c.x - origin.x) <= view.width + view.scalableRange
    requires box.maxY + view.scalableRange + (c.y - origin.y) >= 0
    requires box.minY + (c.y - origin.y) <= view.height + view.scalableRange
    ensures PanOf(origin, c, "both", box, view) == Pan(c, c.x - origin.x, c.y - origin.y)
  {
  }

  /** The lower-case form of an ASCII string. */
  function ToLower(s: string): (r: string)
    ensures |r| == |s|
  {
    if s == [] then []
    else
      var c := s[0];
      [if 'A' <= c <= 'Z' then (c as int + 32) as char else c] + ToLower(s[1..])
  }

  /** Lowering replaces each ASCII capital by its small letter and keeps
      every other character in place. */
  lemma {:induction false} ToLowerMeaning(s: string)
    ensures forall i :: 0 <= i < |s| ==>
      ToLower(s)[i] == if 'A' <= s[i] <= 'Z' then (s[i] as int + 32) as char else s[i]
    decreases |s|
  {
    if s != [] {
      ToLowerMeaning(s[1..]);
      assert forall i :: 0 < i < |s| ==> s[1..][i - 1] == s[i];
    }
  }

  /** The key pressed is one of the modifiers the behaviour gives way to. */
  predicate IsAllowKey(key: string)
  {
    ToLower(key) in ALLOW_EVENTS
  }

  class DragCanvas {
    const direction: string
    const enableOptimize: bool
    const view: Viewport
    const shouldBegin: PointerEvent -> bool
    const shouldUpdate: PointerEvent -> bool
    const shouldEnd: PointerEvent -> bool
    var origin: Option<Point>
    var dragging: bool
    var dragbegin: bool
    var keydown: bool

    /** A drag is always measured from an origin. */
    predicate Valid()
      reads this
    {
      dragging ==> origin.Some?
    }

    /** getDefaultCfg, with G6's default hooks that always agree. */
    constructor (width: int, height: int)
      ensures Valid() && direction == "both" && !enableOptimize && view == Viewport(width, height, 0)
      ensures origin.None? && !dragging && !dragbegin && !keydown
      ensures forall e :: shouldBegin(e) && shouldUpdate(e) && shouldEnd(e)
    {
      direction := "both";
      enableOptimize := false;
      view := Viewport(width, height, 0);
      shouldBegin := _ => true;
      shouldUpdate := _ => true;
      shouldEnd := _ => true;
      origin := None;
      dragging := false;
      dragbegin := false;
      keydown := false;
    }

    /** The behaviour as an editor installs it: the options it passes
        replace the defaults, as the Flow and Mind editors do with their
        own `shouldBegin` and `shouldUpdate`. */
    constructor Configured(width: int, height: int, direction: string, enableOptimize: bool,
                           shouldBegin: PointerEvent -> bool, shouldUpdate: PointerEvent -> bool,
                           shouldEnd: PointerEvent -> bool)
      ensures Valid() && this.direction == direction && this.enableOptimize == enableOptimize
      ensures view == Viewport(width, height, 0)
      ensures this.shouldBegin == shouldBegin && this.shouldUpdate == shouldUpdate && this.shouldEnd == shouldEnd
      ensures origin.None? && !dragging && !dragbegin && !keydown
    {
      this.direction := direction;
      this.enableOptimize := enableOptimize;
      view := Viewport(width, height, 0);
      this.shouldBegin := shouldBegin;
      this.shouldUpdate := shouldUpdate;
      this.shouldEnd := shouldEnd;
      origin := None;
      dragging := false;
      dragbegin := false;
      keydown := false;
    }

    /** updateViewport: pan by the pointer's movement from the origin,
        unless a coordinate is NaN. */
    method UpdateViewport(g: Graph, e: PointerEvent, box: BBox)
      requires origin.Some?
      modifies g, this`origin
      ensures e.clientX.None? || e.clientY.None? ==> g.View() == old(g.View()) && origin == old(origin)
      ensures e.clientX.Some? && e.clientY.Some? ==>
        var p := PanOf(old(origin).value, Point(e.clientX.value, e.clientY.value), direction, box, view);
        origin == Some(p.origin) && g.View() == Translate(old(g.View()), p.dx, p.dy)
    {
      if e.clientX.None? || e.clientY.None? {
        return;
      }
      var c := Point(e.clientX.value, e.clientY.value);
      var dx := c.x - origin.value.x;
      var dy := c.y - origin.value.y;
      if direction == "x" {
        dy := 0;
      } else if direction == "y" {
        dx := 0;
      }
      origin := Some(c);
      if (box.minX <= view.width + view.scalableRange && box.minX + dx > view.width + view.scalableRange)
         || (box.maxX + view.scalableRange >= 0 && box.maxX + view.scalableRange + dx < 0) {
        dx := 0;
      }
      if (box.minY <= view.height + view.scalableRange && box.minY + dy > view.height + view.scalableRange)
         || (box.maxY + view.scalableRange >= 0 && box.maxY + view.scalableRange + dy < 0) {
        dy := 0;
      }
      g.Translate(dx, dy);
    }

    /** mousedown, dragstart and touchstart: remember where the press was. */
    method OnMouseDown(e: PointerEvent)
      requires e.clientX.Some? && e.clientY.Some?
      modifies this`origin, this`dragging
      ensures (!e.touchStart && !e.buttonDown) || keydown || e.onShape ==>
        origin == old(origin) && dragging == old(dragging)
      ensures !((!e.touchStart && !e.buttonDown) || keydown || e.onShape) ==>
        origin == Some(Point(e.clientX.value, e.clientY.value)) && !dragging
      ensures old(Valid()) ==> Valid()
    {
      if !e.touchStart && !e.buttonDown {
        return;
      }
      if keydown || e.onShape {
        return;
      }
      origin := Some(Point(e.clientX.value, e.clientY.value));
      dragging := false;
    }

    /** drag, touchmove and mousemove: start the drag once the pointer is
        far enough, then pan. */
    method OnMouseMove(g: Graph, e: PointerEvent, box: BBox)
      requires Valid()
      modifies g, this`origin, this`dragging
      ensures Valid()
      ensures keydown || e.onShape || old(origin).None? || (!old(dragging) && WithinOffset(old(origin).value, e)) ==>
        g.View() == old(g.View()) && origin == old(origin) && dragging == old(dragging)
      ensures !(keydown || e.onShape || old(origin).None? || (!old(dragging) && WithinOffset(old(origin).value, e))) ==>
        var ev := if old(dragging) then CanvasDrag else CanvasDragStart;
        var started := old(dragging) || shouldBegin(e);
        var emitted := if started then Emit(old(g.View()), ev) else old(g.View());
        && dragging == started
        && (shouldUpdate(e) && e.clientX.Some? && e.clientY.Some? ==>
              var p := PanOf(old(origin).value, Point(e.clientX.value, e.clientY.value), direction, box, view);
              origin == Some(p.origin) && g.View() == Translate(emitted, p.dx, p.dy))
        && (!(shouldUpdate(e) && e.clientX.Some? && e.clientY.Some?) ==>
              origin == old(origin) && g.View() == emitted)
    {
      if keydown || e.onShape {
        return;
      }
      if origin.None? {
        return;
      }
      if !dragging {
        if WithinOffset(origin.value, e) {
          return;
        }
        if shouldBegin(e) {
          g.Emit(CanvasDragStart);
          dragging := true;
        }
      } else {
        g.Emit(CanvasDrag);
      }
      if shouldUpdate(e) {
        UpdateViewport(g, e, box);
      }
    }

    /** dragend, mouseup, touchend and canvas click: a press that never
        became a drag is forgotten; a drag pans a last time and ends. */
    method OnMouseUp(g: Graph, e: PointerEvent, box: BBox)
      requires Valid()
      modifies g, this`origin, this`dragging, this`dragbegin
      ensures Valid()
      ensures keydown || e.onShape ==>
        g.View() == old(g.View()) && origin == old(origin) && dragging == old(dragging)
      ensures !(keydown || e.onShape) && !old(dragging) ==>
        g.View() == old(g.View()) && origin.None? && !dragging
      ensures !(keydown || e.onShape) && old(dragging) ==>
        && origin.None? && !dragging && !dragbegin
        && (shouldEnd(e) && e.clientX.Some? && e.clientY.Some? ==>
              var p := PanOf(old(origin).value, Point(e.clientX.value, e.clientY.value), direction, box, view);
              g.View() == Emit(Translate(old(g.View()), p.dx, p.dy), CanvasDragEnd))
        && (!(shouldEnd(e) && e.clientX.Some? && e.clientY.Some?) ==>
              g.View() == Emit(old(g.View()), CanvasDragEnd))
    {
      if keydown || e.onShape {
        return;
      }
      if !dragging {
        origin := None;
        return;
      }
      if shouldEnd(e) {
        UpdateViewport(g, e, box);
      }
      g.Emit(CanvasDragEnd);
      EndDrag();
    }

    /** endDrag. */
    method EndDrag()
      modifies this`origin, this`dragging, this`dragbegin
      ensures origin.None? && !dragging && !dragbegin
    {
      origin := None;
      dragging := false;
      dragbegin := false;
    }

    /** keydown: a modifier key hands the canvas over; any other key takes
        it back; a key event without a key changes nothing. */
    method OnKeyDown(key: string)
      modifies this`keydown
      ensures key == [] ==> keydown == old(keydown)
      ensures key != [] ==> (keydown <==> IsAllowKey(key))
    {
      if key == [] {
        return;
      }
      if ToLower(key) in ALLOW_EVENTS {
        keydown := true;
      } else {
        keydown := false;
      }
    }

    /** keyup and focus: everything starts over. */
    method OnKeyUp()
      modifies this`keydown, this`origin, this`dragging, this`dragbegin
      ensures !keydown && origin.None? && !dragging && !dragbegin && Valid()
    {
      keydown := false;
      EndDrag();
    }
  }

  /** Shift, in any case, is a modifier; a letter key is not. */
  lemma AllowKeys()
    ensures IsAllowKey("Shift") && IsAllowKey("Control") && IsAllowKey("ALT")
    ensures !IsAllowKey("a") && !IsAllowKey("Meta")
  {
    ModifiersAllowed();
    OthersRefused();
  }

  /** Shift, control and alt are allowed in any case. */
  lemma ModifiersAllowed()
    ensures IsAllowKey("Shift") && IsAllowKey("Control") && IsAllowKey("ALT")
  {
    assert ToLower("Shift") == "shift";
    assert ToLower("Control") == "control";
    assert ToLower("ALT") == "alt";
  }

  /** A letter key and the meta key are not. */
  lemma OthersRefused()
    ensures !IsAllowKey("a") && !IsAllowKey("Meta")
  {
    assert ToLower("a") == "a";
    assert ToLower("Meta") == "meta";
  }
}
