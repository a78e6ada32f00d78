/** src/utils/index.ts: the helpers the commands and behaviours share. */
module Utils {
  import opened Model
  import opened G6
  import opened G6Graph

  // ---------------------------------------------------------------- batches

  /** The first half of executeBatch: auto-paint off. */
  function BatchOpened(v: GraphValue): GraphValue
  {
    v.(autoPaint := false)
  }

  /** The second half of executeBatch: one paint, then the saved switch back. */
  function BatchClosed(v: GraphValue, saved: bool): GraphValue
  {
    v.(paints := v.paints + 1, autoPaint := saved)
  }

  /** Whatever the callback did in between, executeBatch leaves auto-paint as
      it found it and paints exactly once more than the callback did. */
  lemma ExecuteBatchRestores(v: GraphValue, during: GraphValue)
    ensures BatchOpened(v).autoPaint == false
    ensures BatchClosed(during, v.autoPaint).autoPaint == v.autoPaint
    ensures BatchClosed(during, v.autoPaint).paints == during.paints + 1
    ensures BatchClosed(during, v.autoPaint).events == during.events
  {
  }

  method BeginBatch(g: Graph) returns (saved: bool)
    modifies g
    ensures saved == old(g.autoPaint)
    ensures g.View() == BatchOpened(old(g.View()))
  {
    saved := g.autoPaint;
    g.SetAutoPaint(false);
  }

  method EndBatch(g: Graph, saved: bool)
    modifies g
    ensures g.View() == BatchClosed(old(g.View()), saved)
  {
    g.Paint();
    g.SetAutoPaint(saved);
  }

  // -------------------------------------------------------------- selection

  function SelectedNodes(v: GraphValue): seq<Id>
  {
    FindAllByState(v, Node, SELECTED)
  }

  function SelectedEdges(v: GraphValue): seq<Id>
  {
    FindAllByState(v, Edge, SELECTED)
  }

  function SelectedCombos(v: GraphValue): seq<Id>
  {
    FindAllByState(v, Combo, SELECTED)
  }

  /** getSelectedItems: selected nodes, then edges, then combos. */
  function SelectedItems(v: GraphValue): seq<Id>
  {
    SelectedNodes(v) + SelectedEdges(v) + SelectedCombos(v)
  }

  /** The item exists and carries the selected state. */
  predicate IsSelected(v: GraphValue, id: Id)
  {
    id in AllIds(v) && (id, SELECTED) in v.states
  }

  /** In a valid graph the selected items are exactly the selected ids. */
  lemma SelectedItemsAreSelected(v: GraphValue)
    requires Valid(v)
    ensures forall id :: id in SelectedItems(v) <==> IsSelected(v, id)
  {
    forall id
      ensures id in SelectedItems(v) <==> IsSelected(v, id)
    {
      assert id in v.nodes.keys <==> id in v.nodes.vals;
      assert id in v.edges.keys <==> id in v.edges.vals;
      assert id in v.combos.keys <==> id in v.combos.vals;
    }
  }

  /** getGraphState: by the number of selected items and, for one, its type. */
  function GetGraphState(v: GraphValue): GraphState
  {
    var items := SelectedItems(v);
    if |items| > 1 then MultiSelected
    else if |items| == 0 then CanvasSelected
    else
      // the type of items[0] is the list it was taken from
      var t := if SelectedNodes(v) != [] then Node else if SelectedEdges(v) != [] then Edge else Combo;
      match t
      case Node => NodeSelected
      case Edge => EdgeSelected
      case Combo => ComboSelected
  }

  /** getGraphState reports several items, none, or the one item's type. */
  lemma GraphStateCases(v: GraphValue)
    ensures GetGraphState(v) == MultiSelected <==> |SelectedItems(v)| > 1
    ensures GetGraphState(v) == CanvasSelected <==> |SelectedItems(v)| == 0
    ensures GetGraphState(v) == NodeSelected <==> |SelectedItems(v)| == 1 && |SelectedNodes(v)| == 1
    ensures GetGraphState(v) == EdgeSelected <==> |SelectedItems(v)| == 1 && |SelectedEdges(v)| == 1
    ensures GetGraphState(v) == ComboSelected <==> |SelectedItems(v)| == 1 && |SelectedCombos(v)| == 1
  {
  }

  /** The graph state that reports one selected item of type `t`. */
  function StateOfType(t: ItemType): GraphState
  {
    match t
    case Node => NodeSelected
    case Edge => EdgeSelected
    case Combo => ComboSelected
  }

  /** The number of selected items of one type is the number of items of
      that type carrying the selected state. */
  lemma SelectedCount(v: GraphValue, t: ItemType, ids: set<Id>)
    requires Valid(v)
    requires forall x :: x in FindAllByState(v, t, SELECTED) <==> x in ids
    ensures |FindAllByState(v, t, SELECTED)| == |ids|
  {
    var s := FindAllByState(v, t, SELECTED);
    assert Distinct(ItemsOf(v, t).keys);
    DistinctCard(s);
    assert Elems(s) == ids;
  }

  /** With exactly one item selected, getGraphState names its type. */
  lemma GraphStateOfOne(v: GraphValue, id: Id)
    requires Valid(v)
    requires forall x :: IsSelected(v, x) <==> x == id
    requires TypeOf(v, id).Some?
    ensures GetGraphState(v) == StateOfType(TypeOf(v, id).value)
  {
    var n := if id in v.nodes.vals then {id} else {};
    var e := if id in v.edges.vals then {id} else {};
    var c := if id in v.combos.vals then {id} else {};
    assert IsSelected(v, id);
    forall x
      ensures x in SelectedNodes(v) <==> x in n
      ensures x in SelectedEdges(v) <==> x in e
      ensures x in SelectedCombos(v) <==> x in c
    {
      assert x in v.nodes.keys <==> x in v.nodes.vals;
      assert x in v.edges.keys <==> x in v.edges.vals;
      assert x in v.combos.keys <==> x in v.combos.vals;
      assert IsSelected(v, x) <==> x == id;
    }
    SelectedCount(v, Node, n);
    SelectedCount(v, Edge, e);
    SelectedCount(v, Combo, c);
    GraphStateCases(v);
  }

  /** setItemState(id, 'selected', false) on each of `ids` that `shouldUpdate` accepts. */
  function Deselect(v: GraphValue, ids: seq<Id>, shouldUpdate: Id -> bool): GraphValue
  {
    if ids == [] then v
    else
      var w := Deselect(v, ids[..|ids| - 1], shouldUpdate);
      var id := ids[|ids| - 1];
      if shouldUpdate(id) then SetItemState(w, id, SELECTED, false) else w
  }

  function DeselectedPairs(v: GraphValue, ids: seq<Id>, shouldUpdate: Id -> bool): set<(Id, string)>
  {
    set id | id in ids && shouldUpdate(id) && id in AllIds(v) :: (id, SELECTED)
  }

  /** Deselecting only removes selected states of existing accepted items. */
  lemma {:induction false} DeselectEffect(v: GraphValue, ids: seq<Id>, shouldUpdate: Id -> bool)
    ensures Deselect(v, ids, shouldUpdate) == v.(states := v.states - DeselectedPairs(v, ids, shouldUpdate))
    decreases |ids|
  {
    if ids != [] {
      var init := ids[..|ids| - 1];
      var id := ids[|ids| - 1];
      DeselectEffect(v, init, shouldUpdate);
      LastSplit(ids);
      var w := Deselect(v, init, shouldUpdate);
      assert AllIds(w) == AllIds(v);
      if shouldUpdate(id) && id in AllIds(v) {
        assert DeselectedPairs(v, ids, shouldUpdate) == DeselectedPairs(v, init, shouldUpdate) + {(id, SELECTED)};
      } else {
        assert DeselectedPairs(v, ids, shouldUpdate) == DeselectedPairs(v, init, shouldUpdate);
      }
    } else {
      assert DeselectedPairs(v, ids, shouldUpdate) == {};
    }
  }

  /** The selected states clearSelectedState takes away: those of the
      selected items `shouldUpdate` accepts. */
  function Unselected(v: GraphValue, shouldUpdate: Id -> bool): set<(Id, string)>
  {
    set id | id in SelectedItems(v) && shouldUpdate(id) && id in AllIds(v) :: (id, SELECTED)
  }

  /** clearSelectedState(graph, shouldUpdate): in one batch, the selected
      items `shouldUpdate` accepts lose the selected state. */
  function ClearSelected(v: GraphValue, shouldUpdate: Id -> bool): GraphValue
  {
    v.(states := v.states - Unselected(v, shouldUpdate), paints := v.paints + 1)
  }

  /** clearSelectedState deselects exactly the selected items `shouldUpdate`
      accepts and touches no other state. */
  lemma ClearSelectedEffect(v: GraphValue, shouldUpdate: Id -> bool)
    requires Valid(v)
    ensures forall id :: IsSelected(ClearSelected(v, shouldUpdate), id) <==> IsSelected(v, id) && !shouldUpdate(id)
    ensures forall id, name :: name != SELECTED ==>
      ((id, name) in ClearSelected(v, shouldUpdate).states <==> (id, name) in v.states)
  {
    SelectedItemsAreSelected(v);
    var r := ClearSelected(v, shouldUpdate);
    forall id
      ensures IsSelected(r, id) <==> IsSelected(v, id) && !shouldUpdate(id)
    {
      assert (id, SELECTED) in Unselected(v, shouldUpdate) <==> id in SelectedItems(v) && shouldUpdate(id) && id in AllIds(v);
    }
  }

  /** clearSelectedState as the source runs it: a batch around a loop over
      the selected items. */
  method ClearSelectedState(g: Graph, shouldUpdate: Id -> bool)
    modifies g
    ensures g.View() == ClearSelected(old(g.View()), shouldUpdate)
  {
    var items := SelectedItems(g.View());
    var saved := BeginBatch(g);
    DeselectEach(g, items, shouldUpdate);
    ClearSelectedSteps(old(g.View()), shouldUpdate);
    EndBatch(g, saved);
  }

  /** The forEach of clearSelectedState. */
  method DeselectEach(g: Graph, items: seq<Id>, shouldUpdate: Id -> bool)
    modifies g
    ensures g.View() == Deselect(old(g.View()), items, shouldUpdate)
  {
    ghost var start := g.View();
    for i := 0 to |items|
      invariant g.View() == Deselect(start, items[..i], shouldUpdate)
    {
      DeselectStep(start, items, i, shouldUpdate);
      if shouldUpdate(items[i]) {
        g.SetItemState(items[i], SELECTED, false);
      }
    }
    PrefixAll(items);
  }

  lemma DeselectStep(v: GraphValue, ids: seq<Id>, i: nat, shouldUpdate: Id -> bool)
    requires i < |ids|
    ensures Deselect(v, ids[..i + 1], shouldUpdate)
         == var w := Deselect(v, ids[..i], shouldUpdate);
            if shouldUpdate(ids[i]) then SetItemState(w, ids[i], SELECTED, false) else w
  {
    assert ids[..i + 1][..i] == ids[..i];
  }

  /** The source's steps, a batch around the loop, give ClearSelected. */
  lemma ClearSelectedSteps(v: GraphValue, shouldUpdate: Id -> bool)
    ensures BatchClosed(Deselect(BatchOpened(v), SelectedItems(v), shouldUpdate), v.autoPaint)
         == ClearSelected(v, shouldUpdate)
  {
    var start := BatchOpened(v);
    DeselectEffect(start, SelectedItems(v), shouldUpdate);
    assert DeselectedPairs(start, SelectedItems(v), shouldUpdate) == Unselected(v, shouldUpdate);
  }

  /** The default `shouldUpdate` of clearSelectedState: every item. */
  predicate Everything(id: Id)
  {
    true
  }

  /** setItemState(id, 'selected', true) on each of `ids`. */
  function Select(v: GraphValue, ids: seq<Id>): GraphValue
  {
    if ids == [] then v
    else SetItemState(Select(v, ids[..|ids| - 1]), ids[|ids| - 1], SELECTED, true)
  }

  lemma SelectStep(v: GraphValue, ids: seq<Id>, i: nat)
    requires i < |ids|
    ensures Select(v, ids[..i + 1]) == SetItemState(Select(v, ids[..i]), ids[i], SELECTED, true)
  {
    assert ids[..i + 1][..i] == ids[..i];
  }

  /** The selected states of the listed items that exist. */
  function Chosen(v: GraphValue, ids: seq<Id>): set<(Id, string)>
  {
    set id | id in ids && id in AllIds(v) :: (id, SELECTED)
  }

  lemma {:induction false} SelectEffect(v: GraphValue, ids: seq<Id>)
    ensures Select(v, ids) == v.(states := v.states + Chosen(v, ids))
    decreases |ids|
  {
    if ids != [] {
      var init := ids[..|ids| - 1];
      var id := ids[|ids| - 1];
      SelectEffect(v, init);
      LastSplit(ids);
      var w := Select(v, init);
      assert AllIds(w) == AllIds(v);
      if id in AllIds(v) {
        assert Chosen(v, ids) == Chosen(v, init) + {(id, SELECTED)};
      } else {
        assert Chosen(v, ids) == Chosen(v, init);
      }
    } else {
      assert Chosen(v, ids) == {};
    }
  }

  /** setSelectedItems(graph, items) before its event: every selected item
      is deselected and the listed items are selected, in two batches (its
      own and the nested clearSelectedState). */
  function SelectOnly(v: GraphValue, ids: seq<Id>): GraphValue
  {
    v.(states := v.states - Unselected(v, Everything) + Chosen(v, ids), paints := v.paints + 2)
  }

  /** setSelectedItems(graph, items): the selection, then one event with
      the resulting graph state. */
  function SetSelected(v: GraphValue, ids: seq<Id>): GraphValue
  {
    var w := SelectOnly(v, ids);
    Emit(w, GraphStateChange(GetGraphState(w)))
  }

  /** After setSelectedItems exactly the given existing items are selected,
      no other state changed, the items are untouched, and the one new event
      reports the resulting graph state. */
  lemma SetSelectedEffect(v: GraphValue, ids: seq<Id>)
    requires Valid(v)
    ensures forall id :: IsSelected(SelectOnly(v, ids), id) <==> id in ids && id in AllIds(v)
    ensures forall id :: IsSelected(SetSelected(v, ids), id) <==> id in ids && id in AllIds(v)
    ensures forall id, name :: name != SELECTED ==>
      ((id, name) in SetSelected(v, ids).states <==> (id, name) in v.states)
    ensures SetSelected(v, ids).events == v.events + [GraphStateChange(GetGraphState(SelectOnly(v, ids)))]
  {
    SelectedItemsAreSelected(v);
    var w := SelectOnly(v, ids);
    forall id
      ensures IsSelected(w, id) <==> id in ids && id in AllIds(v)
    {
      assert (id, SELECTED) in Chosen(v, ids) <==> id in ids && id in AllIds(v);
      assert (id, SELECTED) in Unselected(v, Everything) <==> IsSelected(v, id);
    }
  }

  /** Selecting one existing item leaves exactly it selected, reports its
      type as the graph state, and changes nothing but states, paints and
      events. */
  lemma SelectOneEffect(v: GraphValue, id: Id)
    requires Valid(v)
    requires id in AllIds(v)
    ensures forall x :: IsSelected(SetSelected(v, [id]), x) <==> x == id
    ensures SetSelected(v, [id]).events == v.events + [GraphStateChange(StateOfType(TypeOf(v, id).value))]
  {
    SetSelectedEffect(v, [id]);
    var w := SelectOnly(v, [id]);
    assert AllIds(w) == AllIds(v);
    assert forall x :: IsSelected(w, x) <==> x == id;
    GraphStateOfOne(w, id);
  }

  /** setSelectedItems as the source runs it. */
  method SetSelectedItems(g: Graph, ids: seq<Id>)
    modifies g
    ensures g.View() == SetSelected(old(g.View()), ids)
  {
    var saved := BeginBatch(g);
    ClearSelectedState(g, Everything);
    ghost var start := g.View();
    for i := 0 to |ids|
      invariant g.View() == Select(start, ids[..i])
    {
      SelectStep(start, ids, i);
      g.SetItemState(ids[i], SELECTED, true);
    }
    PrefixAll(ids);
    SetSelectedSteps(old(g.View()), ids);
    EndBatch(g, saved);
    g.Emit(GraphStateChange(GetGraphState(g.View())));
  }

  /** The source's steps, a batch around clearSelectedState and the loop,
      give SelectOnly. */
  lemma SetSelectedSteps(v: GraphValue, ids: seq<Id>)
    ensures BatchClosed(Select(ClearSelected(BatchOpened(v), Everything), ids), v.autoPaint)
         == SelectOnly(v, ids)
  {
    var o := BatchOpened(v);
    var u := Unselected(v, Everything);
    assert SelectedItems(o) == SelectedItems(v);
    assert Unselected(o, Everything) == u;
    var c := ClearSelected(o, Everything);
    assert c == v.(autoPaint := false, states := v.states - u, paints := v.paints + 1);
    SelectEffect(c, ids);
    assert AllIds(c) == AllIds(v);
    assert Chosen(c, ids) == Chosen(v, ids);
  }

  // ------------------------------------------------------------- traversal

  /** A tree of models, as mind data with its `children`. */
  datatype Tree = Tree(id: Id, children: seq<Tree>)

  /** recursiveTraversal(root, callback): the items the callback is called
      with, in order (a null root calls nothing). */
  function Traverse(root: Option<Tree>): seq<Tree>
  {
    if root.None? then [] else TraverseTree(root.value)
  }

  function TraverseTree(t: Tree): seq<Tree>
    decreases t, 1
  {
    [t] + TraverseForest(t.children)
  }

  function TraverseForest(ts: seq<Tree>): seq<Tree>
    decreases ts, 0
  {
    if ts == [] then [] else TraverseForest(ts[..|ts| - 1]) + TraverseTree(ts[|ts| - 1])
  }

  function Size(t: Tree): nat
    decreases t, 1
  {
    1 + SizeForest(t.children)
  }

  function SizeForest(ts: seq<Tree>): nat
    decreases ts, 0
  {
    if ts == [] then 0 else SizeForest(ts[..|ts| - 1]) + Size(ts[|ts| - 1])
  }

  /** The callback sees the root first, then each child's subtree in turn,
      and is called once per item of the tree. */
  lemma {:induction false} TraversePreOrder(t: Tree)
    ensures |TraverseTree(t)| == Size(t)
    ensures TraverseTree(t)[0] == t
    ensures TraverseTree(t)[1..] == TraverseForest(t.children)
    decreases t, 1
  {
    TraverseForestSize(t.children);
  }

  lemma {:induction false} TraverseForestSize(ts: seq<Tree>)
    ensures |TraverseForest(ts)| == SizeForest(ts)
    decreases ts, 0
  {
    if ts != [] {
      TraverseForestSize(ts[..|ts| - 1]);
      TraversePreOrder(ts[|ts| - 1]);
    }
  }

  // ------------------------------------------------------------- node side

  /** The `side` field of a model, when it is set (truthy). */
  function SideOf(m: ItemModel): Option<Value>
  {
    if "side" in m && Truthy(m["side"]) then Some(m["side"]) else None
  }

  /** getNodeSide over the item and its ancestors: `chain[0]` is the item's
      model and `chain[i + 1]` the parent of `chain[i]`. */
  function GetNodeSide(chain: seq<ItemModel>): (r: Value)
    ensures r == Str("right") || exists k :: 0 <= k < |chain| && SideOf(chain[k]) == Some(r)
    ensures forall k :: 0 <= k < |chain| && SideOf(chain[k]).Some? ==>
      (r == SideOf(chain[k]).value || exists j :: 0 <= j < k && SideOf(chain[j]).Some? && r == SideOf(chain[j]).value)
    ensures (forall k :: 0 <= k < |chain| ==> SideOf(chain[k]).None?) ==> r == Str("right")
  {
    if chain == [] then Str("right")
    else if SideOf(chain[0]).Some? then SideOf(chain[0]).value
    else
      var r := GetNodeSide(chain[1..]);
      assert forall k :: 1 <= k < |chain| ==> chain[k] == chain[1..][k - 1];
      r
  }

  /** The side is that of the nearest item in the chain that sets one. */
  lemma {:induction false} NodeSideNearest(chain: seq<ItemModel>, k: nat)
    requires k < |chain| && SideOf(chain[k]).Some?
    requires forall j :: 0 <= j < k ==> SideOf(chain[j]).None?
    ensures GetNodeSide(chain) == SideOf(chain[k]).value
    decreases k
  {
    if k > 0 {
      assert chain[1..][k - 1] == chain[k];
      forall j | 0 <= j < k - 1
        ensures SideOf(chain[1..][j]).None?
      {
        assert chain[1..][j] == chain[j + 1];
      }
      NodeSideNearest(chain[1..], k - 1);
    }
  }

  // ------------------------------------------------------------- hash code

  const TWO_32: int := 0x1_0000_0000
  const TWO_31: int := 0x8000_0000

  /** A UTF-16 code unit, as charCodeAt returns it. */
  type CodeUnit = c: int | 0 <= c < 0x10000

  predicate IsInt32(x: int)
  {
    -TWO_31 <= x < TWO_31
  }

  /** ECMAScript ToInt32: wrap to a signed 32-bit integer. */
  function ToInt32(x: int): (r: int)
    ensures IsInt32(r)
    ensures (r - x) % TWO_32 == 0
  {
    var m := x % TWO_32;
    if m >= TWO_31 then m - TWO_32 else m
  }

  lemma ToInt32Congruent(a: int, b: int)
    requires (a - b) % TWO_32 == 0
    ensures ToInt32(a) == ToInt32(b)
  {
    var q := (a - b) / TWO_32;
    assert a == b + q * TWO_32;
    assert a % TWO_32 == b % TWO_32;
  }

  /** The hash of the characters of `s`: h := int32(31 * h + code), from 0. */
  function HashSpec(s: seq<CodeUnit>): (r: int)
    ensures IsInt32(r)
  {
    if s == [] then 0 else ToInt32(31 * HashSpec(s[..|s| - 1]) + s[|s| - 1])
  }

  /** One step of the loop as written: `(hash << 5) - hash + c`, then `hash & hash`. */
  lemma HashStep(h: int, c: CodeUnit)
    requires IsInt32(h)
    ensures ToInt32(ToInt32(h * 32) - h + c) == ToInt32(31 * h + c)
  {
    var a := ToInt32(h * 32) - h + c;
    assert (ToInt32(h * 32) - h * 32) % TWO_32 == 0;
    assert a - (31 * h + c) == ToInt32(h * 32) - h * 32;
    ToInt32Congruent(a, 31 * h + c);
  }

  /** hashCodeObject over the characters of JSON.stringify(obj). */
  method HashCodeObject(str: seq<CodeUnit>) returns (hash: int)
    ensures hash == HashSpec(str)
    ensures IsInt32(hash)
  {
    hash := 0;
    for i := 0 to |str|
      invariant hash == HashSpec(str[..i])
    {
      var character := str[i];
      HashStep(hash, character);
      assert str[..i + 1][..i] == str[..i];
      hash := ToInt32(hash * 32) - hash + character;   // (hash << 5) - hash + character
      hash := ToInt32(hash);                           // hash & hash
    }
    PrefixAll(str);
  }

  // ------------------------------------------------------ flow recall edges

  /** `b` is `a` with more pushed onto its end. */
  predicate Extends(a: seq<Id>, b: seq<Id>)
  {
    |a| <= |b| && b[..|a|] == a
  }

  /** Everything pushed onto `edges` to make `edges'` is an edge of the graph. */
  predicate PushedEdges(v: GraphValue, edges: seq<Id>, edges': seq<Id>)
  {
    forall k :: |edges| <= k < |edges'| ==> edges'[k] in v.edges.keys
  }

  /** The node ids not yet in `targetIds`: the recursion's measure. */
  function Measure(v: GraphValue, targetIds: seq<Id>): nat
  {
    |v.nodes.vals.Keys - Elems(targetIds)|
  }

  lemma ExtendsElems(a: seq<Id>, b: seq<Id>)
    requires Extends(a, b)
    ensures Elems(a) <= Elems(b)
  {
    forall x | x in Elems(a)
      ensures x in Elems(b)
    {
      var k :| 0 <= k < |a| && a[k] == x;
      assert b[k] == a[k];
    }
  }

  lemma ExtendsTransitive(a: seq<Id>, b: seq<Id>, c: seq<Id>)
    requires Extends(a, b) && Extends(b, c)
    ensures Extends(a, c)
  {
    assert c[..|a|] == c[..|b|][..|a|];
  }

  lemma PushedEdgesTransitive(v: GraphValue, a: seq<Id>, b: seq<Id>, c: seq<Id>)
    requires Extends(a, b) && Extends(b, c)
    requires PushedEdges(v, a, b) && PushedEdges(v, b, c)
    ensures PushedEdges(v, a, c)
  {
    forall k | |a| <= k < |c|
      ensures c[k] in v.edges.keys
    {
      if k < |b| {
        assert c[k] == b[k];
      }
    }
  }

  lemma CardinalityMonotone<T>(a: set<T>, b: set<T>)
    requires a <= b
    ensures |a| <= |b|
    ensures a < b ==> |a| < |b|
  {
    assert b == a + (b - a);
    if a < b {
      var x :| x in b && x !in a;
      assert x in b - a;
    }
  }

  /** Pushing ids never raises the measure, and pushing a node id that was
      missing lowers it. */
  lemma MeasureDecreases(v: GraphValue, node: Id, targetIds: seq<Id>, t: seq<Id>)
    requires Extends(targetIds, t) && node in Elems(t) && node in v.nodes.vals
    ensures Measure(v, t) <= Measure(v, targetIds)
    ensures node !in targetIds ==> Measure(v, t) < Measure(v, targetIds)
  {
    ExtendsElems(targetIds, t);
    CardinalityMonotone(v.nodes.vals.Keys - Elems(t), v.nodes.vals.Keys - Elems(targetIds));
    if node !in targetIds {
      assert node in v.nodes.vals.Keys - Elems(targetIds);
    }
  }

  /** What a call may do to the shared arrays: push onto both, and push
      only edges of the graph onto `edges`. */
  predicate Grown(v: GraphValue, targetIds: seq<Id>, edges: seq<Id>, t: seq<Id>, e: seq<Id>)
  {
    Extends(targetIds, t) && Extends(edges, e) && PushedEdges(v, edges, e)
  }

  /** One turn of the loop pushes the i-th in-edge and the node's id. */
  lemma PushStep(v: GraphValue, targetIds: seq<Id>, edges: seq<Id>, t: seq<Id>, e: seq<Id>,
                 node: Id, inEdges: seq<Id>, i: nat)
    requires Grown(v, targetIds, edges, t, e)
    requires inEdges == InEdges(v, node) && i < |inEdges|
    requires Elems(inEdges[..i]) <= Elems(e)
    ensures Grown(v, targetIds, edges, t + [node], e + [inEdges[i]])
    ensures Elems(inEdges[..i + 1]) <= Elems(e + [inEdges[i]])
  {
    var edge := inEdges[i];
    assert inEdges[..i + 1] == inEdges[..i] + [edge];
    ElemsConcat(inEdges[..i], [edge]);
    ElemsConcat(e, [edge]);
    assert edge in v.edges.keys;
    assert PushedEdges(v, e, e + [edge]);
    ExtendsTransitive(edges, e, e + [edge]);
    PushedEdgesTransitive(v, edges, e, e + [edge]);
    ExtendsTransitive(targetIds, t, t + [node]);
  }

  /** The recursive call keeps what the loop has pushed so far. */
  lemma RecallStep(v: GraphValue, targetIds: seq<Id>, edges: seq<Id>, t: seq<Id>, e: seq<Id>,
                   t2: seq<Id>, e2: seq<Id>, done: seq<Id>)
    requires Grown(v, targetIds, edges, t, e) && Grown(v, t, e, t2, e2)
    requires Elems(done) <= Elems(e)
    ensures Grown(v, targetIds, edges, t2, e2) && Elems(done) <= Elems(e2)
  {
    ExtendsElems(e, e2);
    ExtendsTransitive(edges, e, e2);
    PushedEdgesTransitive(v, edges, e, e2);
    ExtendsTransitive(targetIds, t, t2);
  }

  /** The node `findById` gives for the edge's `source`, when it gives a
      node. */
  function SourceNode(v: GraphValue, edge: Id): Option<Id>
  {
    if edge in v.edges.vals then
      var source := EndOf(v.edges.vals[edge], "source");
      if source.Some? && source.value in v.nodes.vals then source else None
    else None
  }

  /** A set of edges that holds, with each edge whose source is a node, all
      of that node's in-edges. */
  ghost predicate ClosedBackwards(v: GraphValue, s: set<Id>)
  {
    forall e :: e in s && SourceNode(v, e).Some? ==> Elems(InEdges(v, SourceNode(v, e).value)) <= s
  }

  /** Every node whose in-edges the walk started on (pushed onto `t` past
      the caller's `targetIds`) has all its in-edges in `e`. */
  ghost predicate Finished(v: GraphValue, targetIds: seq<Id>, t: seq<Id>, e: seq<Id>)
  {
    forall x :: x in t && x !in targetIds ==> Elems(InEdges(v, x)) <= Elems(e)
  }

  /** Every edge the walk pushed past the caller's `edges` has a source that
      is no node, a node the walk started on, or a node without in-edges. */
  ghost predicate Followed(v: GraphValue, edges: seq<Id>, t: seq<Id>, e: seq<Id>)
  {
    forall k :: |edges| <= k < |e| && SourceNode(v, e[k]).Some? ==>
      SourceNode(v, e[k]).value in t || InEdges(v, SourceNode(v, e[k]).value) == []
  }

  /** What the walk pushed stays inside every backwards-closed set that
      holds the node's in-edges and the edges already there. */
  ghost predicate Bounded(v: GraphValue, node: Id, edges: seq<Id>, e: seq<Id>)
  {
    forall s :: ClosedBackwards(v, s) && Elems(InEdges(v, node)) <= s && Elems(edges) <= s ==> Elems(e) <= s
  }

  /** What one call does to the shared arrays. */
  ghost predicate WalkDone(v: GraphValue, node: Id, targetIds: seq<Id>, edges: seq<Id>, t: seq<Id>, e: seq<Id>)
  {
    && Grown(v, targetIds, edges, t, e)
    && Elems(InEdges(v, node)) <= Elems(e)
    && (InEdges(v, node) != [] ==> node in t)
    && Finished(v, targetIds, t, e)
    && Followed(v, edges, t, e)
    && Bounded(v, node, edges, e)
  }

  /** The loop invariant of a call, after `i` in-edges. */
  ghost predicate Walking(v: GraphValue, node: Id, targetIds: seq<Id>, edges: seq<Id>, t: seq<Id>, e: seq<Id>, i: nat)
  {
    && i <= |InEdges(v, node)|
    && Grown(v, targetIds, edges, t, e)
    && Elems(InEdges(v, node)[..i]) <= Elems(e)
    && (i > 0 ==> node in t)
    && (forall x :: x in t && x !in targetIds && x != node ==> Elems(InEdges(v, x)) <= Elems(e))
    && Followed(v, edges, t, e)
    && Bounded(v, node, edges, e)
  }

  lemma ElemsPush(e: seq<Id>, x: Id)
    ensures Elems(e + [x]) == Elems(e) + {x}
  {
    ElemsConcat(e, [x]);
    assert Elems([x]) == {x};
  }

  /** A turn that pushes the in-edge and does not recurse: its source is no
      node or is already in `targetIds`. */
  lemma SkipStep(v: GraphValue, node: Id, targetIds: seq<Id>, edges: seq<Id>, t: seq<Id>, e: seq<Id>, i: nat)
    requires Walking(v, node, targetIds, edges, t, e, i) && i < |InEdges(v, node)|
    requires var src := SourceNode(v, InEdges(v, node)[i]); src.None? || src.value in t + [node]
    ensures Walking(v, node, targetIds, edges, t + [node], e + [InEdges(v, node)[i]], i + 1)
  {
    var inEdges := InEdges(v, node);
    var edge := inEdges[i];
    PushStep(v, targetIds, edges, t, e, node, inEdges, i);
    ElemsPush(e, edge);
    ElemsPush(t, node);
    var e' := e + [edge];
    forall k | |edges| <= k < |e'| && SourceNode(v, e'[k]).Some?
      ensures SourceNode(v, e'[k]).value in t + [node] || InEdges(v, SourceNode(v, e'[k]).value) == []
    {
      if k < |e| {
        assert e'[k] == e[k];
      }
    }
    assert edge in inEdges;
    forall s | ClosedBackwards(v, s) && Elems(inEdges) <= s && Elems(edges) <= s
      ensures Elems(e') <= s
    {
    }
  }

  /** A turn that pushes the in-edge and recurses into its source node,
      which is not yet in `targetIds`. */
  lemma RecurStep(v: GraphValue, node: Id, targetIds: seq<Id>, edges: seq<Id>, t: seq<Id>, e: seq<Id>, i: nat,
                  t2: seq<Id>, e2: seq<Id>)
    requires Walking(v, node, targetIds, edges, t, e, i) && i < |InEdges(v, node)|
    requires var src := SourceNode(v, InEdges(v, node)[i]); src.Some? && src.value !in t + [node]
    requires WalkDone(v, SourceNode(v, InEdges(v, node)[i]).value, t + [node], e + [InEdges(v, node)[i]], t2, e2)
    ensures Walking(v, node, targetIds, edges, t2, e2, i + 1)
  {
    var inEdges := InEdges(v, node);
    var edge := inEdges[i];
    var t1, e1 := t + [node], e + [edge];
    SkipStepGrown(v, node, targetIds, edges, t, e, i);
    RecallStep(v, targetIds, edges, t1, e1, t2, e2, inEdges[..i + 1]);
    RecurFinished(v, node, targetIds, t, e, t1, e1, t2, e2);
    RecurFollowed(v, node, edges, t, e, edge, t2, e2);
    RecurBounded(v, node, edges, e, edge, i, SourceNode(v, edge).value, e2);
    assert t2[|t|] == t1[|t|] == node;
  }

  lemma RecurFinished(v: GraphValue, node: Id, targetIds: seq<Id>, t: seq<Id>, e: seq<Id>,
                      t1: seq<Id>, e1: seq<Id>, t2: seq<Id>, e2: seq<Id>)
    requires t1 == t + [node] && Extends(e, e1) && Extends(e1, e2)
    requires forall x :: x in t && x !in targetIds && x != node ==> Elems(InEdges(v, x)) <= Elems(e)
    requires Finished(v, t1, t2, e2)
    ensures forall x :: x in t2 && x !in targetIds && x != node ==> Elems(InEdges(v, x)) <= Elems(e2)
  {
    ExtendsElems(e, e1);
    ExtendsElems(e1, e2);
    forall x | x in t2 && x !in targetIds && x != node
      ensures Elems(InEdges(v, x)) <= Elems(e2)
    {
      if x in t1 {
        assert x in t;
      }
    }
  }

  lemma RecurFollowed(v: GraphValue, node: Id, edges: seq<Id>, t: seq<Id>, e: seq<Id>, edge: Id, t2: seq<Id>, e2: seq<Id>)
    requires Extends(t + [node], t2) && Extends(e + [edge], e2) && |edges| <= |e|
    requires Followed(v, edges, t, e) && Followed(v, e + [edge], t2, e2)
    requires SourceNode(v, edge).Some?
    requires InEdges(v, SourceNode(v, edge).value) != [] ==> SourceNode(v, edge).value in t2
    ensures Followed(v, edges, t2, e2)
  {
    ExtendsElems(t + [node], t2);
    ElemsPush(t, node);
    forall k | |edges| <= k < |e2| && SourceNode(v, e2[k]).Some?
      ensures SourceNode(v, e2[k]).value in t2 || InEdges(v, SourceNode(v, e2[k]).value) == []
    {
      if k < |e| {
        assert e2[k] == (e + [edge])[k] == e[k];
        assert SourceNode(v, e[k]).value in Elems(t) || InEdges(v, SourceNode(v, e[k]).value) == [];
      } else if k == |e| {
        assert e2[k] == (e + [edge])[k] == edge;
      }
    }
  }

  lemma RecurBounded(v: GraphValue, node: Id, edges: seq<Id>, e: seq<Id>, edge: Id, i: nat, src: Id, e2: seq<Id>)
    requires i < |InEdges(v, node)| && edge == InEdges(v, node)[i]
    requires SourceNode(v, edge) == Some(src)
    requires Bounded(v, node, edges, e) && Bounded(v, src, e + [edge], e2)
    ensures Bounded(v, node, edges, e2)
  {
    ElemsPush(e, edge);
    assert edge in InEdges(v, node);
    forall s | ClosedBackwards(v, s) && Elems(InEdges(v, node)) <= s && Elems(edges) <= s
      ensures Elems(e2) <= s
    {
      assert Elems(e) <= s;
      assert edge in s;
      assert Elems(InEdges(v, src)) <= s;
    }
  }

  /** The pushes of a turn keep the arrays growing and the in-edges so far
      pushed. */
  lemma SkipStepGrown(v: GraphValue, node: Id, targetIds: seq<Id>, edges: seq<Id>, t: seq<Id>, e: seq<Id>, i: nat)
    requires Walking(v, node, targetIds, edges, t, e, i) && i < |InEdges(v, node)|
    ensures Grown(v, targetIds, edges, t + [node], e + [InEdges(v, node)[i]])
    ensures Elems(InEdges(v, node)[..i + 1]) <= Elems(e + [InEdges(v, node)[i]])
  {
    PushStep(v, targetIds, edges, t, e, node, InEdges(v, node), i);
  }

  /** After the last turn the node itself is finished too. */
  lemma WalkingDone(v: GraphValue, node: Id, targetIds: seq<Id>, edges: seq<Id>, t: seq<Id>, e: seq<Id>)
    requires Walking(v, node, targetIds, edges, t, e, |InEdges(v, node)|)
    ensures WalkDone(v, node, targetIds, edges, t, e)
  {
    PrefixAll(InEdges(v, node));
  }

  /** From empty arrays, the pushed edges are backwards closed and lie
      inside every backwards-closed set holding the node's in-edges: they
      are exactly the edges reachable backwards from the node. */
  lemma WalkReaches(v: GraphValue, node: Id, t: seq<Id>, e: seq<Id>)
    requires WalkDone(v, node, [], [], t, e)
    ensures ClosedBackwards(v, Elems(e))
    ensures forall s :: ClosedBackwards(v, s) && Elems(InEdges(v, node)) <= s ==> Elems(e) <= s
  {
    forall x | x in Elems(e) && SourceNode(v, x).Some?
      ensures Elems(InEdges(v, SourceNode(v, x).value)) <= Elems(e)
    {
      var k :| 0 <= k < |e| && e[k] == x;
      var src := SourceNode(v, x).value;
      if src in t {
        assert src !in [];
      } else {
        assert InEdges(v, src) == [];
        assert Elems(InEdges(v, src)) == {};
      }
    }
    assert Elems<Id>([]) == {};
  }

  /** getFlowRecallEdges(graph, node, targetIds, edges): walks in-edges
      backwards, pushing each in-edge onto `edges` and the node's id onto
      `targetIds`, recursing into a source node not yet in `targetIds`.
      The arrays are shared with the caller, so the updated arrays are
      returned next to the result, which is a new empty array for a node
      without in-edges.  Called with empty arrays, the result holds exactly
      the edges reachable backwards from the node. */
  method GetFlowRecallEdges(v: GraphValue, node: Id, targetIds: seq<Id>, edges: seq<Id>)
    returns (r: seq<Id>, targetIds': seq<Id>, edges': seq<Id>)
    requires node in v.nodes.vals
    ensures WalkDone(v, node, targetIds, edges, targetIds', edges')
    ensures InEdges(v, node) == [] ==> r == [] && edges' == edges && targetIds' == targetIds
    ensures InEdges(v, node) != [] ==> r == edges'
    ensures targetIds == [] && edges == [] ==>
      && ClosedBackwards(v, Elems(r))
      && Elems(InEdges(v, node)) <= Elems(r)
      && forall s :: ClosedBackwards(v, s) && Elems(InEdges(v, node)) <= s ==> Elems(r) <= s
    decreases Measure(v, targetIds), if node in targetIds then 1 else 0
  {
    var inEdges := InEdges(v, node);
    if |inEdges| == 0 {
      assert Elems<Id>([]) == {};
      return [], targetIds, edges;
    }
    targetIds', edges' := targetIds, edges;
    var i := 0;
    while i < |inEdges|
      invariant Walking(v, node, targetIds, edges, targetIds', edges', i)
    {
      var edge := inEdges[i];
      var source := SourceNode(v, edge);
      ghost var t0, e0 := targetIds', edges';
      edges' := edges' + [edge];
      targetIds' := targetIds' + [node];
      if source.Some? && source.value !in targetIds' {
        SkipStepGrown(v, node, targetIds, edges, t0, e0, i);
        MeasureDecreases(v, node, targetIds, targetIds');
        var _, t2, e2 := GetFlowRecallEdges(v, source.value, targetIds', edges');
        RecurStep(v, node, targetIds, edges, t0, e0, i, t2, e2);
        targetIds', edges' := t2, e2;
      } else {
        SkipStep(v, node, targetIds, edges, t0, e0, i);
      }
      i := i + 1;
    }
    WalkingDone(v, node, targetIds, edges, targetIds', edges');
    r := edges';
    if targetIds == [] && edges == [] {
      WalkReaches(v, node, targetIds', edges');
    }
  }
}
