/** Shared vocabulary of the editor: ids, item models, command params, events
    and the enumerations of src/common/constants/index.ts. */
module Model {

  type Id = string

  datatype Option<T> = None | Some(value: T)

  datatype ItemType = Node | Edge | Combo

  /** Integer canvas coordinates. */
  datatype Point = Point(x: int, y: int)

  /** One field of a node or edge model (a plain JS object). */
  datatype Value = Str(s: string) | Num(n: int) | Bool(b: bool) | Pt(p: Point) | Undefined | NaN

  /** A node or edge model: field name to value. */
  type ItemModel = map<string, Value>

  /** `model.id`, with a missing or non-string id read as the empty string. */
  function IdOf(m: ItemModel): Id
  {
    if "id" in m && m["id"].Str? then m["id"].s else ""
  }

  /** `models.map(model => model.id)`. */
  function IdsOf(ms: seq<ItemModel>): (r: seq<Id>)
    ensures |r| == |ms|
    ensures forall i :: 0 <= i < |ms| ==> r[i] == IdOf(ms[i])
  {
    if ms == [] then [] else IdsOf(ms[..|ms| - 1]) + [IdOf(ms[|ms| - 1])]
  }

  /** JavaScript truthiness of a field value. */
  predicate Truthy(x: Value)
  {
    match x
    case Str(s) => s != ""
    case Num(n) => n != 0
    case Bool(b) => b
    case Pt(_) => true
    case Undefined => false
    case NaN => false
  }

  /** `{...a, ...b}`: the fields of `b` win. */
  function Spread(a: ItemModel, b: ItemModel): (r: ItemModel)
    ensures r.Keys == a.Keys + b.Keys
    ensures forall k :: k in r ==> r[k] == (if k in b then b[k] else a[k])
  {
    a + b
  }

  /** The entries of `d` under the keys in `s`; on a model, lodash `pick`. */
  function Restrict<K, V>(d: map<K, V>, s: set<K>): (r: map<K, V>)
    ensures r.Keys == d.Keys * s
    ensures forall k :: k in r ==> r[k] == d[k]
  {
    map k | k in d && k in s :: d[k]
  }

  /** lodash `omit`: `m` without the listed fields. */
  function Omit(m: ItemModel, keys: set<string>): (r: ItemModel)
    ensures r.Keys == m.Keys - keys
    ensures forall k :: k in r ==> r[k] == m[k]
  {
    m - keys
  }

  datatype Mode = DefaultMode | AddNodeMode | ReadonlyMode

  datatype GraphType = Flow | Mind

  datatype GraphState = NodeSelected | EdgeSelected | ComboSelected | MultiSelected | CanvasSelected

  datatype AnchorPointState = Enabled | Disabled | Active | Default

  /** Item state names of ItemState. */
  const SELECTED: string := "selected"
  const ACTIVE_ANCHOR_POINTS: string := "activeAnchorPoints"
  const ACTIVE_ANCHOR: string := "activeAnchor"

  /** Name of every anchor-point shape. */
  const ANCHOR_POINT_NAME: string := "anchorPoint"

  /** A JS object used as a dictionary keyed by id: `keys` is its key
      insertion order, which is the order of `Object.keys` for ids that are
      not integer-like. */
  datatype Dict = Dict(keys: seq<Id>, vals: map<Id, ItemModel>)

  const EmptyDict: Dict := Dict([], map[])

  predicate DictValid(d: Dict)
  {
    Distinct(d.keys) && Elems(d.keys) == d.vals.Keys
  }

  /** `d[k] = m`: a new key goes last, an existing key keeps its place. */
  function Put(d: Dict, k: Id, m: ItemModel): (r: Dict)
    ensures DictValid(d) ==> DictValid(r)
    ensures r.vals == d.vals[k := m]
  {
    Dict(if k in d.vals then d.keys else d.keys + [k], d.vals[k := m])
  }

  /** A value of a command's params object. */
  datatype PVal =
    | PType(t: ItemType)
    | PModel(m: ItemModel)
    | PModels(ms: seq<ItemModel>)
    | PIds(ids: seq<Id>)
    | PStr(s: string)
    | PBool(b: bool)
    | PNull
    | PMapper(f: ItemModel -> ItemModel)
    | PFlow(nodes: Dict, edges: Dict)
    | PMind(model: Option<ItemModel>, parent: Option<Id>)

  /** A command's params object: key to value. */
  type Params = map<string, PVal>

  /** `{...a, ...b}` on params: a shallow merge in which the keys of `b` win. */
  function MergeParams(a: Params, b: Params): (r: Params)
    ensures r.Keys == a.Keys + b.Keys
    ensures forall k :: k in b ==> r[k] == b[k]
    ensures forall k :: k in a && k !in b ==> r[k] == a[k]
  {
    a + b
  }

  /** `params[key]` read as a model; anything else reads as `{}`. */
  function ModelParam(p: Params, key: string): ItemModel
  {
    if key in p && p[key].PModel? then p[key].m else map[]
  }

  /** `params[key]` read as a list of models; anything else reads as `[]`. */
  function ModelsParam(p: Params, key: string): seq<ItemModel>
  {
    if key in p && p[key].PModels? then p[key].ms else []
  }

  /** `params[key]` read as a list of ids; anything else reads as `[]`. */
  function IdsParam(p: Params, key: string): seq<Id>
  {
    if key in p && p[key].PIds? then p[key].ids else []
  }

  /** `params[key]` read as a string; anything else reads as `''`. */
  function StrParam(p: Params, key: string): string
  {
    if key in p && p[key].PStr? then p[key].s else ""
  }

  /** The truthiness of `params[key]`, for a flag. */
  predicate FlagParam(p: Params, key: string)
  {
    key in p && p[key].PBool? && p[key].b
  }

  /** Events emitted on the graph's event bus (EditorEvent, GraphCustomEvent). */
  datatype Event =
    | BeforeExecuteCommand(name: string, params: Params)
    | AfterExecuteCommand(name: string, params: Params)
    | GraphStateChange(state: GraphState)
    | LabelStateChange(show: bool)
    | HidePortalTriger
    | UndefinedEvent
    | ShowActionMenu(item: Option<Id>)
    | AfterRemoveNode
    | AfterVisibilityChangeAllEdges
    | BeforeConnect(edge: Id)
    | AfterConnect(edge: Id)
    | ClickTag(tagItem: Id, x: int, y: int)
    | CanvasDragStart
    | CanvasDrag
    | CanvasDragEnd

  predicate Distinct<T(==)>(s: seq<T>)
  {
    forall i, j :: 0 <= i < j < |s| ==> s[i] != s[j]
  }

  function Elems<T>(s: seq<T>): set<T>
  {
    set x | x in s
  }

  /** `s` without the elements of `r`, order kept. */
  function Without(s: seq<Id>, r: set<Id>): (t: seq<Id>)
    ensures Elems(t) == Elems(s) - r
    ensures Distinct(s) ==> Distinct(t)
    ensures |t| <= |s|
  {
    if s == [] then []
    else
      var rest := Without(s[1..], r);
      assert Elems(s) == {s[0]} + Elems(s[1..]) by { assert s == [s[0]] + s[1..]; }
      assert Distinct(s) ==> Distinct(s[1..]) && s[0] !in Elems(s[1..]) by {
        if Distinct(s) {
          forall k | 0 <= k < |s[1..]|
            ensures s[1..][k] != s[0]
          {
            assert s[1..][k] == s[k + 1];
          }
        }
      }
      if s[0] in r then rest
      else
        ElemsConcat([s[0]], rest);
        if Distinct(s) then assert s[0] !in Elems(rest); DistinctCons(s[0], rest); [s[0]] + rest else [s[0]] + rest
  }

  lemma ElemsConcat<T>(a: seq<T>, b: seq<T>)
    ensures Elems(a + b) == Elems(a) + Elems(b)
  {
    assert forall x :: x in a + b <==> x in a || x in b;
  }

  lemma DistinctCons<T>(x: T, s: seq<T>)
    requires Distinct(s) && x !in s
    ensures Distinct([x] + s)
  {
    forall i, j | 0 <= i < j < |[x] + s|
      ensures ([x] + s)[i] != ([x] + s)[j]
    {
      if i > 0 {
        assert ([x] + s)[i] == s[i - 1] && ([x] + s)[j] == s[j - 1];
      } else {
        assert ([x] + s)[j] == s[j - 1];
      }
    }
  }

  /** `s.filter(keep)`: the elements satisfying `keep`, order kept. */
  function Filter<T(==, !new)>(s: seq<T>, keep: T -> bool): (r: seq<T>)
    ensures forall x :: x in r <==> x in s && keep(x)
    ensures |r| <= |s|
    ensures Distinct(s) ==> Distinct(r)
  {
    if s == [] then []
    else
      var init := Filter(s[..|s| - 1], keep);
      var last := s[|s| - 1];
      assert s == s[..|s| - 1] + [last];
      if Distinct(s) then DistinctInit(s); FilterStep(init, last, keep, true)
      else FilterStep(init, last, keep, false)
  }

  function FilterStep<T(==, !new)>(init: seq<T>, last: T, keep: T -> bool, distinct: bool): (r: seq<T>)
    requires distinct ==> Distinct(init) && last !in init
    ensures forall x :: x in r <==> x in init || (x == last && keep(last))
    ensures |r| <= |init| + 1
    ensures distinct ==> Distinct(r)
  {
    if keep(last) then
      if distinct then DistinctSnoc(init, last); init + [last] else init + [last]
    else init
  }

  /** The whole of a list is its longest prefix. */
  lemma PrefixAll<T>(s: seq<T>)
    ensures s[..|s|] == s
  {
  }

  /** One more element through the filter. */
  lemma FilterAt<T(!new)>(s: seq<T>, i: nat, keep: T -> bool)
    requires i < |s|
    ensures Filter(s[..i + 1], keep) == if keep(s[i]) then Filter(s[..i], keep) + [s[i]] else Filter(s[..i], keep)
  {
    assert s[..i + 1][..i] == s[..i];
  }

  lemma DistinctInit<T>(s: seq<T>)
    requires Distinct(s) && s != []
    ensures Distinct(s[..|s| - 1]) && s[|s| - 1] !in s[..|s| - 1]
  {
    var init := s[..|s| - 1];
    forall k | 0 <= k < |init|
      ensures init[k] != s[|s| - 1]
    {
      assert init[k] == s[k];
    }
  }

  /** A non-empty list is its prefix followed by its last element. */
  lemma LastSplit<T>(s: seq<T>)
    requires s != []
    ensures s == s[..|s| - 1] + [s[|s| - 1]]
  {
  }

  lemma DistinctSnoc<T>(s: seq<T>, x: T)
    requires Distinct(s) && x !in s
    ensures Distinct(s + [x])
  {
    forall i, j | 0 <= i < j < |s + [x]|
      ensures (s + [x])[i] != (s + [x])[j]
    {
      assert (s + [x])[i] == s[i];
      if j < |s| {
        assert (s + [x])[j] == s[j];
      }
    }
  }

  /** A list without repetitions has as many elements as its set. */
  lemma {:induction false} DistinctCard<T>(s: seq<T>)
    requires Distinct(s)
    ensures |Elems(s)| == |s|
  {
    if s != [] {
      var init := s[..|s| - 1];
      DistinctInit(s);
      DistinctCard(init);
      LastSplit(s);
      ElemsConcat(init, [s[|s| - 1]]);
      assert Elems([s[|s| - 1]]) == {s[|s| - 1]};
    }
  }

  /** `s` with `x` appended unless it is already there. */
  function AppendNew(s: seq<Id>, x: Id): (t: seq<Id>)
    ensures Elems(t) == Elems(s) + {x}
    ensures Distinct(s) ==> Distinct(t)
  {
    if x in s then s else s + [x]
  }

  lemma {:induction false} WithoutNone(s: seq<Id>, r: set<Id>)
    requires Elems(s) !! r
    ensures Without(s, r) == s
  {
    if s != [] {
      assert s[0] in Elems(s);
      assert Elems(s[1..]) <= Elems(s);
      WithoutNone(s[1..], r);
      assert [s[0]] + s[1..] == s;
    }
  }

  lemma {:induction false} WithoutAppended(s: seq<Id>, x: Id)
    requires x !in s
    ensures Without(s + [x], {x}) == s
  {
    if s == [] {
      assert [x][1..] == [];
    } else {
      assert (s + [x])[1..] == s[1..] + [x];
      WithoutAppended(s[1..], x);
      assert [s[0]] + s[1..] == s;
    }
  }
  lemma {:induction false} WithoutConcat(a: seq<Id>, b: seq<Id>, r: set<Id>)
    ensures Without(a + b, r) == Without(a, r) + Without(b, r)
  {
    if a == [] {
      assert a + b == b;
    } else {
      assert (a + b)[0] == a[0] && (a + b)[1..] == a[1..] + b;
      WithoutConcat(a[1..], b, r);
    }
  }

  lemma {:induction false} WithoutTwice(s: seq<Id>, a: set<Id>, b: set<Id>)
    ensures Without(Without(s, a), b) == Without(s, a + b)
  {
    if s != [] {
      WithoutTwice(s[1..], a, b);
      if s[0] !in a {
        assert Without(s, a) == [s[0]] + Without(s[1..], a);
        assert Without(s, a)[1..] == Without(s[1..], a);
      }
    }
  }

  lemma {:induction false} WithoutAll(s: seq<Id>, r: set<Id>)
    requires Elems(s) <= r
    ensures Without(s, r) == []
  {
    if s != [] {
      assert s[0] in Elems(s);
      assert Elems(s[1..]) <= Elems(s);
      WithoutAll(s[1..], r);
    }
  }
}
