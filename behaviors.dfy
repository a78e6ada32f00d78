/** The behaviour registry (src/common/behaviorManager/index.ts): the
    custom behaviours register under a name; the registry lists them per
    interaction mode for one kind of graph, and installs them into G6 with
    every event handler of a Flow or Mind behaviour gated on the kind of
    graph it runs in. */
module Behaviors {
  import opened Model

  /** The mode a behaviour without `graphMode` joins. */
  const DEFAULT_MODE: string := "default"

  /** A behaviour object: its `graphType` and `graphMode`, its other
      options, `getEvents()` (event name to handler name), and for each
      handler the graph kinds of the gates wrapped around it. */
  datatype Behavior = Behavior(
    graphType: Option<GraphType>,
    graphMode: Option<string>,
    options: map<string, Value>,
    events: map<string, string>,
    guards: map<string, set<GraphType>>)

  /** `config[name]`: the fields a caller overrides (None where absent). */
  datatype Config = Config(graphType: Option<GraphType>, graphMode: Option<string>, options: map<string, Value>)

  const NoConfig: Config := Config(None, None, map[])

  /** `const { graphMode = 'default' } = behavior`. */
  function ModeOf(b: Behavior): string
  {
    if b.graphMode.Some? then b.graphMode.value else DEFAULT_MODE
  }

  /** A behaviour is offered to a graph type unless it names another. */
  predicate Listed(b: Behavior, t: GraphType)
  {
    b.graphType.None? || b.graphType == Some(t)
  }

  /** The gate of one wrapper: Flow handlers run on non-mind graphs, Mind
      handlers on mind graphs. */
  predicate Matches(t: GraphType, mind: bool)
  {
    if t == Flow then !mind else mind
  }

  /** The handler `h` reaches its original code on a graph of the kind
      `mind`: every gate around it lets the call through. */
  predicate Runs(b: Behavior, h: string, mind: bool)
  {
    h in b.guards ==> forall t :: t in b.guards[h] ==> Matches(t, mind)
  }

  /** lodash `merge(behavior, config)`: the fields the config defines win. */
  function Merge(b: Behavior, c: Config): Behavior
  {
    b.(graphType := if c.graphType.Some? then c.graphType else b.graphType,
       graphMode := if c.graphMode.Some? then c.graphMode else b.graphMode,
       options := b.options + c.options)
  }

  /** wrapEventHandler(t, behavior): each handler named by an event gets one
      more gate, of kind `t`. */
  function Wrapped(t: GraphType, b: Behavior): Behavior
  {
    b.(guards := map h | h in b.guards.Keys + b.events.Values ::
         (if h in b.guards then b.guards[h] else {}) + (if h in b.events.Values then {t} else {}))
  }

  /** What registeBehaviors makes of the behaviour stored under `name`. */
  function Registered(b: Behavior, config: map<string, Config>, name: string): Behavior
  {
    var m := Merge(b, if name in config then config[name] else NoConfig);
    match m.graphType
    case Some(t) => Wrapped(t, m)
    case None => m
  }

  /** A wrapped handler runs exactly when it ran before and the graph is of
      the wrapper's kind; handlers no event names are left alone. */
  lemma WrappedGate(t: GraphType, b: Behavior, h: string, mind: bool)
    ensures h in b.events.Values ==> (Runs(Wrapped(t, b), h, mind) <==> Runs(b, h, mind) && Matches(t, mind))
    ensures h !in b.events.Values ==> (Runs(Wrapped(t, b), h, mind) <==> Runs(b, h, mind))
  {
    var w := Wrapped(t, b);
    if h in b.events.Values {
      assert t in w.guards[h];
      if Runs(b, h, mind) && Matches(t, mind) {
        forall u | u in w.guards[h]
          ensures Matches(u, mind)
        {
        }
      }
    } else if h in b.guards {
      assert w.guards[h] == b.guards[h];
    }
  }

  /** After registration, an event handler of a behaviour whose (merged)
      `graphType` is Flow never runs on a mind graph, and one whose type is
      Mind never runs on another graph; an untyped behaviour's handlers are
      not gated at all. */
  lemma RegisteredGate(b: Behavior, config: map<string, Config>, name: string, h: string, mind: bool)
    requires h in b.events.Values
    ensures var m := Merge(b, if name in config then config[name] else NoConfig);
      var r := Registered(b, config, name);
      && (m.graphType.Some? ==> (Runs(r, h, mind) <==> Runs(b, h, mind) && Matches(m.graphType.value, mind)))
      && (m.graphType.None? ==> r.guards == b.guards)
  {
    var m := Merge(b, if name in config then config[name] else NoConfig);
    if m.graphType.Some? {
      WrappedGate(m.graphType.value, m, h, mind);
    }
  }

  /** Merging the same configuration twice is merging it once. */
  lemma MergeTwice(b: Behavior, c: Config)
    ensures Merge(Merge(b, c), c) == Merge(b, c)
  {
    assert b.options + c.options + c.options == b.options + c.options;
  }

  /** A second gate of the same kind adds no condition. */
  lemma WrappedTwice(t: GraphType, b: Behavior)
    ensures Wrapped(t, Wrapped(t, b)) == Wrapped(t, b)
  {
    var w := Wrapped(t, b);
    assert Wrapped(t, w).guards == w.guards;
  }

  /** Registering again with the same configuration changes nothing. */
  lemma RegisterTwice(b: Behavior, config: map<string, Config>, name: string)
    ensures Registered(Registered(b, config, name), config, name) == Registered(b, config, name)
  {
    var c := if name in config then config[name] else NoConfig;
    var m := Merge(b, c);
    MergeTwice(b, c);
    if m.graphType.Some? {
      var t := m.graphType.value;
      assert Merge(Wrapped(t, m), c) == Wrapped(t, Merge(m, c));
      WrappedTwice(t, m);
    }
  }

  /** A behaviour configured first as Flow and then as Mind ends up with
      handlers that run on no graph at all: gates accumulate. */
  lemma GatesAccumulate(b: Behavior, h: string, mind: bool)
    requires h in b.events.Values
    ensures !Runs(Wrapped(Mind, Wrapped(Flow, b)), h, mind)
  {
    var w := Wrapped(Mind, Wrapped(Flow, b));
    assert Flow in w.guards[h] && Mind in w.guards[h];
  }

  /** The merge and the switch on `graphType` for one behaviour. */
  method Prepare(stored: Behavior, config: map<string, Config>, name: string) returns (b: Behavior)
    ensures b == Registered(stored, config, name)
  {
    b := Merge(stored, if name in config then config[name] else NoConfig);
    match b.graphType {
      case Some(Flow) =>
        b := Wrapped(Flow, b);
      case Some(Mind) =>
        b := Wrapped(Mind, b);
      case None =>
    }
  }

  class BehaviorManager {
    var names: seq<string>                 // Object.keys(this.behaviors)
    var behaviors: map<string, Behavior>
    var g6: map<string, Behavior>          // G6.registerBehavior's registry

    predicate Valid()
      reads this
    {
      Distinct(names) && Elems(names) == behaviors.Keys
    }

    /** An empty registry over G6's registry `registry`. */
    constructor (registry: map<string, Behavior>)
      ensures Valid() && names == [] && behaviors == map[] && g6 == registry
    {
      names := [];
      behaviors := map[];
      g6 := registry;
    }

    /** register: stores the behaviour, replacing any of the same name. */
    method Register(name: string, b: Behavior)
      requires Valid()
      modifies this`names, this`behaviors
      ensures Valid() && behaviors == old(behaviors)[name := b]
      ensures names == if name in old(behaviors) then old(names) else old(names) + [name]
    {
      if name !in behaviors {
        DistinctSnoc(names, name);
        names := names + [name];
      }
      behaviors := behaviors[name := b];
    }

    /** getRegisteredBehaviors(type): the modes configuration, each mode
        holding name to name for exactly the behaviours offered to `type`
        that belong to it. */
    method GetRegisteredBehaviors(t: GraphType) returns (r: map<string, map<string, string>>)
      requires Valid()
      ensures forall n :: n in behaviors && Listed(behaviors[n], t) ==> ModeOf(behaviors[n]) in r && n in r[ModeOf(behaviors[n])]
      ensures forall mode, n :: mode in r && n in r[mode] ==> n in behaviors && Listed(behaviors[n], t) && ModeOf(behaviors[n]) == mode
      ensures forall mode :: mode in r ==> forall n :: n in r[mode] ==> r[mode][n] == n
    {
      r := map[];
      var i := 0;
      while i < |names|
        invariant 0 <= i <= |names|
        invariant forall n :: n in names[..i] && Listed(behaviors[n], t) ==> ModeOf(behaviors[n]) in r && n in r[ModeOf(behaviors[n])]
        invariant forall mode, n :: mode in r && n in r[mode] ==> n in names[..i] && Listed(behaviors[n], t) && ModeOf(behaviors[n]) == mode
        invariant forall mode :: mode in r ==> forall n :: n in r[mode] ==> r[mode][n] == n
      {
        assert names[..i + 1] == names[..i] + [names[i]];
        var name := names[i];
        var b := behaviors[name];
        if !(b.graphType.Some? && b.graphType != Some(t)) {
          var mode := ModeOf(b);
          if mode !in r {
            r := r[mode := map[]];
          }
          r := r[mode := r[mode][name := name]];
        }
        i := i + 1;
      }
      assert names[..|names|] == names;
    }

    /** The merged behaviour is stored back (merge and wrapEventHandler
        change the stored object) and handed to G6. */
    method Store(name: string, b: Behavior)
      modifies this`behaviors, this`g6
      ensures behaviors == old(behaviors)[name := b] && g6 == old(g6)[name := b]
    {
      behaviors := behaviors[name := b];
      g6 := g6[name := b];
    }

    /** registeBehaviors(config): every stored behaviour is merged with its
        configuration, gated when it is typed, stored back and handed to
        G6 under its name. */
    method RegisteBehaviors(config: map<string, Config>)
      requires Valid()
      modifies this`behaviors, this`g6
      ensures Valid()
      ensures behaviors == RegisteredOf(old(behaviors), config, old(behaviors).Keys)
      ensures g6 == Installed(old(g6), behaviors, behaviors.Keys)
    {
      var i := 0;
      while i < |names|
        invariant 0 <= i <= |names|
        invariant Elems(names[..i]) <= old(behaviors).Keys
        invariant behaviors == RegisteredOf(old(behaviors), config, Elems(names[..i]))
        invariant g6 == Installed(old(g6), behaviors, Elems(names[..i]))
      {
        NextName(names, i);
        var name := names[i];
        RegisterStep(old(behaviors), config, Elems(names[..i]), name);
        var b := Prepare(behaviors[name], config, name);
        InstallStep(old(g6), behaviors, Elems(names[..i]), name, b);
        Store(name, b);
        i := i + 1;
      }
      assert names[..|names|] == names;
    }
  }

  /** Going through distinct names, the next one is not yet done. */
  lemma NextName(names: seq<string>, i: nat)
    requires Distinct(names) && i < |names|
    ensures Elems(names[..i + 1]) == Elems(names[..i]) + {names[i]}
    ensures names[i] !in Elems(names[..i])
  {
    assert names[..i + 1] == names[..i] + [names[i]];
    forall k | 0 <= k < i
      ensures names[..i][k] != names[i]
    {
      assert names[..i][k] == names[k];
    }
  }

  /** The stored behaviours once those in `done` went through registration. */
  function RegisteredOf(m: map<string, Behavior>, config: map<string, Config>, done: set<string>): (r: map<string, Behavior>)
    ensures r.Keys == m.Keys
    ensures forall n :: n in r ==> r[n] == if n in done then Registered(m[n], config, n) else m[n]
  {
    map n | n in m :: if n in done then Registered(m[n], config, n) else m[n]
  }

  /** G6's registry once the behaviours of `done` were handed to it. */
  function Installed(g: map<string, Behavior>, m: map<string, Behavior>, done: set<string>): (r: map<string, Behavior>)
    requires done <= m.Keys
    ensures r.Keys == g.Keys + done
    ensures forall n :: n in r ==> r[n] == if n in done then m[n] else g[n]
  {
    map n | n in g.Keys + done :: if n in done then m[n] else g[n]
  }

  lemma RegisterStep(m: map<string, Behavior>, config: map<string, Config>, done: set<string>, name: string)
    requires name in m && name !in done
    ensures RegisteredOf(m, config, done)[name := Registered(m[name], config, name)] == RegisteredOf(m, config, done + {name})
  {
  }

  lemma InstallStep(g: map<string, Behavior>, m: map<string, Behavior>, done: set<string>, name: string, b: Behavior)
    requires done <= m.Keys && name !in done
    ensures Installed(g, m, done)[name := b] == Installed(g, m[name := b], done + {name})
  {
  }
}
