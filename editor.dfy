/** src/components/Editor/index.tsx without its React rendering: which
    key presses reach the commands, how a key press is matched against the
    commands' shortcuts, and `executeCommand`. */
module EditorShortcuts {
  import opened Model
  import opened G6
  import opened G6Graph
  import opened Session
  import opened Commands
  import opened CommandManagement

  /** The fields of a KeyboardEvent the matching reads. */
  datatype KeyEvent = KeyEvent(code: string, ctrlKey: bool, altKey: bool, shiftKey: bool, metaKey: bool)

  const SPECIAL_KEYS: seq<string> := ["ctrlKey", "altKey", "shiftKey", "metaKey"]

  /** `e[keyName]` for a modifier name; any other name reads as not held. */
  predicate Held(e: KeyEvent, keyName: string)
  {
    (keyName == "ctrlKey" && e.ctrlKey) || (keyName == "altKey" && e.altKey)
    || (keyName == "shiftKey" && e.shiftKey) || (keyName == "metaKey" && e.metaKey)
  }

  /** `SPECIAL_KEYS.filter(keyName => e[keyName])`. */
  function DownKeys(e: KeyEvent): (r: seq<string>)
    ensures forall k :: k in r <==> k in SPECIAL_KEYS && Held(e, k)
    ensures Distinct(r)
  {
    Filter(SPECIAL_KEYS, k => Held(e, k))
  }

  /** One shortcut against a key press: a string must equal the key code; a
      one-element list whose element is the code matches whatever is held;
      otherwise exactly as many modifiers as the list has before its last
      element must be held, each of them listed, and the last element must
      be the code. */
  predicate Matches(s: Shortcut, e: KeyEvent)
  {
    match s
    case Key(c) => c == e.code
    case Chord(keys) =>
      (|keys| == 1 && keys[0] == e.code)
      || (|DownKeys(e)| == |keys| - 1
          && (forall i :: 0 <= i < |keys| - 1 ==> keys[i] in DownKeys(e))
          && keys[|keys| - 1] == e.code)
  }

  /** `shortcuts.some(...)`. */
  predicate Triggered(shortcuts: seq<Shortcut>, e: KeyEvent)
  {
    exists i :: 0 <= i < |shortcuts| && Matches(shortcuts[i], e)
  }

  datatype Renderer = CanvasRenderer | SvgRenderer

  /** A DOM element: its identity, its `nodeName`, and the node names of its
      ancestors from the parent up to the document root. */
  datatype Element = Element(id: nat, nodeName: string, ancestors: seq<string>)

  /** An `svg` ancestor is met before any `BODY` one. */
  predicate InsideSvg(ancestors: seq<string>)
  {
    exists i :: 0 <= i < |ancestors| && ancestors[i] == "svg" && forall j :: 0 <= j < i ==> ancestors[j] != "BODY"
  }

  /** shouldTriggerShortcut: the last pressed element is the canvas, or,
      with the SVG renderer, an `svg` element or an element inside one.  With
      the canvas renderer any other element gives `undefined`, read as
      false. */
  predicate ShouldTrigger(target: Option<Element>, canvas: nat, renderer: Renderer)
  {
    && target.Some?
    && (target.value.id == canvas
        || (renderer == SvgRenderer && (target.value.nodeName == "svg" || InsideSvg(target.value.ancestors))))
  }

  method ShouldTriggerShortcut(target: Option<Element>, canvas: nat, renderer: Renderer) returns (r: bool)
    ensures r == ShouldTrigger(target, canvas, renderer)
  {
    if target.None? {
      return false;
    }
    var t := target.value;
    if t.id == canvas {
      return true;
    }
    if renderer == SvgRenderer {
      if t.nodeName == "svg" {
        return true;
      }
      var i := 0;
      while i < |t.ancestors| && t.ancestors[i] != "BODY"
        invariant 0 <= i <= |t.ancestors|
        invariant forall j :: 0 <= j < i ==> t.ancestors[j] != "BODY" && t.ancestors[j] != "svg"
      {
        if t.ancestors[i] == "svg" {
          return true;
        }
        i := i + 1;
      }
      return false;
    }
    return false;
  }

  /** The command a key press runs may be `name`: one of its shortcuts
      matches and its canExecute holds. */
  predicate Runnable(command: map<string, Template>, name: string, v: GraphValue, e: KeyEvent,
                     clipboard: seq<ItemModel>, index: nat, length: nat)
  {
    && name in command
    && Triggered(Shortcuts(command[name].kind), e)
    && CanExecute(command[name].kind, v, command[name].params, clipboard, index, length)
  }

  /** The first runnable command in registration order. */
  function FirstRunnable(names: seq<string>, command: map<string, Template>, v: GraphValue, e: KeyEvent,
                         clipboard: seq<ItemModel>, index: nat, length: nat): Option<string>
  {
    if names == [] then None
    else if Runnable(command, names[0], v, e, clipboard, index, length) then Some(names[0])
    else FirstRunnable(names[1..], command, v, e, clipboard, index, length)
  }

  class Editor {
    /** The graph once setGraph has run; null before. */
    var graph: Graph?
    const manager: CommandManager
    const session: Session
    /** The target of the last mousedown on the window. */
    var lastMousedownTarget: Option<Element>

    constructor(manager: CommandManager, session: Session)
      ensures graph == null && lastMousedownTarget == None
      ensures this.manager == manager && this.session == session
    {
      graph := null;
      this.manager := manager;
      this.session := session;
      lastMousedownTarget := None;
    }

    /** The window's mousedown listener. */
    method OnMouseDown(target: Element)
      modifies this`lastMousedownTarget
      ensures lastMousedownTarget == Some(target)
    {
      lastMousedownTarget := Some(target);
    }

    /** executeCommand(name, params): nothing while there is no graph.
        `seen` is the caller's params object afterwards. */
    method ExecuteCommand(name: string, params: Params) returns (seen: Params)
      requires manager.Valid()
      modifies graph, session`drawn, session`clipboard, manager`queue, manager`index
      ensures manager.Valid()
      ensures graph == null ==>
        && manager.Recorded() == old(manager.Recorded()) && session.drawn == old(session.drawn)
        && session.clipboard == old(session.clipboard) && seen == params
      ensures graph != null ==>
        var r := Step(old(graph.View()), old(manager.Recorded()), manager.Lookup(name), params, manager.GuardOf(name),
                      old(session.clipboard), session.guid, old(session.drawn));
        && r.graph == graph.View() && r.history == manager.Recorded()
        && r.clipboard == session.clipboard && r.drawn == session.drawn
        && seen == CallerSees(old(graph.View()), manager.Lookup(name), params, manager.GuardOf(name),
                              old(session.clipboard), session.guid, old(session.drawn), old(manager.index), old(|manager.queue|))
    {
      seen := params;
      if graph != null {
        var _, written := manager.Execute(graph, session, name, params);
        seen := written;
      }
    }

    /** The graph's keydown handler: when the last pressed element lets
        shortcuts through, the first registered command that has a matching
        shortcut and can run is executed, with no params. */
    method OnKeyDown(e: KeyEvent, canvas: nat, renderer: Renderer) returns (ran: Option<string>)
      requires graph != null && manager.Valid()
      modifies graph, session`drawn, session`clipboard, manager`queue, manager`index
      ensures manager.Valid()
      ensures ran == if ShouldTrigger(lastMousedownTarget, canvas, renderer)
        then FirstRunnable(manager.names, manager.command, old(graph.View()), e, old(session.clipboard),
                           old(manager.index), old(|manager.queue|))
        else None
      ensures ran.None? ==>
        && graph.View() == old(graph.View()) && manager.Recorded() == old(manager.Recorded())
        && session.drawn == old(session.drawn) && session.clipboard == old(session.clipboard)
      ensures ran.Some? ==>
        var r := Step(old(graph.View()), old(manager.Recorded()), manager.Lookup(ran.value), map[],
                      manager.GuardOf(ran.value), old(session.clipboard), session.guid, old(session.drawn));
        && r.graph == graph.View() && r.history == manager.Recorded()
        && r.clipboard == session.clipboard && r.drawn == session.drawn
    {
      var go := ShouldTriggerShortcut(lastMousedownTarget, canvas, renderer);
      if !go {
        return None;
      }
      ran := FindRunnable(e);
      if ran.Some? {
        var _ := ExecuteCommand(ran.value, map[]);
      }
    }

    /** The scan of `Object.values(commandManager.command).some(...)`. */
    method FindRunnable(e: KeyEvent) returns (ran: Option<string>)
      requires graph != null && manager.Valid()
      ensures ran == FirstRunnable(manager.names, manager.command, graph.View(), e, session.clipboard,
                                   manager.index, |manager.queue|)
    {
      var names := manager.names;
      var i := 0;
      while i < |names|
        invariant 0 <= i <= |names|
        invariant FirstRunnable(names, manager.command, graph.View(), e, session.clipboard, manager.index, |manager.queue|)
          == FirstRunnable(names[i..], manager.command, graph.View(), e, session.clipboard, manager.index, |manager.queue|)
      {
        var t := manager.command[names[i]];
        var flag := AnyMatches(Shortcuts(t.kind), e);
        if flag {
          var can := manager.CanExecuteCommand(graph, session, names[i]);
          if can == Some(true) {
            return Some(names[i]);
          }
        }
        assert names[i..][1..] == names[i + 1..];
        i := i + 1;
      }
      return None;
    }
  }

  /** `shortcuts.some(...)` as a scan. */
  method AnyMatches(shortcuts: seq<Shortcut>, e: KeyEvent) returns (flag: bool)
    ensures flag == Triggered(shortcuts, e)
  {
    var i := 0;
    while i < |shortcuts|
      invariant 0 <= i <= |shortcuts|
      invariant forall j :: 0 <= j < i ==> !Matches(shortcuts[j], e)
    {
      if Matches(shortcuts[i], e) {
        return true;
      }
      i := i + 1;
    }
    return false;
  }

  /** The command chosen is registered, it is runnable, and no command
      registered before it is. */
  lemma {:induction false} FirstRunnableIsFirst(names: seq<string>, command: map<string, Template>, v: GraphValue, e: KeyEvent,
                                                clipboard: seq<ItemModel>, index: nat, length: nat)
    ensures var r := FirstRunnable(names, command, v, e, clipboard, index, length);
      && (r.None? <==> forall i :: 0 <= i < |names| ==> !Runnable(command, names[i], v, e, clipboard, index, length))
      && (r.Some? ==>
            exists i ::
              && 0 <= i < |names| && names[i] == r.value
              && Runnable(command, names[i], v, e, clipboard, index, length)
              && forall j :: 0 <= j < i ==> !Runnable(command, names[j], v, e, clipboard, index, length))
  {
    if names != [] {
      FirstRunnableIsFirst(names[1..], command, v, e, clipboard, index, length);
      var r := FirstRunnable(names, command, v, e, clipboard, index, length);
      if !Runnable(command, names[0], v, e, clipboard, index, length) {
        if r.Some? {
          var i :| 0 <= i < |names[1..]| && names[1..][i] == r.value
            && Runnable(command, names[1..][i], v, e, clipboard, index, length)
            && forall j :: 0 <= j < i ==> !Runnable(command, names[1..][j], v, e, clipboard, index, length);
          assert names[i + 1] == r.value;
          forall j | 0 <= j < i + 1
            ensures !Runnable(command, names[j], v, e, clipboard, index, length)
          {
            if j > 0 {
              assert names[j] == names[1..][j - 1];
            }
          }
        } else {
          forall i | 0 <= i < |names|
            ensures !Runnable(command, names[i], v, e, clipboard, index, length)
          {
            if i > 0 {
              assert names[i] == names[1..][i - 1];
            }
          }
        }
      } else {
        assert names[0] == r.value;
      }
    }
  }

  /** With the modifier count exact, no key press triggers both undo
      (one modifier) and redo (two modifiers). */
  lemma UndoRedoExclusive(e: KeyEvent)
    ensures !(Triggered(Shortcuts(UndoKind), e) && Triggered(Shortcuts(RedoKind), e))
  {
    if Triggered(Shortcuts(UndoKind), e) {
      var i :| 0 <= i < 2 && Matches(Shortcuts(UndoKind)[i], e);
      assert |DownKeys(e)| == 1;
      forall j | 0 <= j < 2
        ensures !Matches(Shortcuts(RedoKind)[j], e)
      {
      }
    }
  }

  /** A command with no shortcuts (baseCommand's list) never matches. */
  lemma NoShortcutNeverMatches(e: KeyEvent)
    ensures !Triggered(Shortcuts(BaseKind), e)
  {
  }

  /** No modelled command listens to `Equal` or `Minus`, the codes of the
      zoomIn and zoomOut chords, so leaving the zoom commands out of the
      table changes no other key's command. */
  lemma ZoomCodesUnclaimed(k: Kind, e: KeyEvent)
    requires e.code == "Equal" || e.code == "Minus"
    ensures !Triggered(Shortcuts(k), e)
  {
    var s := Shortcuts(k);
    forall i | 0 <= i < |s|
      ensures !Matches(s[i], e)
    {
      if s[i].Chord? {
        var keys := s[i].keys;
        assert keys[|keys| - 1] != e.code;
      }
    }
  }

  /** A chord of distinct modifier names followed by a code matches exactly
      when the held modifiers are the listed ones and the code is the last
      element. */
  lemma ChordExact(keys: seq<string>, e: KeyEvent)
    requires |keys| >= 2 && Distinct(keys[..|keys| - 1])
    requires forall i :: 0 <= i < |keys| - 1 ==> keys[i] in SPECIAL_KEYS
    requires keys[|keys| - 1] !in SPECIAL_KEYS
    ensures Matches(Chord(keys), e) <==>
      (forall k :: k in SPECIAL_KEYS ==> (Held(e, k) <==> k in keys[..|keys| - 1])) && keys[|keys| - 1] == e.code
  {
    if Matches(Chord(keys), e) {
      ChordHeld(keys, e);
    }
    if (forall k :: k in SPECIAL_KEYS ==> (Held(e, k) <==> k in keys[..|keys| - 1])) && keys[|keys| - 1] == e.code {
      HeldChord(keys, e);
    }
  }

  lemma ChordHeld(keys: seq<string>, e: KeyEvent)
    requires |keys| >= 2 && Distinct(keys[..|keys| - 1])
    requires Matches(Chord(keys), e)
    ensures forall k :: k in SPECIAL_KEYS ==> (Held(e, k) <==> k in keys[..|keys| - 1])
    ensures keys[|keys| - 1] == e.code
  {
    var prefix := keys[..|keys| - 1];
    var down := DownKeys(e);
    assert Elems(prefix) <= Elems(down) by {
      forall k | k in prefix
        ensures k in down
      {
        var i :| 0 <= i < |prefix| && prefix[i] == k;
        assert keys[i] == k;
      }
    }
    DistinctCard(prefix);
    DistinctCard(down);
    SubsetSameSize(Elems(prefix), Elems(down));
    forall k | k in SPECIAL_KEYS
      ensures Held(e, k) <==> k in prefix
    {
      assert k in down <==> k in Elems(down);
      assert k in prefix <==> k in Elems(prefix);
    }
  }

  lemma HeldChord(keys: seq<string>, e: KeyEvent)
    requires |keys| >= 2 && Distinct(keys[..|keys| - 1])
    requires forall i :: 0 <= i < |keys| - 1 ==> keys[i] in SPECIAL_KEYS
    requires forall k :: k in SPECIAL_KEYS ==> (Held(e, k) <==> k in keys[..|keys| - 1])
    requires keys[|keys| - 1] == e.code
    ensures Matches(Chord(keys), e)
  {
    var prefix := keys[..|keys| - 1];
    var down := DownKeys(e);
    assert forall k :: k in prefix ==> k in SPECIAL_KEYS by {
      forall k | k in prefix
        ensures k in SPECIAL_KEYS
      {
        var i :| 0 <= i < |prefix| && prefix[i] == k;
        assert keys[i] == k;
      }
    }
    assert Elems(down) == Elems(prefix);
    DistinctCard(prefix);
    DistinctCard(down);
    forall i | 0 <= i < |keys| - 1
      ensures keys[i] in down
    {
      assert keys[i] == prefix[i];
    }
  }

  lemma DistinctCard<T>(s: seq<T>)
    requires Distinct(s)
    ensures |Elems(s)| == |s|
  {
    if s != [] {
      assert Distinct(s[1..]);
      DistinctCard(s[1..]);
      assert Elems(s) == {s[0]} + Elems(s[1..]);
      assert s[0] !in Elems(s[1..]);
    }
  }

  lemma SubsetSameSize<T>(a: set<T>, b: set<T>)
    requires a <= b && |a| == |b|
    ensures a == b
  {
    if a != b {
      var x :| x in b && x !in a;
      SubsetCard(a, b - {x});
    }
  }

  lemma SubsetCard<T>(a: set<T>, b: set<T>)
    requires a <= b
    ensures |a| <= |b|
  {
    if a != {} {
      var y :| y in a;
      SubsetCard(a - {y}, b - {y});
    }
  }
}
