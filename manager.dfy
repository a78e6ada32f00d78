/** src/common/CommandManager/index.ts together with the execute of
    undo.ts and redo.ts: the table of registered commands, the history of
    executed commands with its cursor, and the run of one command through
    its guards, init, execute, events and history update. */
module CommandManagement {
  import opened Model
  import opened G6
  import opened G6Graph
  import opened Utils
  import opened Session
  import opened Commands
  import AddCommand
  import RestackCommand
  import EdgeVisibilityCommand

  /** `commandQueue` and `commandIndex`: the entries before the cursor can be
      undone, the ones from the cursor on redone. */
  datatype History = History(queue: seq<Template>, index: nat)

  /** The cursor stays within the queue, and only undoable commands are
      queued. */
  predicate HistoryValid(h: History)
  {
    h.index <= |h.queue| && forall i :: 0 <= i < |h.queue| ==> CanUndo(h.queue[i].kind)
  }

  /** `commandQueue.splice(commandIndex, length - commandIndex, command)`
      followed by `commandIndex += 1`. */
  function Pushed(h: History, c: Template): History
    requires h.index <= |h.queue|
  {
    History(h.queue[..h.index] + [c], h.index + 1)
  }

  /** undo's `commandIndex -= 1`. */
  function Undid(h: History): History
    requires 0 < h.index
  {
    h.(index := h.index - 1)
  }

  /** redo's `commandIndex += 1`. */
  function Redid(h: History): History
  {
    h.(index := h.index + 1)
  }

  /** How a call of `execute` ends: it returned early without doing
      anything, a step threw, or it ran to the end. */
  datatype Outcome = Skipped | Aborted | Done

  /** Everything one call of `execute` can change. */
  datatype Stepped = Stepped(outcome: Outcome, graph: GraphValue, history: History, clipboard: seq<ItemModel>, drawn: nat)

  /** The two events that close a run: the after-execute event with the
      command's name and params, then the state of the graph at that point. */
  function Announced(w: GraphValue, c: Template): GraphValue
  {
    var a := Emit(w, AfterExecuteCommand(c.name, c.params));
    Emit(a, GraphStateChange(GetGraphState(a)))
  }

  /** `execute(graph, name, params)` when the table gives `t` for `name`
      (None when the name is not registered) and `guard` is a
      `shouldExecute` injected for it.  Ids are drawn from `guid` from draw
      number `from` on. */
  function Step(v: GraphValue, h: History, t: Option<Template>, caller: Params, guard: Option<GraphValue -> bool>,
                clipboard: seq<ItemModel>, guid: nat -> Id, from: nat): Stepped
    requires HistoryValid(h)
  {
    var idle := Stepped(Skipped, v, h, clipboard, from);
    if t.None? then idle
    else
      var c := t.value;
      var p := MergeParams(c.params, caller);
      if !CanExecute(c.kind, v, p, clipboard, h.index, |h.queue|) then idle
      else if guard.Some? && !guard.value(v) then idle
      else
        var prep := Initialized(c.kind, v, p, clipboard, guid, from);
        if prep.None? then Stepped(Aborted, v, h, clipboard, from)
        else
          var q := prep.value.params;
          Performed(Emit(v, BeforeExecuteCommand(c.name, q)), h, c.(params := q), clipboard, prep.value.drawn)
  }

  /** The caller's `params` object after the same run: when init runs and
      succeeds, its writes into the objects the caller passed show through
      (`WrittenBack`); a run stopped earlier leaves them as they were. */
  function CallerSees(v: GraphValue, t: Option<Template>, caller: Params, guard: Option<GraphValue -> bool>,
                      clipboard: seq<ItemModel>, guid: nat -> Id, from: nat, index: nat, length: nat): (r: Params)
    ensures r.Keys == caller.Keys
  {
    if t.None? then caller
    else
      var c := t.value;
      var p := MergeParams(c.params, caller);
      if !CanExecute(c.kind, v, p, clipboard, index, length) then caller
      else if guard.Some? && !guard.value(v) then caller
      else
        var prep := Initialized(c.kind, v, p, clipboard, guid, from);
        if prep.None? then caller else WrittenBack(c.kind, caller, prep.value.params)
  }

  /** The part of `execute` after the before-execute event, for the command
      `c` with its initialised params. */
  function Performed(b: GraphValue, h: History, c: Template, clipboard: seq<ItemModel>, drawn: nat): Stepped
    requires HistoryValid(h)
    requires c.kind == UndoKind ==> 0 < h.index
    requires c.kind == RedoKind ==> h.index < |h.queue|
  {
    if c.kind == UndoKind then UndoStep(b, h, c, clipboard, drawn)
    else if c.kind == RedoKind then RedoStep(b, h, c, clipboard, drawn)
    else OwnStep(b, h, c, clipboard, drawn)
  }

  /** undo.ts's execute: announce that portals close, undo the entry
      behind the cursor with the params it ran with, move the cursor back. */
  function UndoStep(b: GraphValue, h: History, c: Template, clipboard: seq<ItemModel>, drawn: nat): Stepped
    requires 0 < h.index <= |h.queue|
  {
    var e := h.queue[h.index - 1];
    var r := Undone(e.kind, Emit(b, HidePortalTriger), e.params);
    if r.Threw? then Stepped(Aborted, r.graph, h, clipboard, drawn)
    else Stepped(Done, Announced(r.graph, c), Undid(h), clipboard, drawn)
  }

  /** redo.ts's execute: run the entry at the cursor again with the params
      it ran with (no init), move the cursor forward. */
  function RedoStep(b: GraphValue, h: History, c: Template, clipboard: seq<ItemModel>, drawn: nat): Stepped
    requires h.index < |h.queue|
  {
    var e := h.queue[h.index];
    var r := Executed(e.kind, b, e.params);
    if r.Threw? then Stepped(Aborted, r.graph, h, clipboard, drawn)
    else Stepped(Done, Announced(r.graph, c), Redid(h), clipboard, drawn)
  }

  /** Any other command: its own execute, then the history entry when it can
      be undone. */
  function OwnStep(b: GraphValue, h: History, c: Template, clipboard: seq<ItemModel>, drawn: nat): Stepped
    requires h.index <= |h.queue|
  {
    var r := Executed(c.kind, b, c.params);
    var clip := ClipboardAfter(c.kind, b, clipboard);
    if r.Threw? then Stepped(Aborted, r.graph, h, clip, drawn)
    else Stepped(Done, Announced(r.graph, c), if CanUndo(c.kind) then Pushed(h, c) else h, clip, drawn)
  }

  class CommandManager {
    /** The registered commands, by name. */
    var command: map<string, Template>
    /** The names in the order they were first registered: the order in
        which `Object.values(command)` lists the commands. */
    var names: seq<string>
    /** The `shouldExecute` injected into a registered command; a command
        without one keeps baseCommand's, which is always true. */
    var guards: map<string, GraphValue -> bool>
    var queue: seq<Template>
    var index: nat

    function Recorded(): History
      reads this
    {
      History(queue, index)
    }

    /** Every command is registered under its own name, and the history is
        well formed. */
    predicate Valid()
      reads this
    {
      && (forall n :: n in command ==> command[n].name == n)
      && command.Keys == Elems(names)
      && Distinct(names)
      && HistoryValid(Recorded())
    }

    function Lookup(name: string): Option<Template>
      reads this
    {
      if name in command then Some(command[name]) else None
    }

    function GuardOf(name: string): Option<GraphValue -> bool>
      reads this
    {
      if name in guards then Some(guards[name]) else None
    }

    constructor()
      ensures command == map[] && names == [] && guards == map[] && queue == [] && index == 0
      ensures Valid()
    {
      command := map[];
      names := [];
      guards := map[];
      queue := [];
      index := 0;
    }

    /** register: a copy of the command, renamed to `name`, replaces any
        command of that name, and with it any `shouldExecute` injected into
        the replaced one. */
    method Register(name: string, t: Template)
      requires Valid()
      modifies this`command, this`names, this`guards
      ensures command == old(command)[name := t.(name := name)]
      ensures names == if name in old(command) then old(names) else old(names) + [name]
      ensures guards == old(guards) - {name}
      ensures Valid()
    {
      if name !in command {
        names := names + [name];
      }
      command := command[name := t.(name := name)];
      guards := guards - {name};
    }

    /** execute(graph, name, params); a missing `params` is `{}`. */
    method Execute(g: Graph, s: Session, name: string, params: Params) returns (outcome: Outcome, seen: Params)
      requires Valid()
      modifies g, s`drawn, s`clipboard, this`queue, this`index
      ensures Valid()
      ensures Step(old(g.View()), old(Recorded()), Lookup(name), params, GuardOf(name), old(s.clipboard), s.guid, old(s.drawn))
        == Stepped(outcome, g.View(), Recorded(), s.clipboard, s.drawn)
      ensures seen == CallerSees(old(g.View()), Lookup(name), params, GuardOf(name), old(s.clipboard), s.guid, old(s.drawn),
                                 old(index), old(|queue|))
    {
      var c: Option<Template>;
      outcome, seen, c := Admit(g, s, name, params);
      if c.Some? {
        g.Emit(BeforeExecuteCommand(c.value.name, c.value.params));
        outcome := Perform(g, s, c.value);
      }
    }

    /** execute up to the before-execute event: look the command up, merge
        the params, ask canExecute and the guard, run init. `c` is the
        command with its initialised params when all of them let it through. */
    method Admit(g: Graph, s: Session, name: string, params: Params) returns (outcome: Outcome, seen: Params, c: Option<Template>)
      requires Valid()
      modifies s`drawn
      ensures seen == CallerSees(g.View(), Lookup(name), params, GuardOf(name), s.clipboard, s.guid, old(s.drawn),
                                 index, |queue|)
      ensures c.None? ==>
        (Step(g.View(), Recorded(), Lookup(name), params, GuardOf(name), s.clipboard, s.guid, old(s.drawn))
           == Stepped(outcome, g.View(), Recorded(), s.clipboard, s.drawn))
      ensures c.Some? ==>
        && (c.value.kind == UndoKind ==> 0 < index)
        && (c.value.kind == RedoKind ==> index < |queue|)
        && Step(g.View(), Recorded(), Lookup(name), params, GuardOf(name), s.clipboard, s.guid, old(s.drawn))
          == Performed(Emit(g.View(), BeforeExecuteCommand(c.value.name, c.value.params)), Recorded(), c.value, s.clipboard, s.drawn)
    {
      seen := params;
      c := None;
      outcome := Skipped;
      if name !in command {
        return;
      }
      var t := command[name];
      var p := MergeParams(t.params, params);
      if !CanExecute(t.kind, g.View(), p, s.clipboard, index, |queue|) {
        return;
      }
      if name in guards && !guards[name](g.View()) {
        return;
      }
      var prep := Init(g, s, t.kind, p);
      if prep.None? {
        outcome := Aborted;
        return;
      }
      seen := WrittenBack(t.kind, params, prep.value);
      c := Some(t.(params := prep.value));
    }

    /** The part of execute after the before-execute event. */
    method Perform(g: Graph, s: Session, c: Template) returns (outcome: Outcome)
      requires Valid()
      requires c.kind == UndoKind ==> 0 < index
      requires c.kind == RedoKind ==> index < |queue|
      modifies g, s`clipboard, this`queue, this`index
      ensures Valid()
      ensures Performed(old(g.View()), old(Recorded()), c, old(s.clipboard), s.drawn)
        == Stepped(outcome, g.View(), Recorded(), s.clipboard, s.drawn)
    {
      if c.kind == UndoKind {
        outcome := PerformUndo(g, s, c);
      } else if c.kind == RedoKind {
        outcome := PerformRedo(g, s, c);
      } else {
        outcome := PerformOwn(g, s, c);
      }
    }

    method PerformUndo(g: Graph, s: Session, c: Template) returns (outcome: Outcome)
      requires Valid() && 0 < index
      modifies g, this`index
      ensures Valid()
      ensures UndoStep(old(g.View()), old(Recorded()), c, s.clipboard, s.drawn)
        == Stepped(outcome, g.View(), Recorded(), s.clipboard, s.drawn)
    {
      var threw := UndoEntry(g, queue[index - 1]);
      if threw {
        return Aborted;
      }
      Finish(g, c);
      StepBack();
      outcome := Done;
    }

    /** undo's execute up to the history: hide the portal, then undo the
        entry before the cursor. */
    static method UndoEntry(g: Graph, e: Template) returns (threw: bool)
      modifies g
      ensures Undone(e.kind, Emit(old(g.View()), HidePortalTriger), e.params)
           == if threw then Threw(g.View()) else Ran(g.View())
    {
      g.Emit(HidePortalTriger);
      threw := Undo(g, e.kind, e.params);
    }

    /** undo's `commandIndex -= 1`. */
    method StepBack()
      requires Valid() && 0 < index
      modifies this`index
      ensures Valid() && Recorded() == Undid(old(Recorded()))
    {
      index := index - 1;
    }

    method PerformRedo(g: Graph, s: Session, c: Template) returns (outcome: Outcome)
      requires Valid() && index < |queue|
      modifies g, s`clipboard, this`index
      ensures Valid()
      ensures RedoStep(old(g.View()), old(Recorded()), c, old(s.clipboard), s.drawn)
        == Stepped(outcome, g.View(), Recorded(), s.clipboard, s.drawn)
    {
      var e := queue[index];
      assert CanUndo(e.kind);
      var threw := Commands.Execute(g, s, e.kind, e.params);
      if threw {
        return Aborted;
      }
      Finish(g, c);
      index := index + 1;
      outcome := Done;
    }

    method PerformOwn(g: Graph, s: Session, c: Template) returns (outcome: Outcome)
      requires Valid() && c.kind != UndoKind && c.kind != RedoKind
      modifies g, s`clipboard, this`queue, this`index
      ensures Valid()
      ensures OwnStep(old(g.View()), old(Recorded()), c, old(s.clipboard), s.drawn)
        == Stepped(outcome, g.View(), Recorded(), s.clipboard, s.drawn)
    {
      var threw := RunOwn(g, s, c);
      if threw {
        return Aborted;
      }
      if CanUndo(c.kind) {
        Push(c);
      }
      outcome := Done;
    }

    /** The command's own execute and, when it returns, the closing events. */
    method RunOwn(g: Graph, s: Session, c: Template) returns (threw: bool)
      modifies g, s`clipboard
      ensures var r := Executed(c.kind, old(g.View()), c.params);
        && threw == r.Threw?
        && g.View() == (if threw then r.graph else Announced(r.graph, c))
      ensures s.clipboard == ClipboardAfter(c.kind, old(g.View()), old(s.clipboard))
    {
      threw := Commands.Execute(g, s, c.kind, c.params);
      if !threw {
        Finish(g, c);
      }
    }

    /** The history update of execute for an undoable command. */
    method Push(c: Template)
      requires Valid() && CanUndo(c.kind)
      modifies this`queue, this`index
      ensures Recorded() == Pushed(old(Recorded()), c)
      ensures Valid()
    {
      queue := queue[..index] + [c];
      index := index + 1;
    }

    /** The after-execute and graph-state events; the history update between
        them does not touch the graph. */
    method Finish(g: Graph, c: Template)
      modifies g
      ensures g.View() == Announced(old(g.View()), c)
    {
      g.Emit(AfterExecuteCommand(c.name, c.params));
      g.Emit(GraphStateChange(GetGraphState(g.View())));
    }

    /** canExecute(graph, name): the registered command's guard with the
        params it was registered with; an unregistered name throws (None). */
    method CanExecuteCommand(g: Graph, s: Session, name: string) returns (r: Option<bool>)
      ensures r.None? <==> name !in command
      ensures r.Some? ==> (r.value <==> CanExecute(command[name].kind, g.View(), command[name].params, s.clipboard, index, |queue|))
    {
      if name !in command {
        return None;
      }
      var t := command[name];
      r := Some(CanExecute(t.kind, g.View(), t.params, s.clipboard, index, |queue|));
    }

    /** injectShouldExecute(name, f): later runs of `name` ask `f`; an
        unregistered name throws. */
    method InjectShouldExecute(name: string, f: GraphValue -> bool) returns (threw: bool)
      modifies this`guards
      ensures threw <==> name !in command
      ensures guards == if threw then old(guards) else old(guards)[name := f]
    {
      if name !in command {
        return true;
      }
      guards := guards[name := f];
      threw := false;
    }

    /** clear: an empty history. */
    method Clear()
      requires Valid()
      modifies this`queue, this`index
      ensures queue == [] && index == 0
      ensures Valid()
    {
      queue := [];
      index := 0;
    }
  }

  /** execute returns early, changing nothing, exactly when the name is not
      registered, the command's canExecute fails on the merged params, or an
      injected shouldExecute fails; a step that throws leaves the history
      as it was. */
  lemma SkipsExactly(v: GraphValue, h: History, t: Option<Template>, caller: Params, guard: Option<GraphValue -> bool>,
                     clipboard: seq<ItemModel>, guid: nat -> Id, from: nat)
    requires HistoryValid(h)
    ensures var r := Step(v, h, t, caller, guard, clipboard, guid, from);
      (r.outcome == Skipped <==>
        || t.None?
        || !CanExecute(t.value.kind, v, MergeParams(t.value.params, caller), clipboard, h.index, |h.queue|)
        || (guard.Some? && !guard.value(v)))
    ensures var r := Step(v, h, t, caller, guard, clipboard, guid, from);
      r.outcome == Skipped ==> r == Stepped(Skipped, v, h, clipboard, from)
    ensures Step(v, h, t, caller, guard, clipboard, guid, from).outcome == Aborted ==>
      Step(v, h, t, caller, guard, clipboard, guid, from).history == h
  {
  }

  /** Every run keeps the cursor within the queue and queues only undoable
      commands. */
  lemma StepKeepsHistoryValid(v: GraphValue, h: History, t: Option<Template>, caller: Params, guard: Option<GraphValue -> bool>,
                              clipboard: seq<ItemModel>, guid: nat -> Id, from: nat)
    requires HistoryValid(h)
    ensures HistoryValid(Step(v, h, t, caller, guard, clipboard, guid, from).history)
  {
    var r := Step(v, h, t, caller, guard, clipboard, guid, from);
    if r.outcome == Done && t.value.kind != UndoKind && t.value.kind != RedoKind && CanUndo(t.value.kind) {
      PushedValid(h, r.history.queue[h.index]);
    }
  }

  /** A run of a command other than undo and redo that gets past the
      guards and whose init succeeds is the before-execute event followed by
      the command's own step with the initialised params. */
  lemma StepRunsOwn(v: GraphValue, h: History, t: Option<Template>, caller: Params, guard: Option<GraphValue -> bool>,
                    clipboard: seq<ItemModel>, guid: nat -> Id, from: nat)
    requires HistoryValid(h)
    requires t.Some? && t.value.kind != UndoKind && t.value.kind != RedoKind
    requires Step(v, h, t, caller, guard, clipboard, guid, from).outcome != Skipped
    requires Initialized(t.value.kind, v, MergeParams(t.value.params, caller), clipboard, guid, from).Some?
    ensures var prep := Initialized(t.value.kind, v, MergeParams(t.value.params, caller), clipboard, guid, from).value;
      Step(v, h, t, caller, guard, clipboard, guid, from)
        == OwnStep(Emit(v, BeforeExecuteCommand(t.value.name, prep.params)), h, t.value.(params := prep.params), clipboard, prep.drawn)
  {
  }

  /** toFront or toBack whose `items` name an id no item has: a run that
      gets past the guards throws inside the command's batch, so nothing is
      recorded, no after-execute event follows the before-execute one, and
      auto-paint is left off. */
  lemma StaleRestackAborts(v: GraphValue, h: History, t: Option<Template>, caller: Params, guard: Option<GraphValue -> bool>,
                           clipboard: seq<ItemModel>, guid: nat -> Id, from: nat)
    requires HistoryValid(h)
    requires t.Some? && (t.value.kind == ToFrontKind || t.value.kind == ToBackKind)
    requires !(Elems(IdsParam(MergeParams(t.value.params, caller), "items")) <= AllIds(v))
    ensures var r := Step(v, h, t, caller, guard, clipboard, guid, from);
      r.outcome != Skipped ==>
        && r.outcome == Aborted && r.history == h
        && !r.graph.autoPaint && r.graph.paints == v.paints && |r.graph.events| == |v.events| + 1
  {
    var p := MergeParams(t.value.params, caller);
    var q := RestackCommand.Initialized(v, p);
    var front := t.value.kind == ToFrontKind;
    if Step(v, h, t, caller, guard, clipboard, guid, from).outcome != Skipped {
      StepRunsOwn(v, h, t, caller, guard, clipboard, guid, from);
      assert Elems(IdsParam(p, "items")) <= Elems(IdsParam(q, "items"));
      var b := Emit(v, BeforeExecuteCommand(t.value.name, q));
      assert AllIds(b) == AllIds(v);
      RestackCommand.StaleIdThrows(b, q, front);
      assert Executed(t.value.kind, b, q) == RestackCommand.Executed(b, q, front);
    }
  }

  /** showEdges or hideEdges given an `edges` list naming an id no item has:
      a run that gets past the guards throws inside the command's batch, so
      nothing is recorded, no event follows the before-execute one, and
      auto-paint is left off. */
  lemma StaleEdgesAbort(v: GraphValue, h: History, t: Option<Template>, caller: Params, guard: Option<GraphValue -> bool>,
                        clipboard: seq<ItemModel>, guid: nat -> Id, from: nat)
    requires HistoryValid(h)
    requires t.Some? && (t.value.kind == ShowEdgesKind || t.value.kind == HideEdgesKind)
    requires !(Elems(IdsParam(MergeParams(t.value.params, caller), "edges")) <= AllIds(v))
    ensures var r := Step(v, h, t, caller, guard, clipboard, guid, from);
      r.outcome != Skipped ==>
        && r.outcome == Aborted && r.history == h
        && !r.graph.autoPaint && r.graph.paints == v.paints && |r.graph.events| == |v.events| + 1
  {
    var p := MergeParams(t.value.params, caller);
    var show := t.value.kind == ShowEdgesKind;
    assert |IdsParam(p, "edges")| > 0;
    var q := EdgeVisibilityCommand.Initialized(v, p, show);
    assert q == p;
    if Step(v, h, t, caller, guard, clipboard, guid, from).outcome != Skipped {
      StepRunsOwn(v, h, t, caller, guard, clipboard, guid, from);
      var b := Emit(v, BeforeExecuteCommand(t.value.name, q));
      assert AllIds(b) == AllIds(v);
      EdgeVisibilityCommand.StaleEdgeThrows(b, q, show);
      assert Executed(t.value.kind, b, q) == EdgeVisibilityCommand.Executed(b, q, show);
    }
  }

  /** add with a model object from the caller: once the run gets past the
      guards, the caller's model holds the id the run used, the one drawn
      when it had no truthy id, and the caller's other params are as
      passed. */
  lemma AddWritesCallerModel(v: GraphValue, h: History, t: Option<Template>, caller: Params, guard: Option<GraphValue -> bool>,
                             clipboard: seq<ItemModel>, guid: nat -> Id, from: nat)
    requires HistoryValid(h)
    requires t.Some? && t.value.kind == AddKind
    requires "model" in caller && caller["model"].PModel?
    requires Step(v, h, t, caller, guard, clipboard, guid, from).outcome != Skipped
    ensures var seen := CallerSees(v, t, caller, guard, clipboard, guid, from, h.index, |h.queue|);
      && seen.Keys == caller.Keys
      && (forall key :: key in caller && key != "model" ==> seen[key] == caller[key])
      && (AddCommand.HasId(caller) ==> seen == caller)
      && (!AddCommand.HasId(caller) ==>
            && IdOf(ModelParam(seen, "model")) == guid(from)
            && ModelParam(seen, "model") - {"id"} == ModelParam(caller, "model") - {"id"})
  {
    SeenPastGuards(v, h, t, caller, guard, clipboard, guid, from);
    var p := MergeParams(t.value.params, caller);
    assert p["model"] == caller["model"];
    assert ModelParam(p, "model") == ModelParam(caller, "model");
  }

  /** Past the guards, the caller's objects show what init wrote. */
  lemma SeenPastGuards(v: GraphValue, h: History, t: Option<Template>, caller: Params, guard: Option<GraphValue -> bool>,
                       clipboard: seq<ItemModel>, guid: nat -> Id, from: nat)
    requires HistoryValid(h) && t.Some?
    requires Step(v, h, t, caller, guard, clipboard, guid, from).outcome != Skipped
    ensures var prep := Initialized(t.value.kind, v, MergeParams(t.value.params, caller), clipboard, guid, from);
      CallerSees(v, t, caller, guard, clipboard, guid, from, h.index, |h.queue|)
        == if prep.None? then caller else WrittenBack(t.value.kind, caller, prep.value.params)
  {
    SkipsExactly(v, h, t, caller, guard, clipboard, guid, from);
  }

  /** A run of add that gets past the guards completes and records the
      template with the initialised params, drawing an id only for a model
      without a truthy one. */
  lemma AddStepRecords(v: GraphValue, h: History, t: Option<Template>, caller: Params, guard: Option<GraphValue -> bool>,
                       clipboard: seq<ItemModel>, guid: nat -> Id, from: nat)
    requires HistoryValid(h)
    requires t.Some? && t.value.kind == AddKind
    requires Step(v, h, t, caller, guard, clipboard, guid, from).outcome != Skipped
    ensures var p := MergeParams(t.value.params, caller);
      var q := if AddCommand.HasId(p) then p else AddCommand.Initialized(p, guid(from));
      var r := Step(v, h, t, caller, guard, clipboard, guid, from);
      && r.outcome == Done
      && r.drawn == (if AddCommand.HasId(p) then from else from + 1)
      && r.history == Pushed(h, t.value.(params := q))
  {
  }

  /** The entry behind the cursor, the one undo would take. */
  function LastRecorded(h: History): Option<Template>
  {
    if 0 < h.index <= |h.queue| then Some(h.queue[h.index - 1]) else None
  }

  /** The params object the caller passed to an add, passed again to a
      later add, on whatever graph and history: the first run wrote its
      drawn id into the caller's model, so the later run draws no id and
      records an entry naming the same id as the first. */
  lemma SecondAddReusesId(v: GraphValue, h: History, t: Option<Template>, caller: Params, guard: Option<GraphValue -> bool>,
                          clipboard: seq<ItemModel>, guid: nat -> Id, from: nat,
                          v2: GraphValue, h2: History, clipboard2: seq<ItemModel>, from2: nat)
    requires HistoryValid(h) && HistoryValid(h2)
    requires t.Some? && t.value.kind == AddKind
    requires "model" in caller && caller["model"].PModel? && !AddCommand.HasId(caller)
    requires guid(from) != ""
    requires Step(v, h, t, caller, guard, clipboard, guid, from).outcome != Skipped
    requires Step(v2, h2, t, CallerSees(v, t, caller, guard, clipboard, guid, from, h.index, |h.queue|),
                  guard, clipboard2, guid, from2).outcome != Skipped
    ensures var r := Step(v, h, t, caller, guard, clipboard, guid, from);
      && r.drawn == from + 1
      && LastRecorded(r.history).Some?
      && IdOf(ModelParam(LastRecorded(r.history).value.params, "model")) == guid(from)
    ensures var seen := CallerSees(v, t, caller, guard, clipboard, guid, from, h.index, |h.queue|);
      var r2 := Step(v2, h2, t, seen, guard, clipboard2, guid, from2);
      && r2.drawn == from2
      && LastRecorded(r2.history).Some?
      && IdOf(ModelParam(LastRecorded(r2.history).value.params, "model")) == guid(from)
  {
    var p := MergeParams(t.value.params, caller);
    assert p["model"] == caller["model"];
    assert ModelParam(p, "model") == ModelParam(caller, "model");
    AddStepRecords(v, h, t, caller, guard, clipboard, guid, from);
    AddWritesCallerModel(v, h, t, caller, guard, clipboard, guid, from);
    var seen := CallerSees(v, t, caller, guard, clipboard, guid, from, h.index, |h.queue|);
    var p2 := MergeParams(t.value.params, seen);
    assert p2["model"] == seen["model"];
    assert AddCommand.HasId(p2);
    AddStepRecords(v2, h2, t, seen, guard, clipboard2, guid, from2);
  }

  /** toFront or toBack with an id array from the caller: once the run gets
      past the guards, the caller's array holds its own ids followed by the
      selected nodes and then the selected edges, the list the run
      recorded. */
  lemma RestackWritesCallerItems(v: GraphValue, h: History, t: Option<Template>, caller: Params, guard: Option<GraphValue -> bool>,
                                 clipboard: seq<ItemModel>, guid: nat -> Id, from: nat)
    requires HistoryValid(h)
    requires t.Some? && (t.value.kind == ToFrontKind || t.value.kind == ToBackKind)
    requires "items" in caller && caller["items"].PIds?
    requires Step(v, h, t, caller, guard, clipboard, guid, from).outcome != Skipped
    ensures var seen := CallerSees(v, t, caller, guard, clipboard, guid, from, h.index, |h.queue|);
      && seen.Keys == caller.Keys
      && (forall key :: key in caller && key != "items" ==> seen[key] == caller[key])
      && seen["items"] == PIds(caller["items"].ids + SelectedNodes(v) + SelectedEdges(v))
  {
    SkipsExactly(v, h, t, caller, guard, clipboard, guid, from);
    var p := MergeParams(t.value.params, caller);
    assert p["items"] == caller["items"];
  }

  lemma PushedValid(h: History, c: Template)
    requires HistoryValid(h) && CanUndo(c.kind)
    ensures HistoryValid(Pushed(h, c))
    ensures Pushed(h, c).index == |Pushed(h, c).queue|
  {
  }

  /** What a completed run does to the history: undo moves the cursor back
      and redo forward over the same queue; an undoable command replaces
      everything from the cursor on by itself, with its initialised params,
      and leaves the cursor at the end; copy leaves the history alone. */
  lemma HistoryEffect(v: GraphValue, h: History, t: Template, caller: Params, guard: Option<GraphValue -> bool>,
                      clipboard: seq<ItemModel>, guid: nat -> Id, from: nat)
    requires HistoryValid(h)
    requires Step(v, h, Some(t), caller, guard, clipboard, guid, from).outcome == Done
    ensures var r := Step(v, h, Some(t), caller, guard, clipboard, guid, from).history;
      && (t.kind == UndoKind ==> r.queue == h.queue && r.index + 1 == h.index)
      && (t.kind == RedoKind ==> r.queue == h.queue && r.index == h.index + 1)
      && (CanUndo(t.kind) ==>
            var q := Initialized(t.kind, v, MergeParams(t.params, caller), clipboard, guid, from).value.params;
            && r.queue == h.queue[..h.index] + [Template(t.name, t.kind, q)]
            && r.index == h.index + 1 == |r.queue|)
      && (t.kind == CopyKind ==> r == h)
  {
    StepPerformed(v, h, Some(t), caller, guard, clipboard, guid, from);
  }

  /** A completed run ends with the after-execute event, carrying the
      command's name, then the graph-state event. */
  lemma ClosingEvents(v: GraphValue, h: History, t: Template, caller: Params, guard: Option<GraphValue -> bool>,
                      clipboard: seq<ItemModel>, guid: nat -> Id, from: nat, r: Stepped)
    requires HistoryValid(h)
    requires r == Step(v, h, Some(t), caller, guard, clipboard, guid, from) && r.outcome == Done
    ensures |r.graph.events| >= 2
    ensures r.graph.events[|r.graph.events| - 2].AfterExecuteCommand?
    ensures r.graph.events[|r.graph.events| - 2].name == t.name
    ensures r.graph.events[|r.graph.events| - 1].GraphStateChange?
  {
    StepPerformed(v, h, Some(t), caller, guard, clipboard, guid, from);
    var prep := Initialized(t.kind, v, MergeParams(t.params, caller), clipboard, guid, from).value;
    PerformedEnds(Emit(v, BeforeExecuteCommand(t.name, prep.params)), h, t.(params := prep.params), clipboard, prep.drawn);
  }

  /** A run that does not stop early is the before-execute event followed
      by `Performed` with the initialised params. */
  lemma StepPerformed(v: GraphValue, h: History, t: Option<Template>, caller: Params, guard: Option<GraphValue -> bool>,
                      clipboard: seq<ItemModel>, guid: nat -> Id, from: nat)
    requires HistoryValid(h)
    requires Step(v, h, t, caller, guard, clipboard, guid, from).outcome == Done
    ensures t.Some?
    ensures Initialized(t.value.kind, v, MergeParams(t.value.params, caller), clipboard, guid, from).Some?
    ensures t.value.kind == UndoKind ==> 0 < h.index
    ensures t.value.kind == RedoKind ==> h.index < |h.queue|
    ensures var prep := Initialized(t.value.kind, v, MergeParams(t.value.params, caller), clipboard, guid, from).value;
      Step(v, h, t, caller, guard, clipboard, guid, from)
        == Performed(Emit(v, BeforeExecuteCommand(t.value.name, prep.params)), h, t.value.(params := prep.params), clipboard, prep.drawn)
  {
    var p := MergeParams(t.value.params, caller);
    assert CanExecute(t.value.kind, v, p, clipboard, h.index, |h.queue|);
  }

  lemma PerformedEnds(b: GraphValue, h: History, c: Template, clipboard: seq<ItemModel>, drawn: nat)
    requires HistoryValid(h)
    requires c.kind == UndoKind ==> 0 < h.index
    requires c.kind == RedoKind ==> h.index < |h.queue|
    requires Performed(b, h, c, clipboard, drawn).outcome == Done
    ensures var es := Performed(b, h, c, clipboard, drawn).graph.events;
      && |es| >= 2
      && es[|es| - 2] == AfterExecuteCommand(c.name, c.params)
      && es[|es| - 1].GraphStateChange?
  {
    if c.kind == UndoKind {
      var e := h.queue[h.index - 1];
      AnnouncedEnds(Undone(e.kind, Emit(b, HidePortalTriger), e.params).graph, c);
    } else if c.kind == RedoKind {
      var e := h.queue[h.index];
      AnnouncedEnds(Executed(e.kind, b, e.params).graph, c);
    } else {
      AnnouncedEnds(Executed(c.kind, b, c.params).graph, c);
    }
  }

  lemma AnnouncedEnds(w: GraphValue, c: Template)
    ensures var es := Announced(w, c).events;
      && |es| >= 2
      && es[|es| - 2] == AfterExecuteCommand(c.name, c.params)
      && es[|es| - 1].GraphStateChange?
  {
  }

  /** A completed undo followed by a completed redo gives back the history
      the undo started from; after the undo, the history allows a redo. */
  lemma UndoThenRedo(v: GraphValue, h: History, undo: Template, caller: Params, guard: Option<GraphValue -> bool>,
                     clipboard: seq<ItemModel>, guid: nat -> Id, from: nat,
                     w: GraphValue, h1: History, redo: Template, caller': Params, guard': Option<GraphValue -> bool>,
                     clipboard': seq<ItemModel>, from': nat)
    requires HistoryValid(h) && undo.kind == UndoKind && redo.kind == RedoKind
    requires Step(v, h, Some(undo), caller, guard, clipboard, guid, from).outcome == Done
    requires h1 == Step(v, h, Some(undo), caller, guard, clipboard, guid, from).history
    ensures HistoryValid(h1) && h1.index < |h1.queue|
    ensures Step(w, h1, Some(redo), caller', guard', clipboard', guid, from').outcome == Done ==>
      Step(w, h1, Some(redo), caller', guard', clipboard', guid, from').history == h
  {
    StepKeepsHistoryValid(v, h, Some(undo), caller, guard, clipboard, guid, from);
  }

  /** After a completed undoable command there is nothing to redo. */
  lemma NothingToRedo(v: GraphValue, h: History, t: Template, caller: Params, guard: Option<GraphValue -> bool>,
                      clipboard: seq<ItemModel>, guid: nat -> Id, from: nat,
                      w: GraphValue, p: Params, clipboard': seq<ItemModel>)
    requires HistoryValid(h) && CanUndo(t.kind)
    requires Step(v, h, Some(t), caller, guard, clipboard, guid, from).outcome == Done
    ensures var r := Step(v, h, Some(t), caller, guard, clipboard, guid, from).history;
      !CanExecute(RedoKind, w, p, clipboard', r.index, |r.queue|)
  {
    HistoryEffect(v, h, t, caller, guard, clipboard, guid, from);
  }
}
