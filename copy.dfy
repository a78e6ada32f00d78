/** src/components/Graph/command/copy.ts: puts the models of the selected
    nodes on the clipboard.  It never enters the history. */
module CopyCommand {
  import opened Model
  import opened G6
  import opened G6Graph
  import opened Utils
  import opened Session
  import opened NodeCopies

  predicate CanExecute(v: GraphValue)
  {
    v.mode != ReadonlyMode && |SelectedNodes(v)| > 0
  }

  /** execute: the clipboard becomes the selected nodes' models; models are
      values here, so the deep copy is implicit. */
  method Execute(g: Graph, s: Session)
    modifies s`clipboard
    ensures s.clipboard == SelectedModels(g.View())
  {
    s.SetClipboard(SelectedModels(g.View()));
  }

  /** After a copy the clipboard holds, in graph order, the model of every
      selected node and nothing else. */
  lemma CopyTakesSelected(v: GraphValue)
    requires Valid(v)
    ensures |SelectedModels(v)| == |SelectedNodes(v)|
    ensures forall m :: m in SelectedModels(v) <==>
      exists n :: n in v.nodes.vals && IsSelected(v, n) && m == v.nodes.vals[n]
  {
    SelectedModelsAre(v);
    assert forall n :: n in v.nodes.keys <==> n in v.nodes.vals;
    forall m
      ensures m in SelectedModels(v) <==> exists n :: n in v.nodes.vals && IsSelected(v, n) && m == v.nodes.vals[n]
    {
      if exists n :: n in v.nodes.vals && IsSelected(v, n) && m == v.nodes.vals[n] {
        var n :| n in v.nodes.vals && IsSelected(v, n) && m == v.nodes.vals[n];
        assert n in SelectedNodes(v);
        var i :| 0 <= i < |SelectedNodes(v)| && SelectedNodes(v)[i] == n;
        assert SelectedModels(v)[i] == m;
      }
    }
  }
}
