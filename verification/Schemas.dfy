/** How the ontology moves: extensions and checkpoints in a rebuild's first pass, and as they are applied. */
module Schemas {
  import opened Base
  import opened Clocks
  import opened Ontologies
  import opened Entries
  import opened Graphs
  import opened GraphInvariant
  import opened Outcomes
  import opened Histories

  /** `o'` is the last ontology the operations define, or `o` where they define none. */
  ghost predicate LastWord(ops: seq<GraphOp>, o: Ontology, o': Ontology) {
    || (o' == o && forall i :: 0 <= i < |ops| ==> !ops[i].DefineOntology?)
    || exists i :: 0 <= i < |ops| && ops[i] == DefineOntology(o') && forall j :: i < j < |ops| ==> !ops[j].DefineOntology?
  }

  lemma {:induction false} LastDefinedIs(ops: seq<GraphOp>, o: Ontology)
    ensures LastWord(ops, o, LastDefined(ops, o))
  {
    hide LastWord;
    if ops == [] {
      NoWord(o);
    } else {
      var init, op := ops[..|ops| - 1], ops[|ops| - 1];
      assert ops == init + [op];
      LastDefinedIs(init, o);
      NextWord(init, op, o, LastDefined(init, o));
    }
  }

  lemma {:induction false} NoWord(o: Ontology)
    ensures LastWord([], o, o)
  {
  }

  lemma {:induction false} NextWord(ops: seq<GraphOp>, op: GraphOp, o: Ontology, o': Ontology)
    requires LastWord(ops, o, o')
    ensures LastWord(ops + [op], o, if op.DefineOntology? then op.ontology else o')
  {
    var all := ops + [op];
    assert all[|ops|] == op;
    if i :| !op.DefineOntology? && 0 <= i < |ops| && ops[i] == DefineOntology(o') && forall j :: i < j < |ops| ==> !ops[j].DefineOntology? {
      assert all[i] == ops[i] && forall j :: i < j < |all| ==> !all[j].DefineOntology?;
    }
  }

  /** A first pass over one entry moves nothing but the ontology, and reports an extension that fails. */
  lemma {:induction false} FoldEnds(g: Graph, e: Entry)
    ensures var g' := Fold(g, e);
      && g' == g.(ontology := g'.ontology, quarantined := g'.quarantined)
      && (!e.payload.ExtendOntology? && !e.payload.Checkpoint? ==> g' == g)
      && (e.payload.Checkpoint? ==> g'.quarantined == g.quarantined && LastWord(e.payload.ops, g.ontology, g'.ontology))
      && (e.payload.ExtendOntology? ==> Extended(g, e, g', g.quarantined))
  {
    hide MergeExtension, LastDefined, LastWord;
    if e.payload.Checkpoint? {
      LastDefinedIs(e.payload.ops, g.ontology);
    } else if e.payload.ExtendOntology? {
      hide Fold;
      ExtensionFolds(g, e);
    }
  }

  lemma {:induction false} ExtensionFolds(g: Graph, e: Entry)
    requires e.payload.ExtendOntology?
    ensures var (o, ok) := MergeExtension(g.ontology, e.payload.extension);
      Fold(g, e) == g.(ontology := o, quarantined := if ok then g.quarantined else g.quarantined[e.hash := Record("extend_ontology", o)])
  {
    hide MergeExtension;
  }

  /** The ontology is what the extension makes of it, and the entry is reported, with that ontology, if and only if it failed. */
  ghost predicate Extended(g: Graph, e: Entry, g': Graph, others: map<Hash, Record>)
    requires e.payload.ExtendOntology?
  {
    var (o, ok) := MergeExtension(g.ontology, e.payload.extension);
    g'.ontology == o && g'.quarantined == if ok then others else others[e.hash := Record("extend_ontology", o)]
  }

  /** Applied where it arrives, an extension does the same, and leaves the quarantine if it succeeds. */
  lemma {:induction false} ExtensionApplied(env: Env, g: Graph, e: Entry, mode: Mode, adopt: bool)
    requires e.payload.ExtendOntology?
    ensures var g' := Apply(env, g, e, mode, adopt);
      && g' == g.(ontology := g'.ontology, quarantined := g'.quarantined) && Extended(g, e, g', g'.quarantined)
      && forall h :: h != e.hash ==> (h in g'.quarantined <==> h in g.quarantined) && (h in g.quarantined ==> g'.quarantined[h] == g.quarantined[h])
    ensures e.hash in Apply(env, g, e, mode, adopt).quarantined <==> !MergeExtension(g.ontology, e.payload.extension).1
  {
    hide MergeExtension, Apply;
    ExtensionIs(env, g, e, mode, adopt);
  }

  lemma {:induction false} ExtensionIs(env: Env, g: Graph, e: Entry, mode: Mode, adopt: bool)
    requires e.payload.ExtendOntology?
    ensures var (o, ok) := MergeExtension(g.ontology, e.payload.extension);
      Apply(env, g, e, mode, adopt) ==
        g.(ontology := o, quarantined := if ok then g.quarantined - {e.hash} else g.quarantined[e.hash := Record("extend_ontology", o)])
  {
    hide MergeExtension;
  }

  /** The extension at position `i` failed on the ontology folded until then. */
  ghost predicate FailedAt(g: Graph, es: seq<Entry>, i: nat)
    requires i < |es|
  {
    es[i].payload.ExtendOntology? && !MergeExtension(FoldAll(g, es[..i]).ontology, es[i].payload.extension).1
  }

  /** After the first pass exactly the entries of extensions that failed are in quarantine. */
  lemma {:induction false} FoldedQuarantine(g: Graph, es: seq<Entry>, h: Hash)
    requires g.quarantined == map[]
    ensures h in FoldAll(g, es).quarantined <==> exists i :: 0 <= i < |es| && es[i].hash == h && FailedAt(g, es, i)
  {
    hide MergeExtension, Fold, LastWord;
    if es != [] {
      var n := |es| - 1;
      var init := es[..n];
      FoldedQuarantine(g, init, h);
      FoldEnds(FoldAll(g, init), es[n]);
      forall i | 0 <= i < n ensures FailedAt(g, es, i) <==> FailedAt(g, init, i) { assert es[..i] == init[..i]; }
      if i :| 0 <= i < n && init[i].hash == h && FailedAt(g, init, i) { assert es[i].hash == h && FailedAt(g, es, i); }
      if es[n].hash == h && FailedAt(g, es, n) { assert 0 <= n < |es|; }
    }
  }

  // -- Checkpoints ---------------------------------------------------------------------------------------------------------

  /** Operations of a checkpoint as compaction writes it: no schema changes but definitions, no checkpoint within. */
  predicate Flat(ops: seq<GraphOp>) { forall i :: 0 <= i < |ops| ==> !ops[i].Checkpoint? && !ops[i].ExtendOntology? }

  /** The entry that stands for an operation: written at its own clock if the checkpoint records one, else at the checkpoint's. */
  lemma {:induction false} SyntheticIs(env: Env, cp: Entry, i: nat)
    requires cp.payload.Checkpoint? && i < |cp.payload.ops|
    ensures var e, clocks := Synthetic(env, cp, i), cp.payload.opClocks;
      && e.payload == cp.payload.ops[i] && e.next == [] && e.author == cp.author && VerifyHash(env.digest, e)
      && (i < |clocks| ==> e.clock.id == cp.author && (e.clock.physical, e.clock.logical) == clocks[i])
      && (i >= |clocks| ==> e.clock == cp.clock)
  {
  }

  lemma {:induction false} ApplyKeepsOntology(env: Env, g: Graph, e: Entry, mode: Mode, adopt: bool, g': Graph)
    requires !e.payload.Checkpoint? && !e.payload.ExtendOntology? && MayApply(env, g, e, mode, adopt, g')
    ensures g'.ontology == g.ontology
  {
    if e.payload.AddNode? {
      hide MayRetry, ValidNode, ApplyAddNode;
      var op := e.payload;
      if ValidNode(env.accepts, g.ontology, op.nodeType, op.subtype, op.props, mode) {
        NodeOntology(Release(g, e.hash), op.nodeId, op.nodeType, op.subtype, op.title, op.props, e.clock);
        RetryOntology(env, ApplyAddNode(Release(g, e.hash), op.nodeId, op.nodeType, op.subtype, op.title, op.props, e.clock), g');
      }
    } else {
      hide Apply;
      OtherOntology(env, g, e, mode, adopt);
    }
  }

  lemma {:induction false} OtherOntology(env: Env, g: Graph, e: Entry, mode: Mode, adopt: bool)
    requires !e.payload.Checkpoint? && !e.payload.ExtendOntology? && !e.payload.AddNode?
    ensures Apply(env, g, e, mode, adopt).ontology == g.ontology
  {
    hide Apply, AdmitEdge;
    match e.payload {
      case AddEdge(_, _, _, _, _) =>
        EdgeIs(env, g, e, mode, adopt);
        EdgeOntology(env, g, e, mode);
      case UpdateProperty(_, _, _) => UpdateOntology(env, g, e, mode, adopt);
      case RemoveNode(_) => RemoveOntology(env, g, e, mode, adopt);
      case RemoveEdge(_) => RemoveOntology(env, g, e, mode, adopt);
      case _ => NothingApplied(env, g, e, mode, adopt);
    }
  }

  lemma {:induction false} UpdateOntology(env: Env, g: Graph, e: Entry, mode: Mode, adopt: bool)
    requires e.payload.UpdateProperty?
    ensures Apply(env, g, e, mode, adopt).ontology == g.ontology
  {
    hide ApplyUpdate, ValidUpdate;
    SmallOntology(Release(g, e.hash), e.payload.entityId, e.payload.key, e.payload.value, e.clock);
  }

  lemma {:induction false} RemoveOntology(env: Env, g: Graph, e: Entry, mode: Mode, adopt: bool)
    requires e.payload.RemoveNode? || e.payload.RemoveEdge?
    ensures Apply(env, g, e, mode, adopt).ontology == g.ontology
  {
    hide ApplyRemoveNode, ApplyRemoveEdge;
    SmallOntology(Release(g, e.hash), if e.payload.RemoveNode? then e.payload.nodeId else e.payload.edgeId, "", Null, e.clock);
  }

  lemma {:induction false} NothingApplied(env: Env, g: Graph, e: Entry, mode: Mode, adopt: bool)
    requires e.payload.DefineOntology? || e.payload.DefineLens?
    ensures Apply(env, g, e, mode, adopt) == g
  {
  }

  lemma {:induction false} NodeOntology(g: Graph, id: string, t: string, st: Option<string>, title: string, props: Props, c: Clock)
    ensures ApplyAddNode(g, id, t, st, title, props, c).ontology == g.ontology
  {
    hide AddAgain, NewNode, Index;
  }

  lemma {:induction false} SmallOntology(g: Graph, id: string, k: string, v: Value, c: Clock)
    ensures ApplyUpdate(g, id, k, v, c).ontology == g.ontology
    ensures ApplyRemoveNode(g, id, c).ontology == g.ontology && ApplyRemoveEdge(g, id, c).ontology == g.ontology
  {
    hide ApplyUpdate, ApplyRemoveNode, ApplyRemoveEdge;
    NodesAfterUpdate(g, id, k, v, c);
    CutOntology(g, id, c);
  }

  lemma {:induction false} CutOntology(g: Graph, id: string, c: Clock)
    ensures ApplyRemoveNode(g, id, c).ontology == g.ontology && ApplyRemoveEdge(g, id, c).ontology == g.ontology
  {
    hide RemovedNode, RemovedEdge;
  }

  lemma {:induction false} EdgeOntology(env: Env, g: Graph, e: Entry, mode: Mode)
    requires e.payload.AddEdge?
    ensures AdmitEdge(env, g, e, mode).ontology == g.ontology
  {
    hide AdmitEdge, Admissible, ApplyAddEdge;
    AdmitCases(env, g, e, mode);
    var op := e.payload;
    AddEdgeLeaves(Release(g, e.hash), op.edgeId, op.edgeType, op.source, op.target, op.props, e.clock);
  }

  lemma {:induction false} RetryOntology(env: Env, g: Graph, g': Graph)
    requires MayRetry(env, g, g')
    ensures g'.ontology == g.ontology
  {
    hide RetryList, ReadyEdges, NoDup;
    var order: seq<Hash> :| NoDup(order) && ToSet(order) == ReadyEdges(g) && g' == RetryList(env, g, order);
    ListOntology(env, g, order);
  }

  lemma {:induction false} ListOntology(env: Env, g: Graph, order: seq<Hash>)
    ensures RetryList(env, g, order).ontology == g.ontology
  {
    hide AdmitEdge;
    if order != [] {
      var before, h := RetryList(env, g, order[..|order| - 1]), order[|order| - 1];
      ListOntology(env, g, order[..|order| - 1]);
      if h in before.pending && before.pending[h].payload.AddEdge? {
        EdgeOntology(env, before.(pending := before.pending - {h}), before.pending[h], Full);
      }
    }
  }

  lemma {:induction false} ReplayOntology(env: Env, g: Graph, cp: Entry, n: nat, adopt: bool, g': Graph)
    requires cp.payload.Checkpoint? && n <= |cp.payload.ops| && Flat(cp.payload.ops) && MayReplay(env, g, cp, n, adopt, g')
    ensures g'.ontology == if adopt then LastDefined(cp.payload.ops[..n], g.ontology) else g.ontology
  {
    hide MayApply;
    if n > 0 {
      var m :| MayReplay(env, g, cp, n - 1, adopt, m) && MayReplayOne(env, m, cp, n - 1, adopt, g');
      ReplayOntology(env, g, cp, n - 1, adopt, m);
      assert cp.payload.ops[..n][..n - 1] == cp.payload.ops[..n - 1];
      if !cp.payload.ops[n - 1].DefineOntology? { ApplyKeepsOntology(env, m, Synthetic(env, cp, n - 1), SkipRequired, true, g'); }
    }
  }

  /** A checkpoint that is applied brings its last ontology where ontologies are adopted, and leaves it alone in a rebuild's second pass. */
  lemma {:induction false} CheckpointOntology(env: Env, g: Graph, cp: Entry, mode: Mode, adopt: bool, g': Graph)
    requires cp.payload.Checkpoint? && Flat(cp.payload.ops) && MayApply(env, g, cp, mode, adopt, g')
    ensures adopt ==> LastWord(cp.payload.ops, g.ontology, g'.ontology)
    ensures !adopt ==> g'.ontology == g.ontology
    ensures cp.hash !in g'.quarantined
  {
    hide MayReplay, LastWord;
    var ops := cp.payload.ops;
    var m :| MayReplay(env, g, cp, |ops|, adopt, m) && g' == Release(m, cp.hash);
    ReplayOntology(env, g, cp, |ops|, adopt, m);
    assert ops[..|ops|] == ops;
    LastDefinedIs(ops, g.ontology);
  }
}
