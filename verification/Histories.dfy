/** From entries to writes: what a sequence of applied entries, whatever the retries in between, makes of a node. */
module Histories {
  import opened Base
  import opened Clocks
  import opened Ontologies
  import opened Entries
  import opened Graphs
  import opened GraphInvariant
  import opened Outcomes
  import opened Lww

  /** Graphs in succession, each an outcome of applying the next entry to the one before. */
  ghost predicate Trail(env: Env, entries: seq<Entry>, states: seq<Graph>) {
    && |states| == |entries| + 1
    && forall k :: 0 <= k < |entries| ==> MayTake(env, states[k], entries[k], states[k + 1])
  }

  predicate NoCheckpoints(entries: seq<Entry>) { forall e :: e in entries ==> !e.payload.Checkpoint? }

  lemma {:induction false} TrailLength(env: Env, entries: seq<Entry>, states: seq<Graph>)
    requires Trail(env, entries, states)
    ensures |states| == |entries| + 1
  {
    hide MayTake;
  }

  lemma {:induction false} TrailSnoc(env: Env, entries: seq<Entry>, states: seq<Graph>, e: Entry, g: Graph)
    requires Trail(env, entries, states) && MayTake(env, states[|entries|], e, g)
    ensures Trail(env, entries + [e], states + [g])
  {
    hide MayTake;
    var es, ss := entries + [e], states + [g];
    forall k | 0 <= k < |es| ensures MayTake(env, ss[k], es[k], ss[k + 1]) {
      if k < |entries| { assert ss[k] == states[k] && es[k] == entries[k] && ss[k + 1] == states[k + 1]; }
    }
  }

  lemma {:induction false} TrailInit(env: Env, entries: seq<Entry>, states: seq<Graph>)
    requires Trail(env, entries, states) && entries != []
    ensures var n := |entries| - 1;
      Trail(env, entries[..n], states[..n + 1]) && MayTake(env, states[n], entries[n], states[n + 1])
  {
    hide MayTake;
    var n := |entries| - 1;
    var es, ss := entries[..n], states[..n + 1];
    forall k | 0 <= k < |es| ensures MayTake(env, ss[k], es[k], ss[k + 1]) {
      assert ss[k] == states[k] && es[k] == entries[k] && ss[k + 1] == states[k + 1];
    }
  }

  /** A rebuild's second pass is a trail. */
  lemma {:induction false} MaterializeTrail(env: Env, g: Graph, entries: seq<Entry>, g': Graph) returns (states: seq<Graph>)
    requires MayMaterialize(env, g, entries, g')
    ensures Trail(env, entries, states) && states[0] == g && states[|entries|] == g'
  {
    hide MayTake;
    if entries == [] {
      states := [g];
    } else {
      var init, e := entries[..|entries| - 1], entries[|entries| - 1];
      var m :| MayMaterialize(env, g, init, m) && MayTake(env, m, e, g');
      var before := MaterializeTrail(env, g, init, m);
      TrailSnoc(env, init, before, e, g');
      assert entries == init + [e];
      states := before + [g'];
    }
  }

  // -- One entry -----------------------------------------------------------------------------------------------------------

  /** The write an entry makes to node `id`, if it is admitted. */
  function AdmittedWrite(env: Env, g: Graph, e: Entry, id: string): Option<Write> {
    match e.payload
    case AddNode(i, t, st, title, props) =>
      if i == id && ValidNode(env.accepts, g.ontology, t, st, props, Full) then Some(Add(st, title, props, e.clock)) else None
    case UpdateProperty(i, k, v) =>
      if i == id && id in g.nodes && ValidUpdate(env, g, id, k, v) then Some(Put(k, v, e.clock)) else None
    case RemoveNode(i) => if i == id && id in g.nodes then Some(Del(e.clock)) else None
    case _ => None
  }

  lemma {:induction false} AdmitKeepsNodes(env: Env, g: Graph, e: Entry, mode: Mode)
    requires e.payload.AddEdge?
    ensures AdmitEdge(env, g, e, mode).nodes == g.nodes && AdmitEdge(env, g, e, mode).ontology == g.ontology
  {
    hide ApplyAddEdge, AdmitEdge, Admissible;
    AdmitCases(env, g, e, mode);
    var op := e.payload;
    AddEdgeLeaves(Release(g, e.hash), op.edgeId, op.edgeType, op.source, op.target, op.props, e.clock);
  }

  /** Retries leave nodes and ontology alone. */
  lemma {:induction false} ListKeepsNodes(env: Env, g: Graph, order: seq<Hash>)
    ensures RetryList(env, g, order).nodes == g.nodes && RetryList(env, g, order).ontology == g.ontology
  {
    hide AdmitEdge;
    if order != [] {
      var before, h := RetryList(env, g, order[..|order| - 1]), order[|order| - 1];
      ListKeepsNodes(env, g, order[..|order| - 1]);
      if h in before.pending && before.pending[h].payload.AddEdge? {
        AdmitKeepsNodes(env, before.(pending := before.pending - {h}), before.pending[h], Full);
      }
    }
  }

  lemma {:induction false} RetryKeepsNodes(env: Env, g: Graph, g': Graph)
    requires MayRetry(env, g, g')
    ensures g'.nodes == g.nodes && g'.ontology == g.ontology
  {
    hide RetryList, ReadyEdges, NoDup;
    var order: seq<Hash> :| NoDup(order) && ToSet(order) == ReadyEdges(g) && g' == RetryList(env, g, order);
    ListKeepsNodes(env, g, order);
  }

  /** A node after a write, given what it was before. */
  ghost predicate TookWrite(g: Graph, g': Graph, id: string, t: string, w: Write) {
    && id in g'.nodes
    && (id in g.nodes ==> g'.nodes[id] == NodeWrite(g.nodes[id], w))
    && (id !in g.nodes ==> w.Add? && g'.nodes[id] == NodeRun(t, [w]))
  }

  predicate SameNode(g: Graph, g': Graph, id: string) {
    (id in g'.nodes <==> id in g.nodes) && (id in g.nodes ==> g'.nodes[id] == g.nodes[id])
  }

  /** What an entry did to a node and to the ontology. */
  ghost predicate Did(env: Env, g: Graph, e: Entry, id: string, g': Graph) {
    && g'.ontology == g.ontology
    && match AdmittedWrite(env, g, e, id)
       case None => SameNode(g, g', id)
       case Some(w) => TookWrite(g, g', id, TypeIn(e), w)
  }

  function TypeIn(e: Entry): string { if e.payload.AddNode? then e.payload.nodeType else "" }

  lemma {:induction false} AddedNode(g: Graph, id: string, e: Entry)
    requires e.payload.AddNode?
    ensures var op := e.payload;
      var g' := ApplyAddNode(Release(g, e.hash), op.nodeId, op.nodeType, op.subtype, op.title, op.props, e.clock);
      && g'.ontology == g.ontology && (op.nodeId != id ==> SameNode(g, g', id))
      && (op.nodeId == id ==> TookWrite(g, g', id, op.nodeType, Add(op.subtype, op.title, op.props, e.clock)))
  {
    hide AddAgain, NewNode, Index;
  }

  lemma {:induction false} NodesOnly(g: Graph, g1: Graph, g2: Graph, id: string, t: string, w: Write)
    requires g1.nodes == g2.nodes
    ensures SameNode(g, g1, id) ==> SameNode(g, g2, id)
    ensures TookWrite(g, g1, id, t, w) ==> TookWrite(g, g2, id, t, w)
  {
    hide NodeWrite, NodeRun;
  }

  lemma {:induction false} AddDid(env: Env, g: Graph, e: Entry, id: string, g': Graph)
    requires e.payload.AddNode? && MayTake(env, g, e, g')
    ensures Did(env, g, e, id, g')
  {
    hide MayRetry, ValidNode, ApplyAddNode, SameNode, TookWrite;
    var op := e.payload;
    if ValidNode(env.accepts, g.ontology, op.nodeType, op.subtype, op.props, Full) {
      var g1 := ApplyAddNode(Release(g, e.hash), op.nodeId, op.nodeType, op.subtype, op.title, op.props, e.clock);
      RetryKeepsNodes(env, g1, g');
      AddedNode(g, id, e);
      NodesOnly(g, g1, g', id, op.nodeType, Add(op.subtype, op.title, op.props, e.clock));
    } else {
      AsideSame(g, e.hash, "add_node", id);
    }
  }

  lemma {:induction false} AsideSame(g: Graph, h: Hash, kind: string, id: string)
    ensures SameNode(g, Quarantine(g, h, kind), id) && Quarantine(g, h, kind).ontology == g.ontology
  {
  }

  lemma {:induction false} UpdatedNode(g: Graph, id: string, e: Entry)
    requires e.payload.UpdateProperty?
    ensures var op := e.payload;
      var g' := ApplyUpdate(Release(g, e.hash), op.entityId, op.key, op.value, e.clock);
      && g'.ontology == g.ontology
      && (op.entityId == id && id in g.nodes ==> TookWrite(g, g', id, "", Put(op.key, op.value, e.clock)))
      && (op.entityId != id || id !in g.nodes ==> SameNode(g, g', id))
  {
    hide SetNodeProperty, ApplyUpdate;
    var op := e.payload;
    NodesAfterUpdate(Release(g, e.hash), op.entityId, op.key, op.value, e.clock);
  }

  lemma {:induction false} NodesAfterUpdate(g: Graph, id: string, k: string, v: Value, c: Clock)
    ensures ApplyUpdate(g, id, k, v, c).nodes == if id in g.nodes then g.nodes[id := SetNodeProperty(g.nodes[id], k, v, c)] else g.nodes
    ensures ApplyUpdate(g, id, k, v, c).ontology == g.ontology
  {
    hide SetNodeProperty, SetEdgeProperty;
  }

  lemma {:induction false} UpdateDid(env: Env, g: Graph, e: Entry, id: string, g': Graph)
    requires e.payload.UpdateProperty? && MayTake(env, g, e, g')
    ensures Did(env, g, e, id, g')
  {
    hide ValidUpdate, ApplyUpdate, SameNode, TookWrite, Apply;
    UpdateIs(env, g, e);
    UpdatedNode(g, id, e);
    AsideSame(g, e.hash, "update_property", id);
  }

  lemma {:induction false} UpdateIs(env: Env, g: Graph, e: Entry)
    requires e.payload.UpdateProperty?
    ensures var op := e.payload;
      Apply(env, g, e, Full, false) ==
        if ValidUpdate(env, g, op.entityId, op.key, op.value) then ApplyUpdate(Release(g, e.hash), op.entityId, op.key, op.value, e.clock)
        else Quarantine(g, e.hash, "update_property")
  {
    hide ValidUpdate, ApplyUpdate, Release, Quarantine;
  }

  lemma {:induction false} RemoveDid(env: Env, g: Graph, e: Entry, id: string, g': Graph)
    requires e.payload.RemoveNode? && MayTake(env, g, e, g')
    ensures Did(env, g, e, id, g')
  {
    hide RemovedNode, Apply, ApplyRemoveNode;
    RemoveIs(env, g, e);
    NodesAfterRemove(Release(g, e.hash), e.payload.nodeId, e.clock);
    if e.payload.nodeId == id && id in g.nodes { assert TookWrite(g, g', id, "", Del(e.clock)); }
  }

  lemma {:induction false} NodesAfterRemove(g: Graph, id: string, c: Clock)
    ensures ApplyRemoveNode(g, id, c).nodes == if id in g.nodes then g.nodes[id := RemovedNode(g.nodes[id], c)] else g.nodes
    ensures ApplyRemoveNode(g, id, c).ontology == g.ontology
  {
    hide RemovedNode;
  }

  lemma {:induction false} RemoveIs(env: Env, g: Graph, e: Entry)
    requires e.payload.RemoveNode?
    ensures Apply(env, g, e, Full, false) == ApplyRemoveNode(Release(g, e.hash), e.payload.nodeId, e.clock)
  {
    hide ApplyRemoveNode, Release;
  }

  lemma {:induction false} OtherDid(env: Env, g: Graph, e: Entry, id: string, g': Graph)
    requires !e.payload.Checkpoint? && !e.payload.AddNode? && !e.payload.UpdateProperty? && !e.payload.RemoveNode? && MayTake(env, g, e, g')
    ensures Did(env, g, e, id, g')
  {
    hide AdmitEdge, MergeExtension, RemovedEdge;
    if e.payload.AddEdge? { AdmitKeepsNodes(env, g, e, Full); }
  }

  /** One entry touches a node exactly by the write it makes. */
  lemma {:induction false} EntryDid(env: Env, g: Graph, e: Entry, id: string, g': Graph)
    requires !e.payload.Checkpoint? && MayTake(env, g, e, g')
    ensures Did(env, g, e, id, g')
  {
    hide MayTake, Did;
    if e.payload.AddNode? { AddDid(env, g, e, id, g'); }
    else if e.payload.UpdateProperty? { UpdateDid(env, g, e, id, g'); }
    else if e.payload.RemoveNode? { RemoveDid(env, g, e, id, g'); }
    else { OtherDid(env, g, e, id, g'); }
  }

  // -- Whole trails --------------------------------------------------------------------------------------------------------

  /** The admitted writes to `id` along a trail. */
  ghost function WritesAlong(env: Env, entries: seq<Entry>, states: seq<Graph>, id: string): seq<Write>
    requires |entries| <= |states|
  {
    if entries == [] then []
    else
      var n := |entries| - 1;
      var before := WritesAlong(env, entries[..n], states, id);
      match AdmittedWrite(env, states[n], entries[n], id)
      case Some(w) => before + [w]
      case None => before
  }

  lemma {:induction false} HistoryPrefix(env: Env, entries: seq<Entry>, a: seq<Graph>, b: seq<Graph>, id: string)
    requires |entries| <= |a| && |entries| <= |b| && forall k :: 0 <= k < |entries| ==> a[k] == b[k]
    ensures WritesAlong(env, entries, a, id) == WritesAlong(env, entries, b, id)
  {
    hide AdmittedWrite;
    if entries != [] { HistoryPrefix(env, entries[..|entries| - 1], a, b, id); }
  }

  /** The node `id` of `g` is the run of the history `h`. */
  ghost predicate Explains(g: Graph, id: string, h: seq<Write>) {
    && (h == [] <==> id !in g.nodes)
    && (h != [] ==> Starts(h) && id in g.nodes && exists t :: g.nodes[id] == NodeRun(t, h))
  }

  /** Along a checkpoint-free trail each node is the run of its admitted writes, repeats included. */
  lemma {:induction false} TrailHistory(env: Env, entries: seq<Entry>, states: seq<Graph>, id: string)
    requires Trail(env, entries, states) && NoCheckpoints(entries) && id !in states[0].nodes
    ensures Explains(states[|entries|], id, WritesAlong(env, entries, states, id)) && states[|entries|].ontology == states[0].ontology
  {
    hide MayTake, AdmittedWrite, Explains;
    if entries == [] {
      NothingExplained(states[0], id);
    } else {
      var n := |entries| - 1;
      TrailInit(env, entries, states);
      TrailHistory(env, entries[..n], states[..n + 1], id);
      HistoryPrefix(env, entries[..n], states, states[..n + 1], id);
      assert entries[n] in entries;
      EntryDid(env, states[n], entries[n], id, states[n + 1]);
      ExplainsNext(env, states[n], entries[n], id, states[n + 1], WritesAlong(env, entries[..n], states, id));
    }
  }

  lemma {:induction false} NothingExplained(g: Graph, id: string)
    requires id !in g.nodes
    ensures Explains(g, id, [])
  {
  }

  lemma {:induction false} ExplainsNext(env: Env, g: Graph, e: Entry, id: string, g': Graph, h: seq<Write>)
    requires Explains(g, id, h) && Did(env, g, e, id, g')
    ensures match AdmittedWrite(env, g, e, id)
      case Some(w) => Explains(g', id, h + [w])
      case None => Explains(g', id, h)
  {
    hide AdmittedWrite, NodeWrite, NodeRun;
    match AdmittedWrite(env, g, e, id) {
      case None =>
      case Some(w) =>
        var u := TypeIn(e);
        if h != [] {
          var t :| g.nodes[id] == NodeRun(t, h);
          RunSnoc(t, h, w);
        } else {
          assert h + [w] == [w];
          assert g'.nodes[id] == NodeRun(u, [w]);
        }
    }
  }

  lemma {:induction false} RunSnoc(t: string, h: seq<Write>, w: Write)
    requires Starts(h)
    ensures Starts(h + [w]) && NodeRun(t, h + [w]) == NodeWrite(NodeRun(t, h), w)
  {
    assert (h + [w])[..|h|] == h;
  }

  /** Two trails that admit the same writes to a node agree on its properties, their clocks and its add clock. */
  lemma {:induction false} TrailsAgree(g: Graph, g': Graph, id: string, h: seq<Write>, k: seq<Write>)
    requires Explains(g, id, h) && Explains(g', id, k) && ToSet(h) == ToSet(k) && Consistent(ToSet(h))
    ensures id in g.nodes <==> id in g'.nodes
    ensures id in g.nodes ==> g.nodes[id].cells == g'.nodes[id].cells && g.nodes[id].lastAdd == g'.nodes[id].lastAdd
  {
    hide Consistent, NodeRun;
    NothingListed(h);
    NothingListed(k);
    if h != [] {
      var t :| g.nodes[id] == NodeRun(t, h);
      var u :| g'.nodes[id] == NodeRun(u, k);
      OrderDoesNotMatter(t, u, h, k);
    }
  }

  lemma {:induction false} ExplainedFate(g: Graph, id: string, h: seq<Write>)
    requires Explains(g, id, h) && h != []
    ensures Starts(h) && id in g.nodes && g.nodes[id].dead == LifeRun(h).dead
  {
    hide NodeRun, LifeRun;
    var t :| g.nodes[id] == NodeRun(t, h);
    NodeRunLife(t, h);
  }

  // -- Adds and removes that nothing can refuse ---------------------------------------------------------------------------

  /** An add of `id` that the ontology accepts. */
  ghost predicate GoodAdd(env: Env, o: Ontology, id: string, e: Entry) {
    e.payload.AddNode? && e.payload.nodeId == id
    && ValidNode(env.accepts, o, e.payload.nodeType, e.payload.subtype, e.payload.props, Full)
  }

  /** The entry has nothing to do with node `id`. */
  predicate Foreign(e: Entry, id: string) {
    match e.payload
    case AddNode(i, _, _, _, _) => i != id
    case UpdateProperty(i, _, _) => i != id
    case RemoveNode(i) => i != id
    case _ => true
  }

  function WriteOf(e: Entry): Write {
    match e.payload
    case AddNode(_, _, st, title, props) => Add(st, title, props, e.clock)
    case UpdateProperty(_, k, v) => Put(k, v, e.clock)
    case _ => Del(e.clock)
  }

  /** The entries that concern `id`, as writes. */
  function Concerning(entries: seq<Entry>, id: string): seq<Write> {
    if entries == [] then []
    else
      var n := |entries| - 1;
      Concerning(entries[..n], id) + (if Foreign(entries[n], id) then [] else [WriteOf(entries[n])])
  }

  lemma {:induction false} ConcerningConcat(xs: seq<Entry>, ys: seq<Entry>, id: string)
    ensures Concerning(xs + ys, id) == Concerning(xs, id) + Concerning(ys, id)
  {
    if ys == [] {
      assert xs + ys == xs;
    } else {
      var n := |ys| - 1;
      assert (xs + ys)[..|xs| + n] == xs + ys[..n] && (xs + ys)[|xs| + n] == ys[n];
      ConcerningConcat(xs, ys[..n], id);
    }
  }

  /** Only good adds and removes of `id`, with an add first: the history is all of them. */
  lemma {:induction false} AllAdmitted(env: Env, entries: seq<Entry>, states: seq<Graph>, id: string)
    requires Trail(env, entries, states) && NoCheckpoints(entries) && id !in states[0].nodes
    requires forall e :: e in entries ==> Foreign(e, id) || GoodAdd(env, states[0].ontology, id, e) || e.payload == RemoveNode(id)
    requires Concerning(entries, id) == [] || Starts(Concerning(entries, id))
    ensures WritesAlong(env, entries, states, id) == Concerning(entries, id)
  {
    hide Trail, GoodAdd, Explains, AdmittedWrite;
    if entries == [] {
      assert |states| == 1 by { TrailLength(env, entries, states); }
    } else {
      var n := |entries| - 1;
      TrailLength(env, entries, states);
      TrailInit(env, entries, states);
      var es, ss := entries[..n], states[..n + 1];
      assert forall e :: e in es ==> e in entries;
      StartsEarlier(Concerning(es, id), entries, id);
      AllAdmitted(env, es, ss, id);
      HistoryPrefix(env, es, states, ss, id);
      TrailHistory(env, es, ss, id);
      assert entries[n] in entries;
      NextAdmitted(env, states[n], entries[n], id, Concerning(es, id), states[0].ontology);
    }
  }

  lemma {:induction false} StartsEarlier(h: seq<Write>, entries: seq<Entry>, id: string)
    requires entries != [] && h == Concerning(entries[..|entries| - 1], id)
    requires Concerning(entries, id) == [] || Starts(Concerning(entries, id))
    ensures h == [] || Starts(h)
  {
    if h != [] { assert Concerning(entries, id)[0] == h[0]; }
  }

  lemma {:induction false} NextAdmitted(env: Env, g: Graph, e: Entry, id: string, h: seq<Write>, o: Ontology)
    requires Explains(g, id, h) && g.ontology == o
    requires Foreign(e, id) || GoodAdd(env, o, id, e) || (e.payload == RemoveNode(id) && h != [])
    ensures AdmittedWrite(env, g, e, id) == if Foreign(e, id) then None else Some(WriteOf(e))
  {
    hide ValidNode, NodeRun;
  }

  /**
   * Two peers holding the same three entries, each applied as it arrived: where the concurrent add
   * came after the later remove the node lives, where it came before the node is dead.
   */
  lemma {:induction false} ArrivalOrderShows(env: Env, id: string, a: Entry, b: Entry, d: Entry, late: seq<Graph>, early: seq<Graph>)
    requires Trail(env, [a, d, b], late) && Trail(env, [a, b, d], early) && late[0] == early[0] && id !in late[0].nodes
    requires GoodAdd(env, late[0].ontology, id, a) && GoodAdd(env, late[0].ontology, id, b) && d.payload == RemoveNode(id)
    requires Wins(d.clock, a.clock) && Wins(d.clock, b.clock)
    ensures id in late[3].nodes && id in early[3].nodes && !late[3].nodes[id].dead && early[3].nodes[id].dead
  {
    hide MayTake, ValidNode, Wins, WritesAlong, LifeRun;
    var h, k := [WriteOf(a), WriteOf(d), WriteOf(b)], [WriteOf(a), WriteOf(b), WriteOf(d)];
    ConcerningThree(a, d, b, id);
    ConcerningThree(a, b, d, id);
    AllAdmitted(env, [a, d, b], late, id);
    AllAdmitted(env, [a, b, d], early, id);
    TrailHistory(env, [a, d, b], late, id);
    TrailHistory(env, [a, b, d], early, id);
    ExplainedFate(late[3], id, h);
    ExplainedFate(early[3], id, k);
    AddLast(h);
    RemoveLast(k);
  }

  lemma {:induction false} ConcerningThree(a: Entry, b: Entry, c: Entry, id: string)
    requires !Foreign(a, id) && !Foreign(b, id) && !Foreign(c, id)
    ensures Concerning([a, b, c], id) == [WriteOf(a), WriteOf(b), WriteOf(c)]
  {
    assert [a, b, c][..2] == [a, b] && [a, b][..1] == [a] && [a][..0] == [];
    assert Concerning([a], id) == [WriteOf(a)];
    assert Concerning([a, b], id) == [WriteOf(a), WriteOf(b)];
  }
}
