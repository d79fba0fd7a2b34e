/** The store's compaction: log, graph and clock together, from the live graph to a one-entry log and back. */
module Stores {
  import opened Base
  import opened Clocks
  import opened Ontologies
  import opened Entries
  import opened Dag
  import opened Topo
  import opened OpLogs
  import opened Graphs
  import opened RetryOrder
  import opened Outcomes
  import opened Materialized
  import opened Checkpoints
  import opened Compaction
  import opened Replicas
  import opened Chains
  import opened GraphInvariant

  // -- A checkpoint never holds clashing edges -----------------------------------------------------------------------

  /** Every edge addition among the items is that of a live edge of `g`, without properties. */
  ghost predicate EdgesOf(g: Graph, items: seq<Item>) {
    forall i :: 0 <= i < |items| ==>
      && !items[i].op.Checkpoint?
      && (items[i].op.AddEdge? ==> items[i].op.edgeId in g.edges && items[i] == EdgeHead(items[i].op.edgeId, g.edges[items[i].op.edgeId]))
  }

  lemma {:induction false} PutsEdgeless(g: Graph, id: string, cells: Cells, keys: seq<string>)
    requires ToSet(keys) <= cells.Keys
    ensures EdgesOf(g, Puts(id, cells, keys))
  {
    if keys != [] {
      ToSetInit(keys);
      PutsEdgeless(g, id, cells, keys[..|keys| - 1]);
    }
  }

  lemma {:induction false} EdgesOfConcat(g: Graph, xs: seq<Item>, ys: seq<Item>)
    requires EdgesOf(g, xs) && EdgesOf(g, ys)
    ensures EdgesOf(g, xs + ys)
  {
    forall i | 0 <= i < |xs + ys| ensures (xs + ys)[i] == if i < |xs| then xs[i] else ys[i - |xs|] {}
  }

  lemma {:induction false} NodeItemsEdgeless(g: Graph, vs: seq<Visit>)
    requires VisitsNodes(g, vs)
    ensures EdgesOf(g, NodeItems(g, vs))
  {
    hide EdgesOf, NoDup, AllNodes;
    if vs == [] {
      NoItems(g);
    } else {
      var v := vs[|vs| - 1];
      VisitsInit(g, vs);
      NodeItemsEdgeless(g, vs[..|vs| - 1]);
      PutsEdgeless(g, v.id, g.nodes[v.id].cells, v.keys);
      HeadItem(g, NodeHead(v.id, g.nodes[v.id]));
      EdgesOfConcat(g, [NodeHead(v.id, g.nodes[v.id])], Puts(v.id, g.nodes[v.id].cells, v.keys));
      EdgesOfConcat(g, NodeItems(g, vs[..|vs| - 1]), [NodeHead(v.id, g.nodes[v.id])] + Puts(v.id, g.nodes[v.id].cells, v.keys));
    }
  }

  lemma {:induction false} EdgeItemsLive(g: Graph, vs: seq<Visit>)
    requires VisitsEdges(g, vs)
    ensures EdgesOf(g, EdgeItems(g, vs))
  {
    hide EdgesOf, NoDup, AllEdges;
    if vs == [] {
      NoItems(g);
    } else {
      var v := vs[|vs| - 1];
      VisitsInit(g, vs);
      EdgeItemsLive(g, vs[..|vs| - 1]);
      PutsEdgeless(g, v.id, g.edges[v.id].cells, v.keys);
      HeadItem(g, EdgeHead(v.id, g.edges[v.id]));
      EdgesOfConcat(g, [EdgeHead(v.id, g.edges[v.id])], Puts(v.id, g.edges[v.id].cells, v.keys));
      EdgesOfConcat(g, EdgeItems(g, vs[..|vs| - 1]), [EdgeHead(v.id, g.edges[v.id])] + Puts(v.id, g.edges[v.id].cells, v.keys));
    }
  }

  lemma {:induction false} NoItems(g: Graph)
    ensures EdgesOf(g, [])
  {
  }

  lemma {:induction false} HeadItem(g: Graph, it: Item)
    requires !it.op.Checkpoint? && (it.op.AddEdge? ==> it.op.edgeId in g.edges && it == EdgeHead(it.op.edgeId, g.edges[it.op.edgeId]))
    ensures EdgesOf(g, [it])
  {
  }

  /** Without nested checkpoints, what occurs in a checkpoint is its synthetic entries. */
  lemma {:induction false} FlatParts(env: Env, cp: Entry, n: nat, x: Entry)
    requires cp.payload.Checkpoint? && n <= |cp.payload.ops| && x in PartsTo(env, cp, n)
    requires forall i :: 0 <= i < |cp.payload.ops| ==> !cp.payload.ops[i].Checkpoint?
    ensures exists i :: 0 <= i < n && x == Synthetic(env, cp, i)
  {
    if x in PartsTo(env, cp, n - 1) { FlatParts(env, cp, n - 1, x); }
  }

  /** Held edges of a checkpoint may be retried in any order: its rebuild is determined. */
  lemma {:induction false} CheckpointCoherent(env: Env, items: seq<Item>, g: Graph, clock: Clock, author: string)
    requires EdgesOf(g, items)
    ensures CoherentEntries(env, [CheckpointEntry(env, items, clock, author)])
  {
    hide PartsTo;
    var cp := CheckpointEntry(env, items, clock, author);
    assert [cp][..0] == [];
    assert Occurring(env, [cp]) == {} + Parts(env, cp);
    forall a, b | a in Occurring(env, [cp]) && b in Occurring(env, [cp]) && a.payload.AddEdge? && b.payload.AddEdge?
      ensures Coherent(OpOf(a), OpOf(b))
    {
      FlatParts(env, cp, |items|, a);
      FlatParts(env, cp, |items|, b);
      var i :| 0 <= i < |items| && a == Synthetic(env, cp, i);
      var j :| 0 <= j < |items| && b == Synthetic(env, cp, j);
      assert a.payload == items[i].op && b.payload == items[j].op;
    }
  }

  // -- Compaction ----------------------------------------------------------------------------------------------------

  lemma {:induction false} OneEntryReplay(e: Entry)
    requires e.next == []
    ensures WellFormed(map[e.hash := e]) && Replayed(map[e.hash := e]) == [e]
  {
    hide CausalOrder;
    var l: Log := map[e.hash := e];
    RootWellFormed(e);
    CausalOrderCorrect(l, l.Keys);
    assert DistinctIn(l, l.Keys, e.hash);
    var r := CausalOrder(l, l.Keys);
    NoDupSize(r);
    assert l.Keys == {e.hash};
    assert |r| == 1 && r[0] in ToSet(r);
  }

  /** The entry that stands for a quarantined one after compaction: same content, rooted at the checkpoint. */
  function Carried(d: Digest, cp: Hash, e: Entry): Entry { NewEntry(d, e.payload, [cp], e.clock, e.author) }

  /** The log holds the checkpoint and the carried entries, and nothing else. */
  ghost predicate Compacted(d: Digest, l: Log, cp: Entry, carried: set<Entry>) {
    && cp.hash in l
    && (forall e :: e in carried ==> Carried(d, cp.hash, e).hash in l)
    && (forall h :: h in l ==> l[h] == cp || exists e :: e in carried && l[h] == Carried(d, cp.hash, e))
  }

  /** `x` says what `e` said, at the same time and under the same name, on top of the checkpoint. */
  predicate Restates(d: Digest, cp: Hash, e: Entry, x: Entry) {
    x.payload == e.payload && x.clock == e.clock && x.author == e.author && x.next == [cp] && d(Content(e.payload, [cp], e.clock, e.author)) == x.hash
  }

  /** A compacted log: the checkpoint, each carried entry restated on top of it, and nothing else. */
  lemma {:induction false} CompactedIs(d: Digest, l: Log, cp: Entry, carried: set<Entry>)
    requires Compacted(d, l, cp, carried) && Keyed(l)
    requires OneEntryPerHash({cp} + set e | e in carried :: Carried(d, cp.hash, e)) && cp.next == []
    ensures forall h :: h in l ==> l[h] == cp || exists e :: e in carried && Restates(d, cp.hash, e, l[h])
    ensures forall e :: e in carried ==> exists h :: h in l && Restates(d, cp.hash, e, l[h])
  {
    forall h | h in l && l[h] != cp ensures exists e :: e in carried && Restates(d, cp.hash, e, l[h]) {
      var e :| e in carried && l[h] == Carried(d, cp.hash, e);
      assert Restates(d, cp.hash, e, l[h]);
    }
    forall e | e in carried ensures exists h :: h in l && Restates(d, cp.hash, e, l[h]) {
      var x := Carried(d, cp.hash, e);
      assert x.hash in l && l[x.hash].hash == x.hash;
      assert l[x.hash] == x;
      assert Restates(d, cp.hash, e, l[x.hash]);
    }
  }

  lemma {:induction false} CarriedAppends(d: Digest, l: Log, cp: Entry, done: set<Entry>, e: Entry)
    requires Compacted(d, l, cp, done) && WellFormed(l) && AllVerify(d, l)
    ensures var l' := AppendTo(d, l, Carried(d, cp.hash, e));
      AppendVerdict(d, l, Carried(d, cp.hash, e)).Ok? && Compacted(d, l', cp, done + {e}) && AllVerify(d, l')
  {
    hide WellFormed;
    var x := Carried(d, cp.hash, e);
    assert FirstMissing(l, [cp.hash]) == None by { FirstMissingNone(l, [cp.hash]); }
    var l' := AppendTo(d, l, x);
    assert e in done + {e};
    forall h | h in l' ensures l'[h] == cp || exists y :: y in done + {e} && l'[h] == Carried(d, cp.hash, y) {
      if h in l && l[h] != cp && l' != l[x.hash := x] {
        var y :| y in done && l[h] == Carried(d, cp.hash, y);
        assert y in done + {e};
      } else if h in l && h != x.hash && l[h] != cp {
        var y :| y in done && l[h] == Carried(d, cp.hash, y);
        assert y in done + {e};
      }
    }
  }

  /** The quarantined entries still in the log. */
  function Quarantined(l: Log, quarantine: set<Hash>): set<Entry> { set h | h in quarantine && h in l :: l[h] }

  /** Carried are exactly the entries of the log that were in quarantine. */
  lemma {:induction false} CarriedAre(l: Log, quarantine: set<Hash>, e: Entry)
    requires Keyed(l)
    ensures e in Quarantined(l, quarantine) <==> e.hash in l && l[e.hash] == e && e.hash in quarantine
  {
  }

  /** What a checkpoint entry records: a root at its author's clock, one time stamp an operation, and that clock's tuple. */
  lemma {:induction false} CheckpointIs(env: Env, g: Graph, before: Clock, clock: Clock, author: string, nodes: seq<Visit>, edges: seq<Visit>)
    requires PlanFor(g, nodes, edges)
    ensures var cp := CheckpointEntry(env, CheckpointItems(g, before, nodes, edges), clock, author);
      && cp.next == [] && cp.author == author && cp.clock == clock && VerifyHash(env.digest, cp) && cp.payload.Checkpoint?
      && cp.payload.compactedPhysical == clock.physical && cp.payload.compactedLogical == clock.logical
      && |cp.payload.ops| == |cp.payload.opClocks| > 0 && cp.payload.ops[0] == DefineOntology(g.ontology)
      && cp.payload.opClocks[0] == (before.physical, before.logical)
  {
    hide PlanFor, NodeItems, EdgeItems;
  }

  /** Ticking the clock and writing the checkpoint entry. */
  method MakeCheckpoint(env: Env, g: Graph, clock: HybridClock, wall: u64, author: string)
    returns (cp: Entry, ghost nodes: seq<Visit>, ghost edges: seq<Visit>)
    modifies clock
    ensures clock.Value() == Ticked(old(clock.Value()), wall)
    ensures PlanFor(g, nodes, edges) && IsRootCheckpoint(cp) && VerifyHash(env.digest, cp)
    ensures cp == CheckpointEntry(env, CheckpointItems(g, old(clock.Value()), nodes, edges), clock.Value(), author)
  {
    hide PlanFor, CheckpointItems, Ops, ClocksOf, Tuples;
    var ops, clocks;
    ops, clocks, nodes, edges := BuildCheckpointOps(g, clock.Value());
    clock.Tick(wall);
    cp := NewEntry(env.digest, Checkpoint(ops, Tuples(clocks), clock.physical, clock.logical), [], clock.Value(), author);
  }

  /** Re-appending the carried entries under the checkpoint. */
  method CarryOver(log: OpLog, cp: Entry, carried: set<Entry>)
    requires log.Valid() && log.entries == map[cp.hash := cp] && VerifyHash(log.digest, cp)
    modifies log
    ensures log.Valid() && AllVerify(log.digest, log.entries) && Compacted(log.digest, log.entries, cp, carried)
    ensures carried == {} ==> log.entries == map[cp.hash := cp]
  {
    hide WellFormed, Compacted, VerifyHash;
    OnlyCheckpoint(log.digest, cp);
    var todo := carried;
    ghost var done: set<Entry> := {};
    while todo != {}
      invariant log.Valid() && todo <= carried && done == carried - todo
      invariant Compacted(log.digest, log.entries, cp, done) && AllVerify(log.digest, log.entries)
      invariant carried == {} ==> log.entries == map[cp.hash := cp]
    {
      var e :| e in todo;
      CarriedAppends(log.digest, log.entries, cp, done, e);
      var r := log.Append(Carried(log.digest, cp.hash, e));
      todo, done := todo - {e}, done + {e};
    }
    assert done == carried;
  }

  /** A graph rebuilt from nothing but the checkpoint of `g`. */
  lemma {:induction false} RestoredAfter(env: Env, base: Ontology, g: Graph, before: Clock, clock: Clock, author: string, nodes: seq<Visit>, edges: seq<Visit>)
    requires PlanFor(g, nodes, edges)
    ensures var cp := CheckpointEntry(env, CheckpointItems(g, before, nodes, edges), clock, author);
      var l: Log := map[cp.hash := cp];
      && WellFormed(l) && CoherentEntries(env, Replayed(l))
      && (Restored(g, author, Rebuilt(env, base, Replayed(l))) <==> Restorable(env, g))
  {
    hide WellFormed, Restored, Restorable, Rebuilt, CoherentEntries, PlanFor, CheckpointItems, Ops, ClocksOf, Replayed;
    OneEntryReplay(CheckpointEntry(env, CheckpointItems(g, before, nodes, edges), clock, author));
    ItemsCoherent(g, before, nodes, edges);
    CheckpointCoherent(env, CheckpointItems(g, before, nodes, edges), g, clock, author);
    RoundTrip(env, base, g, before, clock, author, nodes, edges);
  }

  /**
   * `compact`: the log shrinks to a checkpoint plus what was quarantined, and the graph is rebuilt
   * from it. With nothing quarantined the graph is restored exactly when it was restorable.
   */
  method Compact(log: OpLog, graph: MaterializedGraph, clock: HybridClock, wall: u64, author: string) returns (cp: Entry)
    requires log.Valid() && graph.env.digest == log.digest
    modifies log, graph, clock
    ensures log.Valid() && IsRootCheckpoint(cp)
    ensures clock.Value() == Ticked(old(clock.Value()), wall)
    ensures Compacted(log.digest, log.entries, cp, Quarantined(old(log.entries), old(graph.quarantined).Keys))
    ensures MayRebuild(graph.env, graph.base, Replayed(log.entries), graph.View())
    ensures old(graph.quarantined) == map[] ==>
      && log.entries == map[cp.hash := cp]
      && (Restored(old(graph.View()), author, graph.View()) <==> Restorable(graph.env, old(graph.View())))
  {
    hide WellFormed, Compacted, Restored, Restorable, MayRebuild, Rebuilt, CoherentEntries, PlanFor, CheckpointItems,
      VerifyHash, CheckpointEntry, Replayed, Ticked;
    ghost var g, before := graph.View(), clock.Value();
    var carried := Quarantined(log.entries, graph.quarantined.Keys);
    NothingCarried(log.entries);
    ghost var nodes, edges;
    cp, nodes, edges := MakeCheckpoint(graph.env, graph.View(), clock, wall, author);
    RestoredAfter(graph.env, graph.base, g, before, clock.Value(), author, nodes, edges);
    log.ReplaceWithCheckpoint(cp);
    CarryOver(log, cp, carried);
    Revalidate(log, graph);
    RebuildOutcome(graph.env, graph.base, Replayed(log.entries), graph.View());
  }

  lemma {:induction false} OnlyCheckpoint(d: Digest, cp: Entry)
    requires VerifyHash(d, cp)
    ensures Compacted(d, map[cp.hash := cp], cp, {}) && AllVerify(d, map[cp.hash := cp])
  {
  }

  lemma {:induction false} NothingCarried(l: Log)
    ensures Quarantined(l, {}) == {}
  {
  }

  lemma {:induction false} ItemsCoherent(g: Graph, clock: Clock, nodes: seq<Visit>, edges: seq<Visit>)
    requires PlanFor(g, nodes, edges)
    ensures EdgesOf(g, CheckpointItems(g, clock, nodes, edges))
  {
    hide EdgesOf, VisitsNodes, VisitsEdges;
    var head := Item(DefineOntology(g.ontology), clock);
    NodeItemsEdgeless(g, nodes);
    EdgeItemsLive(g, edges);
    HeadItem(g, head);
    EdgesOfConcat(g, NodeItems(g, nodes), EdgeItems(g, edges));
    EdgesOfConcat(g, [head], NodeItems(g, nodes) + EdgeItems(g, edges));
  }

  // -- A log that does not survive compaction ----------------------------------------------------------------------------

  /** A node, then an edge with the same id and a property. */
  function SharedEntry(i: nat): Entry {
    var op := if i == 0 then DefineOntology(ClashBase())
      else if i == 1 then AddNode("b", "t", None, "", map[])
      else AddEdge("b", "r", "b", "b", map["k" := Null]);
    Entry(i, op, if i == 0 then [] else [i - 1], Clock("p", i % TWO_64, 0), "p")
  }

  function SharedLog(): Log { map[0 := SharedEntry(0), 1 := SharedEntry(1), 2 := SharedEntry(2)] }

  function SharedNode(): Graph { ApplyAddNode(EmptyGraph(ClashBase()), "b", "t", None, "", map[], SharedEntry(1).clock) }

  lemma {:induction false} SharedReplay()
    ensures WellFormed(SharedLog()) && Replayed(SharedLog()) == [SharedEntry(0), SharedEntry(1), SharedEntry(2)]
  {
    hide CausalOrder, WellFormed;
    var l, line := SharedLog(), [0, 1, 2];
    assert ToSet(line) == l.Keys;
    ChainOrder(l, line);
  }

  lemma {:induction false} SharedFirst()
    ensures Materialize(ClashEnv(), EmptyGraph(ClashBase()), SharedEntry(1)) == SharedNode()
  {
    hide ValidNode, RetryAll, ApplyAddNode;
    var g := EmptyGraph(ClashBase());
    NodeFits();
    ReleaseSettled(g, 1);
    AddNodeLeaves(g, "b", "t", None, "", map[], SharedEntry(1).clock);
    assert ReadyEdges(SharedNode()) == {};
    RetryAllNone(ClashEnv(), SharedNode());
  }

  lemma {:induction false} SharedSecond()
    ensures var g := Materialize(ClashEnv(), SharedNode(), SharedEntry(2));
      "b" in AllNodes(g) && "b" in AllEdges(g) && "k" in g.edges["b"].cells
  {
    hide ValidEdge;
    var e := SharedEntry(2);
    assert "k" in map["k" := Null];
    assert ValidEdge(ClashEnv().accepts, ClashBase(), "r", "t", "t", e.payload.props, Full) by { EdgeFits(e.payload.props); }
    assert SharedNode().nodes["b"].nodeType == "t" && !SharedNode().nodes["b"].dead;
  }

  lemma {:induction false} EdgeFits(props: Props)
    ensures ValidEdge(ClashEnv().accepts, ClashBase(), "r", "t", "t", props, Full)
  {
    var o := ClashBase();
    assert IsSubtypeOf(o, "t", "t");
    assert o.edgeTypes["r"].sources == ["t"] && o.edgeTypes["r"].targets == ["t"];
    assert AcceptsEndpoint(o, ["t"], "t") by { assert ["t"][0] == "t"; }
  }

  lemma {:induction false} RootMaterializes(env: Env, g: Graph, e: Entry)
    requires e.payload.DefineOntology?
    ensures Materialize(env, g, e) == g
  {
  }

  /** The graph of a short log that a checkpoint cannot restore: the edge's property would go to the node. */
  lemma {:induction false} NotAllRestorable()
    ensures WellFormed(SharedLog()) && !Restorable(ClashEnv(), Rebuilt(ClashEnv(), ClashBase(), Replayed(SharedLog())))
  {
    hide Materialize, Replayed, WellFormed, VettedNode, VettedEdge;
    var env, g0, es := ClashEnv(), EmptyGraph(ClashBase()), [SharedEntry(0), SharedEntry(1), SharedEntry(2)];
    SharedReplay();
    SharedFirst();
    SharedSecond();
    FoldsToNothing(g0, es);
    RootMaterializes(env, g0, SharedEntry(0));
    assert es[..2] == [SharedEntry(0), SharedEntry(1)] && es[..2][..1] == [SharedEntry(0)] && [SharedEntry(0)][..0] == [];
    assert MaterializeAll(env, g0, []) == g0;
    assert MaterializeAll(env, g0, [SharedEntry(0)]) == g0;
    assert MaterializeAll(env, g0, es[..2]) == SharedNode();
  }
}
