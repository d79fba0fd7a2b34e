/** From logs to graphs: when two peers that hold the same hashes rebuild the same graph, and when they need not. */
module Replicas {
  import opened Base
  import opened Clocks
  import opened Ontologies
  import opened Entries
  import opened Dag
  import opened Topo
  import opened OpLogs
  import opened Sync
  import opened Convergence
  import opened Graphs
  import opened GraphInvariant
  import opened RetryOrder
  import opened Outcomes
  import opened Materialized
  import opened Chains
  import opened Network
  import opened Rings

  lemma {:induction false} OrderKnown(l: Log)
    requires WellFormed(l)
    ensures forall h :: h in CausalOrder(l, l.Keys) ==> h in l
  {
    CausalOrderCorrect(l, l.Keys);
    forall h | h in CausalOrder(l, l.Keys) ensures h in l { assert h in ToSet(CausalOrder(l, l.Keys)); }
  }

  /** The log's entries in causal order. */
  ghost function Replayed(l: Log): seq<Entry>
    requires WellFormed(l)
  {
    OrderKnown(l);
    EntriesAt(l, CausalOrder(l, l.Keys))
  }

  ghost predicate AllVerify(d: Digest, l: Log) { forall h :: h in l ==> VerifyHash(d, l[h]) }

  /** Rebuilding an object graph from an object log, whatever the graph held before. */
  method Revalidate(log: OpLog, graph: MaterializedGraph)
    requires log.Valid()
    modifies graph
    ensures log.Valid() && MayRebuild(graph.env, graph.base, Replayed(log.entries), graph.View())
  {
    hide MayRebuild, CausalOrder, WellFormed;
    var order := log.EntriesSince(None);
    NothingKnown(log.entries);
    OrderKnown(log.entries);
    var entries := EntriesAt(log.entries, order);
    graph.Rebuild(entries);
  }

  lemma {:induction false} NothingKnown(l: Log)
    ensures Past(l, []) == l.Keys
  {
    assert AncestorsOf(l, {}) == {};
    assert ToSet<Hash>([]) == {};
  }

  // -- Agreement -------------------------------------------------------------------------------------------------------

  lemma {:induction false} EqualHashesEqualLogs(d: Digest, a: Log, b: Log)
    requires WellFormed(a) && WellFormed(b) && AllVerify(d, a) && AllVerify(d, b) && NoCollision(d, a.Values + b.Values)
    requires a.Keys == b.Keys
    ensures a == b
  {
    hide Founded;
    SameHashSameEntry(d, a.Values + b.Values);
    forall h | h in a ensures a[h] == b[h] { assert a[h] in a.Values + b.Values && b[h] in a.Values + b.Values; }
    MapsAgree(a, b);
  }

  /**
   * Two peers with equal hash sets and base ontology, whatever order each retries its held edges in:
   * if additions of one edge do not clash, whatever they rebuild is one and the same graph,
   * quarantine and held edges included.
   */
  lemma {:induction false} EqualHashesEqualGraphs(env: Env, base: Ontology, a: Log, b: Log, g: Graph, h: Graph)
    requires WellFormed(a) && WellFormed(b) && AllVerify(env.digest, a) && AllVerify(env.digest, b)
    requires NoCollision(env.digest, a.Values + b.Values) && a.Keys == b.Keys && CoherentEntries(env, Replayed(a))
    requires MayRebuild(env, base, Replayed(a), g) && MayRebuild(env, base, Replayed(b), h)
    ensures g == h
  {
    hide WellFormed, MayRebuild, Rebuilt, CoherentEntries, Replayed, NoCollision, AllVerify;
    EqualHashesEqualLogs(env.digest, a, b);
    RebuildOutcome(env, base, Replayed(a), g);
    RebuildOutcome(env, base, Replayed(a), h);
  }

  /** The same of the objects: two stores over logs with equal hashes rebuild equal graphs. */
  method RevalidateBoth(left: OpLog, right: OpLog, g: MaterializedGraph, h: MaterializedGraph)
    requires left.Valid() && right.Valid() && g != h && g.env == h.env && g.base == h.base
    requires AllVerify(g.env.digest, left.entries) && AllVerify(g.env.digest, right.entries)
    requires NoCollision(g.env.digest, left.entries.Values + right.entries.Values) && left.entries.Keys == right.entries.Keys
    modifies g, h
    ensures left.Valid() && (CoherentEntries(g.env, Replayed(left.entries)) ==> g.View() == h.View())
  {
    hide WellFormed, MayRebuild, CoherentEntries, Replayed, NoCollision, AllVerify;
    Revalidate(left, g);
    Revalidate(right, h);
    if CoherentEntries(g.env, Replayed(left.entries)) {
      EqualHashesEqualGraphs(g.env, g.base, left.entries, right.entries, g.View(), h.View());
    }
  }

  /** Strong convergence: after syncing both ways, whatever the filters said, two peers rebuild one graph. */
  lemma {:induction false} SyncedPeersAgree(env: Env, base: Ontology, a: Log, b: Log, oB: Offer, oA: Offer, all: Log, g: Graph, h: Graph)
    requires Universe(all) && PartOf(a, all) && PartOf(b, all) && OfferOf(oB, b) && OfferOf(oA, a)
    requires var b' := SyncInto(a, b, oB);
      var a' := SyncInto(b', a, oA);
      && WellFormed(a') && WellFormed(b') && CoherentEntries(env, Replayed(a'))
      && MayRebuild(env, base, Replayed(a'), g) && MayRebuild(env, base, Replayed(b'), h)
    ensures g == h
  {
    hide SyncInto, MayRebuild, Rebuilt, CoherentEntries, Replayed, OfferOf, Universe, PartOf, WellFormed;
    BothWaysConverge(a, b, oB, oA, all);
    var a' := SyncInto(SyncInto(a, b, oB), a, oA);
    RebuildOutcome(env, base, Replayed(a'), g);
    RebuildOutcome(env, base, Replayed(a'), h);
  }

  /**
   * In every run of N peers that leaves clocks within drift and no more entries than one message holds,
   * two further rounds of the ring make every two peers rebuild one graph, unless additions of one edge clash.
   */
  lemma {:induction false} EveryRunAgrees(env: Env, base: Ontology, s: Net, steps: seq<Step>, first: nat -> Link, second: nat -> Link,
                                          i: nat, j: nat, g: Graph, h: Graph)
    requires Initial(env.digest, s) && Possible(env.digest, s, steps) && s.peers != [] && AllWithinDrift(Final(env.digest, s, steps))
    requires Manageable(Final(env.digest, s, steps), first) && Manageable(Final(env.digest, s, steps), second)
    requires var t := TwoRounds(Final(env.digest, s, steps), first, second);
      && i < |t.peers| && j < |t.peers| && WellFormed(t.peers[i].log) && WellFormed(t.peers[j].log)
      && CoherentEntries(env, Replayed(t.peers[i].log))
      && MayRebuild(env, base, Replayed(t.peers[i].log), g) && MayRebuild(env, base, Replayed(t.peers[j].log), h)
    ensures g == h
  {
    hide Initial, Possible, Final, AllWithinDrift, Manageable, TwoRounds, WellFormed, MayRebuild, Rebuilt, CoherentEntries, Replayed;
    EveryRunConverges(env.digest, s, steps, first, second);
    var t := TwoRounds(Final(env.digest, s, steps), first, second);
    RebuildOutcome(env, base, Replayed(t.peers[i].log), g);
    RebuildOutcome(env, base, Replayed(t.peers[i].log), h);
  }

  // -- Disagreement ----------------------------------------------------------------------------------------------------

  /** Two held edges with one new id that clash: the order in which they are retried shows. */
  lemma {:induction false} RetryOrderShows(env: Env, g: Graph, a: Hash, b: Hash)
    requires Held(g, {a, b}) && a != b && PendingKeyed(g)
    requires Admissible(env, g, g.pending[a], Full) && Admissible(env, g, g.pending[b], Full)
    requires g.pending[a].payload.edgeId == g.pending[b].payload.edgeId && g.pending[a].payload.edgeId !in g.edges
    requires !Coherent(OpOf(g.pending[a]), OpOf(g.pending[b]))
    ensures RetryList(env, g, [a, b]) != RetryList(env, g, [b, a])
  {
    hide Attach, RetryEdge, Admissible, Coherent;
    var ga, gb := RetryEdge(env, g, a), RetryEdge(env, g, b);
    RetryParts(env, g, a);
    RetryParts(env, g, b);
    assert ga.pending[b] == g.pending[b] && gb.pending[a] == g.pending[a];
    RetryParts(env, ga, b);
    RetryParts(env, gb, a);
    VerdictStands(env, g, ga, g.pending[b]);
    VerdictStands(env, g, gb, g.pending[a]);
    AttachCommutesExactly(TopologyOf(g), OpOf(g.pending[a]), OpOf(g.pending[b]));
    ListTwo(env, g, a, b);
    ListTwo(env, g, b, a);
  }

  lemma {:induction false} ListTwo(env: Env, g: Graph, a: Hash, b: Hash)
    requires Held(g, {a, b}) && a != b
    ensures Held(RetryEdge(env, g, a), {b})
    ensures RetryList(env, g, [a, b]) == RetryEdge(env, RetryEdge(env, g, a), b)
  {
    hide RetryEdge;
    RetryKeepsHeld(env, g, {a, b}, a);
    assert {a, b} - {a} == {b};
    assert [a, b][..1] == [a] && [a][..0] == [];
    assert RetryList(env, g, []) == g;
    assert RetryList(env, g, [a]) == RetryEdge(env, g, a);
  }

  /** A log from its genesis: two additions of edge "x" under different types, then the node both wait for. */
  function ClashOp(i: nat): GraphOp {
    if i == 0 then DefineOntology(ClashBase())
    else if i == 1 then AddEdge("x", "r", "b", "b", map[])
    else if i == 2 then AddEdge("x", "q", "b", "b", map[])
    else AddNode("b", "t", None, "", map[])
  }

  function ClashEntry(i: nat): Entry { Entry(i, ClashOp(i), if i == 0 then [] else [i - 1], Clock("p", i % TWO_64, 0), "p") }

  function ClashLog(): Log { map[0 := ClashEntry(0), 1 := ClashEntry(1), 2 := ClashEntry(2), 3 := ClashEntry(3)] }

  function ClashList(): seq<Entry> { [ClashEntry(0), ClashEntry(1), ClashEntry(2), ClashEntry(3)] }

  function ClashBase(): Ontology {
    Ontology(map["t" := NodeTypeDef(map[], None, None)],
             map["r" := EdgeTypeDef(["t"], ["t"], map[]), "q" := EdgeTypeDef(["t"], ["t"], map[])])
  }

  /** A digest that tells the four contents apart. */
  function ClashEnv(): Env { Env((c: Content) => c.clock.physical, (d, v) => true) }

  lemma {:induction false} ClashReplay()
    ensures WellFormed(ClashLog()) && Replayed(ClashLog()) == ClashList()
    ensures AllVerify(ClashEnv().digest, ClashLog())
  {
    hide CausalOrder, WellFormed, IsChain, ClashOp;
    ClashVerifies();
    ClashChain();
    ChainOrder(ClashLog(), [0, 1, 2, 3]);
  }

  lemma {:induction false} ClashVerifies()
    ensures AllVerify(ClashEnv().digest, ClashLog())
  {
    hide ClashOp;
  }

  lemma {:induction false} ClashChain()
    ensures IsChain(ClashLog(), [0, 1, 2, 3])
  {
    hide ClashOp;
    assert ToSet([0, 1, 2, 3]) == ClashLog().Keys;
  }

  /** The graph while both edges wait. */
  function Waiting(): Graph {
    EmptyGraph(ClashBase()).(
      quarantined := map[1 := Record("add_edge", ClashBase()), 2 := Record("add_edge", ClashBase())],
      pending := map[1 := ClashEntry(1), 2 := ClashEntry(2)])
  }

  lemma {:induction false} ClashWaits()
    ensures MayMaterialize(ClashEnv(), EmptyGraph(ClashBase()), ClashList()[..3], Waiting())
  {
    hide MayApply;
    var env, g0 := ClashEnv(), EmptyGraph(ClashBase());
    var e0, e1, e2 := ClashEntry(0), ClashEntry(1), ClashEntry(2);
    var g1 := g0.(quarantined := map[1 := Record("add_edge", ClashBase())], pending := map[1 := e1]);
    RootDoesNothing(env, g0, e0);
    HoldsEdge(env, g0, e1);
    HoldsEdge(env, g1, e2);
    assert ClashList()[..3] == [e0, e1, e2] && [e0, e1, e2][..2] == [e0, e1] && [e0, e1][..1] == [e0] && [e0][..0] == [];
    assert MayMaterialize(env, g0, [], g0) && MayTake(env, g0, e0, g0);
    assert MayMaterialize(env, g0, [e0], g0) && MayTake(env, g0, e1, g1);
    assert MayMaterialize(env, g0, [e0, e1], g1) && MayTake(env, g1, e2, Waiting());
  }

  lemma {:induction false} RootDoesNothing(env: Env, g: Graph, e: Entry)
    requires e.payload.DefineOntology?
    ensures MayApply(env, g, e, Full, false, g)
  {
  }

  lemma {:induction false} HoldsEdge(env: Env, g: Graph, e: Entry)
    requires e.payload.AddEdge? && e.payload.edgeType in g.ontology.edgeTypes && !EndpointsPresent(g, e)
    ensures MayApply(env, g, e, Full, false,
      g.(pending := g.pending[e.hash := e], quarantined := g.quarantined[e.hash := Record("add_edge", g.ontology)]))
  {
  }

  /** The graph right after node "b" arrives. */
  function Arrived(): Graph {
    ApplyAddNode(Graphs.Release(Waiting(), 3), "b", "t", None, "", map[], ClashEntry(3).clock)
  }

  lemma {:induction false} ArrivedReady()
    ensures ReadyEdges(Arrived()) == {1, 2} && Held(Arrived(), {1, 2}) && PendingKeyed(Arrived())
    ensures Arrived().pending == Waiting().pending && Arrived().edges == map[] && Arrived().ontology == ClashBase()
    ensures "b" in Arrived().nodes && Arrived().nodes["b"].nodeType == "t"
  {
    hide MergeCells;
  }

  lemma {:induction false} ClashAdmits(i: nat)
    requires i == 1 || i == 2
    ensures Admissible(ClashEnv(), Arrived(), ClashEntry(i), Full)
  {
    hide Arrived;
    ArrivedReady();
    var o := ClashBase();
    assert IsSubtypeOf(o, "t", "t");
    assert o.edgeTypes["r"].sources == ["t"] && o.edgeTypes["q"].sources == ["t"];
    assert AcceptsEndpoint(o, ["t"], "t") by { assert ["t"][0] == "t"; }
  }

  lemma {:induction false} NodeFits()
    ensures ValidNode(ClashEnv().accepts, ClashBase(), "t", None, map[], Full)
  {
    assert Chain(ClashBase(), "t", MAX_LEVELS) == [];
    assert ["t"][1..] == [];
    assert Inherit(ClashBase(), []) == map[];
    assert EffectiveProperties(ClashBase(), "t") == map[];
  }

  /** One log, two retry orders, two graphs. */
  lemma {:induction false} RebuildsCanDiffer()
    ensures WellFormed(ClashLog()) && AllVerify(ClashEnv().digest, ClashLog())
    ensures exists g, h ::
      g != h && MayRebuild(ClashEnv(), ClashBase(), Replayed(ClashLog()), g) && MayRebuild(ClashEnv(), ClashBase(), Replayed(ClashLog()), h)
  {
    hide Arrived, Admissible, RetryList, MayApply, Waiting, ValidNode, Replayed, Coherent;
    var env := ClashEnv();
    ClashReplay();
    ClashWaits();
    ArrivedReady();
    ClashAdmits(1);
    ClashAdmits(2);
    HeldAre();
    Clashes();
    RetryOrderShows(env, Arrived(), 1, 2);
    var g, h := RetryList(env, Arrived(), [1, 2]), RetryList(env, Arrived(), [2, 1]);
    Retried([1, 2]);
    Retried([2, 1]);
    ClashEnds(g);
    ClashEnds(h);
  }

  lemma {:induction false} HeldAre()
    ensures Waiting().pending == map[1 := ClashEntry(1), 2 := ClashEntry(2)]
  {
  }

  lemma {:induction false} Clashes()
    ensures !Coherent(OpOf(ClashEntry(1)), OpOf(ClashEntry(2)))
    ensures ClashEntry(1).payload.edgeId == ClashEntry(2).payload.edgeId
  {
    assert "r"[0] != "q"[0];
  }

  lemma {:induction false} Retried(order: seq<Hash>)
    requires order == [1, 2] || order == [2, 1]
    ensures MayRetry(ClashEnv(), Arrived(), RetryList(ClashEnv(), Arrived(), order))
  {
    hide Arrived, RetryList;
    ArrivedReady();
    assert ToSet(order) == {1, 2};
  }

  lemma {:induction false} ClashEnds(g: Graph)
    requires MayRetry(ClashEnv(), Arrived(), g)
    ensures MayRebuild(ClashEnv(), ClashBase(), ClashList(), g)
  {
    hide MayRetry, MayTake, Waiting, FoldAll, ClashBase;
    var env, es := ClashEnv(), ClashList();
    ClashWaits();
    FoldsToNothing(EmptyGraph(ClashBase()), es);
    ClashLast(g);
    assert MayTake(env, Waiting(), es[3], g);
  }

  lemma {:induction false} ClashLast(g: Graph)
    requires MayRetry(ClashEnv(), Arrived(), g)
    ensures MayTake(ClashEnv(), Waiting(), ClashEntry(3), g)
  {
    hide MayRetry, ValidNode, ApplyAddNode, Graphs.Release;
    NodeFits();
    assert Waiting().ontology == ClashBase();
  }

  lemma {:induction false} FoldsToNothing(g: Graph, es: seq<Entry>)
    requires forall e :: e in es ==> !e.payload.ExtendOntology? && !e.payload.Checkpoint?
    ensures FoldAll(g, es) == g
  {
    if es != [] { FoldsToNothing(g, es[..|es| - 1]); }
  }
}
