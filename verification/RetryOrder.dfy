/** Held edges may be taken up in any order: when that makes no difference, and exactly why. */
module RetryOrder {
  import opened Base
  import opened Clocks
  import opened Ontologies
  import opened Entries
  import opened Paths
  import opened Graphs
  import opened GraphInvariant

  /** The part of a graph that admitting an edge changes. */
  datatype Topology = Topology(edges: map<string, Edge>, outgoing: map<string, set<string>>, incoming: map<string, set<string>>)

  datatype EdgeOp = EdgeOp(id: string, edgeType: string, source: string, target: string, props: Props, clock: Clock)

  function Attach(t: Topology, a: EdgeOp): Topology {
    if a.id in t.edges then t.(edges := t.edges[a.id := AddEdgeAgain(t.edges[a.id], a.props, a.clock)])
    else Topology(t.edges[a.id := NewEdge(a.edgeType, a.source, a.target, a.props, a.clock)],
                  Index(t.outgoing, a.source, a.id), Index(t.incoming, a.target, a.id))
  }

  /** Two writes to one key may be merged in either order: their clocks differ, or they say the same. */
  predicate Compatible(a: EdgeOp, b: EdgeOp) {
    a.clock != b.clock || forall k :: k in a.props && k in b.props ==> a.props[k] == b.props[k]
  }

  /** Two additions of one edge agree on its type and endpoints and do not clash on a property. */
  predicate Coherent(a: EdgeOp, b: EdgeOp) {
    a.id == b.id ==>
      a.edgeType == b.edgeType && a.source == b.source && a.target == b.target && Compatible(a, b)
  }

  lemma {:induction false} MergeCellsCommute(cells: Cells, a: EdgeOp, b: EdgeOp)
    requires Compatible(a, b)
    ensures MergeCells(MergeCells(cells, a.props, a.clock), b.props, b.clock) ==
            MergeCells(MergeCells(cells, b.props, b.clock), a.props, a.clock)
  {
    hide Wins;
    var x := MergeCells(MergeCells(cells, a.props, a.clock), b.props, b.clock);
    var y := MergeCells(MergeCells(cells, b.props, b.clock), a.props, a.clock);
    forall k | k in x ensures k in y && x[k] == y[k] {
      WinsTotal(a.clock, b.clock);
      if k in cells {
        WinsThree(a.clock, b.clock, cells[k].clock);
        WinsThree(b.clock, a.clock, cells[k].clock);
      }
    }
    MapsAgree(x, y);
  }

  lemma {:induction false} WinsThree(a: Clock, b: Clock, c: Clock)
    ensures Wins(a, b) && Wins(b, c) ==> Wins(a, c)
  {
    if Wins(a, b) && Wins(b, c) { WinsTrans(a, b, c); }
  }

  lemma {:induction false} AgainCommutes(e: Edge, a: EdgeOp, b: EdgeOp)
    requires Compatible(a, b)
    ensures AddEdgeAgain(AddEdgeAgain(e, a.props, a.clock), b.props, b.clock) ==
            AddEdgeAgain(AddEdgeAgain(e, b.props, b.clock), a.props, a.clock)
  {
    hide MergeCells, Wins;
    MergeCellsCommute(e.cells, a, b);
    LaterCommutes(e.lastClock, a.clock, b.clock);
    LaterCommutes(e.lastAdd, a.clock, b.clock);
  }

  lemma {:induction false} LaterCommutes(c: Clock, a: Clock, b: Clock)
    ensures Later(Later(c, a), b) == Later(Later(c, b), a)
  {
    hide Later;
    LaterIsJoin(c, a, b);
    LaterIsJoin(c, b, a);
    LaterIsJoin(a, b, a);
  }

  lemma {:induction false} FreshCommutes(a: EdgeOp, b: EdgeOp)
    requires a.id == b.id && Coherent(a, b)
    ensures AddEdgeAgain(NewEdge(a.edgeType, a.source, a.target, a.props, a.clock), b.props, b.clock) ==
            AddEdgeAgain(NewEdge(b.edgeType, b.source, b.target, b.props, b.clock), a.props, a.clock)
  {
    hide MergeCells, Wins;
    MergeCellsCommute(map[], a, b);
    LaterIsJoin(a.clock, b.clock, a.clock);
  }

  lemma {:induction false} IndexCommutes(m: map<string, set<string>>, k: string, x: string, j: string, y: string)
    ensures Index(Index(m, k, x), j, y) == Index(Index(m, j, y), k, x)
  {
    if k == j { assert Succ(m, k) + {x} + {y} == Succ(m, k) + {y} + {x}; }
    MapsAgree(Index(Index(m, k, x), j, y), Index(Index(m, j, y), k, x));
  }

  lemma {:induction false} AttachCommutes(t: Topology, a: EdgeOp, b: EdgeOp)
    requires Coherent(a, b)
    ensures Attach(Attach(t, a), b) == Attach(Attach(t, b), a)
  {
    hide AddEdgeAgain, NewEdge, Index;
    if a.id == b.id {
      if a.id in t.edges { AgainCommutes(t.edges[a.id], a, b); } else { FreshCommutes(a, b); }
      MapsAgree(Attach(Attach(t, a), b).edges, Attach(Attach(t, b), a).edges);
    } else {
      IndexCommutes(t.outgoing, a.source, a.id, b.source, b.id);
      IndexCommutes(t.incoming, a.target, a.id, b.target, b.id);
      MapsAgree(Attach(Attach(t, a), b).edges, Attach(Attach(t, b), a).edges);
    }
  }

  /** For two additions of an edge not yet there, order is immaterial exactly when they are coherent. */
  lemma {:induction false} AttachCommutesExactly(t: Topology, a: EdgeOp, b: EdgeOp)
    requires a.id == b.id && a.id !in t.edges
    ensures Attach(Attach(t, a), b) == Attach(Attach(t, b), a) <==> Coherent(a, b)
  {
    if Coherent(a, b) {
      AttachCommutes(t, a, b);
    } else if Attach(Attach(t, a), b) == Attach(Attach(t, b), a) {
      ClashShows(t, a, b);
    }
  }

  lemma {:induction false} ClashShows(t: Topology, a: EdgeOp, b: EdgeOp)
    requires a.id == b.id && a.id !in t.edges && Attach(Attach(t, a), b) == Attach(Attach(t, b), a)
    ensures Coherent(a, b)
  {
    hide Index, Wins;
    var x, y := Attach(Attach(t, a), b).edges[a.id], Attach(Attach(t, b), a).edges[a.id];
    assert x == y;
    if a.clock == b.clock {
      WinsTotal(a.clock, b.clock);
      forall k | k in a.props && k in b.props ensures a.props[k] == b.props[k] {
        assert x.cells[k].value == a.props[k] && y.cells[k].value == b.props[k];
      }
    }
  }

  // -- Lifting to the graph ------------------------------------------------------------------------------------

  function OpOf(e: Entry): EdgeOp
    requires e.payload.AddEdge?
  {
    EdgeOp(e.payload.edgeId, e.payload.edgeType, e.payload.source, e.payload.target, e.payload.props, e.clock)
  }

  function TopologyOf(g: Graph): Topology { Topology(g.edges, g.outgoing, g.incoming) }

  function WithTopology(g: Graph, t: Topology): Graph { g.(edges := t.edges, outgoing := t.outgoing, incoming := t.incoming) }

  function Judged(g: Graph, e: Entry, ok: bool): map<Hash, Record> {
    if ok then g.quarantined - {e.hash} else g.quarantined[e.hash := Record("add_edge", g.ontology)]
  }

  /** Taking up a held edge, field by field. */
  lemma {:induction false} RetryParts(env: Env, g: Graph, h: Hash)
    requires h in g.pending && g.pending[h].payload.AddEdge? && EndpointsPresent(g, g.pending[h])
    ensures var e := g.pending[h];
      var ok := Admissible(env, g, e, Full);
      RetryEdge(env, g, h) ==
        WithTopology(g, if ok then Attach(TopologyOf(g), OpOf(e)) else TopologyOf(g))
          .(quarantined := Judged(g, e, ok), pending := g.pending - {h})
  {
    hide ValidEdge, AddEdgeAgain, NewEdge, Index;
  }

  predicate IsHeldEdge(g: Graph, h: Hash) { h in g.pending && g.pending[h].payload.AddEdge? }

  /** Pairwise coherence of a set of held edges. */
  ghost predicate AllCoherent(g: Graph, ready: set<Hash>) {
    forall a, b :: a in ready && b in ready && IsHeldEdge(g, a) && IsHeldEdge(g, b) ==>
      Coherent(OpOf(g.pending[a]), OpOf(g.pending[b]))
  }

  lemma {:induction false} RetryPairCommutes(env: Env, g: Graph, a: Hash, b: Hash)
    requires Held(g, {a, b}) && a != b && g.pending[a].hash == a && g.pending[b].hash == b
    requires Coherent(OpOf(g.pending[a]), OpOf(g.pending[b]))
    ensures Held(RetryEdge(env, g, a), {b}) && Held(RetryEdge(env, g, b), {a})
    ensures RetryEdge(env, RetryEdge(env, g, a), b) == RetryEdge(env, RetryEdge(env, g, b), a)
  {
    hide Attach, Coherent, RetryEdge, Admissible, OpOf;
    var ea, eb := g.pending[a], g.pending[b];
    RetryParts(env, g, a);
    RetryParts(env, g, b);
    var ga, gb := RetryEdge(env, g, a), RetryEdge(env, g, b);
    assert ga.pending[b] == eb && gb.pending[a] == ea;
    RetryParts(env, ga, b);
    RetryParts(env, gb, a);
    VerdictStands(env, g, ga, eb);
    VerdictStands(env, g, gb, ea);
    AttachCommutes(TopologyOf(g), OpOf(ea), OpOf(eb));
    MapsAgree(RetryEdge(env, ga, b).pending, RetryEdge(env, gb, a).pending);
    MapsAgree(RetryEdge(env, ga, b).quarantined, RetryEdge(env, gb, a).quarantined);
  }

  /** The verdict on a held edge depends on nodes and ontology only. */
  lemma {:induction false} VerdictStands(env: Env, g: Graph, g': Graph, e: Entry)
    requires e.payload.AddEdge? && g'.nodes == g.nodes && g'.ontology == g.ontology
    ensures Admissible(env, g', e, Full) == Admissible(env, g, e, Full)
  {
  }

  lemma {:induction false} HeldCoherent(g: Graph, ready: set<Hash>, a: Hash, b: Hash)
    requires AllCoherent(g, ready) && Held(g, ready) && a in ready && b in ready
    ensures Coherent(OpOf(g.pending[a]), OpOf(g.pending[b]))
  {
    hide Coherent;
  }

  lemma {:induction false} RetryUnfold(env: Env, g: Graph, ready: set<Hash>)
    requires Held(g, ready) && ready != {}
    ensures var x := Pick(ready);
      Held(RetryEdge(env, g, x), ready - {x}) && RetryAll(env, g, ready) == RetryAll(env, RetryEdge(env, g, x), ready - {x})
  {
    hide RetryEdge;
    RetryKeepsHeld(env, g, ready, Pick(ready));
  }

  /** Held edges are filed under their own hashes. */
  ghost predicate PendingKeyed(g: Graph) { forall h :: h in g.pending ==> g.pending[h].hash == h }

  /** Any member of the ready set may go first. */
  lemma {:induction false} RetryAnyFirst(env: Env, g: Graph, ready: set<Hash>, h: Hash)
    requires Held(g, ready) && h in ready && AllCoherent(g, ready) && PendingKeyed(g)
    ensures Held(RetryEdge(env, g, h), ready - {h})
    ensures RetryAll(env, g, ready) == RetryAll(env, RetryEdge(env, g, h), ready - {h})
    decreases ready
  {
    hide RetryEdge, AllCoherent, RetryAll;
    RetryKeepsHeld(env, g, ready, h);
    var x := Pick(ready);
    RetryUnfold(env, g, ready);
    if x != h {
      RetryKeepsHeld(env, g, ready, x);
      var gx, gh := RetryEdge(env, g, x), RetryEdge(env, g, h);
      CoherentStays(g, gx, ready, x);
      CoherentStays(g, gh, ready, h);
      RetryAnyFirst(env, gx, ready - {x}, h);
      RetryAnyFirst(env, gh, ready - {h}, x);
      HeldCoherent(g, ready, x, h);
      RetryPairCommutes(env, g, x, h);
      assert ready - {x} - {h} == ready - {h} - {x};
    }
  }

  lemma {:induction false} CoherentStays(g: Graph, g': Graph, ready: set<Hash>, x: Hash)
    requires AllCoherent(g, ready) && g'.pending == g.pending - {x}
    ensures AllCoherent(g', ready - {x})
  {
  }
}
