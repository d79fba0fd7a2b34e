/** The materialized graph as the mutable object a store keeps. */
module Materialized {
  import opened Base
  import opened Clocks
  import opened Ontologies
  import opened Entries
  import opened Graphs
  import opened GraphInvariant
  import opened Outcomes

  lemma {:induction false} ReadyIs(g: Graph, ready: set<Hash>)
    requires ready == set h | h in g.pending && g.pending[h].payload.AddEdge? && g.pending[h].payload.source in g.nodes
                            && g.pending[h].payload.target in g.nodes
    ensures ready == ReadyEdges(g)
  {
  }

  lemma {:induction false} RetryEdgeIs(env: Env, g: Graph, h: Hash)
    requires h in g.pending && g.pending[h].payload.AddEdge?
    ensures RetryEdge(env, g, h) == AdmitEdge(env, g.(pending := g.pending - {h}), g.pending[h], Full)
  {
  }

  lemma {:induction false} OneMore(env: Env, g: Graph, done: seq<Hash>, h: Hash)
    requires NoDup(done) && h !in ToSet(done)
    ensures NoDup(done + [h]) && ToSet(done + [h]) == ToSet(done) + {h}
    ensures var before := RetryList(env, g, done);
      h in before.pending && before.pending[h].payload.AddEdge? ==> RetryList(env, g, done + [h]) == RetryEdge(env, before, h)
  {
    hide RetryEdge;
    assert (done + [h])[..|done|] == done;
  }

  lemma {:induction false} ReplayMore(env: Env, g: Graph, cp: Entry, i: nat, adopt: bool, m: Graph, g': Graph)
    requires cp.payload.Checkpoint? && i < |cp.payload.ops| && MayReplay(env, g, cp, i, adopt, m) && MayReplayOne(env, m, cp, i, adopt, g')
    ensures MayReplay(env, g, cp, i + 1, adopt, g')
  {
    hide MayReplayOne;
    var k := i + 1 - 1;
    assert MayReplay(env, g, cp, k, adopt, m) && MayReplayOne(env, m, cp, k, adopt, g');
  }

  lemma {:induction false} SyntheticPayload(env: Env, cp: Entry, i: nat)
    requires cp.payload.Checkpoint? && i < |cp.payload.ops|
    ensures Synthetic(env, cp, i).payload == cp.payload.ops[i]
  {
  }

  class MaterializedGraph {
    const env: Env
    const base: Ontology
    var nodes: map<string, Node>
    var edges: map<string, Edge>
    var outgoing: map<string, set<string>>
    var incoming: map<string, set<string>>
    var byType: map<string, set<string>>
    var ontology: Ontology
    var quarantined: map<Hash, Record>
    var pending: map<Hash, Entry>

    function View(): Graph
      reads this
    {
      Graph(nodes, edges, outgoing, incoming, byType, ontology, quarantined, pending)
    }

    constructor (env: Env, o: Ontology)
      ensures View() == EmptyGraph(o) && base == o && this.env == env
    {
      this.env, base, ontology := env, o, o;
      nodes, edges, outgoing, incoming, byType, quarantined, pending := map[], map[], map[], map[], map[], map[], map[];
    }

    method AddNodeInPlace(id: string, t: string, st: Option<string>, title: string, props: Props, c: Clock)
      modifies this
      ensures View() == ApplyAddNode(old(View()), id, t, st, title, props, c)
    {
      if id in nodes {
        var n := nodes[id];
        n := n.(dead := false);
        if Wins(c, n.lastAdd) { n := n.(lastAdd := c); }
        if Wins(c, n.lastClock) { n := n.(title := title, subtype := st, lastClock := c); }
        var cells := MergePropertiesLww(n.cells, props, c);
        nodes := nodes[id := n.(cells := cells)];
      } else {
        byType := Index(byType, t, id);
        nodes := nodes[id := NewNode(t, st, title, props, c)];
      }
    }

    method AddEdgeInPlace(id: string, t: string, s: string, d: string, props: Props, c: Clock)
      modifies this
      ensures View() == ApplyAddEdge(old(View()), id, t, s, d, props, c)
    {
      if id in edges {
        var e := edges[id];
        e := e.(dead := false);
        if Wins(c, e.lastAdd) { e := e.(lastAdd := c); }
        if Wins(c, e.lastClock) { e := e.(lastClock := c); }
        var cells := MergePropertiesLww(e.cells, props, c);
        edges := edges[id := e.(cells := cells)];
      } else {
        outgoing := Index(outgoing, s, id);
        incoming := Index(incoming, d, id);
        edges := edges[id := NewEdge(t, s, d, props, c)];
      }
    }

    method QuarantineInPlace(h: Hash, kind: string)
      modifies this`quarantined
      ensures View() == Quarantine(old(View()), h, kind)
    {
      quarantined := quarantined[h := Record(kind, ontology)];
    }

    /** The add-edge arm: admit, reject on the merits, or hold for an endpoint. */
    method AdmitInPlace(e: Entry, mode: Mode)
      requires e.payload.AddEdge?
      modifies this
      ensures View() == AdmitEdge(env, old(View()), e, mode)
    {
      var op := e.payload;
      if op.edgeType !in ontology.edgeTypes {
        QuarantineInPlace(e.hash, "add_edge");
      } else if op.source in nodes && op.target in nodes {
        if ValidEdge(env.accepts, ontology, op.edgeType, nodes[op.source].nodeType, nodes[op.target].nodeType, op.props, mode) {
          quarantined := quarantined - {e.hash};
          AddEdgeInPlace(op.edgeId, op.edgeType, op.source, op.target, op.props, e.clock);
        } else {
          QuarantineInPlace(e.hash, "add_edge");
        }
      } else {
        pending := pending[e.hash := e];
        QuarantineInPlace(e.hash, "add_edge");
      }
    }

    /** Held edges whose endpoints have arrived, in whatever order the table lists them. */
    method RetryPendingEdges()
      modifies this
      ensures MayRetry(env, old(View()), View())
    {
      hide RetryEdge, ReadyEdges, AdmitEdge, NoDup;
      ghost var start := View();
      ReadyHeld(start);
      var ready := set h | h in pending && pending[h].payload.AddEdge? && pending[h].payload.source in nodes && pending[h].payload.target in nodes;
      ReadyIs(start, ready);
      var todo := ready;
      ghost var done: seq<Hash> := [];
      NothingYet<Hash>();
      while todo != {}
        invariant todo <= ready && NoDup(done) && ToSet(done) == ready - todo
        invariant Held(View(), todo) && View() == RetryList(env, start, done)
      {
        var h :| h in todo;
        ghost var before := View();
        RetryKeepsHeld(env, before, todo, h);
        OneMore(env, start, done, h);
        var e := pending[h];
        pending := pending - {h};
        RetryEdgeIs(env, before, h);
        AdmitInPlace(e, Full);
        todo, done := todo - {h}, done + [h];
      }
    }

    /** One entry: the graph afterwards is one of its outcomes. */
    method ApplyEntry(e: Entry, mode: Mode, adopt: bool)
      modifies this
      ensures MayApply(env, old(View()), e, mode, adopt, View())
      decreases e.payload, 1, 0
    {
      hide Apply, ValidNode, ApplyAddNode, MayRetry, MayReplay;
      match e.payload {
        case Checkpoint(_, _, _, _) =>
          ReplayInPlace(e, adopt);
          quarantined := quarantined - {e.hash};
        case AddNode(id, t, st, title, props) =>
          if ValidNode(env.accepts, ontology, t, st, props, mode) {
            quarantined := quarantined - {e.hash};
            AddNodeInPlace(id, t, st, title, props, e.clock);
            RetryPendingEdges();
          } else {
            QuarantineInPlace(e.hash, "add_node");
          }
        case _ => ApplySimple(e, mode, adopt);
      }
    }

    /** The arms that neither hold nor retry anything beyond the entry itself. */
    method ApplySimple(e: Entry, mode: Mode, ghost adopt: bool)
      requires !e.payload.Checkpoint? && !e.payload.AddNode?
      modifies this
      ensures View() == Apply(env, old(View()), e, mode, adopt)
    {
      hide AdmitEdge, ValidUpdate, MergeExtension, ApplyUpdate, ApplyRemoveNode, ApplyRemoveEdge;
      match e.payload {
        case DefineOntology(_) =>
        case DefineLens(_) =>
        case ExtendOntology(x) =>
          var (o, ok) := MergeExtension(ontology, x);
          ontology := o;
          if ok { quarantined := quarantined - {e.hash}; } else { QuarantineInPlace(e.hash, "extend_ontology"); }
        case AddEdge(_, _, _, _, _) => AdmitInPlace(e, mode);
        case UpdateProperty(id, k, v) =>
          if ValidUpdate(env, View(), id, k, v) {
            quarantined := quarantined - {e.hash};
            UpdateInPlace(id, k, v, e.clock);
          } else {
            QuarantineInPlace(e.hash, "update_property");
          }
        case RemoveNode(id) =>
          quarantined := quarantined - {e.hash};
          RemoveNodeInPlace(id, e.clock);
        case RemoveEdge(id) =>
          quarantined := quarantined - {e.hash};
          RemoveEdgeInPlace(id, e.clock);
      }
    }

    method ReplayInPlace(cp: Entry, adopt: bool)
      requires cp.payload.Checkpoint?
      modifies this
      ensures MayReplay(env, old(View()), cp, |cp.payload.ops|, adopt, View())
      decreases cp.payload, 0, 0
    {
      hide MayApply, Synthetic;
      for i := 0 to |cp.payload.ops|
        invariant MayReplay(env, old(View()), cp, i, adopt, View())
      {
        ghost var before := View();
        if cp.payload.ops[i].DefineOntology? {
          if adopt { ontology := cp.payload.ops[i].ontology; }
        } else {
          SyntheticPayload(env, cp, i);
          ApplyEntry(Synthetic(env, cp, i), SkipRequired, true);
        }
        ReplayMore(env, old(View()), cp, i, adopt, before, View());
      }
    }

    method UpdateInPlace(id: string, k: string, v: Value, c: Clock)
      modifies this
      ensures View() == ApplyUpdate(old(View()), id, k, v, c)
    {
      if id in nodes {
        var n := nodes[id];
        if Dominates(c, n.cells, k) { n := n.(cells := n.cells[k := Cell(v, c)]); }
        if Wins(c, n.lastClock) { n := n.(lastClock := c); }
        nodes := nodes[id := n];
      } else if id in edges {
        var e := edges[id];
        if Dominates(c, e.cells, k) { e := e.(cells := e.cells[k := Cell(v, c)]); }
        if Wins(c, e.lastClock) { e := e.(lastClock := c); }
        edges := edges[id := e];
      }
    }

    method RemoveNodeInPlace(id: string, c: Clock)
      modifies this
      ensures View() == ApplyRemoveNode(old(View()), id, c)
    {
      if id in nodes && Wins(c, nodes[id].lastAdd) { nodes := nodes[id := nodes[id].(dead := true, lastClock := c)]; }
      else if id in nodes { assert nodes[id := nodes[id]] == nodes; }
    }

    method RemoveEdgeInPlace(id: string, c: Clock)
      modifies this
      ensures View() == ApplyRemoveEdge(old(View()), id, c)
    {
      if id in edges && Wins(c, edges[id].lastAdd) { edges := edges[id := edges[id].(dead := true, lastClock := c)]; }
      else if id in edges { assert edges[id := edges[id]] == edges; }
    }

    /** Clear everything, fold the ontology from the log, then materialize the rest against it. */
    method Rebuild(entries: seq<Entry>)
      modifies this
      ensures MayRebuild(env, base, entries, View())
      ensures OneEntryPerHash(Occurring(env, entries)) ==> Inv(View())
      ensures CoherentEntries(env, entries) ==> View() == Rebuilt(env, base, entries)
    {
      hide Inv, OneEntryPerHash, CoherentEntries, MayApply, Fold, Rebuilt;
      nodes, edges, outgoing, incoming, byType, quarantined, pending := map[], map[], map[], map[], map[], map[], map[];
      ontology := base;
      for i := 0 to |entries|
        invariant View() == FoldAll(EmptyGraph(base), entries[..i])
      {
        assert entries[..i + 1][..i] == entries[..i];
        FoldInPlace(entries[i]);
      }
      assert entries[..|entries|] == entries;
      ghost var folded := View();
      for i := 0 to |entries|
        invariant MayMaterialize(env, folded, entries[..i], View())
      {
        assert entries[..i + 1][..i] == entries[..i];
        ghost var before := View();
        if !entries[i].payload.ExtendOntology? { ApplyEntry(entries[i], Full, false); }
        assert MayTake(env, before, entries[i], View());
      }
      RebuildOutcome(env, base, entries, View());
    }

    method FoldInPlace(e: Entry)
      modifies this
      ensures View() == Fold(old(View()), e)
    {
      hide MergeExtension;
      match e.payload {
        case ExtendOntology(x) =>
          var (o, ok) := MergeExtension(ontology, x);
          ontology := o;
          if !ok { QuarantineInPlace(e.hash, "extend_ontology"); }
        case Checkpoint(ops, _, _, _) =>
          ghost var o := ontology;
          for i := 0 to |ops|
            invariant ontology == LastDefined(ops[..i], o)
            invariant View() == old(View()).(ontology := ontology)
          {
            assert ops[..i + 1][..i] == ops[..i];
            if ops[i].DefineOntology? { ontology := ops[i].ontology; }
          }
          assert ops[..|ops|] == ops;
        case _ =>
      }
    }
  }
}
