/** What every entry keeps true of the graph: exact indexes, present endpoints, honest holding of edges. */
module GraphInvariant {
  import opened Base
  import opened Clocks
  import opened Ontologies
  import opened Entries
  import opened Paths
  import opened Graphs

  /** An index lists, under each key, exactly the entities that own it. */
  ghost predicate IndexExact(m: map<string, set<string>>, owner: map<string, string>) {
    forall k :: Succ(m, k) == set x | x in owner && owner[x] == k
  }

  function Sources(edges: map<string, Edge>): map<string, string> { map e | e in edges :: edges[e].source }

  function Targets(edges: map<string, Edge>): map<string, string> { map e | e in edges :: edges[e].target }

  function Kinds(nodes: map<string, Node>): map<string, string> { map n | n in nodes :: nodes[n].nodeType }

  ghost predicate EndpointsKept(g: Graph) {
    forall e :: e in g.edges ==> g.edges[e].source in g.nodes && g.edges[e].target in g.nodes
  }

  ghost predicate Exact(g: Graph) {
    && IndexExact(g.outgoing, Sources(g.edges))
    && IndexExact(g.incoming, Targets(g.edges))
    && IndexExact(g.byType, Kinds(g.nodes))
    && EndpointsKept(g)
  }

  lemma {:induction false} IndexAdds(m: map<string, set<string>>, owner: map<string, string>, k: string, x: string)
    requires IndexExact(m, owner) && x !in owner
    ensures IndexExact(Index(m, k, x), owner[x := k])
  {
    var owner' := owner[x := k];
    forall j ensures Succ(Index(m, k, x), j) == set y | y in owner' && owner'[y] == j {
      assert Succ(m, j) == set y | y in owner && owner[y] == j;
    }
  }

  /** A held edge is reported quarantined, and short of an endpoint unless it is being retried. */
  ghost predicate HeldRightly(g: Graph, retrying: set<Hash>) {
    forall h :: h in g.pending ==>
      && g.pending[h].hash == h && g.pending[h].payload.AddEdge?
      && h in g.quarantined
      && (h in retrying <==> EndpointsPresent(g, g.pending[h]))
  }

  ghost predicate Inv(g: Graph) { Exact(g) && HeldRightly(g, {}) }

  lemma {:induction false} EmptyInv(o: Ontology)
    ensures Inv(EmptyGraph(o))
  {
  }

  // -- Exactness -----------------------------------------------------------------------------------------------

  lemma {:induction false} AddNodeExact(g: Graph, id: string, t: string, st: Option<string>, title: string, props: Props, c: Clock)
    requires Exact(g)
    ensures Exact(ApplyAddNode(g, id, t, st, title, props, c))
  {
    hide AddAgain, IndexExact, Index;
    var g' := ApplyAddNode(g, id, t, st, title, props, c);
    if id in g.nodes {
      AddAgainKind(g.nodes[id], st, title, props, c);
      MapsAgree(Kinds(g'.nodes), Kinds(g.nodes));
    } else {
      IndexAdds(g.byType, Kinds(g.nodes), t, id);
      MapsAgree(Kinds(g'.nodes), Kinds(g.nodes)[id := t]);
    }
  }

  lemma {:induction false} AddAgainKind(n: Node, st: Option<string>, title: string, props: Props, c: Clock)
    ensures AddAgain(n, st, title, props, c).nodeType == n.nodeType
  {
  }

  lemma {:induction false} EdgeEnds(e: Edge, t: string, s: string, d: string, props: Props, c: Clock)
    ensures AddEdgeAgain(e, props, c).source == e.source && AddEdgeAgain(e, props, c).target == e.target
    ensures NewEdge(t, s, d, props, c).source == s && NewEdge(t, s, d, props, c).target == d
  {
  }

  lemma {:induction false} AddEdgeExact(g: Graph, id: string, t: string, s: string, d: string, props: Props, c: Clock)
    requires Exact(g) && s in g.nodes && d in g.nodes
    ensures Exact(ApplyAddEdge(g, id, t, s, d, props, c))
  {
    hide AddEdgeAgain, NewEdge, IndexExact, Index;
    var g' := ApplyAddEdge(g, id, t, s, d, props, c);
    if id in g.edges {
      EdgeEnds(g.edges[id], t, s, d, props, c);
      EdgeTouch(g.edges, id, AddEdgeAgain(g.edges[id], props, c));
    } else {
      EdgeEnds(NewEdge(t, s, d, props, c), t, s, d, props, c);
      IndexAdds(g.outgoing, Sources(g.edges), s, id);
      IndexAdds(g.incoming, Targets(g.edges), d, id);
      MapsAgree(Sources(g'.edges), Sources(g.edges)[id := s]);
      MapsAgree(Targets(g'.edges), Targets(g.edges)[id := d]);
    }
  }

  /** Same nodes with the same types, same edges between the same endpoints, same indexes. */
  ghost predicate SameShape(g: Graph, g': Graph) {
    && Kinds(g'.nodes) == Kinds(g.nodes) && Sources(g'.edges) == Sources(g.edges) && Targets(g'.edges) == Targets(g.edges)
    && g'.outgoing == g.outgoing && g'.incoming == g.incoming && g'.byType == g.byType
  }

  lemma {:induction false} ShapeExact(g: Graph, g': Graph)
    requires Exact(g) && SameShape(g, g')
    ensures Exact(g') && g'.nodes.Keys == g.nodes.Keys
  {
    assert g'.nodes.Keys == Kinds(g'.nodes).Keys && g.nodes.Keys == Kinds(g.nodes).Keys;
    forall e | e in g'.edges ensures g'.edges[e].source in g'.nodes && g'.edges[e].target in g'.nodes {
      assert e in Sources(g'.edges) && e in Targets(g'.edges);
      assert Sources(g.edges)[e] == g'.edges[e].source && Targets(g.edges)[e] == g'.edges[e].target;
      assert e in g.edges;
    }
  }

  // -- Edges held and retried ------------------------------------------------------------------------------------

  /** The edge entry is admitted into the graph. */
  predicate Admissible(env: Env, g: Graph, e: Entry, mode: Mode)
    requires e.payload.AddEdge?
  {
    var op := e.payload;
    op.edgeType in g.ontology.edgeTypes && EndpointsPresent(g, e) &&
    ValidEdge(env.accepts, g.ontology, op.edgeType, g.nodes[op.source].nodeType, g.nodes[op.target].nodeType, op.props, mode)
  }

  /** An edge that is not admitted only changes what is quarantined and held. */
  lemma {:induction false} AdmitCases(env: Env, g: Graph, e: Entry, mode: Mode)
    requires e.payload.AddEdge?
    ensures var op := e.payload;
      Admissible(env, g, e, mode) ==>
        AdmitEdge(env, g, e, mode) == ApplyAddEdge(Release(g, e.hash), op.edgeId, op.edgeType, op.source, op.target, op.props, e.clock)
    ensures !Admissible(env, g, e, mode) ==>
      && AdmitEdge(env, g, e, mode) == Quarantine(g.(pending := AdmitEdge(env, g, e, mode).pending), e.hash, "add_edge")
      && (AdmitEdge(env, g, e, mode).pending == g.pending
          || (AdmitEdge(env, g, e, mode).pending == g.pending[e.hash := e] && !EndpointsPresent(g, e)))
  {
    hide ValidEdge, ApplyAddEdge;
  }

  lemma {:induction false} AdmitExact(env: Env, g: Graph, e: Entry, mode: Mode)
    requires Exact(g) && e.payload.AddEdge?
    ensures Exact(AdmitEdge(env, g, e, mode))
  {
    hide Admissible, Exact, ApplyAddEdge, AdmitEdge, Sources, Targets, Kinds;
    var op := e.payload;
    AdmitCases(env, g, e, mode);
    if Admissible(env, g, e, mode) {
      AdmissibleEnds(env, g, e, mode);
      ShapeExact(g, Release(g, e.hash));
      AddEdgeExact(Release(g, e.hash), op.edgeId, op.edgeType, op.source, op.target, op.props, e.clock);
    } else {
      ShapeExact(g, AdmitEdge(env, g, e, mode));
    }
  }

  lemma {:induction false} AdmissibleEnds(env: Env, g: Graph, e: Entry, mode: Mode)
    requires e.payload.AddEdge? && Admissible(env, g, e, mode)
    ensures EndpointsPresent(g, e)
  {
  }

  lemma {:induction false} AdmitHeld(env: Env, g: Graph, e: Entry, mode: Mode, s: set<Hash>)
    requires HeldRightly(g, s) && e.payload.AddEdge? && e.hash !in s
    requires e.hash in g.pending ==> g.pending[e.hash] == e
    ensures HeldRightly(AdmitEdge(env, g, e, mode), s)
  {
    hide Admissible, AdmitEdge, ApplyAddEdge, HeldRightly, EndpointsPresent;
    var op, g' := e.payload, AdmitEdge(env, g, e, mode);
    AdmitCases(env, g, e, mode);
    if Admissible(env, g, e, mode) {
      AdmissibleEnds(env, g, e, mode);
      AddEdgeLeaves(Release(g, e.hash), op.edgeId, op.edgeType, op.source, op.target, op.props, e.clock);
      HeldAfterRelease(g, g', e, s);
    } else {
      HeldAfterQuarantine(g, g', e, s);
    }
  }

  lemma {:induction false} HeldAfterRelease(g: Graph, g': Graph, e: Entry, s: set<Hash>)
    requires HeldRightly(g, s) && e.payload.AddEdge? && EndpointsPresent(g, e) && e.hash !in s
    requires e.hash in g.pending ==> g.pending[e.hash] == e
    requires g'.nodes == g.nodes && g'.pending == g.pending && g'.quarantined == g.quarantined - {e.hash}
    ensures HeldRightly(g', s)
  {
  }

  lemma {:induction false} HeldAfterQuarantine(g: Graph, g': Graph, e: Entry, s: set<Hash>)
    requires HeldRightly(g, s) && e.payload.AddEdge? && e.hash !in s
    requires g'.nodes == g.nodes && g'.quarantined.Keys == g.quarantined.Keys + {e.hash}
    requires g'.pending == g.pending || (g'.pending == g.pending[e.hash := e] && !EndpointsPresent(g, e))
    ensures HeldRightly(g', s)
  {
  }

  lemma {:induction false} RetryKeepsInv(env: Env, g: Graph, ready: set<Hash>, h: Hash)
    requires Exact(g) && HeldRightly(g, ready) && Held(g, ready) && h in ready
    ensures Exact(RetryEdge(env, g, h)) && HeldRightly(RetryEdge(env, g, h), ready - {h})
  {
    hide Exact, AdmitEdge, Sources, Targets, Kinds;
    var g1 := g.(pending := g.pending - {h});
    ShapeExact(g, g1);
    AdmitExact(env, g1, g.pending[h], Full);
    assert HeldRightly(g1, ready - {h});
    AdmitHeld(env, g1, g.pending[h], Full, ready - {h});
  }

  lemma {:induction false} ReadyHeld(g: Graph)
    ensures Held(g, ReadyEdges(g))
  {
  }

  lemma {:induction false} RetryAllNone(env: Env, g: Graph)
    ensures RetryAll(env, g, {}) == g
  {
  }

  // -- Every entry -----------------------------------------------------------------------------------------------

  /** A graph differing from `g` in properties, clocks and tombstones only, with `h` released. */
  lemma {:induction false} TouchKeepsInv(g: Graph, g': Graph, h: Hash)
    requires Inv(g) && SameShape(g, g') && g'.pending == g.pending && h !in g.pending
    requires g'.quarantined.Keys >= g.quarantined.Keys - {h}
    ensures Inv(g')
  {
    hide Exact, Sources, Targets, Kinds;
    ShapeExact(g, g');
    assert forall k :: k in g.quarantined && k != h ==> k in g.quarantined.Keys - {h};
  }

  /** Right after a node arrives, the held edges that have both endpoints are exactly the ready ones. */
  lemma {:induction false} AddNodeHolds(g: Graph, h: Hash, id: string, t: string, st: Option<string>, title: string, props: Props, c: Clock)
    requires Inv(g) && h !in g.pending
    ensures var g' := ApplyAddNode(Release(g, h), id, t, st, title, props, c);
      Exact(g') && HeldRightly(g', ReadyEdges(g')) && g'.pending == g.pending
  {
    hide AddAgain, NewNode, Exact, Sources, Targets, Kinds;
    ShapeExact(g, Release(g, h));
    AddNodeExact(Release(g, h), id, t, st, title, props, c);
  }

  lemma {:induction false} NodeTouch(nodes: map<string, Node>, id: string, n: Node)
    requires id in nodes && n.nodeType == nodes[id].nodeType
    ensures Kinds(nodes[id := n]) == Kinds(nodes)
  {
    MapsAgree(Kinds(nodes[id := n]), Kinds(nodes));
  }

  lemma {:induction false} EdgeTouch(edges: map<string, Edge>, id: string, e: Edge)
    requires id in edges && e.source == edges[id].source && e.target == edges[id].target
    ensures Sources(edges[id := e]) == Sources(edges) && Targets(edges[id := e]) == Targets(edges)
  {
    MapsAgree(Sources(edges[id := e]), Sources(edges));
    MapsAgree(Targets(edges[id := e]), Targets(edges));
  }

  lemma {:induction false} UpdateShape(g: Graph, id: string, k: string, v: Value, c: Clock)
    ensures SameShape(g, ApplyUpdate(g, id, k, v, c))
    ensures ApplyUpdate(g, id, k, v, c).pending == g.pending && ApplyUpdate(g, id, k, v, c).quarantined == g.quarantined
  {
    hide SetCell, Kinds, Sources, Targets, Later;
    if id in g.nodes {
      NodeTouch(g.nodes, id, SetNodeProperty(g.nodes[id], k, v, c));
    } else if id in g.edges {
      EdgeTouch(g.edges, id, SetEdgeProperty(g.edges[id], k, v, c));
    }
  }

  lemma {:induction false} RemoveShape(g: Graph, id: string, c: Clock)
    ensures SameShape(g, ApplyRemoveNode(g, id, c)) && SameShape(g, ApplyRemoveEdge(g, id, c))
  {
    hide Kinds, Sources, Targets, Wins;
    if id in g.nodes { NodeTouch(g.nodes, id, RemovedNode(g.nodes[id], c)); }
    if id in g.edges { EdgeTouch(g.edges, id, RemovedEdge(g.edges[id], c)); }
  }

  lemma {:induction false} AdmitKeepsInv(env: Env, g: Graph, e: Entry, mode: Mode)
    requires Inv(g) && e.payload.AddEdge? && (e.hash in g.pending ==> g.pending[e.hash] == e)
    ensures Inv(AdmitEdge(env, g, e, mode))
  {
    hide Exact, AdmitEdge;
    AdmitExact(env, g, e, mode);
    AdmitHeld(env, g, e, mode, {});
  }

  lemma {:induction false} QuarantineKeepsInv(g: Graph, h: Hash, kind: string)
    requires Inv(g) && h !in g.pending
    ensures Inv(Quarantine(g, h, kind)) && Inv(Release(g, h))
  {
    hide Exact, HeldRightly;
    TouchKeepsInv(g, Quarantine(g, h, kind), h);
    TouchKeepsInv(g, Release(g, h), h);
  }

  lemma {:induction false} UpdateKeepsInv(g: Graph, h: Hash, id: string, k: string, v: Value, c: Clock)
    requires Inv(g) && h !in g.pending
    ensures Inv(ApplyUpdate(Release(g, h), id, k, v, c))
  {
    hide Exact, HeldRightly, ApplyUpdate, Kinds, Sources, Targets;
    UpdateShape(Release(g, h), id, k, v, c);
    TouchKeepsInv(g, ApplyUpdate(Release(g, h), id, k, v, c), h);
  }

  lemma {:induction false} RemoveKeepsInv(g: Graph, h: Hash, id: string, c: Clock)
    requires Inv(g) && h !in g.pending
    ensures Inv(ApplyRemoveNode(Release(g, h), id, c)) && Inv(ApplyRemoveEdge(Release(g, h), id, c))
  {
    hide Exact, HeldRightly, Sources, Targets, Kinds, RemovedNode, RemovedEdge;
    RemoveShape(Release(g, h), id, c);
    TouchKeepsInv(g, ApplyRemoveNode(Release(g, h), id, c), h);
    TouchKeepsInv(g, ApplyRemoveEdge(Release(g, h), id, c), h);
  }

  lemma {:induction false} OntologyKeepsInv(g: Graph, o: Ontology)
    requires Inv(g)
    ensures Inv(g.(ontology := o))
  {
    hide Exact, Sources, Targets, Kinds;
    ShapeExact(g, g.(ontology := o));
  }
}
