/** Compaction round trip: rebuilding from a checkpoint restores the live graph, and exactly when it does. */
module Compaction {
  import opened Base
  import opened Clocks
  import opened Ontologies
  import opened Entries
  import opened Graphs
  import opened GraphInvariant
  import opened Checkpoints
  import opened Lww

  // -- What is restored --------------------------------------------------------------------------------------------

  /** The cells of `keys`, with the same values under the same instants, all in `author`'s name. */
  ghost predicate Renamed(author: string, cells: Cells, keys: set<string>, cells': Cells) {
    cells'.Keys == keys && forall k :: k in keys ==> k in cells && cells'[k] == Cell(cells[k].value, Under(author, cells[k].clock))
  }

  /** The greatest of the add clock and the property clocks. */
  ghost predicate Topmost(c: Clock, add: Clock, cells: Cells) {
    && (c == add || exists k :: k in cells && cells[k].clock == c)
    && !Wins(add, c) && (forall k :: k in cells ==> !Wins(cells[k].clock, c))
  }

  ghost predicate NodeRestored(author: string, n: Node, n': Node) {
    && n' == Node(n.nodeType, n.subtype, n.title, n'.cells, n'.lastClock, Under(author, n.lastAdd), false)
    && Renamed(author, n.cells, n.cells.Keys, n'.cells)
    && Topmost(n'.lastClock, n'.lastAdd, n'.cells)
  }

  ghost predicate EdgeRestored(author: string, e: Edge, e': Edge) {
    && e' == Edge(e.edgeType, e.source, e.target, e'.cells, e'.lastClock, Under(author, e.lastAdd), false)
    && Renamed(author, e.cells, e.cells.Keys, e'.cells)
    && Topmost(e'.lastClock, e'.lastAdd, e'.cells)
  }

  ghost predicate NodesRestored(g: Graph, author: string, ids: set<string>, s: Graph) {
    s.nodes.Keys == ids && forall id :: id in ids ==> id in g.nodes && NodeRestored(author, g.nodes[id], s.nodes[id])
  }

  ghost predicate EdgesRestored(g: Graph, author: string, ids: set<string>, s: Graph) {
    s.edges.Keys == ids && forall id :: id in ids ==> id in g.edges && EdgeRestored(author, g.edges[id], s.edges[id])
  }

  /** Exactly the live nodes and edges, with their types, values and clock tuples; nothing held, nothing quarantined. */
  ghost predicate Restored(g: Graph, author: string, s: Graph) {
    && s.ontology == g.ontology && Settled(s)
    && NodesRestored(g, author, AllNodes(g), s) && EdgesRestored(g, author, AllEdges(g), s)
  }

  // -- When it can be ------------------------------------------------------------------------------------------------

  ghost predicate VettedNode(env: Env, o: Ontology, n: Node) {
    && ValidNode(env.accepts, o, n.nodeType, n.subtype, map[], SkipRequired)
    && forall k :: k in n.cells ==> ValidNodeUpdate(env.accepts, o, n.nodeType, n.subtype, k, n.cells[k].value)
  }

  ghost predicate VettedEdge(env: Env, o: Ontology, nodes: map<string, Node>, e: Edge) {
    && e.source in nodes && e.target in nodes
    && ValidEdge(env.accepts, o, e.edgeType, nodes[e.source].nodeType, nodes[e.target].nodeType, map[], SkipRequired)
    && forall k :: k in e.cells ==> ValidEdgeUpdate(env.accepts, o, e.edgeType, k, e.cells[k].value)
  }

  /** Live entities still validate, and an edge that shares its id with a live node has no properties. */
  ghost predicate Restorable(env: Env, g: Graph) {
    && (forall id :: id in AllNodes(g) ==> VettedNode(env, g.ontology, g.nodes[id]))
    && (forall id :: id in AllEdges(g) ==> VettedEdge(env, g.ontology, g.nodes, g.edges[id]))
    && (forall id :: id in AllEdges(g) && id in AllNodes(g) ==> g.edges[id].cells == map[])
  }

  // -- One property after another --------------------------------------------------------------------------------------

  lemma {:induction false} TopmostGrows(c: Clock, add: Clock, cells: Cells, k: string, cell: Cell)
    requires Topmost(c, add, cells) && k !in cells
    ensures Topmost(Later(c, cell.clock), add, cells[k := cell])
  {
    hide Wins;
    var cells' := cells[k := cell];
    assert k in cells' && cells'[k].clock == cell.clock;
    WinsTotal(cell.clock, cell.clock);
    if Wins(cell.clock, c) {
      NotBeaten(add, c, cell.clock);
      forall j | j in cells ensures !Wins(cells[j].clock, cell.clock) { NotBeaten(cells[j].clock, c, cell.clock); }
    } else if c != add {
      var j :| j in cells && cells[j].clock == c;
      assert j in cells' && cells'[j].clock == c;
    }
  }

  lemma {:induction false} TopmostAlone(c: Clock)
    ensures Topmost(c, c, map[])
  {
    WinsTotal(c, c);
  }

  lemma {:induction false} RenamedSnoc(author: string, cells: Cells, keys: seq<string>, cells': Cells)
    requires keys != [] && NoDup(keys) && ToSet(keys) <= cells.Keys
    requires Renamed(author, cells, ToSet(keys[..|keys| - 1]), cells')
    ensures var k := keys[|keys| - 1];
      && k in cells && k !in cells'
      && Renamed(author, cells, ToSet(keys), cells'[k := Cell(cells[k].value, Under(author, cells[k].clock))])
  {
    ToSetInit(keys);
  }

  lemma {:induction false} KeysInit(keys: seq<string>, all: set<string>)
    requires keys != [] && NoDup(keys) && ToSet(keys) <= all
    ensures NoDup(keys[..|keys| - 1]) && ToSet(keys[..|keys| - 1]) <= all && keys[|keys| - 1] in all
  {
    ToSetInit(keys);
  }

  lemma {:induction false} ReleaseSettled(s: Graph, h: Hash)
    requires Settled(s)
    ensures Release(s, h) == s
  {
    assert s.quarantined - {h} == s.quarantined;
  }

  /** `n` with its first few properties written back. */
  ghost predicate NodeGrown(author: string, n: Node, keys: seq<string>, n': Node) {
    && n' == Node(n.nodeType, n.subtype, n.title, n'.cells, n'.lastClock, Under(author, n.lastAdd), false)
    && Renamed(author, n.cells, ToSet(keys), n'.cells)
    && Topmost(n'.lastClock, n'.lastAdd, n'.cells)
  }

  ghost predicate EdgeGrown(author: string, e: Edge, keys: seq<string>, e': Edge) {
    && e' == Edge(e.edgeType, e.source, e.target, e'.cells, e'.lastClock, Under(author, e.lastAdd), false)
    && Renamed(author, e.cells, ToSet(keys), e'.cells)
    && Topmost(e'.lastClock, e'.lastAdd, e'.cells)
  }

  lemma {:induction false} PutNode(env: Env, author: string, s: Graph, id: string, k: string, cell: Cell)
    requires Settled(s) && id in s.nodes && k !in s.nodes[id].cells
    requires ValidNodeUpdate(env.accepts, s.ontology, s.nodes[id].nodeType, s.nodes[id].subtype, k, cell.value)
    ensures var n, c := s.nodes[id], Under(author, cell.clock);
      Play(env, author, s, PutItem(id, k, cell)) ==
        s.(nodes := s.nodes[id := n.(cells := n.cells[k := Cell(cell.value, c)], lastClock := Later(n.lastClock, c))])
  {
    hide ValidNodeUpdate, Play, Later;
    PlayPut(env, author, s, id, k, cell);
    ReleaseSettled(s, EntryOf(env, author, PutItem(id, k, cell)).hash);
  }

  lemma {:induction false} PutEdge(env: Env, author: string, s: Graph, id: string, k: string, cell: Cell)
    requires Settled(s) && id !in s.nodes && id in s.edges && k !in s.edges[id].cells
    requires ValidEdgeUpdate(env.accepts, s.ontology, s.edges[id].edgeType, k, cell.value)
    ensures var e, c := s.edges[id], Under(author, cell.clock);
      Play(env, author, s, PutItem(id, k, cell)) ==
        s.(edges := s.edges[id := e.(cells := e.cells[k := Cell(cell.value, c)], lastClock := Later(e.lastClock, c))])
  {
    hide ValidEdgeUpdate, Play, Later;
    PlayPut(env, author, s, id, k, cell);
    ReleaseSettled(s, EntryOf(env, author, PutItem(id, k, cell)).hash);
  }

  lemma {:induction false} PutsNode(env: Env, author: string, s: Graph, id: string, n: Node, keys: seq<string>)
    requires Settled(s) && id in s.nodes && NodeGrown(author, n, [], s.nodes[id]) && VettedNode(env, s.ontology, n)
    requires NoDup(keys) && ToSet(keys) <= n.cells.Keys
    ensures var s' := PlayAll(env, author, s, Puts(id, n.cells, keys));
      && id in s'.nodes && s' == s.(nodes := s.nodes[id := s'.nodes[id]]) && NodeGrown(author, n, keys, s'.nodes[id])
  {
    hide Play, ValidNodeUpdate, ValidNode, Topmost, Later, NoDup, Renamed, Under;
    if keys == [] {
      assert s.nodes[id := s.nodes[id]] == s.nodes;
    } else {
      var m := |keys| - 1;
      KeysInit(keys, n.cells.Keys);
      PutsNode(env, author, s, id, n, keys[..m]);
      var was := PlayAll(env, author, s, Puts(id, n.cells, keys[..m]));
      var k, cell := keys[m], n.cells[keys[m]];
      PlaySnoc(env, author, s, Puts(id, n.cells, keys[..m]), PutItem(id, k, cell));
      RenamedSnoc(author, n.cells, keys, was.nodes[id].cells);
      PutNode(env, author, was, id, k, cell);
      TopmostGrows(was.nodes[id].lastClock, was.nodes[id].lastAdd, was.nodes[id].cells, k, Cell(cell.value, Under(author, cell.clock)));
    }
  }

  lemma {:induction false} PutsEdge(env: Env, author: string, s: Graph, id: string, e: Edge, keys: seq<string>)
    requires Settled(s) && id in s.edges && EdgeGrown(author, e, [], s.edges[id])
    requires id in s.nodes ==> keys == []
    requires forall k :: k in e.cells ==> ValidEdgeUpdate(env.accepts, s.ontology, e.edgeType, k, e.cells[k].value)
    requires NoDup(keys) && ToSet(keys) <= e.cells.Keys
    ensures var s' := PlayAll(env, author, s, Puts(id, e.cells, keys));
      && id in s'.edges && s' == s.(edges := s.edges[id := s'.edges[id]]) && EdgeGrown(author, e, keys, s'.edges[id])
  {
    hide Play, ValidEdgeUpdate, Topmost, Later, NoDup, Renamed, Under;
    if keys == [] {
      assert s.edges[id := s.edges[id]] == s.edges;
    } else {
      var m := |keys| - 1;
      KeysInit(keys, e.cells.Keys);
      PutsEdge(env, author, s, id, e, keys[..m]);
      var was := PlayAll(env, author, s, Puts(id, e.cells, keys[..m]));
      var k, cell := keys[m], e.cells[keys[m]];
      PlaySnoc(env, author, s, Puts(id, e.cells, keys[..m]), PutItem(id, k, cell));
      RenamedSnoc(author, e.cells, keys, was.edges[id].cells);
      PutEdge(env, author, was, id, k, cell);
      TopmostGrows(was.edges[id].lastClock, was.edges[id].lastAdd, was.edges[id].cells, k, Cell(cell.value, Under(author, cell.clock)));
    }
  }

  // -- One entity after another ------------------------------------------------------------------------------------------

  lemma {:induction false} NodeBlock(env: Env, author: string, s: Graph, id: string, n: Node, keys: seq<string>)
    requires Settled(s) && id !in s.nodes && VettedNode(env, s.ontology, n) && ListsCells(n.cells, keys)
    ensures var s' := PlayAll(env, author, s, [NodeHead(id, n)] + Puts(id, n.cells, keys));
      && id in s'.nodes && s'.nodes == s.nodes[id := s'.nodes[id]] && NodeRestored(author, n, s'.nodes[id])
      && s'.edges == s.edges && s'.ontology == s.ontology && Settled(s')
  {
    hide Play, ValidNode, Topmost, NoDup, PlayAll;
    var s1 := Play(env, author, s, NodeHead(id, n));
    PlayAddNode(env, author, s, id, n);
    ReleaseSettled(s, EntryOf(env, author, NodeHead(id, n)).hash);
    TopmostAlone(Under(author, n.lastAdd));
    FreshNode(author, n);
    PutsNode(env, author, s1, id, n, keys);
    PlayHead(env, author, s, NodeHead(id, n), Puts(id, n.cells, keys));
  }

  lemma {:induction false} FreshNode(author: string, n: Node)
    ensures NodeGrown(author, n, [], NewNode(n.nodeType, n.subtype, n.title, map[], Under(author, n.lastAdd)))
  {
    TopmostAlone(Under(author, n.lastAdd));
  }

  lemma {:induction false} FreshEdge(author: string, e: Edge)
    ensures EdgeGrown(author, e, [], NewEdge(e.edgeType, e.source, e.target, map[], Under(author, e.lastAdd)))
  {
    TopmostAlone(Under(author, e.lastAdd));
  }

  lemma {:induction false} EdgeBlock(env: Env, author: string, s: Graph, id: string, e: Edge, keys: seq<string>)
    requires Settled(s) && id !in s.edges && VettedEdge(env, s.ontology, s.nodes, e) && ListsCells(e.cells, keys)
    requires id in s.nodes ==> e.cells == map[]
    ensures var s' := PlayAll(env, author, s, [EdgeHead(id, e)] + Puts(id, e.cells, keys));
      && id in s'.edges && s'.edges == s.edges[id := s'.edges[id]] && EdgeRestored(author, e, s'.edges[id])
      && s'.nodes == s.nodes && s'.ontology == s.ontology && Settled(s')
  {
    hide Play, ValidEdge, Topmost, NoDup, PlayAll, AdmitEdge, ValidEdgeUpdate;
    var s1 := Play(env, author, s, EdgeHead(id, e));
    var entry := EntryOf(env, author, EdgeHead(id, e));
    PlayAddEdge(env, author, s, id, e);
    EdgeTypeKnown(env, s, e);
    AdmitCases(env, s, entry, SkipRequired);
    ReleaseSettled(s, entry.hash);
    FreshEdge(author, e);
    NothingListed(keys);
    PutsEdge(env, author, s1, id, e, keys);
    PlayHead(env, author, s, EdgeHead(id, e), Puts(id, e.cells, keys));
  }

  lemma {:induction false} EdgeTypeKnown(env: Env, s: Graph, e: Edge)
    requires VettedEdge(env, s.ontology, s.nodes, e)
    ensures e.edgeType in s.ontology.edgeTypes
  {
  }

  lemma {:induction false} NodesPlay(env: Env, g: Graph, author: string, s: Graph, vs: seq<Visit>)
    requires VisitsNodes(g, vs) && Restorable(env, g) && s == EmptyGraph(g.ontology)
    ensures var s' := PlayAll(env, author, s, NodeItems(g, vs));
      NodesRestored(g, author, ToSet(Ids(vs)), s') && s'.edges == map[] && s'.ontology == g.ontology && Settled(s')
  {
    hide Play, VettedNode, NodeRestored, Restorable, NoDup, PlayAll, Puts;
    if vs == [] {
      PlayNothing(env, author, s);
      assert ToSet(Ids(vs)) == {};
    } else {
      var n := |vs| - 1;
      var v := vs[n];
      VisitsInit(g, vs);
      RestorableParts(env, g, v.id);
      NodesPlay(env, g, author, s, vs[..n]);
      var was := PlayAll(env, author, s, NodeItems(g, vs[..n]));
      NodeBlock(env, author, was, v.id, g.nodes[v.id], v.keys);
      PlayConcat(env, author, s, NodeItems(g, vs[..n]), [NodeHead(v.id, g.nodes[v.id])] + Puts(v.id, g.nodes[v.id].cells, v.keys));
    }
  }

  lemma {:induction false} RestorableParts(env: Env, g: Graph, id: string)
    requires Restorable(env, g)
    ensures id in AllNodes(g) ==> VettedNode(env, g.ontology, g.nodes[id])
    ensures id in AllEdges(g) ==>
      && VettedEdge(env, g.ontology, g.nodes, g.edges[id])
      && IsLive(g, g.edges[id].source) && IsLive(g, g.edges[id].target)
      && (id in AllNodes(g) ==> g.edges[id].cells == map[])
  {
    hide VettedNode, VettedEdge;
  }

  lemma {:induction false} PlayNothing(env: Env, author: string, s: Graph)
    ensures PlayAll(env, author, s, []) == s
  {
  }

  lemma {:induction false} SameVet(env: Env, g: Graph, author: string, s: Graph, e: Edge)
    requires NodesRestored(g, author, AllNodes(g), s) && s.ontology == g.ontology && VettedEdge(env, g.ontology, g.nodes, e)
    requires IsLive(g, e.source) && IsLive(g, e.target)
    ensures VettedEdge(env, s.ontology, s.nodes, e)
  {
    hide ValidEdge, ValidEdgeUpdate, Topmost;
    assert e.source in AllNodes(g) && e.target in AllNodes(g);
    assert NodeRestored(author, g.nodes[e.source], s.nodes[e.source]) && NodeRestored(author, g.nodes[e.target], s.nodes[e.target]);
  }

  /** The items of one edge. */
  function EdgeLines(g: Graph, v: Visit): seq<Item>
    requires v.id in g.edges && ListsCells(g.edges[v.id].cells, v.keys)
  {
    [EdgeHead(v.id, g.edges[v.id])] + Puts(v.id, g.edges[v.id].cells, v.keys)
  }

  /** One more edge, its endpoints restored. */
  lemma {:induction false} EdgeStep(env: Env, g: Graph, author: string, s: Graph, v: Visit)
    requires Restorable(env, g) && NodesRestored(g, author, AllNodes(g), s) && s.ontology == g.ontology && Settled(s)
    requires v.id in AllEdges(g) && v.id !in s.edges && ListsCells(g.edges[v.id].cells, v.keys)
    ensures var s' := PlayAll(env, author, s, EdgeLines(g, v));
      && v.id in s'.edges && s'.edges == s.edges[v.id := s'.edges[v.id]] && EdgeRestored(author, g.edges[v.id], s'.edges[v.id])
      && s'.nodes == s.nodes && s'.ontology == s.ontology && Settled(s')
  {
    hide Restorable, VettedEdge, EdgeRestored, NodeRestored, ListsCells, PlayAll;
    RestorableParts(env, g, v.id);
    SameVet(env, g, author, s, g.edges[v.id]);
    EdgeBlock(env, author, s, v.id, g.edges[v.id], v.keys);
  }

  lemma {:induction false} EdgesMore(g: Graph, author: string, ids: set<string>, id: string, s: Graph, s': Graph)
    requires EdgesRestored(g, author, ids, s) && id in g.edges && id in s'.edges
    requires s'.edges == s.edges[id := s'.edges[id]] && EdgeRestored(author, g.edges[id], s'.edges[id])
    ensures EdgesRestored(g, author, ids + {id}, s')
  {
    hide EdgeRestored;
  }

  lemma {:induction false} EdgesPlay(env: Env, g: Graph, author: string, s: Graph, vs: seq<Visit>)
    requires VisitsEdges(g, vs) && Restorable(env, g) && NodesRestored(g, author, AllNodes(g), s)
    requires s.edges == map[] && s.ontology == g.ontology && Settled(s)
    ensures var s' := PlayAll(env, author, s, EdgeItems(g, vs));
      EdgesRestored(g, author, ToSet(Ids(vs)), s') && s'.nodes == s.nodes && s'.ontology == g.ontology && Settled(s')
  {
    hide Play, EdgeRestored, NodeRestored, Restorable, NoDup, PlayAll, Puts, AllNodes, AllEdges, ListsCells, EdgeLines;
    if vs == [] {
      PlayNothing(env, author, s);
      assert ToSet(Ids(vs)) == {};
    } else {
      var n := |vs| - 1;
      var v := vs[n];
      VisitsInit(g, vs);
      EdgesPlay(env, g, author, s, vs[..n]);
      var was := PlayAll(env, author, s, EdgeItems(g, vs[..n]));
      EdgeStep(env, g, author, was, v);
      EdgesMore(g, author, ToSet(Ids(vs[..n])), v.id, was, PlayAll(env, author, was, EdgeLines(g, v)));
      EdgeItemsAre(g, vs);
      PlayConcat(env, author, s, EdgeItems(g, vs[..n]), EdgeLines(g, v));
    }
  }

  lemma {:induction false} EdgeItemsAre(g: Graph, vs: seq<Visit>)
    requires vs != [] && VisitsEdges(g, vs)
    ensures var n := |vs| - 1;
      VisitsEdges(g, vs[..n]) && vs[n] in vs && EdgeItems(g, vs) == EdgeItems(g, vs[..n]) + EdgeLines(g, vs[n])
  {
    hide Puts, NoDup;
    VisitsInit(g, vs);
  }

  // -- Whatever is rebuilt has been vetted -------------------------------------------------------------------------------

  ghost predicate Vetted(env: Env, s: Graph) {
    && (forall id :: id in s.nodes ==> VettedNode(env, s.ontology, s.nodes[id]))
    && (forall id :: id in s.edges ==> VettedEdge(env, s.ontology, s.nodes, s.edges[id]))
    && (forall id :: id in s.edges && id in s.nodes ==> s.edges[id].cells == map[])
  }

  /** Nodes keep their types; keys, ontology and held edges stay. */
  ghost predicate SameFrame(s: Graph, s': Graph) {
    s'.nodes.Keys == s.nodes.Keys && s'.edges.Keys == s.edges.Keys && s'.ontology == s.ontology && s'.pending == s.pending
  }

  lemma {:induction false} VettedPut(env: Env, author: string, s: Graph, id: string, k: string, cell: Cell)
    requires Vetted(env, s)
    ensures Vetted(env, Play(env, author, s, PutItem(id, k, cell))) && SameFrame(s, Play(env, author, s, PutItem(id, k, cell)))
  {
    hide ValidNodeUpdate, ValidEdgeUpdate, ApplyUpdate, Play, Vetted;
    PlayPut(env, author, s, id, k, cell);
    var h := EntryOf(env, author, PutItem(id, k, cell)).hash;
    VettedAside(env, s, h);
    if ValidUpdate(env, s, id, k, cell.value) { VettedUpdate(env, Release(s, h), id, k, cell.value, Under(author, cell.clock)); }
  }

  lemma {:induction false} VettedAside(env: Env, s: Graph, h: Hash)
    requires Vetted(env, s)
    ensures Vetted(env, Release(s, h)) && Vetted(env, Quarantine(s, h, "update_property"))
  {
    hide VettedNode, VettedEdge;
  }

  lemma {:induction false} VettedUpdate(env: Env, s: Graph, id: string, k: string, v: Value, c: Clock)
    requires Vetted(env, s) && ValidUpdate(env, s, id, k, v)
    ensures Vetted(env, ApplyUpdate(s, id, k, v, c)) && SameFrame(s, ApplyUpdate(s, id, k, v, c))
  {
    hide ValidNodeUpdate, ValidEdgeUpdate, VettedNode, VettedEdge, SetNodeProperty, SetEdgeProperty;
    if id in s.nodes {
      VettedNodePut(env, s.ontology, s.nodes[id], k, v, c);
      VettedNodeSwap(env, s, id, SetNodeProperty(s.nodes[id], k, v, c));
    } else if id in s.edges {
      VettedEdgePut(env, s.ontology, s.nodes, s.edges[id], k, v, c);
    }
  }

  lemma {:induction false} VettedNodePut(env: Env, o: Ontology, n: Node, k: string, v: Value, c: Clock)
    requires VettedNode(env, o, n) && ValidNodeUpdate(env.accepts, o, n.nodeType, n.subtype, k, v)
    ensures VettedNode(env, o, SetNodeProperty(n, k, v, c)) && SetNodeProperty(n, k, v, c).nodeType == n.nodeType
  {
    hide ValidNode, ValidNodeUpdate, Later;
  }

  lemma {:induction false} VettedEdgePut(env: Env, o: Ontology, nodes: map<string, Node>, e: Edge, k: string, v: Value, c: Clock)
    requires VettedEdge(env, o, nodes, e) && ValidEdgeUpdate(env.accepts, o, e.edgeType, k, v)
    ensures VettedEdge(env, o, nodes, SetEdgeProperty(e, k, v, c))
  {
    hide ValidEdge, ValidEdgeUpdate, Later;
  }

  lemma {:induction false} VettedNodeSwap(env: Env, s: Graph, id: string, n: Node)
    requires Vetted(env, s) && id in s.nodes && VettedNode(env, s.ontology, n) && n.nodeType == s.nodes[id].nodeType
    ensures Vetted(env, s.(nodes := s.nodes[id := n]))
  {
    hide ValidEdge, ValidEdgeUpdate, VettedNode;
    var nodes := s.nodes[id := n];
    forall e | e in s.edges ensures VettedEdge(env, s.ontology, nodes, s.edges[e]) {
      assert VettedEdge(env, s.ontology, s.nodes, s.edges[e]);
    }
  }

  lemma {:induction false} VettedPuts(env: Env, author: string, s: Graph, id: string, cells: Cells, keys: seq<string>)
    requires Vetted(env, s) && ToSet(keys) <= cells.Keys
    ensures var s' := PlayAll(env, author, s, Puts(id, cells, keys)); Vetted(env, s') && SameFrame(s, s')
  {
    hide Vetted, Play;
    if keys != [] {
      var m := |keys| - 1;
      ToSetInit(keys);
      VettedPuts(env, author, s, id, cells, keys[..m]);
      PlaySnoc(env, author, s, Puts(id, cells, keys[..m]), PutItem(id, keys[m], cells[keys[m]]));
      VettedPut(env, author, PlayAll(env, author, s, Puts(id, cells, keys[..m])), id, keys[m], cells[keys[m]]);
    }
  }

  lemma {:induction false} VettedAddNode(env: Env, author: string, s: Graph, id: string, n: Node)
    requires Vetted(env, s) && id !in s.nodes && s.edges == map[] && s.pending == map[]
    ensures var s' := Play(env, author, s, NodeHead(id, n));
      && Vetted(env, s') && s'.nodes.Keys <= s.nodes.Keys + {id} && s'.edges == map[] && s'.pending == map[] && s'.ontology == s.ontology
  {
    hide ValidNode, Play;
    PlayAddNode(env, author, s, id, n);
  }

  lemma {:induction false} VettedAddEdge(env: Env, author: string, s: Graph, id: string, e: Edge)
    requires Vetted(env, s)
    ensures var s' := Play(env, author, s, EdgeHead(id, e));
      Vetted(env, s') && s'.nodes == s.nodes && s'.ontology == s.ontology
  {
    hide ValidEdge, Play, AdmitEdge, ApplyAddEdge, Vetted;
    var entry := EntryOf(env, author, EdgeHead(id, e));
    PlayAddEdge(env, author, s, id, e);
    AdmitCases(env, s, entry, SkipRequired);
    VettedAside(env, s, entry.hash);
    if Admissible(env, s, entry, SkipRequired) {
      AddVettedEdge(env, Release(s, entry.hash), id, e, entry.clock);
    } else {
      VettedHeld(env, s, Play(env, author, s, EdgeHead(id, e)));
    }
  }

  lemma {:induction false} VettedHeld(env: Env, s: Graph, s': Graph)
    requires Vetted(env, s) && s'.nodes == s.nodes && s'.edges == s.edges && s'.ontology == s.ontology
    ensures Vetted(env, s')
  {
    hide VettedNode, VettedEdge;
  }

  lemma {:induction false} AddVettedEdge(env: Env, s: Graph, id: string, e: Edge, c: Clock)
    requires Vetted(env, s) && e.source in s.nodes && e.target in s.nodes
    requires ValidEdge(env.accepts, s.ontology, e.edgeType, s.nodes[e.source].nodeType, s.nodes[e.target].nodeType, map[], SkipRequired)
    ensures var s' := ApplyAddEdge(s, id, e.edgeType, e.source, e.target, map[], c);
      Vetted(env, s') && s'.nodes == s.nodes && s'.ontology == s.ontology
  {
    hide ValidEdge, ValidEdgeUpdate, VettedNode, Index, Later, Wins;
    var s' := ApplyAddEdge(s, id, e.edgeType, e.source, e.target, map[], c);
    if id in s.edges {
      assert VettedEdge(env, s.ontology, s.nodes, s.edges[id]);
      MapsAgree(MergeCells(s.edges[id].cells, map[], c), s.edges[id].cells);
    } else {
      assert s'.edges[id].cells == map[];
    }
    assert VettedEdge(env, s'.ontology, s'.nodes, s'.edges[id]);
  }

  lemma {:induction false} VettedNodes(env: Env, g: Graph, author: string, s: Graph, vs: seq<Visit>)
    requires VisitsNodes(g, vs) && s == EmptyGraph(g.ontology)
    ensures var s' := PlayAll(env, author, s, NodeItems(g, vs));
      Vetted(env, s') && s'.nodes.Keys <= ToSet(Ids(vs)) && s'.edges == map[] && s'.pending == map[] && s'.ontology == g.ontology
  {
    hide Play, VettedNode, VettedEdge, AllNodes, NoDup, PlayAll, Puts;
    if vs == [] {
      PlayNothing(env, author, s);
    } else {
      var n := |vs| - 1;
      var v := vs[n];
      VisitsInit(g, vs);
      VettedNodes(env, g, author, s, vs[..n]);
      var was := PlayAll(env, author, s, NodeItems(g, vs[..n]));
      var x := g.nodes[v.id];
      VettedAddNode(env, author, was, v.id, x);
      VettedPuts(env, author, Play(env, author, was, NodeHead(v.id, x)), v.id, x.cells, v.keys);
      PlayHead(env, author, was, NodeHead(v.id, x), Puts(v.id, x.cells, v.keys));
      PlayConcat(env, author, s, NodeItems(g, vs[..n]), [NodeHead(v.id, x)] + Puts(v.id, x.cells, v.keys));
    }
  }

  lemma {:induction false} VettedEdges(env: Env, g: Graph, author: string, s: Graph, vs: seq<Visit>)
    requires VisitsEdges(g, vs) && Vetted(env, s) && s.ontology == g.ontology
    ensures var s' := PlayAll(env, author, s, EdgeItems(g, vs)); Vetted(env, s') && s'.ontology == g.ontology
  {
    hide Play, Vetted, AllEdges, NoDup, PlayAll, Puts;
    if vs == [] {
      PlayNothing(env, author, s);
    } else {
      var n := |vs| - 1;
      var v := vs[n];
      VisitsInit(g, vs);
      VettedEdges(env, g, author, s, vs[..n]);
      var was := PlayAll(env, author, s, EdgeItems(g, vs[..n]));
      var x := g.edges[v.id];
      VettedAddEdge(env, author, was, v.id, x);
      VettedPuts(env, author, Play(env, author, was, EdgeHead(v.id, x)), v.id, x.cells, v.keys);
      PlayHead(env, author, was, EdgeHead(v.id, x), Puts(v.id, x.cells, v.keys));
      PlayConcat(env, author, s, EdgeItems(g, vs[..n]), [EdgeHead(v.id, x)] + Puts(v.id, x.cells, v.keys));
    }
  }

  lemma {:induction false} RestoredVetted(env: Env, g: Graph, author: string, s: Graph)
    requires Restored(g, author, s) && Vetted(env, s)
    ensures Restorable(env, g)
  {
    hide ValidNode, ValidEdge, ValidNodeUpdate, ValidEdgeUpdate, Topmost, Settled;
    forall id | id in AllNodes(g) ensures VettedNode(env, g.ontology, g.nodes[id]) { NodeVetted(env, g, author, s, id); }
    forall id | id in AllEdges(g)
      ensures VettedEdge(env, g.ontology, g.nodes, g.edges[id])
      ensures id in AllNodes(g) ==> g.edges[id].cells == map[]
    {
      EdgeVetted(env, g, author, s, id);
    }
  }

  lemma {:induction false} NodeVetted(env: Env, g: Graph, author: string, s: Graph, id: string)
    requires Restored(g, author, s) && Vetted(env, s) && id in AllNodes(g)
    ensures VettedNode(env, g.ontology, g.nodes[id])
  {
    hide ValidNode, ValidNodeUpdate, Topmost, Settled, VettedEdge, EdgeRestored;
    assert id in s.nodes && VettedNode(env, s.ontology, s.nodes[id]) && NodeRestored(author, g.nodes[id], s.nodes[id]);
    forall k | k in g.nodes[id].cells
      ensures ValidNodeUpdate(env.accepts, g.ontology, g.nodes[id].nodeType, g.nodes[id].subtype, k, g.nodes[id].cells[k].value)
    {
      assert k in s.nodes[id].cells && s.nodes[id].cells[k].value == g.nodes[id].cells[k].value;
    }
  }

  lemma {:induction false} EdgeVetted(env: Env, g: Graph, author: string, s: Graph, id: string)
    requires Restored(g, author, s) && Vetted(env, s) && id in AllEdges(g)
    ensures VettedEdge(env, g.ontology, g.nodes, g.edges[id])
    ensures id in AllNodes(g) ==> g.edges[id].cells == map[]
  {
    hide ValidEdge, ValidEdgeUpdate, Topmost, Settled, VettedNode;
    var e := g.edges[id];
    assert id in s.edges && VettedEdge(env, s.ontology, s.nodes, s.edges[id]) && EdgeRestored(author, e, s.edges[id]);
    assert e.source in AllNodes(g) && e.target in AllNodes(g);
    assert NodeRestored(author, g.nodes[e.source], s.nodes[e.source]) && NodeRestored(author, g.nodes[e.target], s.nodes[e.target]);
    forall k | k in e.cells ensures ValidEdgeUpdate(env.accepts, g.ontology, e.edgeType, k, e.cells[k].value) {
      assert k in s.edges[id].cells && s.edges[id].cells[k].value == e.cells[k].value;
    }
    if id in AllNodes(g) {
      assert s.edges[id].cells == map[];
      MapsAgree(e.cells, map[]);
    }
  }

  // -- The round trip ----------------------------------------------------------------------------------------------------

  lemma {:induction false} LaterOpsDefineNothing(ops: seq<GraphOp>, o: Ontology, base: Ontology)
    requires ops != [] && ops[0] == DefineOntology(o) && forall i :: 0 < i < |ops| ==> !ops[i].DefineOntology?
    ensures LastDefined(ops, base) == o
  {
    if |ops| > 1 { LaterOpsDefineNothing(ops[..|ops| - 1], o, base); }
  }

  predicate Plain(items: seq<Item>) { forall i :: 0 <= i < |items| ==> !items[i].op.DefineOntology? }

  lemma {:induction false} PutsPlain(id: string, cells: Cells, keys: seq<string>)
    requires ToSet(keys) <= cells.Keys
    ensures Plain(Puts(id, cells, keys))
  {
    if keys != [] {
      ToSetInit(keys);
      PutsPlain(id, cells, keys[..|keys| - 1]);
    }
  }

  lemma {:induction false} NodeItemsPlain(g: Graph, vs: seq<Visit>)
    requires VisitsNodes(g, vs)
    ensures Plain(NodeItems(g, vs))
  {
    if vs != [] {
      VisitsInit(g, vs);
      NodeItemsPlain(g, vs[..|vs| - 1]);
      PutsPlain(vs[|vs| - 1].id, g.nodes[vs[|vs| - 1].id].cells, vs[|vs| - 1].keys);
    }
  }

  lemma {:induction false} EdgeItemsPlain(g: Graph, vs: seq<Visit>)
    requires VisitsEdges(g, vs)
    ensures Plain(EdgeItems(g, vs))
  {
    if vs != [] {
      VisitsInit(g, vs);
      EdgeItemsPlain(g, vs[..|vs| - 1]);
      PutsPlain(vs[|vs| - 1].id, g.edges[vs[|vs| - 1].id].cells, vs[|vs| - 1].keys);
    }
  }

  /** Rebuilding from the one checkpoint: adopt its ontology, play nodes, play edges. */
  lemma {:induction false} RebuiltIsPlayed(env: Env, base: Ontology, g: Graph, before: Clock, clock: Clock, author: string, nodes: seq<Visit>, edges: seq<Visit>)
    requires PlanFor(g, nodes, edges)
    ensures var items := CheckpointItems(g, before, nodes, edges);
      var cp := CheckpointEntry(env, items, clock, author);
      Rebuilt(env, base, [cp]) ==
        Release(PlayAll(env, author, PlayAll(env, author, EmptyGraph(g.ontology), NodeItems(g, nodes)), EdgeItems(g, edges)), cp.hash)
  {
    hide VisitsNodes, VisitsEdges, Play, Replay, PlayAll, NodeItems, EdgeItems;
    var items := CheckpointItems(g, before, nodes, edges);
    var cp := CheckpointEntry(env, items, clock, author);
    var s := EmptyGraph(g.ontology);
    var head := Item(DefineOntology(g.ontology), before);
    OntologyAdopted(env, base, g, before, author, nodes, edges);
    RebuiltOne(env, base, cp, g.ontology);
    ReplayIsPlay(env, s, items, clock, author, 0);
    assert items[..0] == [];
    PlayNothing(env, author, s);
    PlayHead(env, author, s, head, NodeItems(g, nodes) + EdgeItems(g, edges));
    PlayDefine(env, author, s, head);
    PlayConcat(env, author, s, NodeItems(g, nodes), EdgeItems(g, edges));
  }

  lemma {:induction false} PlayDefine(env: Env, author: string, s: Graph, head: Item)
    requires head.op.DefineOntology?
    ensures Play(env, author, s, head) == s
  {
  }

  lemma {:induction false} OntologyAdopted(env: Env, base: Ontology, g: Graph, clock: Clock, author: string, nodes: seq<Visit>, edges: seq<Visit>)
    requires PlanFor(g, nodes, edges)
    ensures LastDefined(Ops(CheckpointItems(g, clock, nodes, edges)), base) == g.ontology
  {
    hide NodeItems, EdgeItems, VisitsNodes, VisitsEdges;
    NodeItemsPlain(g, nodes);
    EdgeItemsPlain(g, edges);
    LaterOpsDefineNothing(Ops(CheckpointItems(g, clock, nodes, edges)), g.ontology, base);
  }

  lemma {:induction false} RebuiltOne(env: Env, base: Ontology, cp: Entry, o: Ontology)
    requires cp.payload.Checkpoint? && LastDefined(cp.payload.ops, base) == o
    ensures Rebuilt(env, base, [cp]) == Release(Replay(env, EmptyGraph(o), cp, 0, false), cp.hash)
  {
    hide Replay, LastDefined;
    assert [cp][..0] == [];
    assert FoldAll(EmptyGraph(base), []) == EmptyGraph(base);
    assert FoldAll(EmptyGraph(base), [cp]) == EmptyGraph(o);
    assert MaterializeAll(env, EmptyGraph(o), []) == EmptyGraph(o);
  }

  /**
   * Compaction round trip, for every order of walking the maps and every base ontology: the graph
   * rebuilt from the checkpoint has exactly the live nodes and edges, with their types, labels, values
   * and clock tuples, if and only if what is stored still validates and no edge with properties shares
   * its id with a live node.
   */
  lemma {:induction false} RoundTrip(env: Env, base: Ontology, g: Graph, before: Clock, clock: Clock, author: string, nodes: seq<Visit>, edges: seq<Visit>)
    requires PlanFor(g, nodes, edges)
    ensures Restored(g, author, Rebuilt(env, base, [CheckpointEntry(env, CheckpointItems(g, before, nodes, edges), clock, author)]))
      <==> Restorable(env, g)
  {
    hide Restorable, VisitsNodes, VisitsEdges, NodesRestored, EdgesRestored, Rebuilt, PlayAll, CheckpointItems, Vetted, Restored, Release;
    var cp := CheckpointEntry(env, CheckpointItems(g, before, nodes, edges), clock, author);
    var s := PlayAll(env, author, EmptyGraph(g.ontology), NodeItems(g, nodes));
    var s' := PlayAll(env, author, s, EdgeItems(g, edges));
    RebuiltIsPlayed(env, base, g, before, clock, author, nodes, edges);
    VettedNodes(env, g, author, EmptyGraph(g.ontology), nodes);
    VettedEdges(env, g, author, s, edges);
    if Restorable(env, g) {
      NodesPlay(env, g, author, EmptyGraph(g.ontology), nodes);
      EdgesPlay(env, g, author, s, edges);
      ReleaseSettled(s', cp.hash);
      RestoredIs(g, author, s, s');
    }
    if Restored(g, author, Release(s', cp.hash)) {
      VettedAside(env, s', cp.hash);
      RestoredVetted(env, g, author, Release(s', cp.hash));
    }
  }

  lemma {:induction false} RestoredIs(g: Graph, author: string, s: Graph, s': Graph)
    requires NodesRestored(g, author, AllNodes(g), s) && EdgesRestored(g, author, AllEdges(g), s')
    requires s'.nodes == s.nodes && s'.ontology == g.ontology && Settled(s')
    ensures Restored(g, author, s')
  {
  }

  // -- What the round trip is good for -----------------------------------------------------------------------------------

  predicate SameValues(a: Cells, b: Cells) { a.Keys == b.Keys && forall k :: k in a ==> a[k].value == b[k].value }

  /** The views agree: same live nodes and edges, same endpoints, same values. */
  lemma {:induction false} SameViews(g: Graph, author: string, s: Graph)
    requires Restored(g, author, s)
    ensures AllNodes(s) == AllNodes(g) && AllEdges(s) == AllEdges(g)
    ensures forall id :: id in AllNodes(g) ==> SameValues(s.nodes[id].cells, g.nodes[id].cells)
    ensures forall id :: id in AllEdges(g) ==>
      && s.edges[id].source == g.edges[id].source && s.edges[id].target == g.edges[id].target
      && SameValues(s.edges[id].cells, g.edges[id].cells)
  {
    hide Topmost, Settled;
    forall id | id in AllNodes(g) ensures IsLive(s, id) && SameValues(s.nodes[id].cells, g.nodes[id].cells) {
      assert NodeRestored(author, g.nodes[id], s.nodes[id]);
    }
    forall id | id in AllEdges(g)
      ensures id in AllEdges(s) && s.edges[id].source == g.edges[id].source && s.edges[id].target == g.edges[id].target
      ensures SameValues(s.edges[id].cells, g.edges[id].cells)
    {
      assert EdgeRestored(author, g.edges[id], s.edges[id]);
      assert g.edges[id].source in AllNodes(g) && g.edges[id].target in AllNodes(g);
    }
  }

  /** Two clocks no admissible write can tell apart: the same clock, or the same tuple where no write has it. */
  predicate Twin(taboo: set<Clock>, a: Clock, b: Clock) { a == b || (SameTuple(a, b) && a in taboo) }

  /** Registers that agree but for the names on clocks. */
  ghost predicate Alike(taboo: set<Clock>, a: Life, b: Life) {
    && a.cells.Keys == b.cells.Keys && a.dead == b.dead && Twin(taboo, a.lastAdd, b.lastAdd)
    && forall k :: k in a.cells ==> a.cells[k].value == b.cells[k].value && Twin(taboo, a.cells[k].clock, b.cells[k].clock)
  }

  /** The clock's tuple differs from every stored one. */
  predicate Distinguished(taboo: set<Clock>, c: Clock) { forall t :: t in taboo ==> !SameTuple(c, t) }

  lemma {:induction false} SameVerdict(taboo: set<Clock>, c: Clock, a: Clock, b: Clock)
    requires Twin(taboo, a, b) && Distinguished(taboo, c)
    ensures Wins(c, a) <==> Wins(c, b)
    ensures Twin(taboo, Later(a, c), Later(b, c))
  {
    if a != b {
      TupleDecides(c, a);
      TupleDecides(c, b);
    }
  }

  lemma {:induction false} AlikeStep(taboo: set<Clock>, a: Life, b: Life, w: Write)
    requires Alike(taboo, a, b) && Distinguished(taboo, w.clock)
    ensures Alike(taboo, Step(a, w), Step(b, w))
  {
    hide Wins, Twin, Distinguished, Later;
    SameVerdict(taboo, w.clock, a.lastAdd, b.lastAdd);
    assert Twin(taboo, w.clock, w.clock) by { TwinSelf(taboo, w.clock); }
    forall k | k in a.cells ensures Wins(w.clock, a.cells[k].clock) <==> Wins(w.clock, b.cells[k].clock) {
      SameVerdict(taboo, w.clock, a.cells[k].clock, b.cells[k].clock);
    }
  }

  lemma {:induction false} TwinSelf(taboo: set<Clock>, c: Clock)
    ensures Twin(taboo, c, c)
  {
  }

  function StepAll(l: Life, ws: seq<Write>): Life {
    if ws == [] then l else Step(StepAll(l, ws[..|ws| - 1]), ws[|ws| - 1])
  }

  lemma {:induction false} AlikeSteps(taboo: set<Clock>, a: Life, b: Life, ws: seq<Write>)
    requires Alike(taboo, a, b) && forall i :: 0 <= i < |ws| ==> Distinguished(taboo, ws[i].clock)
    ensures Alike(taboo, StepAll(a, ws), StepAll(b, ws))
  {
    hide Alike, Distinguished, Step;
    if ws != [] {
      AlikeSteps(taboo, a, b, ws[..|ws| - 1]);
      AlikeStep(taboo, StepAll(a, ws[..|ws| - 1]), StepAll(b, ws[..|ws| - 1]), ws[|ws| - 1]);
    }
  }

  /** The clocks an entity stores for its registers. */
  function Stored(l: Life): set<Clock> { {l.lastAdd} + set k | k in l.cells :: l.cells[k].clock }

  /**
   * Any later history of writes to a live node, none of whose tuples equals a stored one, ends with
   * the same property values, the same tuples and the same tombstone with compaction as without.
   */
  lemma {:induction false} LaterWritesAgree(g: Graph, author: string, s: Graph, id: string, ws: seq<Write>)
    requires Restored(g, author, s) && id in AllNodes(g)
    requires forall i :: 0 <= i < |ws| ==> Distinguished(Stored(NodeLife(g.nodes[id])), ws[i].clock)
    ensures id in s.nodes
    ensures Alike(Stored(NodeLife(g.nodes[id])), StepAll(NodeLife(g.nodes[id]), ws), StepAll(NodeLife(s.nodes[id]), ws))
  {
    hide Topmost, Settled, Distinguished, StepAll;
    var n := g.nodes[id];
    assert id in s.nodes && NodeRestored(author, n, s.nodes[id]);
    RenamedAlike(author, NodeLife(n), NodeLife(s.nodes[id]));
    AlikeSteps(Stored(NodeLife(n)), NodeLife(n), NodeLife(s.nodes[id]), ws);
  }

  /** The same for a live edge. */
  lemma {:induction false} LaterEdgeWritesAgree(g: Graph, author: string, s: Graph, id: string, ws: seq<Write>)
    requires Restored(g, author, s) && id in AllEdges(g)
    requires forall i :: 0 <= i < |ws| ==> Distinguished(Stored(EdgeLife(g.edges[id])), ws[i].clock)
    ensures id in s.edges
    ensures Alike(Stored(EdgeLife(g.edges[id])), StepAll(EdgeLife(g.edges[id]), ws), StepAll(EdgeLife(s.edges[id]), ws))
  {
    hide Topmost, Settled, Distinguished, StepAll;
    var e := g.edges[id];
    assert id in s.edges && EdgeRestored(author, e, s.edges[id]);
    RenamedAlike(author, EdgeLife(e), EdgeLife(s.edges[id]));
    AlikeSteps(Stored(EdgeLife(e)), EdgeLife(e), EdgeLife(s.edges[id]), ws);
  }

  lemma {:induction false} RenamedAlike(author: string, a: Life, b: Life)
    requires !a.dead && !b.dead && Renamed(author, a.cells, a.cells.Keys, b.cells) && b.lastAdd == Under(author, a.lastAdd)
    ensures Alike(Stored(a), a, b)
  {
  }

  predicate Between(c: Clock, a: Clock, b: Clock) {
    (TupleLess(a, c) && TupleLess(c, b)) || (TupleLess(b, c) && TupleLess(c, a))
  }

  /** The greatest (physical, logical) among a node's add clock and property clocks: all the checkpoint carries. */
  ghost predicate GreatestStored(n: Node, c: Clock) {
    && (c == n.lastAdd || exists k :: k in n.cells && n.cells[k].clock == c)
    && !TupleLess(c, n.lastAdd) && (forall k :: k in n.cells ==> !TupleLess(c, n.cells[k].clock))
  }

  /** The entity clock a restored node gets. */
  lemma {:induction false} RestoredClock(author: string, n: Node, n': Node, top: Clock)
    requires NodeRestored(author, n, n') && GreatestStored(n, top)
    ensures n'.lastClock == Under(author, top)
  {
    var c := n'.lastClock;
    assert c.id == author;
    if top == n.lastAdd {
      UnderOrder(author, n'.lastAdd, c);
    } else {
      var k :| k in n.cells && n.cells[k].clock == top;
      assert k in n'.cells && n'.cells[k].clock == Under(author, top);
      UnderOrder(author, n'.cells[k].clock, c);
    }
  }

  lemma {:induction false} UnderOrder(author: string, a: Clock, b: Clock)
    requires a.id == author && b.id == author && !Wins(a, b)
    ensures a == b || TupleLess(a, b)
  {
    WinsTotal(a, b);
    if !SameTuple(a, b) { TupleDecides(b, a); }
  }

  ghost predicate SameLabel(a: Node, b: Node) { a.title == b.title && a.subtype == b.subtype }

  /**
   * Labels follow the entity clock, which a checkpoint does not carry: a later add leaves the same
   * label and subtype with and without compaction exactly when it repeats the present ones or is judged
   * alike by the entity clock and by the greatest stored clock; with distinct tuples, when it does not
   * fall between the two.
   */
  lemma {:induction false} LabelVerdict(author: string, n: Node, n': Node, top: Clock, st: Option<string>, title: string, props: Props, c: Clock)
    requires NodeRestored(author, n, n') && GreatestStored(n, top)
    ensures SameLabel(AddAgain(n, st, title, props, c), AddAgain(n', st, title, props, c)) <==>
      (title == n.title && st == n.subtype) || (Wins(c, n.lastClock) <==> Wins(c, Under(author, top)))
    ensures !SameTuple(c, n.lastClock) && !SameTuple(c, top) ==>
      (SameLabel(AddAgain(n, st, title, props, c), AddAgain(n', st, title, props, c)) <==>
        (title == n.title && st == n.subtype) || !Between(c, n.lastClock, top))
  {
    hide Topmost, MergeCells;
    RestoredClock(author, n, n', top);
    if !SameTuple(c, n.lastClock) && !SameTuple(c, top) {
      TupleDecides(c, n.lastClock);
      TupleDecides(c, Under(author, top));
    }
  }

  /** Add at 1, remove at 5, add again at 3; then a label written at 4 is lost before compaction and kept after it. */
  lemma {:induction false} LabelCanFlip()
    ensures exists ws, n', c ::
      && Starts(ws) && NodeRestored("p", NodeRun("t", ws), n')
      && AddAgain(NodeRun("t", ws), None, "new", map[], c).title == "a" && AddAgain(n', None, "new", map[], c).title == "new"
  {
    var ws := [Add(None, "a", map[], Clock("p", 1, 0)), Del(Clock("p", 5, 0)), Add(None, "b", map[], Clock("q", 3, 0))];
    assert ws[..2] == [ws[0], ws[1]] && ws[..2][..1] == [ws[0]];
    var n1 := NodeRun("t", [ws[0]]);
    var n2 := NodeRun("t", ws[..2]);
    assert n2 == NodeWrite(n1, ws[1]);
    var n := NodeRun("t", ws);
    assert n == NodeWrite(n2, ws[2]);
    assert n.lastClock == Clock("p", 5, 0) && n.lastAdd == Clock("q", 3, 0) && n.title == "a";
    MapsAgree(n.cells, map[]);
    var n' := Node("t", n.subtype, n.title, map[], Clock("p", 3, 0), Clock("p", 3, 0), false);
    TopmostAlone(n'.lastAdd);
    assert NodeRestored("p", n, n');
    var c := Clock("r", 4, 0);
    assert AddAgain(n, None, "new", map[], c).title == "a" && AddAgain(n', None, "new", map[], c).title == "new";
  }
}
