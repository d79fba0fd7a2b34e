/**
 * What an entry leaves behind, said without the functions that compute it: who is quarantined, what a remove does
 * and nothing else, which label and which clock an entity ends up with.
 */
module Effects {
  import opened Base
  import opened Clocks
  import opened Ontologies
  import opened Entries
  import opened Graphs
  import opened GraphInvariant
  import opened RetryOrder
  import opened Outcomes
  import opened RetryExact
  import opened Histories
  import opened Validation
  import opened EdgeHistories
  import Lww

  // -- Removes -----------------------------------------------------------------------------------------------------------

  /** The edge is dead exactly if it was, or if the remove outranks its latest add; only then its clock moves. */
  lemma {:induction false} RemoveEdgeEnds(env: Env, g: Graph, e: Entry, g': Graph)
    requires e.payload.RemoveEdge? && MayTake(env, g, e, g')
    ensures var id := e.payload.edgeId;
      && g' == g.(edges := g'.edges, quarantined := g.quarantined - {e.hash}) && g'.edges.Keys == g.edges.Keys
      && (forall x :: x in g.edges && x != id ==> g'.edges[x] == g.edges[x])
      && (id in g.edges ==>
            && g'.edges[id] == g.edges[id].(dead := g'.edges[id].dead, lastClock := g'.edges[id].lastClock)
            && (g'.edges[id].dead <==> g.edges[id].dead || Outranks(e.clock, g.edges[id].lastAdd))
            && g'.edges[id].lastClock == if Outranks(e.clock, g.edges[id].lastAdd) then e.clock else g.edges[id].lastClock)
  {
    hide Wins, Outranks;
    if e.payload.edgeId in g.edges { WinsIff(e.clock, g.edges[e.payload.edgeId].lastAdd); }
  }

  lemma {:induction false} RemoveNodeEnds(env: Env, g: Graph, e: Entry, g': Graph)
    requires e.payload.RemoveNode? && MayTake(env, g, e, g')
    ensures var id := e.payload.nodeId;
      && g' == g.(nodes := g'.nodes, quarantined := g.quarantined - {e.hash}) && g'.nodes.Keys == g.nodes.Keys
      && (forall x :: x in g.nodes && x != id ==> g'.nodes[x] == g.nodes[x])
      && (id in g.nodes ==>
            && g'.nodes[id] == g.nodes[id].(dead := g'.nodes[id].dead, lastClock := g'.nodes[id].lastClock)
            && (g'.nodes[id].dead <==> g.nodes[id].dead || Outranks(e.clock, g.nodes[id].lastAdd))
            && g'.nodes[id].lastClock == if Outranks(e.clock, g.nodes[id].lastAdd) then e.clock else g.nodes[id].lastClock)
  {
    hide Wins, Outranks;
    if e.payload.nodeId in g.nodes { WinsIff(e.clock, g.nodes[e.payload.nodeId].lastAdd); }
  }

  /** The clocks of the additions among these events. */
  predicate AddedAt(evs: seq<EdgeEvent>, c: Clock) { exists i :: 0 <= i < |evs| && evs[i].Linked? && evs[i].op.clock == c }

  /** Along a trail: a remove leaves the edge dead exactly if it was, or if it outranks every addition so far. */
  lemma {:induction false} EdgeRemoveShows(env: Env, entries: seq<Entry>, states: seq<Graph>, e: Entry, g': Graph, evs: seq<EdgeEvent>)
    requires Trail(env, entries, states) && NoCheckpoints(entries) && e.payload.RemoveEdge?
    requires e.payload.edgeId !in states[0].edges && e.payload.edgeId in states[|entries|].edges
    requires EventsAlong(env, entries, states, e.payload.edgeId, evs) && MayTake(env, states[|entries|], e, g')
    ensures e.payload.edgeId in g'.edges
    ensures g'.edges[e.payload.edgeId].dead <==>
      states[|entries|].edges[e.payload.edgeId].dead || forall c :: AddedAt(evs, c) ==> Outranks(e.clock, c)
  {
    hide EventsAlong, MayTake, Outranks, Wins, Lww.EdgeRun;
    var g, id := states[|entries|], e.payload.edgeId;
    EdgeTrailHistory(env, entries, states, id);
    RemoveEdgeEnds(env, g, e, g');
    var a, ws := evs[0].op, AsWrites(evs);
    Lww.EdgeRunIsJoin(a.edgeType, a.source, a.target, ws);
    var last := g.edges[id].lastAdd;
    var w :| w in ToSet(ws) && w.Add? && w.clock == last;
    var i :| 0 <= i < |ws| && ws[i] == w;
    assert AddedAt(evs, last);
    forall c | AddedAt(evs, c) && Outranks(e.clock, last) ensures Outranks(e.clock, c) {
      var j :| 0 <= j < |evs| && evs[j].Linked? && evs[j].op.clock == c;
      assert ws[j] in ToSet(ws) && ws[j].Add? && ws[j].clock == c;
      assert !Wins(c, last);
      WinsIff(e.clock, last);
      WinsIff(e.clock, c);
      WinsTotal(c, last);
      if Wins(last, c) { WinsTrans(e.clock, last, c); }
    }
  }

  // -- Quarantine --------------------------------------------------------------------------------------------------------

  /** An entry the ontology or the graph refuses, or holds. */
  ghost predicate Refused(env: Env, g: Graph, e: Entry) {
    match e.payload
    case AddNode(_, t, st, _, props) => !ValidNode(env.accepts, g.ontology, t, st, props, Full)
    case AddEdge(_, t, s, d, props) =>
      !(s in g.nodes && d in g.nodes && EdgeFits(env.accepts, g.ontology, t, g.nodes[s].nodeType, g.nodes[d].nodeType, props, Full))
    case UpdateProperty(id, k, v) =>
      || (id in g.nodes && !ValidNodeUpdate(env.accepts, g.ontology, g.nodes[id].nodeType, g.nodes[id].subtype, k, v))
      || (id !in g.nodes && id in g.edges && !ValidEdgeUpdate(env.accepts, g.ontology, g.edges[id].edgeType, k, v))
    case _ => false
  }

  /** A held edge that the new node lets in, or out for good. */
  ghost predicate TakenUp(g: Graph, e: Entry, h: Hash) {
    && e.payload.AddNode? && h in g.pending && g.pending[h].payload.AddEdge?
    && (g.pending[h].payload.source in g.nodes || g.pending[h].payload.source == e.payload.nodeId)
    && (g.pending[h].payload.target in g.nodes || g.pending[h].payload.target == e.payload.nodeId)
  }

  /**
   * Who is quarantined after an entry: itself if and only if it was refused, a held edge it completes if and only if
   * that edge does not fit, and everyone else as before; schema entries and lenses change nothing.
   */
  lemma {:induction false} QuarantineIs(env: Env, g: Graph, e: Entry, g': Graph, h: Hash)
    requires !e.payload.Checkpoint? && MayTake(env, g, e, g') && PendingKeyed(g) && e.hash !in g.pending
    ensures h in g'.quarantined <==>
      if h == e.hash && !e.payload.DefineOntology? && !e.payload.DefineLens? && !e.payload.ExtendOntology? then Refused(env, g, e)
      else if !Refused(env, g, e) && TakenUp(g, e, h) then Refused(env, g', g.pending[h])
      else h in g.quarantined
  {
    if e.payload.AddNode? {
      hide Refused, TakenUp, MayTake;
      NodeQuarantine(env, g, e, g', h);
    } else if e.payload.AddEdge? {
      hide Refused, AdmitEdge;
      EdgeQuarantine(env, g, e, h);
    } else {
      OtherQuarantine(env, g, e, g', h);
    }
  }

  lemma {:induction false} OtherQuarantine(env: Env, g: Graph, e: Entry, g': Graph, h: Hash)
    requires !e.payload.Checkpoint? && !e.payload.AddNode? && !e.payload.AddEdge? && MayTake(env, g, e, g')
    ensures h in g'.quarantined <==>
      if h == e.hash && (e.payload.UpdateProperty? || e.payload.RemoveNode? || e.payload.RemoveEdge?) then Refused(env, g, e)
      else h in g.quarantined
  {
    hide Refused, Apply, MayTake;
    TakeIsApply(env, g, e, g');
    OnlyJudgedRefused(env, g, e);
    if e.payload.UpdateProperty? { UpdateRefused(env, g, e, h); } else { QuietIs(env, g, e, g'); }
  }

  /** What is neither added nor updated leaves the quarantine alone, but for a remove that leaves it. */
  lemma {:induction false} QuietIs(env: Env, g: Graph, e: Entry, g': Graph)
    requires !e.payload.Checkpoint? && !e.payload.AddNode? && !e.payload.AddEdge? && !e.payload.UpdateProperty?
    requires g' == (if e.payload.ExtendOntology? then g else Apply(env, g, e, Full, false))
    ensures g'.quarantined == if e.payload.RemoveNode? || e.payload.RemoveEdge? then g.quarantined - {e.hash} else g.quarantined
  {
    hide Apply, ApplyRemoveNode, ApplyRemoveEdge;
    if e.payload.RemoveNode? {
      RemoveIs(env, g, e);
      RemoveQuarantine(Release(g, e.hash), e.payload.nodeId, e.clock);
    } else if e.payload.RemoveEdge? {
      CutIs(env, g, e);
      RemoveQuarantine(Release(g, e.hash), e.payload.edgeId, e.clock);
    } else {
      IdleIs(env, g, e, g');
    }
  }

  lemma {:induction false} OnlyJudgedRefused(env: Env, g: Graph, e: Entry)
    ensures Refused(env, g, e) ==> e.payload.AddNode? || e.payload.AddEdge? || e.payload.UpdateProperty?
  {
  }

  lemma {:induction false} UpdateRefused(env: Env, g: Graph, e: Entry, h: Hash)
    requires e.payload.UpdateProperty?
    ensures h in Apply(env, g, e, Full, false).quarantined <==> if h == e.hash then Refused(env, g, e) else h in g.quarantined
  {
    hide ValidNodeUpdate, ValidEdgeUpdate, ApplyUpdate, Apply, GraphInvariant.SameShape;
    UpdateIs(env, g, e);
    UpdateShape(Release(g, e.hash), e.payload.entityId, e.payload.key, e.payload.value, e.clock);
  }

  lemma {:induction false} TakeIsApply(env: Env, g: Graph, e: Entry, g': Graph)
    requires !e.payload.Checkpoint? && !e.payload.AddNode? && MayTake(env, g, e, g')
    ensures g' == if e.payload.ExtendOntology? then g else Apply(env, g, e, Full, false)
  {
    hide Apply;
  }

  lemma {:induction false} CutIs(env: Env, g: Graph, e: Entry)
    requires e.payload.RemoveEdge?
    ensures Apply(env, g, e, Full, false) == ApplyRemoveEdge(Release(g, e.hash), e.payload.edgeId, e.clock)
  {
    hide ApplyRemoveEdge, Release;
  }

  lemma {:induction false} IdleIs(env: Env, g: Graph, e: Entry, g': Graph)
    requires e.payload.DefineOntology? || e.payload.ExtendOntology? || e.payload.DefineLens?
    requires g' == if e.payload.ExtendOntology? then g else Apply(env, g, e, Full, false)
    ensures g' == g
  {
  }

  lemma {:induction false} RemoveQuarantine(g: Graph, id: string, c: Clock)
    ensures ApplyRemoveNode(g, id, c).quarantined == g.quarantined && ApplyRemoveEdge(g, id, c).quarantined == g.quarantined
  {
    hide RemovedNode, RemovedEdge;
  }

  lemma {:induction false} EdgeQuarantine(env: Env, g: Graph, e: Entry, h: Hash)
    requires e.payload.AddEdge?
    ensures h in AdmitEdge(env, g, e, Full).quarantined <==> if h == e.hash then Refused(env, g, e) else h in g.quarantined
  {
    hide AdmitEdge, Refused;
    if h == e.hash { EdgeJudged(env, g, e); } else { OthersUnjudged(env, g, e, h); }
  }

  lemma {:induction false} EdgeJudged(env: Env, g: Graph, e: Entry)
    requires e.payload.AddEdge?
    ensures e.hash in AdmitEdge(env, g, e, Full).quarantined <==> Refused(env, g, e)
  {
    hide AdmitEdge, EdgeFits;
    EdgeAdmission(env, g, e, Full);
    var op := e.payload;
    if op.edgeType !in g.ontology.edgeTypes && op.source in g.nodes && op.target in g.nodes { NoSuchType(env, g, e, Full); }
  }

  lemma {:induction false} OthersUnjudged(env: Env, g: Graph, e: Entry, h: Hash)
    requires e.payload.AddEdge? && h != e.hash
    ensures h in AdmitEdge(env, g, e, Full).quarantined <==> h in g.quarantined
    ensures h in g.quarantined ==> AdmitEdge(env, g, e, Full).quarantined[h] == g.quarantined[h]
  {
    hide AdmitEdge, Admissible, ApplyAddEdge;
    AdmitCases(env, g, e, Full);
    var op := e.payload;
    AddEdgeLeaves(Release(g, e.hash), op.edgeId, op.edgeType, op.source, op.target, op.props, e.clock);
  }

  lemma {:induction false} GrownParts(g: Graph, e: Entry)
    requires e.payload.AddNode?
    ensures var m := WithNode(g, e);
      && m.pending == g.pending && m.quarantined == g.quarantined - {e.hash} && m.ontology == g.ontology
      && m.nodes.Keys == g.nodes.Keys + {e.payload.nodeId}
  {
    hide ApplyAddNode, Release;
    var op := e.payload;
    NodeAddedTo(Release(g, e.hash), op.nodeId, op.nodeType, op.subtype, op.title, op.props, e.clock);
    ReleasedParts(g, e.hash);
  }

  lemma {:induction false} ReleasedParts(g: Graph, h: Hash)
    ensures Release(g, h) == g.(quarantined := g.quarantined - {h})
  {
  }

  lemma {:induction false} NodeAddedTo(g: Graph, id: string, t: string, st: Option<string>, title: string, props: Props, c: Clock)
    ensures var m := ApplyAddNode(g, id, t, st, title, props, c);
      m.pending == g.pending && m.quarantined == g.quarantined && m.ontology == g.ontology && m.nodes.Keys == g.nodes.Keys + {id}
  {
    hide AddAgain, NewNode, Index;
  }

  lemma {:induction false} JoinsWhenFits(env: Env, g: Graph, g': Graph, h: Hash)
    requires h in ReadyEdges(g) && g'.nodes == g.nodes && g'.ontology == g.ontology
    ensures Joins(env, g, h) <==> !Refused(env, g', g.pending[h])
  {
    hide ValidEdge, EdgeFits;
    var op := g.pending[h].payload;
    EdgePasses(env.accepts, g.ontology, op.edgeType, g.nodes[op.source].nodeType, g.nodes[op.target].nodeType, op.props, Full);
    if op.edgeType !in g.ontology.edgeTypes { NoSuchType(env, g, g.pending[h], Full); }
  }

  lemma {:induction false} NodeQuarantine(env: Env, g: Graph, e: Entry, g': Graph, h: Hash)
    requires e.payload.AddNode? && MayTake(env, g, e, g') && PendingKeyed(g) && e.hash !in g.pending
    ensures h in g'.quarantined <==>
      if h == e.hash then Refused(env, g, e)
      else if !Refused(env, g, e) && TakenUp(g, e, h) then Refused(env, g', g.pending[h])
      else h in g.quarantined
  {
    hide ValidNode, Joins, RetryList, NoDup, ApplyAddNode, EdgeFits, ReadyEdges, TakenUp;
    var m := WithNode(g, e);
    GrownParts(g, e);
    if !Refused(env, g, e) {
      var order: seq<Hash> :| NoDup(order) && ToSet(order) == ReadyEdges(m) && g' == RetryList(env, m, order);
      assert PendingKeyed(m);
      ListVerdict(env, m, order, h);
      ReadyTaken(g, e, h);
      ReadyHeld(m);
      if h in ReadyEdges(m) { JoinsWhenFits(env, m, g', h); }
    }
  }

  lemma {:induction false} ReadyTaken(g: Graph, e: Entry, h: Hash)
    requires e.payload.AddNode?
    ensures h in ReadyEdges(WithNode(g, e)) <==> TakenUp(g, e, h)
  {
    hide WithNode;
    GrownParts(g, e);
  }

  /** The verdict a list of retries leaves on `h`. */
  lemma {:induction false} ListVerdict(env: Env, g: Graph, order: seq<Hash>, h: Hash)
    requires PendingKeyed(g) && NoDup(order) && ToSet(order) == ReadyEdges(g)
    ensures var m := RetryList(env, g, order);
      && m.nodes == g.nodes && m.ontology == g.ontology
      && (h in m.quarantined <==> if h in ReadyEdges(g) then !Joins(env, g, h) else h in g.quarantined)
      && (h in m.quarantined ==> m.quarantined[h] == if h in ReadyEdges(g) then Record("add_edge", g.ontology) else g.quarantined[h])
  {
    hide RetryList, AttachAll, OpsIn, Joins, ReadyEdges, NoDup;
    ListParts(env, g, order);
  }

  /** The kind under which an entry is quarantined. */
  function KindOf(e: Entry): string {
    match e.payload
    case AddNode(_, _, _, _, _) => "add_node"
    case AddEdge(_, _, _, _, _) => "add_edge"
    case _ => "update_property"
  }

  /** What the quarantine says: the kind of entry and the ontology it was judged by, and of the others what it said. */
  lemma {:induction false} RecordIs(env: Env, g: Graph, e: Entry, g': Graph, h: Hash)
    requires !e.payload.Checkpoint? && MayTake(env, g, e, g') && PendingKeyed(g) && e.hash !in g.pending && h in g'.quarantined
    ensures g'.quarantined[h] ==
      if h == e.hash && Refused(env, g, e) then Record(KindOf(e), g.ontology)
      else if !Refused(env, g, e) && TakenUp(g, e, h) then Record("add_edge", g.ontology)
      else if h in g.quarantined then g.quarantined[h] else g'.quarantined[h]
  {
    if e.payload.AddNode? {
      hide Refused, TakenUp, MayTake;
      NodeRecord(env, g, e, g', h);
    } else if e.payload.AddEdge? {
      hide Refused, AdmitEdge;
      EdgeRecord(env, g, e, h);
    } else {
      hide Refused, Apply, MayTake;
      TakeIsApply(env, g, e, g');
      OnlyJudgedRefused(env, g, e);
      if e.payload.UpdateProperty? { UpdateRecord(env, g, e, h); } else { QuietRecord(env, g, e, g', h); }
    }
  }

  lemma {:induction false} QuietRecord(env: Env, g: Graph, e: Entry, g': Graph, h: Hash)
    requires !e.payload.Checkpoint? && !e.payload.AddNode? && !e.payload.AddEdge? && !e.payload.UpdateProperty?
    requires g' == (if e.payload.ExtendOntology? then g else Apply(env, g, e, Full, false)) && h in g'.quarantined
    ensures h in g.quarantined && g'.quarantined[h] == g.quarantined[h]
  {
    hide Apply;
    QuietIs(env, g, e, g');
  }

  lemma {:induction false} UpdateRecord(env: Env, g: Graph, e: Entry, h: Hash)
    requires e.payload.UpdateProperty? && h in Apply(env, g, e, Full, false).quarantined
    ensures Apply(env, g, e, Full, false).quarantined[h] ==
      if h == e.hash && Refused(env, g, e) then Record("update_property", g.ontology)
      else if h in g.quarantined then g.quarantined[h] else Apply(env, g, e, Full, false).quarantined[h]
  {
    hide ValidNodeUpdate, ValidEdgeUpdate, ApplyUpdate, Apply, GraphInvariant.SameShape;
    UpdateIs(env, g, e);
    UpdateShape(Release(g, e.hash), e.payload.entityId, e.payload.key, e.payload.value, e.clock);
  }

  lemma {:induction false} EdgeRecord(env: Env, g: Graph, e: Entry, h: Hash)
    requires e.payload.AddEdge? && h in AdmitEdge(env, g, e, Full).quarantined
    ensures AdmitEdge(env, g, e, Full).quarantined[h] ==
      if h == e.hash && Refused(env, g, e) then Record("add_edge", g.ontology)
      else if h in g.quarantined then g.quarantined[h] else AdmitEdge(env, g, e, Full).quarantined[h]
  {
    hide AdmitEdge, Admissible, ApplyAddEdge, Refused;
    if h != e.hash {
      OthersUnjudged(env, g, e, h);
    } else {
      EdgeJudged(env, g, e);
      AdmitCases(env, g, e, Full);
      var op := e.payload;
      AddEdgeLeaves(Release(g, h), op.edgeId, op.edgeType, op.source, op.target, op.props, e.clock);
    }
  }

  lemma {:induction false} NodeRecord(env: Env, g: Graph, e: Entry, g': Graph, h: Hash)
    requires e.payload.AddNode? && MayTake(env, g, e, g') && PendingKeyed(g) && e.hash !in g.pending && h in g'.quarantined
    ensures g'.quarantined[h] ==
      if h == e.hash && Refused(env, g, e) then Record("add_node", g.ontology)
      else if !Refused(env, g, e) && TakenUp(g, e, h) then Record("add_edge", g.ontology)
      else if h in g.quarantined then g.quarantined[h] else g'.quarantined[h]
  {
    hide ValidNode, Joins, RetryList, NoDup, ApplyAddNode, EdgeFits, ReadyEdges, TakenUp;
    var m := WithNode(g, e);
    GrownParts(g, e);
    if !Refused(env, g, e) {
      var order: seq<Hash> :| NoDup(order) && ToSet(order) == ReadyEdges(m) && g' == RetryList(env, m, order);
      assert PendingKeyed(m);
      ListVerdict(env, m, order, h);
      ReadyTaken(g, e, h);
    }
  }

  // -- Labels and entity clocks --------------------------------------------------------------------------------------------

  /** The `j`-th write is an add that outranks the entity clock it meets; the first add always counts. */
  ghost predicate Relabels(t: string, ws: seq<Lww.Write>, j: nat)
    requires Lww.Starts(ws) && j < |ws|
  {
    ws[j].Add? && (j == 0 || Outranks(ws[j].clock, Lww.NodeRun(t, ws[..j]).lastClock))
  }

  lemma {:induction false} RelabelsStays(t: string, ws: seq<Lww.Write>, w: Lww.Write, j: nat)
    requires Lww.Starts(ws) && j < |ws|
    ensures Relabels(t, ws + [w], j) <==> Relabels(t, ws, j)
  {
    assert (ws + [w])[..j] == ws[..j] && (ws + [w])[j] == ws[j];
  }

  /** The `j`-th write is the last add that relabelled, and gave `n` its title and subtype. */
  ghost predicate LabelledBy(t: string, ws: seq<Lww.Write>, j: nat, n: Node)
    requires Lww.Starts(ws)
  {
    && j < |ws| && Relabels(t, ws, j) && (forall k :: j < k < |ws| ==> !Relabels(t, ws, k))
    && n.title == ws[j].title && n.subtype == ws[j].subtype
  }

  /** Title and subtype are those of the last add that relabelled; the type is the first add's. */
  lemma {:induction false} LabelIs(t: string, ws: seq<Lww.Write>)
    requires Lww.Starts(ws)
    ensures Lww.NodeRun(t, ws).nodeType == t && exists j: nat :: LabelledBy(t, ws, j, Lww.NodeRun(t, ws))
  {
    hide Wins, Outranks, MergeCells, SetCell, Relabels;
    if |ws| == 1 {
      FirstRelabels(t, ws);
      assert LabelledBy(t, ws, 0, Lww.NodeRun(t, ws));
    } else {
      var init, w := ws[..|ws| - 1], ws[|ws| - 1];
      assert ws == init + [w];
      LabelIs(t, init);
      var j: nat :| LabelledBy(t, init, j, Lww.NodeRun(t, init));
      forall k | 0 <= k < |init| ensures Relabels(t, ws, k) <==> Relabels(t, init, k) { RelabelsStays(t, init, w, k); }
      LastRelabels(t, init, w);
      assert LabelledBy(t, ws, if Relabels(t, ws, |init|) then |init| else j, Lww.NodeRun(t, ws));
    }
  }

  lemma {:induction false} FirstRelabels(t: string, ws: seq<Lww.Write>)
    requires Lww.Starts(ws)
    ensures Relabels(t, ws, 0)
  {
  }

  lemma {:induction false} LastRelabels(t: string, ws: seq<Lww.Write>, w: Lww.Write)
    requires Lww.Starts(ws)
    ensures Relabels(t, ws + [w], |ws|) <==> w.Add? && Wins(w.clock, Lww.NodeRun(t, ws).lastClock)
  {
    hide Wins, Outranks, Lww.NodeRun;
    assert (ws + [w])[..|ws|] == ws;
    WinsIff(w.clock, Lww.NodeRun(t, ws).lastClock);
  }

  /** The `j`-th write is a remove that outranks every add before it. */
  ghost predicate Buries(ws: seq<Lww.Write>, j: nat)
    requires j < |ws|
  {
    ws[j].Del? && forall i :: 0 <= i < j && ws[i].Add? ==> Outranks(ws[j].clock, ws[i].clock)
  }

  /** Since the `i`-th write, `c` is the clock of one that counts, and none that counts outranks it. */
  ghost predicate TopSince(ws: seq<Lww.Write>, i: nat, c: Clock) {
    && i < |ws| && (i == 0 || Buries(ws, i)) && (forall j :: i < j < |ws| ==> !Buries(ws, j))
    && (exists j :: i <= j < |ws| && (j == i || !ws[j].Del?) && ws[j].clock == c)
    && forall j :: i <= j < |ws| && (j == i || !ws[j].Del?) ==> !Outranks(ws[j].clock, c)
  }

  lemma {:induction false} BuriesIs(ws: seq<Lww.Write>, last: Clock, w: Lww.Write)
    requires Lww.GreatestAdd(ToSet(ws), last)
    ensures Buries(ws + [w], |ws|) <==> w.Del? && Wins(w.clock, last)
  {
    hide Wins, Outranks;
    var all := ws + [w];
    var x :| x in ToSet(ws) && x.Add? && x.clock == last;
    var k :| 0 <= k < |ws| && ws[k] == x;
    assert all[k] == x && all[|ws|] == w;
    WinsIff(w.clock, last);
    if w.Del? && Wins(w.clock, last) {
      forall i | 0 <= i < |ws| && all[i].Add? ensures Outranks(w.clock, all[i].clock) {
        assert ws[i] in ToSet(ws);
        WinsIff(w.clock, all[i].clock);
        WinsTotal(all[i].clock, last);
        if Wins(last, all[i].clock) { WinsTrans(w.clock, last, all[i].clock); }
      }
    }
  }

  lemma {:induction false} BuriesStays(ws: seq<Lww.Write>, w: Lww.Write, j: nat)
    requires j < |ws|
    ensures Buries(ws + [w], j) <==> Buries(ws, j)
  {
    var all := ws + [w];
    assert forall i :: 0 <= i < |ws| ==> all[i] == ws[i];
  }

  lemma {:induction false} NotOutranked(a: Clock, b: Clock, c: Clock)
    requires !Outranks(a, b) && (b == c || Outranks(c, b))
    ensures !Outranks(a, c)
  {
    hide Wins, Outranks;
    WinsIff(a, b);
    WinsIff(a, c);
    WinsIff(c, b);
    if Wins(a, c) && b != c { WinsTrans(a, c, b); }
  }

  /** The entity clock: the greatest since the last remove that took effect, that remove included. */
  lemma {:induction false} EntityClockIs(t: string, ws: seq<Lww.Write>)
    requires Lww.Starts(ws)
    ensures exists i: nat :: TopSince(ws, i, Lww.NodeRun(t, ws).lastClock)
  {
    hide Wins, Outranks, MergeCells, SetCell, Buries;
    if |ws| == 1 {
      WinsTotal(ws[0].clock, ws[0].clock);
      WinsIff(ws[0].clock, ws[0].clock);
      assert TopSince(ws, 0, Lww.NodeRun(t, ws).lastClock);
    } else {
      var init, w := ws[..|ws| - 1], ws[|ws| - 1];
      assert ws == init + [w];
      EntityClockIs(t, init);
      var i: nat :| TopSince(init, i, Lww.NodeRun(t, init).lastClock);
      var n := Lww.NodeRun(t, init);
      Lww.NodeRunIsJoin(t, init);
      BuriesIs(init, n.lastAdd, w);
      assert Lww.NodeRun(t, ws) == Lww.NodeWrite(n, w);
      var i' := ClockNext(init, i, w, n.lastClock, Lww.NodeWrite(n, w).lastClock, n.lastAdd);
    }
  }

  /** The same of an edge. */
  lemma {:induction false} EdgeClockIs(t: string, s: string, d: string, ws: seq<Lww.Write>)
    requires Lww.Starts(ws)
    ensures exists i: nat :: TopSince(ws, i, Lww.EdgeRun(t, s, d, ws).lastClock)
  {
    hide Wins, Outranks, MergeCells, SetCell, Buries;
    if |ws| == 1 {
      WinsTotal(ws[0].clock, ws[0].clock);
      WinsIff(ws[0].clock, ws[0].clock);
      assert TopSince(ws, 0, Lww.EdgeRun(t, s, d, ws).lastClock);
    } else {
      var init, w := ws[..|ws| - 1], ws[|ws| - 1];
      assert ws == init + [w];
      EdgeClockIs(t, s, d, init);
      var i: nat :| TopSince(init, i, Lww.EdgeRun(t, s, d, init).lastClock);
      var e := Lww.EdgeRun(t, s, d, init);
      Lww.EdgeRunIsJoin(t, s, d, init);
      BuriesIs(init, e.lastAdd, w);
      assert Lww.EdgeRun(t, s, d, ws) == Lww.EdgeWrite(e, w);
      var i' := ClockNext(init, i, w, e.lastClock, Lww.EdgeWrite(e, w).lastClock, e.lastAdd);
    }
  }

  lemma {:induction false} ClockNext(ws: seq<Lww.Write>, i: nat, w: Lww.Write, c: Clock, c': Clock, last: Clock) returns (i': nat)
    requires TopSince(ws, i, c) && (Buries(ws + [w], |ws|) <==> w.Del? && Wins(w.clock, last))
    requires c' == if w.Del? then (if Wins(w.clock, last) then w.clock else c) else Later(c, w.clock)
    ensures TopSince(ws + [w], i', c')
  {
    hide Wins, Outranks, Buries;
    var all := ws + [w];
    forall j | 0 <= j < |ws| ensures Buries(all, j) <==> Buries(ws, j) && all[j] == ws[j] { BuriesStays(ws, w, j); }
    WinsIff(w.clock, c);
    WinsTotal(w.clock, w.clock);
    WinsIff(w.clock, w.clock);
    assert all[|ws|] == w;
    if Buries(all, |ws|) {
      i' := |ws|;
      assert all[i'].clock == c';
    } else {
      i' := i;
      var k :| i <= k < |ws| && (k == i || !ws[k].Del?) && ws[k].clock == c;
      assert all[k].clock == c;
      if c' != c { assert all[|ws|].clock == c'; }
      forall j | i <= j < |all| && (j == i || !all[j].Del?) ensures !Outranks(all[j].clock, c') {
        if j < |ws| { NotOutranked(ws[j].clock, c, c'); }
      }
    }
  }
}
