/** The edge side of applying entries: what a sequence of applied entries, retries included, makes of an edge. */
module EdgeHistories {
  import opened Base
  import opened Clocks
  import opened Ontologies
  import opened Entries
  import opened Graphs
  import opened GraphInvariant
  import opened RetryOrder
  import opened Outcomes
  import opened RetryExact
  import opened Histories
  import Lww

  /** What can happen to an edge. */
  datatype EdgeEvent = Linked(op: EdgeOp) | Changed(key: string, value: Value, clock: Clock) | Cut(clock: Clock)

  function AsWrite(ev: EdgeEvent): Lww.Write {
    match ev
    case Linked(op) => Lww.Add(None, "", op.props, op.clock)
    case Changed(k, v, c) => Lww.Put(k, v, c)
    case Cut(c) => Lww.Del(c)
  }

  function AsWrites(evs: seq<EdgeEvent>): (ws: seq<Lww.Write>)
    ensures |ws| == |evs| && forall i :: 0 <= i < |ws| ==> ws[i] == AsWrite(evs[i])
  {
    seq(|evs|, i requires 0 <= i < |evs| => AsWrite(evs[i]))
  }

  /** The edge after one event. */
  function Played(e: Option<Edge>, ev: EdgeEvent): Option<Edge> {
    match (e, ev)
    case (None, Linked(a)) => Some(NewEdge(a.edgeType, a.source, a.target, a.props, a.clock))
    case (Some(x), Linked(a)) => Some(AddEdgeAgain(x, a.props, a.clock))
    case (Some(x), Changed(k, v, c)) => Some(SetEdgeProperty(x, k, v, c))
    case (Some(x), Cut(c)) => Some(RemovedEdge(x, c))
    case _ => None
  }

  function PlayedAll(e: Option<Edge>, evs: seq<EdgeEvent>): Option<Edge> {
    if evs == [] then e else Played(PlayedAll(e, evs[..|evs| - 1]), evs[|evs| - 1])
  }

  lemma {:induction false} PlayedConcat(e: Option<Edge>, xs: seq<EdgeEvent>, ys: seq<EdgeEvent>)
    ensures PlayedAll(e, xs + ys) == PlayedAll(PlayedAll(e, xs), ys)
  {
    hide Played;
    if ys == [] {
      assert xs + ys == xs;
    } else {
      var n := |ys| - 1;
      assert (xs + ys)[..|xs| + n] == xs + ys[..n];
      PlayedConcat(e, xs, ys[..n]);
    }
  }

  lemma {:induction false} PlayedOne(e: Option<Edge>, ev: EdgeEvent)
    ensures PlayedAll(e, [ev]) == Played(e, ev)
  {
    hide Played;
    assert [ev][..0] == [];
    assert PlayedAll(e, []) == e;
  }

  /** A succession of events that begins with an addition is a run of writes to that edge. */
  lemma {:induction false} PlayedRuns(evs: seq<EdgeEvent>)
    requires evs != [] && evs[0].Linked?
    ensures Lww.Starts(AsWrites(evs))
    ensures PlayedAll(None, evs) == Some(Lww.EdgeRun(evs[0].op.edgeType, evs[0].op.source, evs[0].op.target, AsWrites(evs)))
  {
    var n := |evs| - 1;
    var a := evs[0].op;
    if n == 0 {
      assert evs == [evs[0]];
      PlayedOne(None, evs[0]);
    } else {
      PlayedRuns(evs[..n]);
      assert AsWrites(evs)[..n] == AsWrites(evs[..n]);
      PlayedIsWrite(Lww.EdgeRun(a.edgeType, a.source, a.target, AsWrites(evs[..n])), evs[n]);
    }
  }

  lemma {:induction false} PlayedIsWrite(x: Edge, ev: EdgeEvent)
    ensures Played(Some(x), ev) == Some(Lww.EdgeWrite(x, AsWrite(ev)))
  {
    hide MergeCells, SetCell, Wins, Later;
  }

  // -- The events of one entry -------------------------------------------------------------------------------------------

  /** The additions of edge `id` among these. */
  function Mine(id: string, ops: seq<EdgeOp>): seq<EdgeEvent> {
    if ops == [] then [] else Mine(id, ops[..|ops| - 1]) + (if ops[|ops| - 1].id == id then [Linked(ops[|ops| - 1])] else [])
  }

  lemma {:induction false} MinePlayed(id: string, e: Option<Edge>, ops: seq<EdgeOp>)
    ensures PlayedAll(e, Mine(id, ops)) == TouchAll(id, e, ops)
    ensures forall i :: 0 <= i < |Mine(id, ops)| ==> Mine(id, ops)[i].Linked?
  {
    hide AddEdgeAgain, NewEdge;
    if ops != [] {
      var init, a := ops[..|ops| - 1], ops[|ops| - 1];
      MinePlayed(id, e, init);
      if a.id == id {
        PlayedConcat(e, Mine(id, init), [Linked(a)]);
        PlayedOne(PlayedAll(e, Mine(id, init)), Linked(a));
      } else {
        assert Mine(id, ops) == Mine(id, init);
      }
    }
  }

  /** The graph right after a node entry, before held edges are retried. */
  function WithNode(g: Graph, e: Entry): Graph
    requires e.payload.AddNode?
  {
    var op := e.payload;
    ApplyAddNode(Release(g, e.hash), op.nodeId, op.nodeType, op.subtype, op.title, op.props, e.clock)
  }

  /** `evs` are the events of edge `id` in taking `e` from `g` to `g'`: one at most, or the retries a new node sets off. */
  ghost predicate EventsOf(env: Env, g: Graph, e: Entry, id: string, evs: seq<EdgeEvent>, g': Graph) {
    match e.payload
    case AddEdge(i, _, _, _, _) => evs == if i == id && Admissible(env, g, e, Full) then [Linked(OpOf(e))] else []
    case AddNode(_, t, st, _, props) =>
      if ValidNode(env.accepts, g.ontology, t, st, props, Full) then
        exists order: seq<Hash> ::
          NoDup(order) && ToSet(order) == ReadyEdges(WithNode(g, e)) && g' == RetryList(env, WithNode(g, e), order)
          && evs == Mine(id, OpsIn(env, WithNode(g, e), order))
      else evs == []
    case UpdateProperty(i, k, v) =>
      evs == if i == id && i !in g.nodes && i in g.edges && ValidUpdate(env, g, i, k, v) then [Changed(k, v, e.clock)] else []
    case RemoveEdge(i) => evs == if i == id && i in g.edges then [Cut(e.clock)] else []
    case _ => evs == []
  }

  lemma {:induction false} ListTopology(env: Env, g: Graph, order: seq<Hash>)
    requires NoDup(order) && ToSet(order) <= ReadyEdges(g)
    ensures var m := RetryList(env, g, order);
      && TopologyOf(m) == AttachAll(TopologyOf(g), OpsIn(env, g, order)) && m.nodes == g.nodes && m.ontology == g.ontology
      && m.pending == g.pending - ToSet(order)
  {
    hide RetryEdge, Attach, Admissible, EndpointsPresent;
    if order == [] {
      NoHashes(g);
    } else {
      var init, h := order[..|order| - 1], order[|order| - 1];
      assert order == init + [h];
      ToSetSnoc(init, h);
      assert h in ToSet(order) && h !in ToSet(init);
      ListTopology(env, g, init);
      var m := RetryList(env, g, init);
      assert m.pending[h] == g.pending[h];
      ReadyStays(g, m, h);
      RetryParts(env, m, h);
      VerdictStands(env, g, m, g.pending[h]);
      OpsSnoc(env, g, init, h);
      AttachSnoc(TopologyOf(g), OpsIn(env, g, init), OpOf(g.pending[h]));
      assert g.pending - ToSet(init) - {h} == g.pending - ToSet(order);
    }
  }

  lemma {:induction false} ReadyStays(g: Graph, m: Graph, h: Hash)
    requires h in ReadyEdges(g) && m.nodes == g.nodes && h in m.pending && m.pending[h] == g.pending[h]
    ensures m.pending[h].payload.AddEdge? && EndpointsPresent(m, m.pending[h])
  {
  }

  lemma {:induction false} NodeEvents(env: Env, g: Graph, e: Entry, id: string, evs: seq<EdgeEvent>, g': Graph)
    requires e.payload.AddNode? && EventsOf(env, g, e, id, evs, g') && MayTake(env, g, e, g')
    ensures Find(g'.edges, id) == PlayedAll(Find(g.edges, id), evs)
    ensures forall i :: 0 <= i < |evs| ==> evs[i].Linked?
  {
    hide ValidNode, ApplyAddNode, RetryList, ReadyEdges, OpsIn, AttachAll, Find, TouchAll, PlayedAll, Mine, NoDup, MayRetry;
    var op, m := e.payload, WithNode(g, e);
    AddNodeKeepsEdges(g, e);
    if ValidNode(env.accepts, g.ontology, op.nodeType, op.subtype, op.props, Full) {
      var order: seq<Hash> :| NoDup(order) && ToSet(order) == ReadyEdges(m) && g' == RetryList(env, m, order)
          && evs == Mine(id, OpsIn(env, m, order));
      ListTopology(env, m, order);
      AttachAllEdges(TopologyOf(m), OpsIn(env, m, order), id);
      MinePlayed(id, Find(g.edges, id), OpsIn(env, m, order));
    } else {
      NothingPlayed(Find(g.edges, id));
    }
  }

  lemma {:induction false} NothingPlayed(e: Option<Edge>)
    ensures PlayedAll(e, []) == e
  {
  }

  lemma {:induction false} AddNodeKeepsEdges(g: Graph, e: Entry)
    requires e.payload.AddNode?
    ensures WithNode(g, e).edges == g.edges && Quarantine(g, e.hash, "add_node").edges == g.edges
  {
    hide AddAgain, NewNode, Index;
  }

  lemma {:induction false} LinkEvents(env: Env, g: Graph, e: Entry, id: string)
    requires e.payload.AddEdge?
    ensures Find(AdmitEdge(env, g, e, Full).edges, id) ==
      if e.payload.edgeId == id && Admissible(env, g, e, Full) then Played(Find(g.edges, id), Linked(OpOf(e))) else Find(g.edges, id)
  {
    hide AddEdgeAgain, NewEdge, Index, AdmitEdge, Admissible;
    AdmitCases(env, g, e, Full);
  }

  lemma {:induction false} ChangeEvents(env: Env, g: Graph, e: Entry, id: string)
    requires e.payload.UpdateProperty?
    ensures var op := e.payload;
      var g' := ApplyUpdate(Release(g, e.hash), op.entityId, op.key, op.value, e.clock);
      && Quarantine(g, e.hash, "update_property").edges == g.edges
      && Find(g'.edges, id) ==
           if op.entityId == id && id !in g.nodes && id in g.edges then Played(Find(g.edges, id), Changed(op.key, op.value, e.clock))
           else Find(g.edges, id)
  {
    hide SetNodeProperty, SetEdgeProperty;
  }

  lemma {:induction false} CutEvents(g: Graph, e: Entry, id: string)
    requires e.payload.RemoveEdge?
    ensures Find(ApplyRemoveEdge(Release(g, e.hash), e.payload.edgeId, e.clock).edges, id) ==
      if e.payload.edgeId == id && id in g.edges then Played(Find(g.edges, id), Cut(e.clock)) else Find(g.edges, id)
  {
    hide RemovedEdge;
  }

  /** Taking one entry changes an edge exactly by its events. */
  lemma {:induction false} EntryEvents(env: Env, g: Graph, e: Entry, id: string, evs: seq<EdgeEvent>, g': Graph)
    requires !e.payload.Checkpoint? && MayTake(env, g, e, g') && EventsOf(env, g, e, id, evs, g')
    ensures Find(g'.edges, id) == PlayedAll(Find(g.edges, id), evs)
    ensures evs == [] || evs[0].Linked? || id in g.edges
  {
    if e.payload.AddNode? {
      hide EventsOf, MayTake;
      NodeEvents(env, g, e, id, evs, g');
    } else {
      OtherEvents(env, g, e, id, evs, g');
    }
  }

  lemma {:induction false} OtherEvents(env: Env, g: Graph, e: Entry, id: string, evs: seq<EdgeEvent>, g': Graph)
    requires !e.payload.Checkpoint? && !e.payload.AddNode? && MayTake(env, g, e, g') && EventsOf(env, g, e, id, evs, g')
    ensures Find(g'.edges, id) == PlayedAll(Find(g.edges, id), evs)
    ensures evs == [] || evs[0].Linked? || id in g.edges
  {
    hide AdmitEdge, Admissible, ApplyUpdate, ApplyRemoveEdge, ApplyRemoveNode, ValidUpdate, MergeExtension, Played, PlayedAll, Find;
    NothingPlayed(Find(g.edges, id));
    if evs != [] { PlayedOne(Find(g.edges, id), evs[0]); }
    match e.payload {
      case AddEdge(_, _, _, _, _) => LinkEvents(env, g, e, id);
      case UpdateProperty(_, _, _) => ChangeEvents(env, g, e, id);
      case RemoveEdge(_) => CutEvents(g, e, id);
      case RemoveNode(i) => RemoveNodeKeepsEdges(g, e.hash, i, e.clock);
      case _ =>
    }
  }

  lemma {:induction false} RemoveNodeKeepsEdges(g: Graph, h: Hash, id: string, c: Clock)
    ensures ApplyRemoveNode(Release(g, h), id, c).edges == g.edges
  {
    hide RemovedNode;
  }

  /** Every way of taking an entry has its events. */
  lemma {:induction false} SomeEvents(env: Env, g: Graph, e: Entry, id: string, g': Graph)
    requires MayTake(env, g, e, g')
    ensures exists evs :: EventsOf(env, g, e, id, evs, g')
  {
    hide Admissible, ValidNode, RetryList, ReadyEdges, OpsIn, ApplyAddNode, Mine, NoDup, ValidUpdate;
    match e.payload {
      case AddNode(_, t, st, _, props) =>
        if ValidNode(env.accepts, g.ontology, t, st, props, Full) {
          var order: seq<Hash> :| NoDup(order) && ToSet(order) == ReadyEdges(WithNode(g, e)) && g' == RetryList(env, WithNode(g, e), order);
          assert EventsOf(env, g, e, id, Mine(id, OpsIn(env, WithNode(g, e), order)), g');
        } else {
          assert EventsOf(env, g, e, id, [], g');
        }
      case AddEdge(i, _, _, _, _) =>
        assert EventsOf(env, g, e, id, if i == id && Admissible(env, g, e, Full) then [Linked(OpOf(e))] else [], g');
      case UpdateProperty(i, k, v) =>
        assert EventsOf(env, g, e, id,
                        if i == id && i !in g.nodes && i in g.edges && ValidUpdate(env, g, i, k, v) then [Changed(k, v, e.clock)] else [], g');
      case RemoveEdge(i) => assert EventsOf(env, g, e, id, if i == id && i in g.edges then [Cut(e.clock)] else [], g');
      case _ => assert EventsOf(env, g, e, id, [], g');
    }
  }

  // -- Whole trails ------------------------------------------------------------------------------------------------------

  /** `evs` are the events of edge `id` along a trail. */
  ghost predicate EventsAlong(env: Env, entries: seq<Entry>, states: seq<Graph>, id: string, evs: seq<EdgeEvent>)
    requires |entries| < |states|
  {
    if entries == [] then evs == []
    else
      var n := |entries| - 1;
      exists xs, ys :: evs == xs + ys && EventsAlong(env, entries[..n], states, id, xs) && EventsOf(env, states[n], entries[n], id, ys, states[n + 1])
  }

  /** The edge is the run of these events, in the shape of the first of them, an addition. */
  ghost predicate Made(g: Graph, id: string, evs: seq<EdgeEvent>) {
    && (evs == [] <==> id !in g.edges)
    && (evs != [] ==>
          && evs[0].Linked? && Lww.Starts(AsWrites(evs)) && id in g.edges
          && g.edges[id] == Lww.EdgeRun(evs[0].op.edgeType, evs[0].op.source, evs[0].op.target, AsWrites(evs)))
  }

  lemma {:induction false} PlayedMade(g: Graph, id: string, evs: seq<EdgeEvent>)
    requires Find(g.edges, id) == PlayedAll(None, evs) && (evs == [] || evs[0].Linked?)
    ensures Made(g, id, evs)
  {
    hide Lww.EdgeRun;
    if evs != [] { PlayedRuns(evs); }
  }

  lemma {:induction false} TrailPlays(env: Env, entries: seq<Entry>, states: seq<Graph>, id: string, evs: seq<EdgeEvent>)
    requires Trail(env, entries, states) && NoCheckpoints(entries) && id !in states[0].edges && EventsAlong(env, entries, states, id, evs)
    ensures Find(states[|entries|].edges, id) == PlayedAll(None, evs) && (evs == [] || evs[0].Linked?)
    decreases |entries|
  {
    hide MayTake, EventsOf, PlayedAll;
    if entries == [] {
      NothingPlayed(None);
    } else {
      var n := |entries| - 1;
      var xs, ys :| evs == xs + ys && EventsAlong(env, entries[..n], states, id, xs) && EventsOf(env, states[n], entries[n], id, ys, states[n + 1]);
      assert entries[n] in entries;
      TrailInit(env, entries, states);
      AlongPrefix(env, entries[..n], states, states[..n + 1], id, xs);
      TrailPlays(env, entries[..n], states[..n + 1], id, xs);
      EntryEvents(env, states[n], entries[n], id, ys, states[n + 1]);
      PlayedConcat(None, xs, ys);
      NothingPlayed(None);
    }
  }

  lemma {:induction false} AlongPrefix(env: Env, entries: seq<Entry>, a: seq<Graph>, b: seq<Graph>, id: string, evs: seq<EdgeEvent>)
    requires |entries| < |a| && |entries| < |b| && (forall k :: 0 <= k <= |entries| ==> a[k] == b[k]) && EventsAlong(env, entries, a, id, evs)
    ensures EventsAlong(env, entries, b, id, evs)
    decreases |entries|
  {
    hide EventsOf;
    if entries != [] {
      var n := |entries| - 1;
      var xs, ys :| evs == xs + ys && EventsAlong(env, entries[..n], a, id, xs) && EventsOf(env, a[n], entries[n], id, ys, a[n + 1]);
      AlongPrefix(env, entries[..n], a, b, id, xs);
    }
  }

  lemma {:induction false} SomeAlong(env: Env, entries: seq<Entry>, states: seq<Graph>, id: string) returns (evs: seq<EdgeEvent>)
    requires Trail(env, entries, states)
    ensures EventsAlong(env, entries, states, id, evs)
    decreases |entries|
  {
    hide MayTake, EventsOf;
    if entries == [] {
      evs := [];
    } else {
      var n := |entries| - 1;
      TrailInit(env, entries, states);
      var xs := SomeAlong(env, entries[..n], states[..n + 1], id);
      AlongPrefix(env, entries[..n], states[..n + 1], states, id, xs);
      SomeEvents(env, states[n], entries[n], id, states[n + 1]);
      var ys :| EventsOf(env, states[n], entries[n], id, ys, states[n + 1]);
      evs := xs + ys;
    }
  }

  /**
   * Along a checkpoint-free trail each edge is exactly the run of its admitted additions, updates and removes,
   * additions that had to wait at the place where they were taken up.
   */
  lemma {:induction false} EdgeTrailHistory(env: Env, entries: seq<Entry>, states: seq<Graph>, id: string)
    requires Trail(env, entries, states) && NoCheckpoints(entries) && id !in states[0].edges
    ensures exists evs :: EventsAlong(env, entries, states, id, evs)
    ensures forall evs :: EventsAlong(env, entries, states, id, evs) ==> Made(states[|entries|], id, evs)
  {
    hide MayTake, EventsOf, Made, EventsAlong;
    var some := SomeAlong(env, entries, states, id);
    forall evs | EventsAlong(env, entries, states, id, evs) ensures Made(states[|entries|], id, evs) {
      TrailPlays(env, entries, states, id, evs);
      PlayedMade(states[|entries|], id, evs);
    }
  }
}
