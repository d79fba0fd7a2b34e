/** The materialized graph as a value, and the effect of every log entry on it. */
module Graphs {
  import opened Base
  import opened Clocks
  import opened Ontologies
  import opened Entries
  import opened Paths

  /** A property value with the clock of the write that set it. */
  datatype Cell = Cell(value: Value, clock: Clock)

  type Cells = map<string, Cell>

  datatype Node = Node(nodeType: string, subtype: Option<string>, title: string, cells: Cells,
                       lastClock: Clock, lastAdd: Clock, dead: bool)

  datatype Edge = Edge(edgeType: string, source: string, target: string, cells: Cells,
                       lastClock: Clock, lastAdd: Clock, dead: bool)

  /** Why an entry is held back: the kind of operation, and the ontology it was judged against. */
  datatype Record = Record(kind: string, ontology: Ontology)

  datatype Graph = Graph(
    nodes: map<string, Node>,
    edges: map<string, Edge>,
    outgoing: map<string, set<string>>,
    incoming: map<string, set<string>>,
    byType: map<string, set<string>>,
    ontology: Ontology,
    quarantined: map<Hash, Record>,
    pending: map<Hash, Entry>)

  /** The surroundings of materialization: the hash function and the per-value check. */
  datatype Env = Env(digest: Digest, accepts: Acceptance)

  function EmptyGraph(o: Ontology): Graph { Graph(map[], map[], map[], map[], map[], o, map[], map[]) }

  // -- Last writer wins --------------------------------------------------------------------------------------

  predicate Dominates(c: Clock, cells: Cells, k: string) { k !in cells || Wins(c, cells[k].clock) }

  function MergeCells(cells: Cells, props: Props, c: Clock): Cells {
    map k | k in cells.Keys + props.Keys ::
      if k in props && Dominates(c, cells, k) then Cell(props[k], c) else cells[k]
  }

  /** The per-key loop, in whatever order the keys come. */
  method MergePropertiesLww(cells: Cells, props: Props, c: Clock) returns (r: Cells)
    ensures r == MergeCells(cells, props, c)
  {
    r := cells;
    var todo := props.Keys;
    while todo != {}
      invariant todo <= props.Keys && r.Keys == cells.Keys + (props.Keys - todo)
      invariant forall k :: k in r ==>
        r[k] == if k in props && k !in todo && Dominates(c, cells, k) then Cell(props[k], c) else cells[k]
    {
      var k :| k in todo;
      assert k !in cells ==> k !in r;
      if k !in r || Wins(c, r[k].clock) { r := r[k := Cell(props[k], c)]; }
      todo := todo - {k};
    }
  }

  function SetCell(cells: Cells, k: string, v: Value, c: Clock): Cells {
    if Dominates(c, cells, k) then cells[k := Cell(v, c)] else cells
  }

  // -- Single entities ---------------------------------------------------------------------------------------

  /** Every property of a first add enters under that add's clock. */
  function NewNode(t: string, st: Option<string>, title: string, props: Props, c: Clock): Node {
    Node(t, st, title, MergeCells(map[], props, c), c, c, false)
  }

  /** Adding a node that exists: always alive again; label and subtype follow the entity clock. */
  function AddAgain(n: Node, st: Option<string>, title: string, props: Props, c: Clock): Node {
    var newer := Wins(c, n.lastClock);
    Node(n.nodeType, if newer then st else n.subtype, if newer then title else n.title,
         MergeCells(n.cells, props, c), Later(n.lastClock, c), Later(n.lastAdd, c), false)
  }

  function SetNodeProperty(n: Node, k: string, v: Value, c: Clock): Node {
    n.(cells := SetCell(n.cells, k, v, c), lastClock := Later(n.lastClock, c))
  }

  /** A remove takes effect only when it is strictly later than the latest add. */
  function RemovedNode(n: Node, c: Clock): Node {
    if Wins(c, n.lastAdd) then n.(dead := true, lastClock := c) else n
  }

  function NewEdge(t: string, s: string, d: string, props: Props, c: Clock): Edge {
    Edge(t, s, d, MergeCells(map[], props, c), c, c, false)
  }

  function AddEdgeAgain(e: Edge, props: Props, c: Clock): Edge {
    Edge(e.edgeType, e.source, e.target, MergeCells(e.cells, props, c), Later(e.lastClock, c), Later(e.lastAdd, c), false)
  }

  function SetEdgeProperty(e: Edge, k: string, v: Value, c: Clock): Edge {
    e.(cells := SetCell(e.cells, k, v, c), lastClock := Later(e.lastClock, c))
  }

  function RemovedEdge(e: Edge, c: Clock): Edge {
    if Wins(c, e.lastAdd) then e.(dead := true, lastClock := c) else e
  }

  // -- The graph ---------------------------------------------------------------------------------------------

  function Index(m: map<string, set<string>>, k: string, x: string): map<string, set<string>> { m[k := Succ(m, k) + {x}] }

  function ApplyAddNode(g: Graph, id: string, t: string, st: Option<string>, title: string, props: Props, c: Clock): Graph {
    if id in g.nodes then g.(nodes := g.nodes[id := AddAgain(g.nodes[id], st, title, props, c)])
    else g.(nodes := g.nodes[id := NewNode(t, st, title, props, c)], byType := Index(g.byType, t, id))
  }

  function ApplyAddEdge(g: Graph, id: string, t: string, s: string, d: string, props: Props, c: Clock): Graph {
    if id in g.edges then g.(edges := g.edges[id := AddEdgeAgain(g.edges[id], props, c)])
    else g.(edges := g.edges[id := NewEdge(t, s, d, props, c)],
            outgoing := Index(g.outgoing, s, id), incoming := Index(g.incoming, d, id))
  }

  /** Nodes are tried before edges; an unknown entity is ignored. */
  function ApplyUpdate(g: Graph, id: string, k: string, v: Value, c: Clock): Graph {
    if id in g.nodes then g.(nodes := g.nodes[id := SetNodeProperty(g.nodes[id], k, v, c)])
    else if id in g.edges then g.(edges := g.edges[id := SetEdgeProperty(g.edges[id], k, v, c)])
    else g
  }

  function ApplyRemoveNode(g: Graph, id: string, c: Clock): Graph {
    if id in g.nodes then g.(nodes := g.nodes[id := RemovedNode(g.nodes[id], c)]) else g
  }

  function ApplyRemoveEdge(g: Graph, id: string, c: Clock): Graph {
    if id in g.edges then g.(edges := g.edges[id := RemovedEdge(g.edges[id], c)]) else g
  }

  function Quarantine(g: Graph, h: Hash, kind: string): Graph {
    g.(quarantined := g.quarantined[h := Record(kind, g.ontology)])
  }

  function Release(g: Graph, h: Hash): Graph { g.(quarantined := g.quarantined - {h}) }

  /** Both endpoints of an edge entry are materialized. */
  predicate EndpointsPresent(g: Graph, e: Entry)
    requires e.payload.AddEdge?
  {
    e.payload.source in g.nodes && e.payload.target in g.nodes
  }

  /** An edge is admitted, quarantined on its merits, or held until its endpoints arrive. */
  function AdmitEdge(env: Env, g: Graph, e: Entry, mode: Mode): Graph
    requires e.payload.AddEdge?
  {
    var op := e.payload;
    if op.edgeType !in g.ontology.edgeTypes then Quarantine(g, e.hash, "add_edge")
    else if !EndpointsPresent(g, e) then
      Quarantine(g.(pending := g.pending[e.hash := e]), e.hash, "add_edge")
    else if !ValidEdge(env.accepts, g.ontology, op.edgeType, g.nodes[op.source].nodeType, g.nodes[op.target].nodeType,
                       op.props, mode) then
      Quarantine(g, e.hash, "add_edge")
    else
      ApplyAddEdge(Release(g, e.hash), op.edgeId, op.edgeType, op.source, op.target, op.props, e.clock)
  }

  /** The pending edges whose endpoints have both arrived. */
  function ReadyEdges(g: Graph): set<Hash> {
    set h | h in g.pending && g.pending[h].payload.AddEdge? && EndpointsPresent(g, g.pending[h])
  }

  /** One held edge is taken up again. */
  function RetryEdge(env: Env, g: Graph, h: Hash): Graph
    requires h in g.pending && g.pending[h].payload.AddEdge?
  {
    AdmitEdge(env, g.(pending := g.pending - {h}), g.pending[h], Full)
  }

  predicate Held(g: Graph, ready: set<Hash>) {
    forall h :: h in ready ==> h in g.pending && g.pending[h].payload.AddEdge? && EndpointsPresent(g, g.pending[h])
  }

  lemma {:induction false} AddNodeLeaves(g: Graph, id: string, t: string, st: Option<string>, title: string, props: Props, c: Clock)
    ensures ApplyAddNode(g, id, t, st, title, props, c).pending == g.pending
  {
    hide AddAgain, NewNode;
  }

  lemma {:induction false} AddEdgeLeaves(g: Graph, id: string, t: string, s: string, d: string, props: Props, c: Clock)
    ensures var g' := ApplyAddEdge(g, id, t, s, d, props, c);
      g'.nodes == g.nodes && g'.pending == g.pending && g'.quarantined == g.quarantined && g'.ontology == g.ontology
  {
    hide NewEdge, AddEdgeAgain, Index;
  }

  lemma {:induction false} RetryKeepsHeld(env: Env, g: Graph, ready: set<Hash>, h: Hash)
    requires Held(g, ready) && h in ready
    ensures Held(RetryEdge(env, g, h), ready - {h})
    ensures RetryEdge(env, g, h).nodes == g.nodes && RetryEdge(env, g, h).ontology == g.ontology
    ensures RetryEdge(env, g, h).pending == g.pending - {h}
  {
    hide ValidEdge, ApplyAddEdge;
    var e, g1 := g.pending[h], g.(pending := g.pending - {h});
    var op := e.payload;
    AddEdgeLeaves(Release(g1, e.hash), op.edgeId, op.edgeType, op.source, op.target, op.props, e.clock);
  }

  /** All of `ready`, in some order. */
  ghost function RetryAll(env: Env, g: Graph, ready: set<Hash>): Graph
    requires Held(g, ready)
    decreases ready
  {
    if ready == {} then g
    else
      var h := Pick(ready);
      RetryKeepsHeld(env, g, ready, h);
      RetryAll(env, RetryEdge(env, g, h), ready - {h})
  }

  ghost function RetryPending(env: Env, g: Graph): Graph { RetryAll(env, g, ReadyEdges(g)) }

  predicate ValidUpdate(env: Env, g: Graph, id: string, k: string, v: Value) {
    if id in g.nodes then ValidNodeUpdate(env.accepts, g.ontology, g.nodes[id].nodeType, g.nodes[id].subtype, k, v)
    else if id in g.edges then ValidEdgeUpdate(env.accepts, g.ontology, g.edges[id].edgeType, k, v)
    else true
  }

  /** The clock of a checkpoint's `i`-th operation: its own tuple under the checkpoint author's name. */
  function OpClock(cp: Entry, i: nat): Clock
    requires cp.payload.Checkpoint?
  {
    if i < |cp.payload.opClocks| then Clock(cp.author, cp.payload.opClocks[i].0, cp.payload.opClocks[i].1) else cp.clock
  }

  /** The effect of one entry. */
  ghost function Apply(env: Env, g: Graph, e: Entry, mode: Mode, adopt: bool): Graph
    decreases e.payload, 1, 0
  {
    match e.payload
    case Checkpoint(ops, _, _, _) => Release(Replay(env, g, e, 0, adopt), e.hash)
    case DefineOntology(_) => g
    case ExtendOntology(x) =>
      var (o, ok) := MergeExtension(g.ontology, x);
      var g' := g.(ontology := o);
      if ok then Release(g', e.hash) else Quarantine(g', e.hash, "extend_ontology")
    case AddNode(id, t, st, title, props) =>
      if !ValidNode(env.accepts, g.ontology, t, st, props, mode) then Quarantine(g, e.hash, "add_node")
      else RetryPending(env, ApplyAddNode(Release(g, e.hash), id, t, st, title, props, e.clock))
    case AddEdge(_, _, _, _, _) => AdmitEdge(env, g, e, mode)
    case UpdateProperty(id, k, v) =>
      if !ValidUpdate(env, g, id, k, v) then Quarantine(g, e.hash, "update_property")
      else ApplyUpdate(Release(g, e.hash), id, k, v, e.clock)
    case RemoveNode(id) => ApplyRemoveNode(Release(g, e.hash), id, e.clock)
    case RemoveEdge(id) => ApplyRemoveEdge(Release(g, e.hash), id, e.clock)
    case DefineLens(_) => g
  }

  /** The synthetic entry standing for a checkpoint's `i`-th operation. */
  function Synthetic(env: Env, cp: Entry, i: nat): Entry
    requires cp.payload.Checkpoint? && i < |cp.payload.ops|
  {
    NewEntry(env.digest, cp.payload.ops[i], [], OpClock(cp, i), cp.author)
  }

  /** A checkpoint's operations from the `i`-th on. */
  ghost function Replay(env: Env, g: Graph, cp: Entry, i: nat, adopt: bool): Graph
    requires cp.payload.Checkpoint? && i <= |cp.payload.ops|
    decreases cp.payload, 0, |cp.payload.ops| - i
  {
    if i == |cp.payload.ops| then g
    else Replay(env, ReplayOne(env, g, cp, i, adopt), cp, i + 1, adopt)
  }

  ghost function ReplayOne(env: Env, g: Graph, cp: Entry, i: nat, adopt: bool): Graph
    requires cp.payload.Checkpoint? && i < |cp.payload.ops|
    decreases cp.payload, 0, 0
  {
    if cp.payload.ops[i].DefineOntology? then (if adopt then g.(ontology := cp.payload.ops[i].ontology) else g)
    else Apply(env, g, Synthetic(env, cp, i), SkipRequired, true)
  }

  // -- Rebuilding ----------------------------------------------------------------------------------------------

  /** The last ontology a checkpoint's operations define, if any. */
  function LastDefined(ops: seq<GraphOp>, o: Ontology): Ontology {
    if ops == [] then o
    else if ops[|ops| - 1].DefineOntology? then ops[|ops| - 1].ontology
    else LastDefined(ops[..|ops| - 1], o)
  }

  /** First pass over one entry: only the ontology moves. */
  function Fold(g: Graph, e: Entry): Graph {
    match e.payload
    case ExtendOntology(x) =>
      var (o, ok) := MergeExtension(g.ontology, x);
      if ok then g.(ontology := o) else Quarantine(g.(ontology := o), e.hash, "extend_ontology")
    case Checkpoint(ops, _, _, _) => g.(ontology := LastDefined(ops, g.ontology))
    case _ => g
  }

  function FoldAll(g: Graph, entries: seq<Entry>): Graph {
    if entries == [] then g else Fold(FoldAll(g, entries[..|entries| - 1]), entries[|entries| - 1])
  }

  /** Second pass over one entry: everything but extensions, judged by the final ontology. */
  ghost function Materialize(env: Env, g: Graph, e: Entry): Graph {
    if e.payload.ExtendOntology? then g else Apply(env, g, e, Full, false)
  }

  ghost function MaterializeAll(env: Env, g: Graph, entries: seq<Entry>): Graph {
    if entries == [] then g else Materialize(env, MaterializeAll(env, g, entries[..|entries| - 1]), entries[|entries| - 1])
  }

  /** The graph of a log: a function of the base ontology and the entries in order. */
  ghost function Rebuilt(env: Env, base: Ontology, entries: seq<Entry>): Graph {
    MaterializeAll(env, FoldAll(EmptyGraph(base), entries), entries)
  }

  // -- Queries -------------------------------------------------------------------------------------------------

  predicate IsLive(g: Graph, id: string) { id in g.nodes && !g.nodes[id].dead }

  predicate IsLiveEdge(g: Graph, id: string) { id in g.edges && !g.edges[id].dead }

  function AllNodes(g: Graph): set<string> { set id | id in g.nodes && !g.nodes[id].dead }

  function AllEdges(g: Graph): set<string> {
    set id | id in g.edges && !g.edges[id].dead && IsLive(g, g.edges[id].source) && IsLive(g, g.edges[id].target)
  }

  /** Through the outgoing index; only the far endpoint is checked. */
  function OutgoingEdges(g: Graph, n: string): set<string> {
    set id | id in Succ(g.outgoing, n) && IsLiveEdge(g, id) && IsLive(g, g.edges[id].target)
  }

  function IncomingEdges(g: Graph, n: string): set<string> {
    set id | id in Succ(g.incoming, n) && IsLiveEdge(g, id) && IsLive(g, g.edges[id].source)
  }

  /** Through the type index, for the type itself and each of its descendants. */
  function NodesByType(g: Graph, t: string): set<string> {
    set u, id | u in {t} + Descendants(g.ontology, t) && id in Succ(g.byType, u) && IsLive(g, id) :: id
  }
}
