/** Checkpoints: the live graph written out as operations with their clocks, and played back one by one. */
module Checkpoints {
  import opened Base
  import opened Clocks
  import opened Ontologies
  import opened Entries
  import opened Graphs
  import opened GraphInvariant

  /** One operation of a checkpoint and the clock it is replayed under. */
  datatype Item = Item(op: GraphOp, clock: Clock)

  /** An entity and the order in which its properties are written out. */
  datatype Visit = Visit(id: string, keys: seq<string>)

  function Ids(vs: seq<Visit>): seq<string> { seq(|vs|, i requires 0 <= i < |vs| => vs[i].id) }

  function Ops(items: seq<Item>): seq<GraphOp> { seq(|items|, i requires 0 <= i < |items| => items[i].op) }

  function ClocksOf(items: seq<Item>): seq<Clock> { seq(|items|, i requires 0 <= i < |items| => items[i].clock) }

  function Tuples(clocks: seq<Clock>): seq<(u64, u32)> {
    seq(|clocks|, i requires 0 <= i < |clocks| => (clocks[i].physical, clocks[i].logical))
  }

  predicate ListsCells(cells: Cells, keys: seq<string>) { NoDup(keys) && ToSet(keys) == cells.Keys }

  predicate VisitsNodes(g: Graph, vs: seq<Visit>) {
    && NoDup(Ids(vs))
    && forall v :: v in vs ==> v.id in AllNodes(g) && v.id in g.nodes && ListsCells(g.nodes[v.id].cells, v.keys)
  }

  predicate VisitsEdges(g: Graph, vs: seq<Visit>) {
    && NoDup(Ids(vs))
    && forall v :: v in vs ==> v.id in AllEdges(g) && v.id in g.edges && ListsCells(g.edges[v.id].cells, v.keys)
  }

  /** An order in which the maps may be walked: every live entity once, each of its properties once. */
  predicate PlanFor(g: Graph, nodes: seq<Visit>, edges: seq<Visit>) {
    && VisitsNodes(g, nodes) && ToSet(Ids(nodes)) == AllNodes(g)
    && VisitsEdges(g, edges) && ToSet(Ids(edges)) == AllEdges(g)
  }

  function NodeHead(id: string, n: Node): Item { Item(AddNode(id, n.nodeType, n.subtype, n.title, map[]), n.lastAdd) }

  function EdgeHead(id: string, e: Edge): Item { Item(AddEdge(id, e.edgeType, e.source, e.target, map[]), e.lastAdd) }

  function PutItem(id: string, k: string, cell: Cell): Item { Item(UpdateProperty(id, k, cell.value), cell.clock) }

  function Puts(id: string, cells: Cells, keys: seq<string>): seq<Item>
    requires ToSet(keys) <= cells.Keys
  {
    if keys == [] then []
    else
      var n := |keys| - 1;
      ToSetInit(keys);
      Puts(id, cells, keys[..n]) + [PutItem(id, keys[n], cells[keys[n]])]
  }

  lemma {:induction false} ToSetInit(keys: seq<string>)
    requires keys != []
    ensures var n := |keys| - 1;
      ToSet(keys) == ToSet(keys[..n]) + {keys[n]} && keys[n] in ToSet(keys)
  {
    assert keys == keys[..|keys| - 1] + [keys[|keys| - 1]];
  }

  lemma {:induction false} VisitsInit(g: Graph, vs: seq<Visit>)
    requires vs != []
    ensures var n := |vs| - 1;
      && Ids(vs) == Ids(vs[..n]) + [vs[n].id] && vs[n] in vs
      && ToSet(Ids(vs)) == ToSet(Ids(vs[..n])) + {vs[n].id}
      && (VisitsNodes(g, vs) ==> VisitsNodes(g, vs[..n]) && vs[n].id !in ToSet(Ids(vs[..n])))
      && (VisitsEdges(g, vs) ==> VisitsEdges(g, vs[..n]) && vs[n].id !in ToSet(Ids(vs[..n])))
  {
    var n := |vs| - 1;
    var a, b := Ids(vs), Ids(vs[..n]);
    assert a == b + [vs[n].id];
    ToSetSnoc(b, vs[n].id);
    if NoDup(a) {
      forall i, j | 0 <= i < j < n ensures b[i] != b[j] { assert a[i] == b[i] && a[j] == b[j]; }
      forall i | 0 <= i < n ensures b[i] != vs[n].id { assert a[i] == b[i] && a[n] == vs[n].id; }
    }
    assert forall v :: v in vs[..n] ==> v in vs;
  }

  function NodeItems(g: Graph, vs: seq<Visit>): seq<Item>
    requires VisitsNodes(g, vs)
  {
    if vs == [] then []
    else
      var v := vs[|vs| - 1];
      VisitsInit(g, vs);
      NodeItems(g, vs[..|vs| - 1]) + ([NodeHead(v.id, g.nodes[v.id])] + Puts(v.id, g.nodes[v.id].cells, v.keys))
  }

  function EdgeItems(g: Graph, vs: seq<Visit>): seq<Item>
    requires VisitsEdges(g, vs)
  {
    if vs == [] then []
    else
      var v := vs[|vs| - 1];
      VisitsInit(g, vs);
      EdgeItems(g, vs[..|vs| - 1]) + ([EdgeHead(v.id, g.edges[v.id])] + Puts(v.id, g.edges[v.id].cells, v.keys))
  }

  /** The ontology, then the live nodes, then the live edges. */
  function CheckpointItems(g: Graph, clock: Clock, nodes: seq<Visit>, edges: seq<Visit>): seq<Item>
    requires PlanFor(g, nodes, edges)
  {
    [Item(DefineOntology(g.ontology), clock)] + (NodeItems(g, nodes) + EdgeItems(g, edges))
  }

  // -- Writing the operations out --------------------------------------------------------------------------------

  lemma {:induction false} OpsAppend(xs: seq<Item>, ys: seq<Item>)
    ensures Ops(xs + ys) == Ops(xs) + Ops(ys) && ClocksOf(xs + ys) == ClocksOf(xs) + ClocksOf(ys)
  {
  }

  lemma {:induction false} OpsOne(it: Item)
    ensures Ops([it]) == [it.op] && ClocksOf([it]) == [it.clock]
  {
  }

  lemma {:induction false} PutsSnoc(id: string, cells: Cells, keys: seq<string>, k: string)
    requires ToSet(keys) <= cells.Keys && k in cells
    ensures ToSet(keys + [k]) <= cells.Keys && Puts(id, cells, keys + [k]) == Puts(id, cells, keys) + [PutItem(id, k, cells[k])]
  {
    ToSetSnoc(keys, k);
    assert (keys + [k])[..|keys|] == keys;
  }

  lemma {:induction false} NodeItemsSnoc(g: Graph, vs: seq<Visit>, v: Visit)
    requires VisitsNodes(g, vs) && v.id in AllNodes(g) && v.id !in ToSet(Ids(vs)) && ListsCells(g.nodes[v.id].cells, v.keys)
    ensures VisitsNodes(g, vs + [v]) && ToSet(Ids(vs + [v])) == ToSet(Ids(vs)) + {v.id}
    ensures NodeItems(g, vs + [v]) == NodeItems(g, vs) + ([NodeHead(v.id, g.nodes[v.id])] + Puts(v.id, g.nodes[v.id].cells, v.keys))
  {
    IdsSnoc(vs, v);
    assert (vs + [v])[..|vs|] == vs;
  }

  lemma {:induction false} EdgeItemsSnoc(g: Graph, vs: seq<Visit>, v: Visit)
    requires VisitsEdges(g, vs) && v.id in AllEdges(g) && v.id !in ToSet(Ids(vs)) && ListsCells(g.edges[v.id].cells, v.keys)
    ensures VisitsEdges(g, vs + [v]) && ToSet(Ids(vs + [v])) == ToSet(Ids(vs)) + {v.id}
    ensures EdgeItems(g, vs + [v]) == EdgeItems(g, vs) + ([EdgeHead(v.id, g.edges[v.id])] + Puts(v.id, g.edges[v.id].cells, v.keys))
  {
    IdsSnoc(vs, v);
    assert (vs + [v])[..|vs|] == vs;
  }

  lemma {:induction false} IdsSnoc(vs: seq<Visit>, v: Visit)
    requires NoDup(Ids(vs)) && v.id !in ToSet(Ids(vs))
    ensures NoDup(Ids(vs + [v])) && ToSet(Ids(vs + [v])) == ToSet(Ids(vs)) + {v.id}
  {
    assert Ids(vs + [v]) == Ids(vs) + [v.id];
    ToSetSnoc(Ids(vs), v.id);
  }

  /** One entity's properties, appended to the two parallel vectors in whatever order the map gives them. */
  method PushPuts(id: string, cells: Cells, ops: seq<GraphOp>, clocks: seq<Clock>)
    returns (ops': seq<GraphOp>, clocks': seq<Clock>, ghost keys: seq<string>)
    ensures ListsCells(cells, keys)
    ensures ops' == ops + Ops(Puts(id, cells, keys)) && clocks' == clocks + ClocksOf(Puts(id, cells, keys))
  {
    ops', clocks', keys := ops, clocks, [];
    var todo := cells.Keys;
    while todo != {}
      invariant todo <= cells.Keys && NoDup(keys) && ToSet(keys) == cells.Keys - todo
      invariant ops' == ops + Ops(Puts(id, cells, keys)) && clocks' == clocks + ClocksOf(Puts(id, cells, keys))
    {
      var k :| k in todo;
      PutsSnoc(id, cells, keys, k);
      OpsAppend(Puts(id, cells, keys), [PutItem(id, k, cells[k])]);
      OpsOne(PutItem(id, k, cells[k]));
      assert k !in ToSet(keys);
      ToSetSnoc(keys, k);
      ops', clocks' := ops' + [UpdateProperty(id, k, cells[k].value)], clocks' + [cells[k].clock];
      keys, todo := keys + [k], todo - {k};
    }
  }

  method PushNodes(g: Graph, ops: seq<GraphOp>, clocks: seq<Clock>)
    returns (ops': seq<GraphOp>, clocks': seq<Clock>, ghost vs: seq<Visit>)
    ensures VisitsNodes(g, vs) && ToSet(Ids(vs)) == AllNodes(g)
    ensures ops' == ops + Ops(NodeItems(g, vs)) && clocks' == clocks + ClocksOf(NodeItems(g, vs))
  {
    hide VisitsNodes, ListsCells, Puts, NodeItems, Ids, Ops, ClocksOf;
    ops', clocks', vs := ops, clocks, [];
    NothingVisited(g);
    var todo := AllNodes(g);
    while todo != {}
      invariant todo <= AllNodes(g) && VisitsNodes(g, vs) && ToSet(Ids(vs)) == AllNodes(g) - todo
      invariant ops' == ops + Ops(NodeItems(g, vs)) && clocks' == clocks + ClocksOf(NodeItems(g, vs))
    {
      var id :| id in todo;
      var n := g.nodes[id];
      ghost var keys;
      ops', clocks' := ops' + [AddNode(id, n.nodeType, n.subtype, n.title, map[])], clocks' + [n.lastAdd];
      ops', clocks', keys := PushPuts(id, n.cells, ops', clocks');
      NodeItemsSnoc(g, vs, Visit(id, keys));
      Pushed(NodeItems(g, vs), NodeHead(id, n), Puts(id, n.cells, keys));
      vs, todo := vs + [Visit(id, keys)], todo - {id};
    }
  }

  method PushEdges(g: Graph, ops: seq<GraphOp>, clocks: seq<Clock>)
    returns (ops': seq<GraphOp>, clocks': seq<Clock>, ghost vs: seq<Visit>)
    ensures VisitsEdges(g, vs) && ToSet(Ids(vs)) == AllEdges(g)
    ensures ops' == ops + Ops(EdgeItems(g, vs)) && clocks' == clocks + ClocksOf(EdgeItems(g, vs))
  {
    hide VisitsEdges, ListsCells, Puts, EdgeItems, Ids, Ops, ClocksOf;
    ops', clocks', vs := ops, clocks, [];
    NothingVisited(g);
    var todo := AllEdges(g);
    while todo != {}
      invariant todo <= AllEdges(g) && VisitsEdges(g, vs) && ToSet(Ids(vs)) == AllEdges(g) - todo
      invariant ops' == ops + Ops(EdgeItems(g, vs)) && clocks' == clocks + ClocksOf(EdgeItems(g, vs))
    {
      var id :| id in todo;
      var e := g.edges[id];
      ghost var keys;
      ops', clocks' := ops' + [AddEdge(id, e.edgeType, e.source, e.target, map[])], clocks' + [e.lastAdd];
      ops', clocks', keys := PushPuts(id, e.cells, ops', clocks');
      EdgeItemsSnoc(g, vs, Visit(id, keys));
      Pushed(EdgeItems(g, vs), EdgeHead(id, e), Puts(id, e.cells, keys));
      vs, todo := vs + [Visit(id, keys)], todo - {id};
    }
  }

  lemma {:induction false} NothingVisited(g: Graph)
    ensures VisitsNodes(g, []) && VisitsEdges(g, []) && ToSet(Ids([])) == {}
    ensures Ops(NodeItems(g, [])) == [] && Ops(EdgeItems(g, [])) == []
    ensures ClocksOf(NodeItems(g, [])) == [] && ClocksOf(EdgeItems(g, [])) == []
  {
  }

  lemma {:induction false} Pushed(xs: seq<Item>, head: Item, ys: seq<Item>)
    ensures Ops(xs + ([head] + ys)) == Ops(xs) + [head.op] + Ops(ys)
    ensures ClocksOf(xs + ([head] + ys)) == ClocksOf(xs) + [head.clock] + ClocksOf(ys)
  {
  }

  /** `build_checkpoint_ops`: operations and clocks come out in step, for some order of walking the maps. */
  method BuildCheckpointOps(g: Graph, clock: Clock)
    returns (ops: seq<GraphOp>, clocks: seq<Clock>, ghost nodes: seq<Visit>, ghost edges: seq<Visit>)
    ensures PlanFor(g, nodes, edges)
    ensures ops == Ops(CheckpointItems(g, clock, nodes, edges)) && clocks == ClocksOf(CheckpointItems(g, clock, nodes, edges))
    ensures |ops| == |clocks|
  {
    hide VisitsNodes, VisitsEdges, AllNodes, AllEdges;
    ops, clocks := [DefineOntology(g.ontology)], [clock];
    ops, clocks, nodes := PushNodes(g, ops, clocks);
    ops, clocks, edges := PushEdges(g, ops, clocks);
    ghost var head := Item(DefineOntology(g.ontology), clock);
    OpsOne(head);
    OpsAppend(NodeItems(g, nodes), EdgeItems(g, edges));
    OpsAppend([head], NodeItems(g, nodes) + EdgeItems(g, edges));
  }

  /** The checkpoint entry: a new root holding the operations and their (physical, logical) pairs. */
  function CheckpointEntry(env: Env, items: seq<Item>, clock: Clock, author: string): Entry {
    NewEntry(env.digest, Checkpoint(Ops(items), Tuples(ClocksOf(items)), clock.physical, clock.logical), [], clock, author)
  }

  // -- Playing items back ------------------------------------------------------------------------------------------

  /** The same instant under another name. */
  function Under(author: string, c: Clock): Clock { Clock(author, c.physical, c.logical) }

  function EntryOf(env: Env, author: string, it: Item): Entry { NewEntry(env.digest, it.op, [], Under(author, it.clock), author) }

  ghost function Play(env: Env, author: string, s: Graph, it: Item): Graph {
    if it.op.DefineOntology? then s else Apply(env, s, EntryOf(env, author, it), SkipRequired, true)
  }

  ghost function PlayAll(env: Env, author: string, s: Graph, items: seq<Item>): Graph {
    if items == [] then s else Play(env, author, PlayAll(env, author, s, items[..|items| - 1]), items[|items| - 1])
  }

  lemma {:induction false} PlaySnoc(env: Env, author: string, s: Graph, xs: seq<Item>, y: Item)
    ensures PlayAll(env, author, s, xs + [y]) == Play(env, author, PlayAll(env, author, s, xs), y)
  {
    assert (xs + [y])[..|xs|] == xs;
  }

  lemma {:induction false} PlayConcat(env: Env, author: string, s: Graph, xs: seq<Item>, ys: seq<Item>)
    ensures PlayAll(env, author, s, xs + ys) == PlayAll(env, author, PlayAll(env, author, s, xs), ys)
  {
    hide Play;
    if ys == [] {
      assert xs + ys == xs;
    } else {
      var n := |ys| - 1;
      PlayConcat(env, author, s, xs, ys[..n]);
      assert xs + ys == (xs + ys[..n]) + [ys[n]];
      PlaySnoc(env, author, s, xs + ys[..n], ys[n]);
    }
  }

  lemma {:induction false} PlayHead(env: Env, author: string, s: Graph, x: Item, ys: seq<Item>)
    ensures PlayAll(env, author, s, [x] + ys) == PlayAll(env, author, Play(env, author, s, x), ys)
  {
    hide Play;
    PlayConcat(env, author, s, [x], ys);
    assert [x][..0] == [];
  }

  lemma {:induction false} PlayOne(env: Env, s: Graph, items: seq<Item>, clock: Clock, author: string, i: nat)
    requires i < |items|
    ensures var cp := CheckpointEntry(env, items, clock, author);
      i < |cp.payload.ops| && ReplayOne(env, s, cp, i, false) == Play(env, author, s, items[i])
  {
    hide Apply;
  }

  /** Replaying a checkpoint entry is playing its items in order. */
  lemma {:induction false} ReplayIsPlay(env: Env, s: Graph, items: seq<Item>, clock: Clock, author: string, i: nat)
    requires i <= |items|
    ensures var cp := CheckpointEntry(env, items, clock, author);
      i <= |cp.payload.ops| && Replay(env, PlayAll(env, author, s, items[..i]), cp, i, false) == PlayAll(env, author, s, items)
    decreases |items| - i
  {
    hide ReplayOne, Play;
    if i == |items| {
      assert items[..i] == items;
    } else {
      PlayOne(env, PlayAll(env, author, s, items[..i]), items, clock, author, i);
      assert items[..i + 1] == items[..i] + [items[i]];
      PlaySnoc(env, author, s, items[..i], items[i]);
      ReplayIsPlay(env, s, items, clock, author, i + 1);
    }
  }

  // -- The effect of each kind of item -----------------------------------------------------------------------------

  predicate Settled(s: Graph) { s.pending == map[] && s.quarantined == map[] }

  lemma {:induction false} PlayAddNode(env: Env, author: string, s: Graph, id: string, n: Node)
    requires s.pending == map[]
    ensures var e := EntryOf(env, author, NodeHead(id, n));
      Play(env, author, s, NodeHead(id, n)) ==
        if ValidNode(env.accepts, s.ontology, n.nodeType, n.subtype, map[], SkipRequired)
        then ApplyAddNode(Release(s, e.hash), id, n.nodeType, n.subtype, n.title, map[], e.clock)
        else Quarantine(s, e.hash, "add_node")
  {
    hide ValidNode, RetryAll, ApplyAddNode;
    var e := EntryOf(env, author, NodeHead(id, n));
    var s1 := ApplyAddNode(Release(s, e.hash), id, n.nodeType, n.subtype, n.title, map[], e.clock);
    AddNodeLeaves(Release(s, e.hash), id, n.nodeType, n.subtype, n.title, map[], e.clock);
    assert ReadyEdges(s1) == {};
    RetryAllNone(env, s1);
  }

  lemma {:induction false} PlayPut(env: Env, author: string, s: Graph, id: string, k: string, cell: Cell)
    ensures var e := EntryOf(env, author, PutItem(id, k, cell));
      Play(env, author, s, PutItem(id, k, cell)) ==
        if ValidUpdate(env, s, id, k, cell.value) then ApplyUpdate(Release(s, e.hash), id, k, cell.value, e.clock)
        else Quarantine(s, e.hash, "update_property")
  {
    hide ValidUpdate, ApplyUpdate;
  }

  lemma {:induction false} PlayAddEdge(env: Env, author: string, s: Graph, id: string, x: Edge)
    ensures var e := EntryOf(env, author, EdgeHead(id, x));
      e.payload.AddEdge? && Play(env, author, s, EdgeHead(id, x)) == AdmitEdge(env, s, e, SkipRequired)
  {
    hide AdmitEdge;
  }
}
