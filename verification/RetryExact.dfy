/** Taking up held edges once: exactly when the order in which they are taken up cannot show. */
module RetryExact {
  import opened Base
  import opened Clocks
  import opened Ontologies
  import opened Entries
  import opened Paths
  import opened Graphs
  import opened GraphInvariant
  import opened RetryOrder
  import opened Outcomes

  // -- Many additions to one topology ------------------------------------------------------------------------------------

  function AttachAll(t: Topology, ops: seq<EdgeOp>): Topology {
    if ops == [] then t else Attach(AttachAll(t, ops[..|ops| - 1]), ops[|ops| - 1])
  }

  function Find(edges: map<string, Edge>, id: string): Option<Edge> { if id in edges then Some(edges[id]) else None }

  /** One more addition, as edge `id` sees it. */
  function Touch(id: string, e: Option<Edge>, a: EdgeOp): Option<Edge> {
    if a.id != id then e
    else match e
      case None => Some(NewEdge(a.edgeType, a.source, a.target, a.props, a.clock))
      case Some(x) => Some(AddEdgeAgain(x, a.props, a.clock))
  }

  function TouchAll(id: string, e: Option<Edge>, ops: seq<EdgeOp>): Option<Edge> {
    if ops == [] then e else Touch(id, TouchAll(id, e, ops[..|ops| - 1]), ops[|ops| - 1])
  }

  lemma {:induction false} AttachAllEdges(t: Topology, ops: seq<EdgeOp>, id: string)
    ensures Find(AttachAll(t, ops).edges, id) == TouchAll(id, Find(t.edges, id), ops)
  {
    hide AddEdgeAgain, NewEdge, Index;
    if ops != [] { AttachAllEdges(t, ops[..|ops| - 1], id); }
  }

  predicate NewAt(was: map<string, string>, now: map<string, string>, x: string, k: string) { x in now && x !in was && now[x] == k }

  ghost predicate SomeNewAt(was: map<string, string>, now: map<string, string>, k: string) { exists x :: NewAt(was, now, x, k) }

  type Lists = map<string, set<string>>

  /** `m'` is `m` with exactly the owners new in `now` entered. */
  ghost predicate Grown(m: Lists, m': Lists, was: map<string, string>, now: map<string, string>) {
    && was.Keys <= now.Keys
    && (forall k, x :: x in Succ(m', k) <==> x in Succ(m, k) || NewAt(was, now, x, k))
    && (forall k :: k in m' <==> k in m || SomeNewAt(was, now, k))
  }

  lemma {:induction false} NewMore(was: map<string, string>, now: map<string, string>, k: string, x: string)
    requires was.Keys <= now.Keys && x !in now
    ensures forall y, j :: NewAt(was, now[x := k], y, j) <==> NewAt(was, now, y, j) || (y == x && j == k)
    ensures forall j :: SomeNewAt(was, now[x := k], j) <==> SomeNewAt(was, now, j) || j == k
  {
    var now' := now[x := k];
    assert x !in was.Keys;
    forall j ensures SomeNewAt(was, now', j) <==> SomeNewAt(was, now, j) || j == k {
      if SomeNewAt(was, now, j) {
        var y :| NewAt(was, now, y, j);
        assert NewAt(was, now', y, j);
      }
      if SomeNewAt(was, now', j) {
        var y :| NewAt(was, now', y, j);
        assert y == x || NewAt(was, now, y, j);
      }
      assert NewAt(was, now', x, k);
    }
  }

  lemma {:induction false} IndexMore(m: Lists, k: string, x: string)
    ensures forall j, y :: y in Succ(Index(m, k, x), j) <==> y in Succ(m, j) || (j == k && y == x)
    ensures forall j :: j in Index(m, k, x) <==> j in m || j == k
  {
  }

  lemma {:induction false} GrownMore(m: Lists, m': Lists, was: map<string, string>, now: map<string, string>, k: string, x: string)
    requires Grown(m, m', was, now) && x !in now
    ensures Grown(m, Index(m', k, x), was, now[x := k])
  {
    hide NewAt, SomeNewAt, Index, Succ;
    NewMore(was, now, k, x);
    IndexMore(m', k, x);
  }

  lemma {:induction false} GrownOnce(m: Lists, a: Lists, b: Lists, was: map<string, string>, now: map<string, string>)
    requires Grown(m, a, was, now) && Grown(m, b, was, now)
    ensures a == b
  {
    hide NewAt, SomeNewAt, Succ;
    forall k | k in a ensures k in b && a[k] == b[k] {
      assert forall x :: x in Succ(a, k) <==> x in Succ(b, k);
      SuccAt(a, k);
      SuccAt(b, k);
      assert Succ(a, k) == Succ(b, k);
    }
    MapsAgree(a, b);
  }

  lemma {:induction false} SuccAt(m: Lists, k: string)
    ensures k in m ==> Succ(m, k) == m[k]
  {
  }

  /** The indexes gained exactly the new edges. */
  ghost predicate Indexed(t: Topology, u: Topology) {
    && Grown(t.outgoing, u.outgoing, Sources(t.edges), Sources(u.edges))
    && Grown(t.incoming, u.incoming, Targets(t.edges), Targets(u.edges))
  }

  lemma {:induction false} AttachEnds(u: Topology, a: EdgeOp)
    ensures var v := Attach(u, a);
      && (a.id in u.edges ==> Sources(v.edges) == Sources(u.edges) && Targets(v.edges) == Targets(u.edges))
      && (a.id !in u.edges ==> Sources(v.edges) == Sources(u.edges)[a.id := a.source] && Targets(v.edges) == Targets(u.edges)[a.id := a.target])
  {
    hide MergeCells, Index;
    var v := Attach(u, a);
    if a.id in u.edges {
      MapsAgree(Sources(v.edges), Sources(u.edges));
      MapsAgree(Targets(v.edges), Targets(u.edges));
    } else {
      MapsAgree(Sources(v.edges), Sources(u.edges)[a.id := a.source]);
      MapsAgree(Targets(v.edges), Targets(u.edges)[a.id := a.target]);
    }
  }

  lemma {:induction false} AttachAllIndexed(t: Topology, ops: seq<EdgeOp>)
    ensures Indexed(t, AttachAll(t, ops))
  {
    hide Grown, AddEdgeAgain, NewEdge, Index;
    if ops == [] {
      GrownSelf(t.outgoing, Sources(t.edges));
      GrownSelf(t.incoming, Targets(t.edges));
    } else {
      var u, a := AttachAll(t, ops[..|ops| - 1]), ops[|ops| - 1];
      AttachAllIndexed(t, ops[..|ops| - 1]);
      AttachEnds(u, a);
      if a.id !in u.edges {
        GrownMore(t.outgoing, u.outgoing, Sources(t.edges), Sources(u.edges), a.source, a.id);
        GrownMore(t.incoming, u.incoming, Targets(t.edges), Targets(u.edges), a.target, a.id);
      }
    }
  }

  lemma {:induction false} GrownSelf(m: map<string, set<string>>, owner: map<string, string>)
    ensures Grown(m, m, owner, owner)
  {
  }

  /** So equal edges mean equal topologies. */
  lemma {:induction false} EdgesDecide(t: Topology, u: Topology, v: Topology)
    requires Indexed(t, u) && Indexed(t, v) && u.edges == v.edges
    ensures u == v
  {
    hide Grown;
    GrownOnce(t.outgoing, u.outgoing, v.outgoing, Sources(t.edges), Sources(u.edges));
    GrownOnce(t.incoming, u.incoming, v.incoming, Targets(t.edges), Targets(u.edges));
  }

  // -- What becomes of one edge --------------------------------------------------------------------------------------------

  datatype Shape = Shape(edgeType: string, source: string, target: string)

  function ShapeOf(e: Edge): Shape { Shape(e.edgeType, e.source, e.target) }

  function OpShape(a: EdgeOp): Shape { Shape(a.edgeType, a.source, a.target) }

  /** The additions of edge `id`. */
  function On(ops: set<EdgeOp>, id: string): set<EdgeOp> { set a | a in ops && a.id == id }

  /** `c` is the greatest of `base`, if any, and the clocks of the additions. */
  ghost predicate Topmost(c: Clock, base: Option<Clock>, ops: set<EdgeOp>) {
    && (base == Some(c) || exists a :: a in ops && a.clock == c)
    && (base.Some? ==> !Wins(base.value, c)) && forall a :: a in ops ==> !Wins(a.clock, c)
  }

  /** What key `k` holds: the present cell unless a writer beats it, else what a greatest writer says. */
  ghost predicate Kept(cell: Cell, base: Option<Cell>, writers: set<EdgeOp>, k: string) {
    && (forall a :: a in writers ==> !Wins(a.clock, cell.clock))
    && (base == Some(cell)
        || exists a :: a in writers && k in a.props && cell == Cell(a.props[k], a.clock) && (base.Some? ==> Wins(a.clock, base.value.clock)))
  }

  function CellAt(cells: Cells, k: string): Option<Cell> { if k in cells then Some(cells[k]) else None }

  function Present(e: Option<Edge>, k: string): Option<Cell> { if e.Some? then CellAt(e.value.cells, k) else None }

  function LastClockOf(e: Option<Edge>): Option<Clock> { if e.Some? then Some(e.value.lastClock) else None }

  function LastAddOf(e: Option<Edge>): Option<Clock> { if e.Some? then Some(e.value.lastAdd) else None }

  /** `x` is `e` after the additions `ops`, all of them of this edge and at least one, in some order. */
  ghost predicate Result(e: Option<Edge>, ops: set<EdgeOp>, x: Edge) {
    && (if e.Some? then ShapeOf(x) == ShapeOf(e.value) else exists a :: a in ops && ShapeOf(x) == OpShape(a))
    && !x.dead && Topmost(x.lastClock, LastClockOf(e), ops) && Topmost(x.lastAdd, LastAddOf(e), ops)
    && CellsResult(e, ops, x.cells)
  }

  lemma {:induction false} TopmostNext(c: Clock, base: Option<Clock>, ops: set<EdgeOp>, a: EdgeOp)
    requires Topmost(c, base, ops)
    ensures Topmost(Later(c, a.clock), base, ops + {a})
  {
    hide Wins;
    forall d: Clock | !Wins(d, c) ensures !Wins(d, Later(c, a.clock)) {
      if Wins(a.clock, c) && Wins(d, a.clock) { WinsTrans(d, a.clock, c); }
    }
    WinsTotal(c, a.clock);
    WinsTotal(a.clock, a.clock);
    LaterChooses(c, a.clock);
  }

  lemma {:induction false} LaterChooses(a: Clock, b: Clock)
    ensures Later(a, b) == if Wins(b, a) then b else a
  {
  }

  /** The cell of key `k` after one more addition. */
  lemma {:induction false} KeptNext(cells: Cells, base: Option<Cell>, writers: set<EdgeOp>, k: string, a: EdgeOp)
    requires k in cells ==> Kept(cells[k], base, writers, k)
    requires k !in cells ==> base == None && writers == {}
    ensures var after := MergeCells(cells, a.props, a.clock);
      && (k in after <==> k in cells || k in a.props)
      && (k in after ==> Kept(after[k], base, if k in a.props then writers + {a} else writers, k))
  {
    hide Wins;
    WinsTotal(a.clock, a.clock);
    if k in a.props && k in cells {
      if Wins(a.clock, cells[k].clock) {
        forall b | b in writers ensures !Wins(b.clock, a.clock) {
          if Wins(b.clock, a.clock) { WinsTrans(b.clock, a.clock, cells[k].clock); }
        }
        if base.Some? && base != Some(cells[k]) { WinsTrans(a.clock, cells[k].clock, base.value.clock); }
        assert a in writers + {a};
      } else {
        KeptGrows(cells[k], base, writers, k, a);
      }
    } else if k in a.props {
      assert a in writers + {a};
    }
  }

  lemma {:induction false} KeptGrows(cell: Cell, base: Option<Cell>, writers: set<EdgeOp>, k: string, a: EdgeOp)
    requires Kept(cell, base, writers, k) && !Wins(a.clock, cell.clock)
    ensures Kept(cell, base, writers + {a}, k)
  {
    hide Wins;
    if base != Some(cell) {
      var b :| b in writers && k in b.props && cell == Cell(b.props[k], b.clock) && (base.Some? ==> Wins(b.clock, base.value.clock));
      assert b in writers + {a};
    }
  }

  function Writing(ops: set<EdgeOp>, k: string): set<EdgeOp> { set a | a in ops && k in a.props }

  ghost predicate CellsResult(e: Option<Edge>, ops: set<EdgeOp>, cells: Cells) {
    && (forall k :: k in cells <==> Present(e, k).Some? || Writing(ops, k) != {})
    && (forall k :: k in cells ==> Kept(cells[k], Present(e, k), Writing(ops, k), k))
  }

  lemma {:induction false} CellsNext(e: Option<Edge>, ops: set<EdgeOp>, cells: Cells, a: EdgeOp)
    requires CellsResult(e, ops, cells)
    ensures CellsResult(e, ops + {a}, MergeCells(cells, a.props, a.clock))
  {
    hide Kept, Present, MergeCells;
    var after := MergeCells(cells, a.props, a.clock);
    forall k ensures k in after <==> Present(e, k).Some? || Writing(ops + {a}, k) != {}
             ensures k in after ==> Kept(after[k], Present(e, k), Writing(ops + {a}, k), k) {
      assert Writing(ops + {a}, k) == if k in a.props then Writing(ops, k) + {a} else Writing(ops, k);
      KeptNext(cells, Present(e, k), Writing(ops, k), k, a);
    }
  }

  lemma {:induction false} CellsStart(e: Option<Edge>)
    ensures CellsResult(e, {}, if e.Some? then e.value.cells else map[])
  {
  }

  lemma {:induction false} TopmostStart(c: Clock)
    ensures Topmost(c, Some(c), {}) && forall a: EdgeOp :: Topmost(a.clock, None, {a})
  {
    hide Wins;
    WinsTotal(c, c);
    forall a: EdgeOp ensures Topmost(a.clock, None, {a}) { WinsTotal(a.clock, a.clock); }
  }

  lemma {:induction false} ResultNext(e: Option<Edge>, ops: set<EdgeOp>, x: Edge, a: EdgeOp)
    requires Result(e, ops, x)
    ensures Result(e, ops + {a}, AddEdgeAgain(x, a.props, a.clock))
  {
    hide Topmost, CellsResult, MergeCells, Later;
    TopmostNext(x.lastClock, LastClockOf(e), ops, a);
    TopmostNext(x.lastAdd, LastAddOf(e), ops, a);
    CellsNext(e, ops, x.cells, a);
    if e.None? {
      var b :| b in ops && ShapeOf(x) == OpShape(b);
      assert b in ops + {a};
    }
  }

  lemma {:induction false} ResultFirst(id: string, e: Option<Edge>, a: EdgeOp)
    requires a.id == id
    ensures var r := Touch(id, e, a); r.Some? && Result(e, {a}, r.value)
  {
    hide Topmost, CellsResult, MergeCells, Later;
    CellsStart(e);
    TopmostStart(a.clock);
    assert {} + {a} == {a} && a in {a};
    CellsNext(e, {}, if e.Some? then e.value.cells else map[], a);
    if e.Some? {
      TopmostStart(e.value.lastClock);
      TopmostStart(e.value.lastAdd);
      TopmostNext(e.value.lastClock, LastClockOf(e), {}, a);
      TopmostNext(e.value.lastAdd, LastAddOf(e), {}, a);
    }
  }

  /** Whatever the order, the edge is a result of its additions. */
  lemma {:induction false} TouchResult(id: string, e: Option<Edge>, ops: seq<EdgeOp>)
    ensures var mine := On(ToSet(ops), id);
      && (mine == {} ==> TouchAll(id, e, ops) == e)
      && (mine != {} ==> TouchAll(id, e, ops).Some? && Result(e, mine, TouchAll(id, e, ops).value))
  {
    hide Result, AddEdgeAgain, NewEdge;
    if ops != [] {
      var init, a := ops[..|ops| - 1], ops[|ops| - 1];
      TouchResult(id, e, init);
      assert ops == init + [a];
      ToSetSnoc(init, a);
      OnMore(ToSet(init), a, id);
      var mine, x := On(ToSet(init), id), TouchAll(id, e, init);
      if a.id == id {
        if mine == {} {
          ResultFirst(id, e, a);
          assert mine + {a} == {a};
        } else {
          ResultNext(e, mine, x.value, a);
        }
      }
    }
  }

  lemma {:induction false} OnMore(ops: set<EdgeOp>, a: EdgeOp, id: string)
    ensures On(ops + {a}, id) == if a.id == id then On(ops, id) + {a} else On(ops, id)
  {
  }

  // -- When additions of one edge agree ------------------------------------------------------------------------------------

  /** `a` writes `k` with a greatest clock among the additions, one that beats what is there. */
  ghost predicate Decides(e: Option<Edge>, ops: set<EdgeOp>, a: EdgeOp, k: string) {
    && a in ops && k in a.props && (forall b :: b in Writing(ops, k) ==> !Wins(b.clock, a.clock))
    && (Present(e, k).Some? ==> Wins(a.clock, Present(e, k).value.clock))
  }

  ghost predicate SameShape(e: Option<Edge>, ops: set<EdgeOp>) {
    e.Some? || forall a, b :: a in ops && b in ops ==> OpShape(a) == OpShape(b)
  }

  ghost predicate SameValues(e: Option<Edge>, ops: set<EdgeOp>) {
    forall a, b, k :: Decides(e, ops, a, k) && Decides(e, ops, b, k) ==> a.props[k] == b.props[k]
  }

  lemma {:induction false} TopmostUnique(c: Clock, d: Clock, base: Option<Clock>, ops: set<EdgeOp>)
    requires Topmost(c, base, ops) && Topmost(d, base, ops)
    ensures c == d
  {
    hide Wins;
    WinsTotal(c, d);
    WinsTotal(d, c);
  }

  lemma {:induction false} KeptDecides(cell: Cell, e: Option<Edge>, ops: set<EdgeOp>, k: string)
    requires Kept(cell, Present(e, k), Writing(ops, k), k) && Present(e, k) != Some(cell)
    ensures exists a :: Decides(e, ops, a, k) && cell == Cell(a.props[k], a.clock)
  {
    hide Wins, Present;
    var a :| a in Writing(ops, k) && k in a.props && cell == Cell(a.props[k], a.clock)
      && (Present(e, k).Some? ==> Wins(a.clock, Present(e, k).value.clock));
    assert Decides(e, ops, a, k);
  }

  lemma {:induction false} KeptUnique(c: Cell, d: Cell, e: Option<Edge>, ops: set<EdgeOp>, k: string)
    requires Kept(c, Present(e, k), Writing(ops, k), k) && Kept(d, Present(e, k), Writing(ops, k), k) && SameValues(e, ops)
    ensures c == d
  {
    hide Wins, Present, Kept;
    if Present(e, k) != Some(c) {
      KeptDecides(c, e, ops, k);
      var a :| Decides(e, ops, a, k) && c == Cell(a.props[k], a.clock);
      assert a in Writing(ops, k);
      if Present(e, k) != Some(d) {
        KeptDecides(d, e, ops, k);
        var b :| Decides(e, ops, b, k) && d == Cell(b.props[k], b.clock);
        assert b in Writing(ops, k);
        WinsTotal(a.clock, b.clock);
      } else {
        KeptUnbeaten(d, Present(e, k), Writing(ops, k), k, a);
      }
    } else if Present(e, k) != Some(d) {
      KeptDecides(d, e, ops, k);
      var b :| Decides(e, ops, b, k) && d == Cell(b.props[k], b.clock);
      assert b in Writing(ops, k);
      KeptUnbeaten(c, Present(e, k), Writing(ops, k), k, b);
    }
  }

  lemma {:induction false} KeptUnbeaten(c: Cell, base: Option<Cell>, writers: set<EdgeOp>, k: string, a: EdgeOp)
    requires Kept(c, base, writers, k) && a in writers
    ensures !Wins(a.clock, c.clock)
  {
  }

  lemma {:induction false} ResultUnique(e: Option<Edge>, ops: set<EdgeOp>, x: Edge, y: Edge)
    requires Result(e, ops, x) && Result(e, ops, y) && SameShape(e, ops) && SameValues(e, ops)
    ensures x == y
  {
    hide Topmost, Kept, SameValues, Present;
    TopmostUnique(x.lastClock, y.lastClock, LastClockOf(e), ops);
    TopmostUnique(x.lastAdd, y.lastAdd, LastAddOf(e), ops);
    forall k | k in x.cells ensures k in y.cells && x.cells[k] == y.cells[k] { KeptUnique(x.cells[k], y.cells[k], e, ops, k); }
    MapsAgree(x.cells, y.cells);
    assert ShapeOf(x) == ShapeOf(y);
  }

  /** In no order do the additions come to anything else. */
  lemma {:induction false} OrderHidden(t: Topology, ops: seq<EdgeOp>, qs: seq<EdgeOp>)
    requires ToSet(ops) == ToSet(qs)
    requires forall id :: SameShape(Find(t.edges, id), On(ToSet(ops), id)) && SameValues(Find(t.edges, id), On(ToSet(ops), id))
    ensures AttachAll(t, ops) == AttachAll(t, qs)
  {
    hide SameShape, SameValues, Result, Find, AttachAll, TouchAll;
    var u, v := AttachAll(t, ops), AttachAll(t, qs);
    forall id ensures Find(u.edges, id) == Find(v.edges, id) {
      AttachAllEdges(t, ops, id);
      AttachAllEdges(t, qs, id);
      TouchResult(id, Find(t.edges, id), ops);
      TouchResult(id, Find(t.edges, id), qs);
      var mine := On(ToSet(ops), id);
      if mine != {} {
        ResultUnique(Find(t.edges, id), mine, TouchAll(id, Find(t.edges, id), ops).value, TouchAll(id, Find(t.edges, id), qs).value);
      }
    }
    FindsDecide(u.edges, v.edges);
    AttachAllIndexed(t, ops);
    AttachAllIndexed(t, qs);
    EdgesDecide(t, u, v);
  }

  lemma {:induction false} FindsDecide(a: map<string, Edge>, b: map<string, Edge>)
    requires forall id :: Find(a, id) == Find(b, id)
    ensures a == b
  {
    forall id | id in a ensures id in b && a[id] == b[id] { assert Find(a, id) == Find(b, id); }
    forall id | id in b ensures id in a { assert Find(a, id) == Find(b, id); }
    MapsAgree(a, b);
  }

  // -- When they do not ----------------------------------------------------------------------------------------------------

  /** The first addition of a new edge gives it its shape. */
  lemma {:induction false} FirstShapes(id: string, a: EdgeOp, rest: seq<EdgeOp>)
    requires a.id == id
    ensures var r := TouchAll(id, None, [a] + rest); r.Some? && ShapeOf(r.value) == OpShape(a)
  {
    hide MergeCells;
    if rest == [] {
      assert [a] + rest == [a] && [a][..0] == [];
      assert TouchAll(id, None, []) == None;
    } else {
      var n := |rest| - 1;
      assert ([a] + rest)[..n + 1] == [a] + rest[..n];
      FirstShapes(id, a, rest[..n]);
    }
  }

  /** A deciding addition that goes first keeps the key. */
  lemma {:induction false} FirstWrites(id: string, e: Option<Edge>, a: EdgeOp, rest: seq<EdgeOp>, ops: set<EdgeOp>, k: string)
    requires a.id == id && Decides(e, ops, a, k) && On(ToSet(rest), id) <= ops
    ensures var r := TouchAll(id, e, [a] + rest); r.Some? && k in r.value.cells && r.value.cells[k] == Cell(a.props[k], a.clock)
  {
    hide Wins;
    if rest == [] {
      assert [a] + rest == [a] && [a][..0] == [];
      assert TouchAll(id, e, []) == e;
    } else {
      var n := |rest| - 1;
      var b := rest[n];
      assert ([a] + rest)[..n + 1] == [a] + rest[..n] && rest == rest[..n] + [b];
      ToSetSnoc(rest[..n], b);
      OnMore(ToSet(rest[..n]), b, id);
      FirstWrites(id, e, a, rest[..n], ops, k);
      if b.id == id && k in b.props { assert b in Writing(ops, k); }
    }
  }

  // -- One retry -----------------------------------------------------------------------------------------------------------

  /** A held edge that is taken up and added. */
  ghost predicate Joins(env: Env, g: Graph, h: Hash) { h in ReadyEdges(g) && Admissible(env, g, g.pending[h], Full) }

  /** The additions among the held edges of `order`, in that order. */
  ghost function OpsIn(env: Env, g: Graph, order: seq<Hash>): seq<EdgeOp> {
    if order == [] then []
    else
      var h := order[|order| - 1];
      OpsIn(env, g, order[..|order| - 1]) + (if Joins(env, g, h) then [OpOf(g.pending[h])] else [])
  }

  /** All of them. */
  ghost function ReadyOps(env: Env, g: Graph): set<EdgeOp> { set h | h in ReadyEdges(g) && Joins(env, g, h) :: OpOf(g.pending[h]) }

  lemma {:induction false} OpsSet(env: Env, g: Graph, order: seq<Hash>)
    ensures forall a :: a in OpsIn(env, g, order) <==> exists h :: h in order && Joins(env, g, h) && a == OpOf(g.pending[h])
  {
    hide Admissible, EndpointsPresent;
    if order != [] {
      var init, h := order[..|order| - 1], order[|order| - 1];
      OpsSet(env, g, init);
      assert order == init + [h];
      forall a ensures a in OpsIn(env, g, order) <==> exists h :: h in order && Joins(env, g, h) && a == OpOf(g.pending[h]) {
        if x :| x in order && Joins(env, g, x) && a == OpOf(g.pending[x]) {
          assert x == h || x in init;
        }
      }
    }
  }

  lemma {:induction false} OpsAll(env: Env, g: Graph, order: seq<Hash>)
    requires ToSet(order) == ReadyEdges(g)
    ensures ToSet(OpsIn(env, g, order)) == ReadyOps(env, g)
  {
    hide OpsIn;
    OpsSet(env, g, order);
    forall a ensures a in ToSet(OpsIn(env, g, order)) <==> a in ReadyOps(env, g) {
      if a in ReadyOps(env, g) {
        var h :| h in ReadyEdges(g) && Joins(env, g, h) && a == OpOf(g.pending[h]);
        assert h in ToSet(order);
      }
      if a in ToSet(OpsIn(env, g, order)) {
        var h :| h in order && Joins(env, g, h) && a == OpOf(g.pending[h]);
        assert h in ToSet(order);
      }
    }
  }

  /** The verdicts on the held edges of `done`. */
  ghost predicate JudgedAs(env: Env, g: Graph, done: set<Hash>, q: map<Hash, Record>) {
    && (forall h :: h in q <==> if h in done then !Joins(env, g, h) else h in g.quarantined)
    && (forall h :: h in q ==> q[h] == if h in done then Record("add_edge", g.ontology) else g.quarantined[h])
  }

  /** What a list of retries leaves, field by field. */
  ghost predicate ListLeaves(env: Env, g: Graph, order: seq<Hash>, g': Graph) {
    && g' == WithTopology(g, AttachAll(TopologyOf(g), OpsIn(env, g, order))).(quarantined := g'.quarantined, pending := g'.pending)
    && g'.pending == g.pending - ToSet(order) && JudgedAs(env, g, ToSet(order), g'.quarantined)
  }

  lemma {:induction false} ListParts(env: Env, g: Graph, order: seq<Hash>)
    requires PendingKeyed(g) && NoDup(order) && ToSet(order) <= ReadyEdges(g)
    ensures ListLeaves(env, g, order, RetryList(env, g, order))
  {
    hide RetryEdge, Attach, Admissible, ReadyEdges, JudgedAs;
    if order == [] {
      JudgedNone(env, g);
      NoHashes(g);
    } else {
      var n := |order| - 1;
      var init, h := order[..n], order[n];
      assert order == init + [h];
      ToSetSnoc(init, h);
      assert h in ToSet(order) && h !in ToSet(init);
      ListParts(env, g, init);
      ListStep(env, g, init, RetryList(env, g, init), h);
    }
  }

  lemma {:induction false} NoHashes(g: Graph)
    ensures g.pending - ToSet([]) == g.pending && ToSet<Hash>([]) == {}
  {
  }

  lemma {:induction false} JudgedNone(env: Env, g: Graph)
    ensures JudgedAs(env, g, {}, g.quarantined)
  {
  }

  lemma {:induction false} ListStep(env: Env, g: Graph, init: seq<Hash>, m: Graph, h: Hash)
    requires PendingKeyed(g) && ListLeaves(env, g, init, m) && h in ReadyEdges(g) && h !in ToSet(init)
    ensures h in m.pending && m.pending[h].payload.AddEdge? && ListLeaves(env, g, init + [h], RetryEdge(env, m, h))
  {
    hide RetryEdge, Attach, Admissible, JudgedAs, AttachAll;
    assert m.pending[h] == g.pending[h] && m.nodes == g.nodes && m.ontology == g.ontology;
    RetryParts(env, m, h);
    VerdictStands(env, g, m, g.pending[h]);
    ToSetSnoc(init, h);
    var e := g.pending[h];
    assert e.hash == h;
    var ok := Admissible(env, g, e, Full);
    assert ok == Joins(env, g, h);
    OpsSnoc(env, g, init, h);
    AttachSnoc(TopologyOf(g), OpsIn(env, g, init), OpOf(e));
    JudgedMore(env, g, ToSet(init), m, e);
    assert g.pending - ToSet(init) - {h} == g.pending - ToSet(init + [h]);
  }

  lemma {:induction false} AttachSnoc(t: Topology, ops: seq<EdgeOp>, a: EdgeOp)
    ensures AttachAll(t, ops + [a]) == Attach(AttachAll(t, ops), a)
  {
    assert (ops + [a])[..|ops|] == ops;
  }

  lemma {:induction false} OpsSnoc(env: Env, g: Graph, init: seq<Hash>, h: Hash)
    requires h in ReadyEdges(g)
    ensures OpsIn(env, g, init + [h]) == if Joins(env, g, h) then OpsIn(env, g, init) + [OpOf(g.pending[h])] else OpsIn(env, g, init)
  {
    hide Joins;
    assert (init + [h])[..|init|] == init;
  }

  lemma {:induction false} JudgedMore(env: Env, g: Graph, done: set<Hash>, m: Graph, e: Entry)
    requires JudgedAs(env, g, done, m.quarantined) && m.ontology == g.ontology && e.hash !in done
    ensures JudgedAs(env, g, done + {e.hash}, Judged(m, e, Joins(env, g, e.hash)))
  {
    hide Joins;
  }

  lemma {:induction false} JudgedUnique(env: Env, g: Graph, done: set<Hash>, a: map<Hash, Record>, b: map<Hash, Record>)
    requires JudgedAs(env, g, done, a) && JudgedAs(env, g, done, b)
    ensures a == b
  {
    hide Joins;
    MapsAgree(a, b);
  }

  /** The outcomes of one retry differ in the topology only. */
  lemma {:induction false} TopologyDecides(env: Env, g: Graph, xs: seq<Hash>, ys: seq<Hash>)
    requires PendingKeyed(g) && NoDup(xs) && NoDup(ys) && ToSet(xs) == ToSet(ys) == ReadyEdges(g)
    ensures RetryList(env, g, xs) == RetryList(env, g, ys) <==>
      AttachAll(TopologyOf(g), OpsIn(env, g, xs)) == AttachAll(TopologyOf(g), OpsIn(env, g, ys))
  {
    hide RetryList, AttachAll, OpsIn, ReadyEdges, JudgedAs;
    ListParts(env, g, xs);
    ListParts(env, g, ys);
    JudgedUnique(env, g, ToSet(xs), RetryList(env, g, xs).quarantined, RetryList(env, g, ys).quarantined);
  }

  /**
   * No dispute about any edge: it is there already, or its additions agree on type and endpoints; and
   * on each key the greatest additions that beat what is there say the same.
   */
  ghost predicate Undisputed(env: Env, g: Graph) {
    forall id :: SameShape(Find(g.edges, id), On(ReadyOps(env, g), id)) && SameValues(Find(g.edges, id), On(ReadyOps(env, g), id))
  }

  ghost predicate OneOutcome(env: Env, g: Graph) { forall a, b :: MayRetry(env, g, a) && MayRetry(env, g, b) ==> a == b }

  /** The order in which `h` goes first. */
  lemma {:induction false} HeadFirst(env: Env, g: Graph, h: Hash) returns (order: seq<Hash>, rest: seq<EdgeOp>)
    requires Joins(env, g, h)
    ensures NoDup(order) && ToSet(order) == ReadyEdges(g) && MayRetry(env, g, RetryList(env, g, order))
    ensures OpsIn(env, g, order) == [OpOf(g.pending[h])] + rest && ToSet(rest) <= ReadyOps(env, g)
  {
    hide RetryList, OpsIn, Admissible, EndpointsPresent;
    var others := Listing(ReadyEdges(g) - {h});
    order := [h] + others;
    FrontDistinct(h, others);
    assert {h} + (ReadyEdges(g) - {h}) == ReadyEdges(g);
    rest := OpsIn(env, g, others);
    OpsFront(env, g, h, others);
    OpsAll(env, g, order);
    forall a | a in ToSet(rest) ensures a in ReadyOps(env, g) { assert a in ToSet([OpOf(g.pending[h])] + rest); }
  }

  lemma {:induction false} OpsFront(env: Env, g: Graph, h: Hash, rest: seq<Hash>)
    requires Joins(env, g, h)
    ensures OpsIn(env, g, [h] + rest) == [OpOf(g.pending[h])] + OpsIn(env, g, rest)
  {
    hide Joins;
    if rest == [] {
      assert [h] + rest == [h] && [h][..0] == [];
      assert OpsIn(env, g, []) == [];
    } else {
      var n := |rest| - 1;
      assert ([h] + rest)[..n + 1] == [h] + rest[..n];
      OpsFront(env, g, h, rest[..n]);
    }
  }

  /** Two orders whose edge `id` ends differently are two outcomes. */
  lemma {:induction false} EdgeShows(env: Env, g: Graph, id: string, xs: seq<Hash>, ys: seq<Hash>)
    requires PendingKeyed(g) && NoDup(xs) && NoDup(ys) && ToSet(xs) == ToSet(ys) == ReadyEdges(g)
    requires TouchAll(id, Find(g.edges, id), OpsIn(env, g, xs)) != TouchAll(id, Find(g.edges, id), OpsIn(env, g, ys))
    requires MayRetry(env, g, RetryList(env, g, xs)) && MayRetry(env, g, RetryList(env, g, ys))
    ensures !OneOutcome(env, g)
  {
    hide RetryList, OpsIn, MayRetry, AttachAll, TouchAll, Find, ReadyEdges;
    AttachAllEdges(TopologyOf(g), OpsIn(env, g, xs), id);
    AttachAllEdges(TopologyOf(g), OpsIn(env, g, ys), id);
    TopologyDecides(env, g, xs, ys);
  }

  lemma {:induction false} OpFound(env: Env, g: Graph, id: string, a: EdgeOp) returns (h: Hash)
    requires a in On(ReadyOps(env, g), id)
    ensures a.id == id && Joins(env, g, h) && a == OpOf(g.pending[h])
  {
    hide Admissible, EndpointsPresent;
    h :| h in ReadyEdges(g) && Joins(env, g, h) && a == OpOf(g.pending[h]);
  }

  lemma {:induction false} ShapeDispute(env: Env, g: Graph, id: string)
    requires PendingKeyed(g) && !SameShape(Find(g.edges, id), On(ReadyOps(env, g), id))
    ensures !OneOutcome(env, g)
  {
    hide RetryList, OpsIn, MayRetry, TouchAll, ReadyEdges, ReadyOps, Admissible, OneOutcome;
    var mine := On(ReadyOps(env, g), id);
    var a, b :| a in mine && b in mine && OpShape(a) != OpShape(b);
    var x := OpFound(env, g, id, a);
    var y := OpFound(env, g, id, b);
    var xs, before := HeadFirst(env, g, x);
    var ys, after := HeadFirst(env, g, y);
    FirstShapes(id, a, before);
    FirstShapes(id, b, after);
    EdgeShows(env, g, id, xs, ys);
  }

  lemma {:induction false} ValueDispute(env: Env, g: Graph, id: string)
    requires PendingKeyed(g) && !SameValues(Find(g.edges, id), On(ReadyOps(env, g), id))
    ensures !OneOutcome(env, g)
  {
    hide RetryList, OpsIn, MayRetry, TouchAll, ReadyEdges, ReadyOps, Admissible, OneOutcome, Find, Wins, Present;
    var e, mine := Find(g.edges, id), On(ReadyOps(env, g), id);
    var a, b, k :| Decides(e, mine, a, k) && Decides(e, mine, b, k) && a.props[k] != b.props[k];
    var x := OpFound(env, g, id, a);
    var y := OpFound(env, g, id, b);
    var xs, before := HeadFirst(env, g, x);
    var ys, after := HeadFirst(env, g, y);
    FirstWrites(id, e, a, before, mine, k);
    FirstWrites(id, e, b, after, mine, k);
    EdgeShows(env, g, id, xs, ys);
  }

  /** The exact condition: one retry of the held edges has one outcome if and only if nothing is disputed among them. */
  lemma {:induction false} RetryDetermined(env: Env, g: Graph)
    requires PendingKeyed(g)
    ensures OneOutcome(env, g) <==> Undisputed(env, g)
  {
    hide RetryList, ReadyEdges, OpsIn, SameShape, SameValues, AttachAll, ReadyOps, NoDup, PendingKeyed;
    if Undisputed(env, g) {
      forall a, b | MayRetry(env, g, a) && MayRetry(env, g, b) ensures a == b {
        var xs: seq<Hash> :| NoDup(xs) && ToSet(xs) == ReadyEdges(g) && a == RetryList(env, g, xs);
        var ys: seq<Hash> :| NoDup(ys) && ToSet(ys) == ReadyEdges(g) && b == RetryList(env, g, ys);
        OpsAll(env, g, xs);
        OpsAll(env, g, ys);
        OrderHidden(TopologyOf(g), OpsIn(env, g, xs), OpsIn(env, g, ys));
        TopologyDecides(env, g, xs, ys);
      }
    } else {
      var id :| !(SameShape(Find(g.edges, id), On(ReadyOps(env, g), id)) && SameValues(Find(g.edges, id), On(ReadyOps(env, g), id)));
      if !SameShape(Find(g.edges, id), On(ReadyOps(env, g), id)) { ShapeDispute(env, g, id); } else { ValueDispute(env, g, id); }
    }
  }
}
