/** Traversals over the live graph: breadth-first search, shortest paths, impact and topological order. */
module Engine {
  import opened Base
  import opened Paths
  import opened Graphs
  import opened GraphInvariant
  import opened Queries

  /** Where the live edges out of each live node lead, optionally only those of one type. */
  function Forward(g: Graph, filter: Option<string>): map<string, set<string>> {
    map n | n in AllNodes(g) ::
      set e | e in OutgoingEdges(g, n) && (filter.Some? ==> g.edges[e].edgeType == filter.value) :: g.edges[e].target
  }

  /** Where the live edges into each live node come from. */
  function Backward(g: Graph): map<string, set<string>> {
    map n | n in AllNodes(g) :: set e | e in IncomingEdges(g, n) :: g.edges[e].source
  }

  /** A live edge of a wanted type leads from one live node to another. */
  ghost predicate Leads(g: Graph, filter: Option<string>, v: string, w: string) {
    exists e :: e in g.edges && !g.edges[e].dead && g.edges[e].source == v && g.edges[e].target == w
      && v in g.nodes && !g.nodes[v].dead && w in g.nodes && !g.nodes[w].dead && (filter == None || filter == Some(g.edges[e].edgeType))
  }

  /** Searches step along exactly the live edges of the wanted type between live nodes. */
  lemma {:induction false} LinksAre(g: Graph, filter: Option<string>, v: string, w: string)
    requires Exact(g)
    ensures w in Succ(Forward(g, filter), v) <==> Leads(g, filter, v, w)
  {
    assert Succ(g.outgoing, v) == set e | e in Sources(g.edges) && Sources(g.edges)[e] == v;
    forall e | e in g.edges && g.edges[e].source == v ensures e in Succ(g.outgoing, v) { assert e in Sources(g.edges); }
    if Leads(g, filter, v, w) { assert v in AllNodes(g); }
    if w in Succ(Forward(g, filter), v) {
      var e :| e in OutgoingEdges(g, v) && (filter.Some? ==> g.edges[e].edgeType == filter.value) && g.edges[e].target == w;
      assert e in Succ(g.outgoing, v);
    }
  }

  ghost predicate InRange(adj: map<string, set<string>>, a: string, b: string, limit: Option<nat>) {
    match limit
    case None => Reaches(adj, a, b)
    case Some(d) => Within(adj, a, b, d)
  }

  predicate Below(d: nat, limit: Option<nat>) { limit.None? || d < limit.value }

  // -- Depths ------------------------------------------------------------------------------------------------------

  /** Every depth is the length of some path from the start. */
  ghost predicate Sound(adj: map<string, set<string>>, start: string, dep: map<string, nat>, limit: Option<nat>) {
    && start in dep && dep[start] == 0
    && (forall v :: v in dep ==> Within(adj, start, v, dep[v]))
    && (forall v :: v in dep ==> limit.Some? ==> dep[v] <= limit.value)
  }

  /** The successors of `v` are all known, at most one step deeper. */
  ghost predicate Relaxed(adj: map<string, set<string>>, dep: map<string, nat>, v: string)
    requires v in dep
  {
    forall w :: w in Succ(adj, v) ==> w in dep && dep[w] <= dep[v] + 1
  }

  /** Along any path, vertices shallower than `bound` being relaxed bounds every depth by the position. */
  lemma {:induction false} DepthsBounded(adj: map<string, set<string>>, dep: map<string, nat>, p: seq<string>, bound: nat)
    requires IsPath(adj, p) && |p| - 1 <= bound && p[0] in dep && dep[p[0]] == 0
    requires forall v :: v in dep && dep[v] < bound ==> Relaxed(adj, dep, v)
    ensures p[|p| - 1] in dep && dep[p[|p| - 1]] <= |p| - 1
  {
    if |p| > 1 {
      var q := p[..|p| - 1];
      forall i | 0 <= i < |q| - 1 ensures q[i + 1] in Succ(adj, q[i]) { assert p[i + 1] in Succ(adj, p[i]); }
      DepthsBounded(adj, dep, q, bound);
      assert p[|p| - 2] == q[|q| - 1] && p[|p| - 2 + 1] in Succ(adj, p[|p| - 2]);
    }
  }

  /** Fully relaxed depths reach exactly the vertices in range. */
  lemma {:induction false} DepthsComplete(adj: map<string, set<string>>, start: string, dep: map<string, nat>, limit: Option<nat>, v: string)
    requires Sound(adj, start, dep, limit)
    requires forall u :: u in dep && Below(dep[u], limit) ==> Relaxed(adj, dep, u)
    ensures v in dep <==> InRange(adj, start, v, limit)
  {
    if v in dep {
      var p :| Joins(adj, start, v, p) && |p| <= dep[v] + 1;
      if limit.None? { assert Reaches(adj, start, v); }
    }
    if InRange(adj, start, v, limit) {
      var p :| Joins(adj, start, v, p) && (limit.Some? ==> |p| <= limit.value + 1);
      DepthsBounded(adj, dep, p, if limit.Some? then limit.value else |p|);
    }
  }

  lemma {:induction false} Deepen(adj: map<string, set<string>>, start: string, v: string, w: string, d: nat)
    requires Within(adj, start, v, d) && w in Succ(adj, v)
    ensures Within(adj, start, w, d + 1)
  {
    var p :| Joins(adj, start, v, p) && |p| <= d + 1;
    JoinsExtend(adj, start, v, w, p);
  }

  // -- Breadth-first search ------------------------------------------------------------------------------------------

  /** Depths along the queue never decrease, and nothing known is more than one level below its head. */
  ghost predicate Layered(dep: map<string, nat>, queue: seq<(string, nat)>) {
    && (forall i :: 0 <= i < |queue| ==> queue[i].0 in dep && dep[queue[i].0] == queue[i].1)
    && (forall i, j :: 0 <= i <= j < |queue| ==> queue[i].1 <= queue[j].1)
    && (queue != [] ==> forall v :: v in dep ==> dep[v] <= queue[0].1 + 1)
  }

  function Firsts(queue: seq<(string, nat)>): (r: seq<string>)
    ensures |r| == |queue| && forall i :: 0 <= i < |r| ==> r[i] == queue[i].0
  {
    seq(|queue|, i requires 0 <= i < |queue| => queue[i].0)
  }

  /** The traversal state: what is out, what waits, and the depths of both. */
  ghost predicate Exploring(adj: map<string, set<string>>, start: string, limit: Option<nat>, dep: map<string, nat>,
                            queue: seq<(string, nat)>, out: seq<string>)
  {
    && Sound(adj, start, dep, limit) && Layered(dep, queue)
    && NoDup(out + Firsts(queue)) && ToSet(out + Firsts(queue)) == dep.Keys
    && (forall v :: v in out && v in dep && Below(dep[v], limit) ==> Relaxed(adj, dep, v))
  }

  method BreadthFirst(adj: map<string, set<string>>, start: string, limit: Option<nat>) returns (out: seq<string>)
    ensures NoDup(out)
    ensures forall v :: v in out <==> InRange(adj, start, v, limit)
  {
    hide *;
    var queue := [(start, 0)];
    var visited := {start};
    out := [];
    ghost var dep := map[start := 0];
    ExploreStarts(adj, start, limit);
    ghost var all := Vertices(adj, start);
    StartIsVertex(adj, start);
    while queue != []
      invariant Exploring(adj, start, limit, dep, queue, out) && dep.Keys == visited
      invariant visited <= all
      decreases |all| - |out|
    {
      var (v, d) := queue[0];
      ExploreRoom(adj, start, limit, dep, queue, out, all);
      if Below(d, limit) {
        var more := FindNew(Succ(adj, v), visited, d + 1);
        ExploreDeeper(adj, start, limit, dep, queue, out, more);
        FreshDepthsIs(more, d + 1);
        VerticesClosed(adj, start, v);
        visited, dep := visited + ToSet(Firsts(more)), dep + FreshDepths(more);
        queue, out := queue[1..] + more, out + [v];
      } else {
        ExploreStops(adj, start, limit, dep, queue, out);
        queue, out := queue[1..], out + [v];
      }
    }
    ExploreEnds(adj, start, limit, dep, out);
  }

  ghost function Vertices(adj: map<string, set<string>>, start: string): set<string> {
    {start} + set v, w | v in adj && w in adj[v] :: w
  }

  lemma {:induction false} StartIsVertex(adj: map<string, set<string>>, start: string)
    ensures start in Vertices(adj, start)
  {
  }

  lemma {:induction false} VerticesClosed(adj: map<string, set<string>>, start: string, v: string)
    ensures Succ(adj, v) <= Vertices(adj, start)
  {
  }

  ghost function FreshDepths(more: seq<(string, nat)>): map<string, nat> {
    if more == [] then map[] else FreshDepths(more[..|more| - 1])[more[|more| - 1].0 := more[|more| - 1].1]
  }

  lemma {:induction false} FreshDepthsIs(more: seq<(string, nat)>, d: nat)
    requires forall i :: 0 <= i < |more| ==> more[i].1 == d
    ensures FreshDepths(more).Keys == ToSet(Firsts(more))
    ensures forall v :: v in FreshDepths(more) ==> FreshDepths(more)[v] == d
  {
    if more != [] {
      var n := |more| - 1;
      FreshDepthsIs(more[..n], d);
      assert Firsts(more) == Firsts(more[..n]) + [more[n].0];
    }
  }

  /** The unvisited targets, once each, in whatever order the edges come. */
  method FindNew(targets: set<string>, visited: set<string>, d: nat) returns (more: seq<(string, nat)>)
    ensures NoDup(Firsts(more)) && ToSet(Firsts(more)) == targets - visited
    ensures forall i :: 0 <= i < |more| ==> more[i].1 == d
  {
    more := [];
    var todo := targets;
    while todo != {}
      invariant todo <= targets && NoDup(Firsts(more)) && ToSet(Firsts(more)) == (targets - todo) - visited
      invariant forall i :: 0 <= i < |more| ==> more[i].1 == d
    {
      var w :| w in todo;
      todo := todo - {w};
      if w !in visited {
        assert Firsts(more + [(w, d)]) == Firsts(more) + [w];
        ToSetSnoc(Firsts(more), w);
        assert w !in ToSet(Firsts(more));
        more := more + [(w, d)];
      }
    }
  }

  lemma {:induction false} ExploreStarts(adj: map<string, set<string>>, start: string, limit: Option<nat>)
    ensures Exploring(adj, start, limit, map[start := 0], [(start, 0)], [])
  {
    hide Within;
    ReachesSelf(adj, start);
    assert [] + Firsts([(start, 0)]) == [start];
  }

  lemma {:induction false} ExploreRoom(adj: map<string, set<string>>, start: string, limit: Option<nat>, dep: map<string, nat>,
                    queue: seq<(string, nat)>, out: seq<string>, all: set<string>)
    requires Exploring(adj, start, limit, dep, queue, out) && queue != [] && dep.Keys <= all
    ensures |out| < |all|
  {
    NoDupWithin(out + Firsts(queue), all);
  }

  lemma {:induction false} Popped(queue: seq<(string, nat)>, out: seq<string>)
    requires queue != []
    ensures out + Firsts(queue) == (out + [queue[0].0]) + Firsts(queue[1..])
  {
  }

  lemma {:induction false} ExploreStops(adj: map<string, set<string>>, start: string, limit: Option<nat>, dep: map<string, nat>,
                     queue: seq<(string, nat)>, out: seq<string>)
    requires Exploring(adj, start, limit, dep, queue, out) && queue != [] && !Below(queue[0].1, limit)
    ensures Exploring(adj, start, limit, dep, queue[1..], out + [queue[0].0])
  {
    hide Within, NoDup, ToSet, Relaxed;
    Popped(queue, out);
    assert Layered(dep, queue[1..]);
  }

  lemma {:induction false} ExploreDeeper(adj: map<string, set<string>>, start: string, limit: Option<nat>, dep: map<string, nat>,
                      queue: seq<(string, nat)>, out: seq<string>, more: seq<(string, nat)>)
    requires Exploring(adj, start, limit, dep, queue, out) && queue != [] && Below(queue[0].1, limit)
    requires NoDup(Firsts(more)) && ToSet(Firsts(more)) == Succ(adj, queue[0].0) - dep.Keys
    requires forall i :: 0 <= i < |more| ==> more[i].1 == queue[0].1 + 1
    ensures Exploring(adj, start, limit, dep + FreshDepths(more), queue[1..] + more, out + [queue[0].0])
  {
    hide *;
    var (v, d) := queue[0];
    var dep' := dep + FreshDepths(more);
    FreshDepthsIs(more, d + 1);
    ExploreLayered(adj, start, limit, dep, queue, out);
    DeeperSound(adj, start, limit, dep, queue, out, more);
    DeeperLayered(dep, queue, more);
    DeeperListed(adj, start, limit, dep, queue, out, more);
    DeeperRelaxed(adj, start, limit, dep, queue, out, more);
    ExploreJoin(adj, start, limit, dep', queue[1..] + more, out + [v]);
  }

  lemma {:induction false} ExploreJoin(adj: map<string, set<string>>, start: string, limit: Option<nat>, dep: map<string, nat>,
                    queue: seq<(string, nat)>, out: seq<string>)
    requires Sound(adj, start, dep, limit) && Layered(dep, queue)
    requires NoDup(out + Firsts(queue)) && ToSet(out + Firsts(queue)) == dep.Keys
    requires forall v :: v in out && v in dep && Below(dep[v], limit) ==> Relaxed(adj, dep, v)
    ensures Exploring(adj, start, limit, dep, queue, out)
  {
  }

  lemma {:induction false} DeeperSound(adj: map<string, set<string>>, start: string, limit: Option<nat>, dep: map<string, nat>,
                    queue: seq<(string, nat)>, out: seq<string>, more: seq<(string, nat)>)
    requires Exploring(adj, start, limit, dep, queue, out) && queue != [] && Below(queue[0].1, limit)
    requires FreshDepths(more).Keys == Succ(adj, queue[0].0) - dep.Keys
    requires forall w :: w in FreshDepths(more) ==> FreshDepths(more)[w] == queue[0].1 + 1
    ensures Sound(adj, start, dep + FreshDepths(more), limit)
  {
    hide Within, NoDup, Relaxed, FreshDepths;
    var (v, d) := queue[0];
    forall w | w in FreshDepths(more) ensures Within(adj, start, w, d + 1) { Deepen(adj, start, v, w, d); }
  }

  lemma {:induction false} ExploreLayered(adj: map<string, set<string>>, start: string, limit: Option<nat>, dep: map<string, nat>,
                       queue: seq<(string, nat)>, out: seq<string>)
    requires Exploring(adj, start, limit, dep, queue, out)
    ensures Layered(dep, queue)
  {
  }

  ghost predicate InLayers(dep: map<string, nat>, queue: seq<(string, nat)>, d: nat) {
    forall i :: 0 <= i < |queue| ==> queue[i].0 in dep && dep[queue[i].0] == queue[i].1 && d <= queue[i].1
  }

  ghost predicate Ascending(queue: seq<(string, nat)>) { forall i, j :: 0 <= i <= j < |queue| ==> queue[i].1 <= queue[j].1 }

  ghost predicate NotDeeper(dep: map<string, nat>, d: nat) { forall v :: v in dep ==> dep[v] <= d }

  lemma {:induction false} DeeperLayered(dep: map<string, nat>, queue: seq<(string, nat)>, more: seq<(string, nat)>)
    requires Layered(dep, queue) && queue != []
    requires FreshDepths(more).Keys == ToSet(Firsts(more)) && FreshDepths(more).Keys !! dep.Keys
    requires forall w :: w in FreshDepths(more) ==> FreshDepths(more)[w] == queue[0].1 + 1
    requires forall i :: 0 <= i < |more| ==> more[i].1 == queue[0].1 + 1
    ensures Layered(dep + FreshDepths(more), queue[1..] + more)
  {
    hide *;
    LayersAt(dep, queue, more);
    LayersOrder(dep, queue, more);
    LayersDepth(dep, queue, more);
    LayeredNow(dep + FreshDepths(more), queue[1..] + more, queue[0].1);
  }

  lemma {:induction false} LayersAt(dep: map<string, nat>, queue: seq<(string, nat)>, more: seq<(string, nat)>)
    requires Layered(dep, queue) && queue != []
    requires FreshDepths(more).Keys == ToSet(Firsts(more)) && FreshDepths(more).Keys !! dep.Keys
    requires forall w :: w in FreshDepths(more) ==> FreshDepths(more)[w] == queue[0].1 + 1
    requires forall i :: 0 <= i < |more| ==> more[i].1 == queue[0].1 + 1
    ensures InLayers(dep + FreshDepths(more), queue[1..] + more, queue[0].1)
  {
    hide FreshDepths;
    var q, n := queue[1..] + more, |queue| - 1;
    var dep' := dep + FreshDepths(more);
    forall i | 0 <= i < |q| ensures q[i].0 in dep' && dep'[q[i].0] == q[i].1 && queue[0].1 <= q[i].1 {
      if i < n {
        var x := queue[i + 1];
        assert x.0 in dep && x.0 !in FreshDepths(more);
      } else {
        assert Firsts(more)[i - n] in ToSet(Firsts(more));
      }
    }
  }

  lemma {:induction false} LayersOrder(dep: map<string, nat>, queue: seq<(string, nat)>, more: seq<(string, nat)>)
    requires Layered(dep, queue) && queue != []
    requires forall i :: 0 <= i < |more| ==> more[i].1 == queue[0].1 + 1
    ensures Ascending(queue[1..] + more)
  {
    var q, n := queue[1..] + more, |queue| - 1;
    forall i, j | 0 <= i <= j < |q| ensures q[i].1 <= q[j].1 {
      if j < n {
        assert queue[i + 1].1 <= queue[j + 1].1;
      } else if i < n {
        var x := queue[i + 1];
        assert dep[x.0] == x.1;
      }
    }
  }

  lemma {:induction false} LayersDepth(dep: map<string, nat>, queue: seq<(string, nat)>, more: seq<(string, nat)>)
    requires Layered(dep, queue) && queue != []
    requires forall w :: w in FreshDepths(more) ==> FreshDepths(more)[w] == queue[0].1 + 1
    ensures NotDeeper(dep + FreshDepths(more), queue[0].1 + 1)
  {
    hide FreshDepths;
  }

  lemma {:induction false} LayeredNow(dep: map<string, nat>, queue: seq<(string, nat)>, d: nat)
    requires InLayers(dep, queue, d) && Ascending(queue) && NotDeeper(dep, d + 1)
    ensures Layered(dep, queue)
  {
  }

  lemma {:induction false} DeeperListed(adj: map<string, set<string>>, start: string, limit: Option<nat>, dep: map<string, nat>,
                     queue: seq<(string, nat)>, out: seq<string>, more: seq<(string, nat)>)
    requires Exploring(adj, start, limit, dep, queue, out) && queue != []
    requires NoDup(Firsts(more)) && FreshDepths(more).Keys == ToSet(Firsts(more)) && ToSet(Firsts(more)) !! dep.Keys
    ensures NoDup((out + [queue[0].0]) + Firsts(queue[1..] + more))
    ensures ToSet((out + [queue[0].0]) + Firsts(queue[1..] + more)) == (dep + FreshDepths(more)).Keys
  {
    hide Within, Relaxed, FreshDepths, Layered, Sound;
    var a, b := out + Firsts(queue), Firsts(more);
    Popped(queue, out);
    assert Firsts(queue[1..] + more) == Firsts(queue[1..]) + b;
    assert (out + [queue[0].0]) + Firsts(queue[1..] + more) == a + b;
    NoDupConcat(a, b);
  }

  lemma {:induction false} NoDupConcat(a: seq<string>, b: seq<string>)
    requires NoDup(a) && NoDup(b) && ToSet(a) !! ToSet(b)
    ensures NoDup(a + b) && ToSet(a + b) == ToSet(a) + ToSet(b)
  {
    var c := a + b;
    forall i, j | 0 <= i < j < |c| ensures c[i] != c[j] {
      if i < |a| <= j { assert a[i] in ToSet(a) && b[j - |a|] in ToSet(b); }
    }
  }

  lemma {:induction false} DeeperRelaxed(adj: map<string, set<string>>, start: string, limit: Option<nat>, dep: map<string, nat>,
                      queue: seq<(string, nat)>, out: seq<string>, more: seq<(string, nat)>)
    requires Exploring(adj, start, limit, dep, queue, out) && queue != []
    requires FreshDepths(more).Keys == Succ(adj, queue[0].0) - dep.Keys
    requires forall w :: w in FreshDepths(more) ==> FreshDepths(more)[w] == queue[0].1 + 1
    ensures var dep' := dep + FreshDepths(more);
      forall v :: v in out + [queue[0].0] && v in dep' && Below(dep'[v], limit) ==> Relaxed(adj, dep', v)
  {
    hide Within, NoDup, FreshDepths;
    var dep' := dep + FreshDepths(more);
    forall v | v in out + [queue[0].0] && v in dep' && Below(dep'[v], limit) ensures Relaxed(adj, dep', v) {
      OutKnown(dep, queue, out);
      if v == queue[0].0 {
        forall w | w in Succ(adj, v) ensures w in dep' && dep'[w] <= dep'[v] + 1 {}
      } else {
        assert v in out && Relaxed(adj, dep, v);
        forall w | w in Succ(adj, v) ensures w in dep' && dep'[w] <= dep'[v] + 1 { assert w in dep; }
      }
    }
  }

  lemma {:induction false} OutKnown(dep: map<string, nat>, queue: seq<(string, nat)>, out: seq<string>)
    requires ToSet(out + Firsts(queue)) == dep.Keys
    ensures forall v :: v in out ==> v in dep
  {
    forall v | v in out ensures v in dep { assert v in ToSet(out + Firsts(queue)); }
  }

  lemma {:induction false} ExploreEnds(adj: map<string, set<string>>, start: string, limit: Option<nat>, dep: map<string, nat>, out: seq<string>)
    requires Exploring(adj, start, limit, dep, [], out)
    ensures NoDup(out) && forall v :: v in out <==> InRange(adj, start, v, limit)
  {
    hide InRange, Within, Relaxed;
    assert out + Firsts([]) == out;
    forall v ensures v in out <==> InRange(adj, start, v, limit) {
      assert v in out <==> v in ToSet(out);
      DepthsComplete(adj, start, dep, limit, v);
    }
  }

  /** `bfs`: exactly the nodes within the depth limit along edges of the wanted type, once each. */
  method Bfs(g: Graph, start: string, maxDepth: Option<nat>, edgeType: Option<string>) returns (out: seq<string>)
    ensures NoDup(out)
    ensures forall v :: v in out <==> IsLive(g, start) && InRange(Forward(g, edgeType), start, v, maxDepth)
  {
    hide InRange, Forward, NoDup;
    if !IsLive(g, start) { NothingYet<string>(); return []; }
    out := BreadthFirst(Forward(g, edgeType), start, maxDepth);
  }

  /** `impact_analysis`: the same search against the edges. */
  method ImpactAnalysis(g: Graph, n: string, maxDepth: Option<nat>) returns (out: seq<string>)
    ensures NoDup(out)
    ensures forall v :: v in out <==> IsLive(g, n) && InRange(Backward(g), n, v, maxDepth)
  {
    hide InRange, Backward, NoDup;
    if !IsLive(g, n) { NothingYet<string>(); return []; }
    out := BreadthFirst(Backward(g), n, maxDepth);
  }

  /** Backward links are forward links reversed: this rests on both indexes being exact. */
  lemma {:induction false} BackwardIsOpposite(g: Graph)
    requires Exact(g)
    ensures Opposite(Forward(g, None), Backward(g)) && Opposite(Backward(g), Forward(g, None))
  {
    forall a, b ensures b in Succ(Forward(g, None), a) <==> a in Succ(Backward(g), b) {
      OutgoingAgrees(g, a);
      IncomingAgrees(g, b);
      if b in Succ(Forward(g, None), a) {
        var e :| e in OutgoingEdges(g, a) && g.edges[e].target == b;
        assert e in EdgesFrom(g, a) && e in EdgesInto(g, b);
        assert IsLive(g, b) && e in IncomingEdges(g, b);
      }
      if a in Succ(Backward(g), b) {
        var e :| e in IncomingEdges(g, b) && g.edges[e].source == a;
        assert e in EdgesInto(g, b) && e in EdgesFrom(g, a);
        assert IsLive(g, a) && e in OutgoingEdges(g, a);
      }
    }
  }

  /** `m` is impacted by `n` within `d` exactly when a search from `m` finds `n` within `d`. */
  lemma {:induction false} ImpactIsReverseSearch(g: Graph, n: string, m: string, limit: Option<nat>)
    requires Exact(g)
    ensures IsLive(g, n) && InRange(Backward(g), n, m, limit) <==> IsLive(g, m) && InRange(Forward(g, None), m, n, limit)
  {
    hide Forward, Backward, Exact, Opposite, InRange;
    BackwardIsOpposite(g);
    if IsLive(g, n) && InRange(Backward(g), n, m, limit) {
      RangeReversed(Backward(g), Forward(g, None), n, m, limit);
      RangeLive(g, Backward(g), n, m, limit);
    }
    if IsLive(g, m) && InRange(Forward(g, None), m, n, limit) {
      RangeReversed(Forward(g, None), Backward(g), m, n, limit);
      RangeLive(g, Forward(g, None), m, n, limit);
    }
  }

  lemma {:induction false} RangeReversed(a: map<string, set<string>>, b: map<string, set<string>>, x: string, y: string, limit: Option<nat>)
    requires Opposite(a, b) && InRange(a, x, y, limit)
    ensures InRange(b, y, x, limit)
  {
    hide Opposite;
    match limit {
      case Some(d) => OppositeWithin(a, b, x, y, d);
      case None =>
        var p :| Joins(a, x, y, p);
        OppositeWithin(a, b, x, y, |p|);
        var q :| Joins(b, y, x, q) && |q| <= |p| + 1;
    }
  }

  lemma {:induction false} RangeLive(g: Graph, adj: map<string, set<string>>, a: string, b: string, limit: Option<nat>)
    requires (adj == Backward(g) || adj == Forward(g, None)) && IsLive(g, a) && InRange(adj, a, b, limit)
    ensures IsLive(g, b)
  {
    var p :| Joins(adj, a, b, p);
    if |p| > 1 { assert p[|p| - 2 + 1] in Succ(adj, p[|p| - 2]); }
  }
}
