/** Topological order of the live nodes, counting parallel edges one by one. */
module NodeOrder {
  import opened Base
  import opened Paths
  import opened Graphs
  import opened GraphInvariant
  import opened Queries
  import opened Engine

  /** The live edges arriving at `v`. */
  function Arriving(g: Graph, v: string): set<string> { set e | e in AllEdges(g) && g.edges[e].target == v }

  /** The live edges leaving a node that is already out. */
  function Spent(g: Graph, out: set<string>): set<string> { set e | e in AllEdges(g) && g.edges[e].source in out }

  /** Each live node's count of arriving edges not yet spent. */
  function Counts(g: Graph, gone: set<string>): map<string, int> { map v | v in AllNodes(g) :: |Arriving(g, v) - gone| }

  /** Nodes whose every arriving edge is spent. */
  function Clear(g: Graph, gone: set<string>): set<string> { set v | v in AllNodes(g) && Arriving(g, v) <= gone }

  /** Edges into an emitted node come from nodes emitted earlier. */
  ghost predicate SourcesFirst(g: Graph, out: seq<string>) {
    forall i, e :: 0 <= i < |out| && e in Arriving(g, out[i]) ==> g.edges[e].source in out[..i]
  }

  ghost predicate Sorting(g: Graph, queue: seq<string>, out: seq<string>) {
    && NoDup(out + queue) && ToSet(out + queue) == Clear(g, Spent(g, ToSet(out)))
    && SourcesFirst(g, out)
  }

  lemma {:induction false} CountZero(g: Graph, gone: set<string>, v: string)
    requires v in AllNodes(g)
    ensures Counts(g, gone)[v] >= 0
    ensures Counts(g, gone)[v] == 0 <==> v in Clear(g, gone)
  {
    MinusEmpty(Arriving(g, v), gone);
  }

  /** Spending one more edge lowers exactly its target's count; it clears the target when it was the last. */
  lemma {:induction false} SpendOne(g: Graph, gone: set<string>, e: string)
    requires e in AllEdges(g) && e !in gone
    ensures var t := g.edges[e].target;
      && t in AllNodes(g) && t !in Clear(g, gone) && Counts(g, gone)[t] > 0
      && Counts(g, gone + {e}) == Counts(g, gone)[t := Counts(g, gone)[t] - 1]
      && Clear(g, gone + {e}) == Clear(g, gone) + (if Counts(g, gone)[t] == 1 then {t} else {})
  {
    hide Counts, Clear, Arriving;
    var t := g.edges[e].target;
    TargetLive(g, gone, e);
    CountKnown(g, gone);
    CountKnown(g, gone + {e});
    forall v | v in AllNodes(g)
      ensures Counts(g, gone + {e})[v] == Counts(g, gone)[v] - (if v == t then 1 else 0)
      ensures v in Clear(g, gone + {e}) <==> v in Clear(g, gone) || (v == t && Counts(g, gone)[t] == 1)
    {
      CountSpend(g, gone, e, v);
      CountZero(g, gone, v);
      CountZero(g, gone + {e}, v);
    }
    CountZero(g, gone, t);
    ClearLive(g, gone);
    ClearLive(g, gone + {e});
    MapsAgree(Counts(g, gone + {e}), Counts(g, gone)[t := Counts(g, gone)[t] - 1]);
  }

  lemma {:induction false} TargetLive(g: Graph, gone: set<string>, e: string)
    requires e in AllEdges(g) && e !in gone
    ensures e in g.edges && g.edges[e].target in AllNodes(g) && g.edges[e].target !in Clear(g, gone)
  {
    assert e in Arriving(g, g.edges[e].target);
  }

  lemma {:induction false} ClearLive(g: Graph, gone: set<string>)
    ensures Clear(g, gone) <= AllNodes(g)
  {
  }

  lemma {:induction false} CountSpend(g: Graph, gone: set<string>, e: string, v: string)
    requires e in AllEdges(g) && e !in gone && v in AllNodes(g)
    ensures Counts(g, gone + {e})[v] == Counts(g, gone)[v] - (if v == g.edges[e].target then 1 else 0)
  {
    if v == g.edges[e].target {
      assert Arriving(g, v) - gone == (Arriving(g, v) - (gone + {e})) + {e};
    } else {
      assert Arriving(g, v) - gone == Arriving(g, v) - (gone + {e});
    }
  }

  /** Expanding `n`: its outgoing edges are spent one by one, parallel edges separately. */
  method Spend(g: Graph, n: string, ghost out: set<string>, counts: map<string, int>)
    returns (counts': map<string, int>, more: seq<string>)
    requires Exact(g) && IsLive(g, n) && n !in out && counts == Counts(g, Spent(g, out))
    ensures counts' == Counts(g, Spent(g, out + {n}))
    ensures NoDup(more) && ToSet(more) == Clear(g, Spent(g, out + {n})) - Clear(g, Spent(g, out))
  {
    hide Exact, Counts, Clear, Spent, AllEdges, AllNodes;
    ghost var before := Spent(g, out);
    ghost var gone := before;
    counts', more := counts, [];
    var todo := OutgoingEdges(g, n);
    SpentAll(g, out, n);
    ghost var mine := todo;
    while todo != {}
      invariant todo <= mine && gone == before + (mine - todo) && counts' == Counts(g, gone)
      invariant Clear(g, before) <= Clear(g, gone)
      invariant NoDup(more) && ToSet(more) == Clear(g, gone) - Clear(g, before)
    {
      var e :| e in todo;
      EdgeKnown(g, n, e);
      SpendOne(g, gone, e);
      var t := g.edges[e].target;
      CountKnown(g, gone);
      if t in counts' {
        counts' := counts'[t := counts'[t] - 1];
        if counts'[t] == 0 {
          ToSetSnoc(more, t);
          assert t !in ToSet(more);
          more := more + [t];
        }
      }
      todo, gone := todo - {e}, gone + {e};
    }
    assert gone == before + mine;
  }

  lemma {:induction false} CountKnown(g: Graph, gone: set<string>)
    ensures Counts(g, gone).Keys == AllNodes(g)
  {
  }

  lemma {:induction false} EdgeKnown(g: Graph, n: string, e: string)
    requires e in OutgoingEdges(g, n)
    ensures e in g.edges
  {
  }

  lemma {:induction false} SpentAll(g: Graph, out: set<string>, n: string)
    requires Exact(g) && IsLive(g, n) && n !in out
    ensures Spent(g, out + {n}) == Spent(g, out) + OutgoingEdges(g, n)
    ensures OutgoingEdges(g, n) !! Spent(g, out) && OutgoingEdges(g, n) <= AllEdges(g)
  {
    OutgoingAgrees(g, n);
  }

  lemma {:induction false} SortStarts(g: Graph, queue: seq<string>)
    requires NoDup(queue) && ToSet(queue) == Clear(g, {})
    ensures Sorting(g, queue, []) && Spent(g, {}) == {}
  {
    assert [] + queue == queue;
    assert ToSet<string>([]) == {};
  }

  lemma {:induction false} SortHead(g: Graph, queue: seq<string>, out: seq<string>)
    requires Sorting(g, queue, out) && queue != []
    ensures IsLive(g, queue[0]) && queue[0] !in ToSet(out) && |out| < |AllNodes(g)|
  {
    var all := out + queue;
    assert all[|out|] == queue[0] && queue[0] in ToSet(all);
    forall i | 0 <= i < |out| ensures out[i] != queue[0] { assert all[i] == out[i] && all[|out|] == queue[0]; }
    NoDupWithin(all, AllNodes(g));
  }

  lemma {:induction false} SortStep(g: Graph, queue: seq<string>, out: seq<string>, more: seq<string>)
    requires Sorting(g, queue, out) && queue != [] && NoDup(more)
    requires ToSet(more) == Clear(g, Spent(g, ToSet(out) + {queue[0]})) - Clear(g, Spent(g, ToSet(out)))
    ensures Sorting(g, queue[1..] + more, out + [queue[0]])
  {
    hide Clear, Spent;
    var n := queue[0];
    var a := out + queue;
    ToSetSnoc(out, n);
    assert (out + [n]) + (queue[1..] + more) == a + more;
    NoDupConcat(a, more);
    ClearGrows(g, ToSet(out), n);
    forall i, e | 0 <= i < |out + [n]| && e in Arriving(g, (out + [n])[i]) ensures g.edges[e].source in (out + [n])[..i] {
      if i < |out| {
        assert (out + [n])[..i] == out[..i];
      } else {
        assert (out + [n])[..i] == out;
        assert a[|out|] == n && n in ToSet(a);
        ClearSources(g, ToSet(out), n, e);
      }
    }
  }

  lemma {:induction false} ClearGrows(g: Graph, out: set<string>, n: string)
    ensures Clear(g, Spent(g, out)) <= Clear(g, Spent(g, out + {n}))
  {
  }

  lemma {:induction false} ClearSources(g: Graph, out: set<string>, n: string, e: string)
    requires n in Clear(g, Spent(g, out)) && e in Arriving(g, n)
    ensures e in g.edges && g.edges[e].source in out
  {
  }

  // -- Verdicts ----------------------------------------------------------------------------------------------------

  /** Stuck short of all nodes: the rest feed one another, so they contain a cycle. */
  lemma {:induction false} StuckHasCycle(g: Graph, out: seq<string>)
    requires Exact(g) && Sorting(g, [], out) && |out| != |AllNodes(g)|
    ensures exists c :: IsCycle(Forward(g, None), c)
  {
    assert out + [] == out;
    var t := AllNodes(g) - ToSet(out);
    NoDupSize(out);
    ClearLive(g, Spent(g, ToSet(out)));
    SomeLeft(AllNodes(g), ToSet(out));
    forall v | v in t ensures Fed(Forward(g, None), t, v) { StuckFed(g, out, v); }
    var c := CycleInside(Forward(g, None), t);
  }

  lemma {:induction false} SomeLeft(all: set<string>, part: set<string>)
    requires part <= all && |part| != |all|
    ensures all - part != {}
  {
    assert all == part + (all - part);
  }

  lemma {:induction false} StuckFed(g: Graph, out: seq<string>, v: string)
    requires Exact(g) && Sorting(g, [], out) && v in AllNodes(g) && v !in ToSet(out)
    ensures Fed(Forward(g, None), AllNodes(g) - ToSet(out), v)
  {
    assert out + [] == out;
    assert v !in Clear(g, Spent(g, ToSet(out)));
    var e :| e in Arriving(g, v) && e !in Spent(g, ToSet(out));
    var u := g.edges[e].source;
    OutgoingAgrees(g, u);
    assert e in EdgesFrom(g, u);
    assert u in AllNodes(g) - ToSet(out) && v in Succ(Forward(g, None), u);
  }

  lemma {:induction false} Forwards(g: Graph, out: seq<string>, p: seq<string>)
    requires Exact(g) && SourcesFirst(g, out) && NoDup(out) && IsPath(Forward(g, None), p) && |p| > 1 && p[|p| - 1] in out
    ensures exists i, j :: 0 <= i < j < |out| && out[i] == p[0] && out[j] == p[|p| - 1]
  {
    var n := |p| - 1;
    assert p[n - 1 + 1] in Succ(Forward(g, None), p[n - 1]);
    var j :| 0 <= j < |out| && out[j] == p[n];
    LinkIsEdge(g, out, p[n - 1], p[n], j);
    var k :| 0 <= k < j && out[k] == p[n - 1];
    if n > 1 {
      var q := p[..n];
      forall i | 0 <= i < |q| - 1 ensures q[i + 1] in Succ(Forward(g, None), q[i]) { assert p[i + 1] in Succ(Forward(g, None), p[i]); }
      Forwards(g, out, q);
      var i', j' :| 0 <= i' < j' < |out| && out[i'] == q[0] && out[j'] == q[|q| - 1];
      assert j' == k;
    }
  }

  lemma {:induction false} LinkIsEdge(g: Graph, out: seq<string>, u: string, v: string, j: nat)
    requires Exact(g) && SourcesFirst(g, out) && v in Succ(Forward(g, None), u) && j < |out| && out[j] == v
    ensures u in out[..j]
  {
    var e :| e in OutgoingEdges(g, u) && g.edges[e].target == v;
    OutgoingAgrees(g, u);
    assert e in EdgesFrom(g, u);
    assert e in Arriving(g, out[j]);
  }

  lemma {:induction false} SortedIsAcyclic(g: Graph, out: seq<string>)
    requires Exact(g) && SourcesFirst(g, out) && NoDup(out) && ToSet(out) == AllNodes(g)
    ensures Acyclic(Forward(g, None))
  {
    forall c ensures !IsCycle(Forward(g, None), c) {
      if IsCycle(Forward(g, None), c) {
        assert c[0 + 1] in Succ(Forward(g, None), c[0]);
        assert c[0] in AllNodes(g);
        assert c[|c| - 1] in ToSet(out);
        Forwards(g, out, c);
      }
    }
  }

  /** Every live edge points forward in the order. */
  ghost predicate EdgesForward(g: Graph, out: seq<string>) {
    forall e :: e in AllEdges(g) ==> exists i, j :: 0 <= i < j < |out| && out[i] == g.edges[e].source && out[j] == g.edges[e].target
  }

  lemma {:induction false} SortedPointsForward(g: Graph, out: seq<string>)
    requires SourcesFirst(g, out) && ToSet(out) == AllNodes(g)
    ensures EdgesForward(g, out)
  {
    forall e | e in AllEdges(g) ensures exists i, j :: 0 <= i < j < |out| && out[i] == g.edges[e].source && out[j] == g.edges[e].target {
      assert g.edges[e].target in ToSet(out);
      var j :| 0 <= j < |out| && out[j] == g.edges[e].target;
      assert e in Arriving(g, out[j]);
      var i :| 0 <= i < |out[..j]| && out[..j][i] == g.edges[e].source;
    }
  }

  lemma {:induction false} SortedWell(g: Graph, out: seq<string>)
    requires Exact(g) && Sorting(g, [], out) && |out| == |AllNodes(g)|
    ensures NoDup(out) && ToSet(out) == AllNodes(g) && EdgesForward(g, out) && Acyclic(Forward(g, None))
  {
    assert out + [] == out;
    NoDupWithin(out, AllNodes(g));
    SortedPointsForward(g, out);
    SortedIsAcyclic(g, out);
  }

  /**
   * `topological_sort`: an order exactly when the live graph is acyclic; the order lists every live
   * node once with every live edge pointing forward, and its absence comes with a cycle.
   */
  method TopologicalSort(g: Graph) returns (r: Option<seq<string>>)
    requires Exact(g)
    ensures r.Some? <==> Acyclic(Forward(g, None))
    ensures r.Some? ==> NoDup(r.value) && ToSet(r.value) == AllNodes(g) && EdgesForward(g, r.value)
    ensures r.None? ==> exists c :: IsCycle(Forward(g, None), c)
  {
    hide Exact, Counts, Clear, Spent, AllEdges, AllNodes, Sorting, Forward, Acyclic, IsCycle, EdgesForward, NoDup;
    var counts := Counts(g, {});
    var queue := ClearNodes(g, counts);
    var out: seq<string> := [];
    SortStarts(g, queue);
    NothingYet<string>();
    while queue != []
      invariant Sorting(g, queue, out) && counts == Counts(g, Spent(g, ToSet(out)))
      decreases |AllNodes(g)| - |out|
    {
      SortHead(g, queue, out);
      var more;
      ToSetSnoc(out, queue[0]);
      counts, more := Spend(g, queue[0], ToSet(out), counts);
      SortStep(g, queue, out, more);
      queue, out := queue[1..] + more, out + [queue[0]];
    }
    if |out| == |AllNodes(g)| {
      SortedWell(g, out);
      r := Some(out);
    } else {
      StuckHasCycle(g, out);
      CycleNotAcyclic(g);
      r := None;
    }
  }

  /** `has_cycle`: exactly when the live graph has one. */
  method HasCycle(g: Graph) returns (r: bool)
    requires Exact(g)
    ensures r <==> exists c :: IsCycle(Forward(g, None), c)
  {
    hide Exact, IsCycle, EdgesForward, NoDup;
    var order := TopologicalSort(g);
    r := order.None?;
  }

  lemma {:induction false} CycleNotAcyclic(g: Graph)
    requires exists c :: IsCycle(Forward(g, None), c)
    ensures !Acyclic(Forward(g, None))
  {
  }

  /** The nodes with nothing arriving, in some order; the source sorts them by id. */
  method ClearNodes(g: Graph, counts: map<string, int>) returns (queue: seq<string>)
    requires counts == Counts(g, {})
    ensures NoDup(queue) && ToSet(queue) == Clear(g, {})
  {
    hide Counts, Clear, AllNodes;
    CountKnown(g, {});
    queue := [];
    var todo := set v | v in counts && counts[v] == 0;
    ClearIs(g, todo, counts);
    ghost var all := todo;
    while todo != {}
      invariant todo <= all && NoDup(queue) && ToSet(queue) == all - todo
    {
      var v :| v in todo;
      assert v !in ToSet(queue);
      ToSetSnoc(queue, v);
      queue, todo := queue + [v], todo - {v};
    }
  }

  lemma {:induction false} ClearIs(g: Graph, s: set<string>, counts: map<string, int>)
    requires counts == Counts(g, {}) && s == set v | v in counts && counts[v] == 0
    ensures s == Clear(g, {})
  {
    forall v ensures v in s <==> v in Clear(g, {}) {
      if v in AllNodes(g) { CountZero(g, {}, v); }
    }
  }
}
