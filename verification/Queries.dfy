/** Index-backed queries give the answers of a full scan. */
module Queries {
  import opened Base
  import opened Ontologies
  import opened Paths
  import opened Graphs
  import opened GraphInvariant

  /** The live edges with live endpoints that leave `n`, by scanning all edges. */
  function EdgesFrom(g: Graph, n: string): set<string> { set e | e in AllEdges(g) && g.edges[e].source == n }

  function EdgesInto(g: Graph, n: string): set<string> { set e | e in AllEdges(g) && g.edges[e].target == n }

  /** The outgoing index answers like a full scan exactly for live nodes, and for dead ones with nothing to report. */
  lemma {:induction false} OutgoingAgrees(g: Graph, n: string)
    requires Exact(g)
    ensures OutgoingEdges(g, n) == EdgesFrom(g, n) <==> IsLive(g, n) || OutgoingEdges(g, n) == {}
  {
    assert Succ(g.outgoing, n) == set e | e in Sources(g.edges) && Sources(g.edges)[e] == n;
    forall e | e in g.edges ensures e in Succ(g.outgoing, n) <==> g.edges[e].source == n {
      assert e in Sources(g.edges) && Sources(g.edges)[e] == g.edges[e].source;
    }
    if !IsLive(g, n) { assert EdgesFrom(g, n) == {}; }
  }

  lemma {:induction false} IncomingAgrees(g: Graph, n: string)
    requires Exact(g)
    ensures IncomingEdges(g, n) == EdgesInto(g, n) <==> IsLive(g, n) || IncomingEdges(g, n) == {}
  {
    assert Succ(g.incoming, n) == set e | e in Targets(g.edges) && Targets(g.edges)[e] == n;
    forall e | e in g.edges ensures e in Succ(g.incoming, n) <==> g.edges[e].target == n {
      assert e in Targets(g.edges) && Targets(g.edges)[e] == g.edges[e].target;
    }
    if !IsLive(g, n) { assert EdgesInto(g, n) == {}; }
  }

  // -- Types ---------------------------------------------------------------------------------------------------

  /** Parent links as a graph. */
  function ParentLinks(o: Ontology): map<string, set<string>> {
    map t | t in o.nodeTypes && o.nodeTypes[t].parent.Some? :: {o.nodeTypes[t].parent.value}
  }

  /** `x` is found on the chain exactly when it is between one and `n` parent links away. */
  lemma {:induction false} ChainReaches(o: Ontology, t: string, n: nat, x: string)
    ensures x in Chain(o, t, n) <==> exists p :: Joins(ParentLinks(o), t, x, p) && 2 <= |p| <= n + 1
    decreases n
  {
    var g := ParentLinks(o);
    if n > 0 && ParentOf(o, t).Some? {
      var u := ParentOf(o, t).value;
      ChainReaches(o, u, n - 1, x);
      assert Succ(g, t) == {u};
      if x in Chain(o, t, n) {
        if x == u {
          assert Joins(g, t, x, [t, u]);
        } else {
          var q :| Joins(g, u, x, q) && 2 <= |q| <= n;
          LinkFront(g, t, u, x, q);
        }
      }
      if p :| Joins(g, t, x, p) && 2 <= |p| <= n + 1 {
        assert p[1] in Succ(g, p[0]);
        assert p[1] == u;
        if |p| > 2 { DropFront(g, t, x, p); }
      }
    } else {
      forall p | Joins(g, t, x, p) && 2 <= |p| ensures t in g {
        assert p[1] in Succ(g, p[0]);
      }
    }
  }

  lemma {:induction false} LinkFront(g: map<string, set<string>>, t: string, u: string, x: string, q: seq<string>)
    requires u in Succ(g, t) && Joins(g, u, x, q)
    ensures Joins(g, t, x, [t] + q)
  {
    var p := [t] + q;
    forall i | 0 <= i < |p| - 1 ensures p[i + 1] in Succ(g, p[i]) {
      if i > 0 { assert p[i] == q[i - 1] && p[i + 1] == q[i] && q[i - 1 + 1] in Succ(g, q[i - 1]); }
    }
  }

  lemma {:induction false} DropFront(g: map<string, set<string>>, t: string, x: string, p: seq<string>)
    requires Joins(g, t, x, p) && |p| > 1
    ensures Joins(g, p[1], x, p[1..])
  {
    var q := p[1..];
    forall i | 0 <= i < |q| - 1 ensures q[i + 1] in Succ(g, q[i]) {
      assert p[i + 2] in Succ(g, p[i + 1]);
    }
  }

  /** For every ontology, cyclic ones included: a subtype is what is at most a hundred parent links away. */
  lemma {:induction false} SubtypeIsWithin(o: Ontology, u: string, t: string)
    ensures IsSubtypeOf(o, u, t) <==> Within(ParentLinks(o), u, t, MAX_LEVELS)
  {
    hide Chain;
    var g := ParentLinks(o);
    ChainReaches(o, u, MAX_LEVELS, t);
    assert u == t ==> Joins(g, u, t, [u]);
    if u != t && Within(g, u, t, MAX_LEVELS) {
      var p :| Joins(g, u, t, p) && |p| <= MAX_LEVELS + 1;
      assert |p| != 1;
    }
  }

  /** Too few types for a chain of more than a hundred links. */
  predicate Shallow(o: Ontology) { |o.nodeTypes| <= MAX_LEVELS || (SelfValid(o) && |o.nodeTypes| <= MAX_LEVELS + 1) }

  /** Then the guard never hides an ancestor. */
  lemma {:induction false} SubtypeIsReach(o: Ontology, u: string, t: string)
    requires Shallow(o)
    ensures IsSubtypeOf(o, u, t) <==> Reaches(ParentLinks(o), u, t)
  {
    hide Chain, SelfValid, IsSubtypeOf, ParentLinks;
    var g := ParentLinks(o);
    SubtypeIsWithin(o, u, t);
    if Reaches(g, u, t) {
      var p :| Joins(g, u, t, p);
      var q := SimplePath(g, u, t, p);
      var n := |q| - 1;
      LinksInside(o, u, t, q);
      NoDupWithin(q[..n], o.nodeTypes.Keys);
      if SelfValid(o) && n > 0 { NoDupWithin(q, o.nodeTypes.Keys); }
    }
  }

  lemma {:induction false} LinksInside(o: Ontology, u: string, t: string, q: seq<string>)
    requires Joins(ParentLinks(o), u, t, q)
    ensures ToSet(q[..|q| - 1]) <= o.nodeTypes.Keys && (SelfValid(o) && |q| > 1 ==> ToSet(q) <= o.nodeTypes.Keys)
  {
    var g, n := ParentLinks(o), |q| - 1;
    forall i | 0 <= i < n ensures q[i] in o.nodeTypes { assert q[i + 1] in Succ(g, q[i]); }
    if SelfValid(o) && n > 0 {
      assert q[n - 1 + 1] in Succ(g, q[n - 1]);
      assert q[n] in o.nodeTypes;
    }
  }

  /**
   * `nodes_by_type` is exactly the live nodes whose type reaches `t` by at most a hundred parent links, by
   * any number of them where there are too few types for more; each is listed under one type only.
   */
  lemma {:induction false} NodesByTypeExact(g: Graph, t: string)
    requires Exact(g)
    ensures NodesByType(g, t) ==
      set id | id in g.nodes && IsLive(g, id) && Within(ParentLinks(g.ontology), g.nodes[id].nodeType, t, MAX_LEVELS)
    ensures Shallow(g.ontology) ==>
      NodesByType(g, t) == set id | id in g.nodes && IsLive(g, id) && Reaches(ParentLinks(g.ontology), g.nodes[id].nodeType, t)
    ensures forall id, u, v :: id in Succ(g.byType, u) && id in Succ(g.byType, v) ==> u == v
  {
    hide IsSubtypeOf, Reaches, Within, ParentLinks, Shallow;
    forall id, u ensures id in Succ(g.byType, u) <==> id in g.nodes && g.nodes[id].nodeType == u {
      assert Succ(g.byType, u) == set x | x in Kinds(g.nodes) && Kinds(g.nodes)[x] == u;
    }
    forall id | id in g.nodes && IsLive(g, id)
      ensures id in NodesByType(g, t) <==> Within(ParentLinks(g.ontology), g.nodes[id].nodeType, t, MAX_LEVELS)
      ensures Shallow(g.ontology) ==> (id in NodesByType(g, t) <==> Reaches(ParentLinks(g.ontology), g.nodes[id].nodeType, t))
    {
      var u := g.nodes[id].nodeType;
      SubtypeIsWithin(g.ontology, u, t);
      if Shallow(g.ontology) { SubtypeIsReach(g.ontology, u, t); }
      SubtypeIsListed(g.ontology, u, t);
      assert id in Succ(g.byType, u);
    }
  }

  lemma {:induction false} SubtypeIsListed(o: Ontology, u: string, t: string)
    ensures IsSubtypeOf(o, u, t) <==> u in {t} + Descendants(o, t)
  {
    if u != t && u !in o.nodeTypes { assert ParentOf(o, u) == None; }
  }

  // -- A hierarchy the guard cuts short --------------------------------------------------------------------------

  function Name(i: nat): string { seq(i, _ => 'a') }

  function Names(from: nat, k: nat): seq<string> { seq(k, j requires 0 <= j < k => Name(from + j)) }

  /** A chain of `n` types, each the child of the next. */
  function Tower(n: nat): Ontology {
    Ontology(map s | s in ToSet(Names(0, n)) :: NodeTypeDef(map[], None, if |s| + 1 < n then Some(Name(|s| + 1)) else None),
             map[])
  }

  lemma {:induction false} InTower(n: nat, i: nat)
    requires i < n
    ensures Name(i) in Tower(n).nodeTypes && |Name(i)| == i
  {
    assert Names(0, n)[i] == Name(i);
  }

  lemma {:induction false} TowerChain(n: nat, i: nat, k: nat)
    requires i + k < n
    ensures Chain(Tower(n), Name(i), k) == Names(i + 1, k)
    decreases k
  {
    if k > 0 {
      InTower(n, i);
      assert ParentOf(Tower(n), Name(i)) == Some(Name(i + 1));
      TowerChain(n, i + 1, k - 1);
      var a, b := Chain(Tower(n), Name(i), k), Names(i + 1, k);
      forall j | 0 <= j < k ensures a[j] == b[j] {
        if j > 0 { assert a[j] == Name(i + 2 + (j - 1)); }
      }
    }
  }

  lemma {:induction false} TowerSound(n: nat)
    ensures |Tower(n).nodeTypes| == n && SelfValid(Tower(n))
  {
    var names, o := Names(0, n), Tower(n);
    forall i, j | 0 <= i < j < n ensures names[i] != names[j] {
      assert names[i] == Name(i) && names[j] == Name(j);
    }
    NoDupSize(names);
    assert o.nodeTypes.Keys == ToSet(names);
    assert |o.nodeTypes| == |o.nodeTypes.Keys|;
    forall t | t in o.nodeTypes && o.nodeTypes[t].parent.Some? ensures o.nodeTypes[t].parent.value in o.nodeTypes { InTower(n, |t| + 1); }
  }

  /** With 102 types, every parent known, the guard cuts an ancestor off: one type more than is safe. */
  lemma {:induction false} GuardCutsDeepTower()
    ensures Reaches(ParentLinks(Tower(102)), Name(0), Name(101))
    ensures !IsSubtypeOf(Tower(102), Name(0), Name(101)) && |Tower(102).nodeTypes| == MAX_LEVELS + 2 && SelfValid(Tower(102))
  {
    hide Tower, SelfValid, Reaches, IsSubtypeOf;
    TowerSound(102);
    TowerCut();
  }

  lemma {:induction false} TowerCut()
    ensures Reaches(ParentLinks(Tower(102)), Name(0), Name(101)) && !IsSubtypeOf(Tower(102), Name(0), Name(101))
  {
    hide Chain;
    var o := Tower(102);
    TowerChain(102, 0, MAX_LEVELS);
    assert |Name(0)| == 0 && |Name(101)| == 101;
    forall x | x in Chain(o, Name(0), MAX_LEVELS) ensures |x| <= 100 {
      var j :| 0 <= j < 100 && x == Chain(o, Name(0), MAX_LEVELS)[j];
      assert x == Name(1 + j);
    }
    var p := Names(0, 102);
    forall i | 0 <= i < |p| - 1 ensures p[i + 1] in Succ(ParentLinks(o), p[i]) {
      InTower(102, i);
    }
    assert Joins(ParentLinks(o), Name(0), Name(101), p);
  }
}
