/**
 * A condition on log and ontology under which every write to a node takes effect, whatever the order of arrival:
 * then the graph a peer shows, that of any peer with the same log and any rebuild agree on the node.
 */
module Steady {
  import opened Base
  import opened Clocks
  import opened Ontologies
  import opened Entries
  import opened Paths
  import opened Dag
  import opened Graphs
  import opened Outcomes
  import opened Histories
  import opened Worlds
  import Lww

  predicate Adds(l: Log, h: Hash, id: string) { h in l && l[h].payload.AddNode? && l[h].payload.nodeId == id }

  /** An add of `id` lies at or below `h`. */
  ghost predicate Rooted(l: Log, id: string, h: Hash) { exists a :: Adds(l, a, id) && Below(l, a, h) }

  /** The update passes under every type and subtype that an add of `id` names. */
  ghost predicate FitsAll(env: Env, o: Ontology, l: Log, id: string, k: string, v: Value) {
    forall a, b :: Adds(l, a, id) && Adds(l, b, id) ==> ValidNodeUpdate(env.accepts, o, l[a].payload.nodeType, l[b].payload.subtype, k, v)
  }

  ghost predicate Sure(env: Env, o: Ontology, l: Log, id: string, e: Entry) {
    if e.payload.AddNode? then GoodAdd(env, o, id, e)
    else Rooted(l, id, e.hash) && (e.payload.UpdateProperty? ==> FitsAll(env, o, l, id, e.payload.key, e.payload.value))
  }

  /** Adds of `id` are acceptable, updates fit them, and whatever else concerns `id` comes causally after one. */
  ghost predicate SureOf(env: Env, o: Ontology, l: Log, id: string) {
    forall h :: h in l && !Foreign(l[h], id) ==> Sure(env, o, l, id, l[h])
  }

  /** All writes to `id` in the log. */
  function AllWrites(l: Log, id: string): set<Lww.Write> { set h | h in l && !Foreign(l[h], id) :: WriteOf(l[h]) }

  // -- Causes have been applied ----------------------------------------------------------------------------------------

  lemma {:induction false} AncestorEarlier(l: Log, es: seq<Entry>, n: nat, a: Hash)
    requires Lists(l, es) && ParentsEarlier(es) && n < |es| && Below(l, a, es[n].hash)
    ensures Earlier(es, n + 1, a)
  {
    hide Reaches;
    var seen := set j | 0 <= j < n + 1 :: es[j].hash;
    assert es[n].hash in seen;
    forall h | h in seen ensures Succ(ParentMap(l), h) <= seen {
      var j :| 0 <= j < n + 1 && es[j].hash == h;
      forall p | p in Succ(ParentMap(l), h) ensures p in seen {
        assert es[j] in es && p in es[j].next;
        assert Earlier(es, j, p);
        var i :| 0 <= i < j && es[i].hash == p;
        assert i < n + 1;
      }
    }
    ClosedKeepsReach(ParentMap(l), seen, es[n].hash, a);
  }

  lemma {:induction false} ConcerningHas(es: seq<Entry>, id: string)
    ensures forall w :: w in Concerning(es, id) <==> exists e :: e in es && !Foreign(e, id) && w == WriteOf(e)
  {
    hide Foreign, WriteOf;
    if es != [] {
      var init, e := es[..|es| - 1], es[|es| - 1];
      ConcerningHas(init, id);
      assert es == init + [e];
      forall w ensures w in Concerning(es, id) <==> exists x :: x in es && !Foreign(x, id) && w == WriteOf(x) {
        if x :| x in es && !Foreign(x, id) && w == WriteOf(x) { assert x == e || x in init; }
      }
    }
  }

  // -- Every write takes effect ----------------------------------------------------------------------------------------

  /** The node has a type and a subtype that adds of it name. */
  ghost predicate Named(l: Log, g: Graph, id: string) {
    id in g.nodes ==> exists a, b ::
      Adds(l, a, id) && Adds(l, b, id) && g.nodes[id].nodeType == l[a].payload.nodeType && g.nodes[id].subtype == l[b].payload.subtype
  }

  lemma {:induction false} NamedNext(env: Env, l: Log, g: Graph, e: Entry, id: string, g': Graph)
    requires Named(l, g, id) && Did(env, g, e, id, g') && e.hash in l && l[e.hash] == e
    ensures Named(l, g', id)
  {
    hide ValidNode, ValidUpdate, MergeCells, SetCell, Wins;
    if id in g'.nodes && AdmittedWrite(env, g, e, id).Some? {
      if id in g.nodes {
        var a, b :| Adds(l, a, id) && Adds(l, b, id) && g.nodes[id].nodeType == l[a].payload.nodeType && g.nodes[id].subtype == l[b].payload.subtype;
        assert g'.nodes[id].subtype == g.nodes[id].subtype || Adds(l, e.hash, id);
      } else {
        assert Adds(l, e.hash, id);
      }
    }
  }

  /** The next entry, if it concerns the node, is admitted. */
  lemma {:induction false} NextSure(env: Env, l: Log, g: Graph, e: Entry, id: string)
    requires Named(l, g, id) && (Foreign(e, id) || Sure(env, g.ontology, l, id, e)) && (!Foreign(e, id) && !e.payload.AddNode? ==> id in g.nodes)
    ensures AdmittedWrite(env, g, e, id) == if Foreign(e, id) then None else Some(WriteOf(e))
  {
    hide ValidNode, ValidNodeUpdate, Rooted;
    if e.payload.UpdateProperty? && !Foreign(e, id) {
      var a, b :| Adds(l, a, id) && Adds(l, b, id) && g.nodes[id].nodeType == l[a].payload.nodeType && g.nodes[id].subtype == l[b].payload.subtype;
    }
  }

  lemma {:induction false} RootApplied(l: Log, es: seq<Entry>, n: nat, id: string)
    requires Lists(l, es) && ParentsEarlier(es) && n < |es| && !es[n].payload.AddNode? && Rooted(l, id, es[n].hash)
    ensures Concerning(es[..n], id) != []
  {
    hide Lists, ParentsEarlier, Below, WriteOf, Concerning;
    var a :| Adds(l, a, id) && Below(l, a, es[n].hash);
    AncestorEarlier(l, es, n, a);
    var j :| 0 <= j < n + 1 && es[j].hash == a;
    Listed(l, es, j);
    assert es[j] == l[a] && j != n;
    assert es[..n][j] == es[j];
    ConcerningHas(es[..n], id);
    assert WriteOf(es[j]) in Concerning(es[..n], id);
  }

  lemma {:induction false} Listed(l: Log, es: seq<Entry>, j: nat)
    requires Lists(l, es) && j < |es|
    ensures es[j].hash in l && l[es[j].hash] == es[j]
  {
  }

  lemma {:induction false} SurePrefix(env: Env, l: Log, r: Replica, id: string, n: nat)
    requires Grounded(env, l, r) && n <= |r.applied| && SureOf(env, r.graphs[0].ontology, l, id)
    ensures WritesAlong(env, r.applied[..n], r.graphs, id) == Concerning(r.applied[..n], id) && Named(l, r.graphs[n], id)
  {
    hide MayTake, Lists, ParentsEarlier, Named, Sure, Foreign, WriteOf, AdmittedWrite, Explains, Did;
    if n > 0 {
      var m, es := n - 1, r.applied;
      var e, g := es[m], r.graphs[m];
      SurePrefix(env, l, r, id, m);
      Listed(l, es, m);
      assert e in es;
      OntologyStays(env, es, r.graphs, m);
      PrefixExplained(env, l, r, id, m);
      assert Foreign(e, id) || Sure(env, g.ontology, l, id, e);
      if !Foreign(e, id) && !e.payload.AddNode? {
        SureRooted(env, g.ontology, l, id, e);
        RootApplied(l, es, m, id);
        assert id in g.nodes by { ExplainedPresent(g, id, Concerning(es[..m], id)); }
      }
      NextSure(env, l, g, e, id);
      EntryDid(env, g, e, id, r.graphs[m + 1]);
      NamedNext(env, l, g, e, id, r.graphs[m + 1]);
      assert es[..n][..m] == es[..m] && es[..n][m] == e;
    } else {
      NothingNamed(l, r.graphs[0], id);
    }
  }

  lemma {:induction false} NothingNamed(l: Log, g: Graph, id: string)
    requires g.nodes == map[]
    ensures Named(l, g, id)
  {
  }

  lemma {:induction false} SureRooted(env: Env, o: Ontology, l: Log, id: string, e: Entry)
    requires Sure(env, o, l, id, e) && !e.payload.AddNode?
    ensures Rooted(l, id, e.hash)
  {
  }

  lemma {:induction false} ExplainedPresent(g: Graph, id: string, h: seq<Lww.Write>)
    requires Explains(g, id, h) && h != []
    ensures id in g.nodes
  {
  }

  lemma {:induction false} PrefixExplained(env: Env, l: Log, r: Replica, id: string, m: nat)
    requires Grounded(env, l, r) && m <= |r.applied|
    ensures Explains(r.graphs[m], id, WritesAlong(env, r.applied[..m], r.graphs, id))
  {
    hide MayTake, Lists, ParentsEarlier, Explains, AdmittedWrite;
    var es, states := r.applied[..m], r.graphs[..m + 1];
    assert Trail(env, es, states) by {
      forall k | 0 <= k < |es| ensures MayTake(env, states[k], es[k], states[k + 1]) {
        assert MayTake(env, r.graphs[k], r.applied[k], r.graphs[k + 1]);
      }
    }
    assert forall e :: e in es ==> e in r.applied;
    TrailHistory(env, es, states, id);
    HistoryPrefix(env, es, states, r.graphs, id);
  }

  /** Exactly the log's writes to the node took effect. */
  lemma {:induction false} SureWrites(env: Env, l: Log, r: Replica, id: string)
    requires Grounded(env, l, r) && SureOf(env, r.graphs[0].ontology, l, id)
    ensures ToSet(WritesOn(env, r, id)) == AllWrites(l, id)
  {
    hide MayTake, ParentsEarlier, SureOf, Foreign, WriteOf, WritesAlong, Concerning, Named;
    var es := r.applied;
    SurePrefix(env, l, r, id, |es|);
    assert es[..|es|] == es;
    ConcerningHas(es, id);
    forall w ensures w in ToSet(Concerning(es, id)) <==> w in AllWrites(l, id) {
      if w in ToSet(Concerning(es, id)) {
        var e :| e in es && !Foreign(e, id) && w == WriteOf(e);
        assert e.hash in l && l[e.hash] == e;
      }
      if w in AllWrites(l, id) {
        var h :| h in l && !Foreign(l[h], id) && w == WriteOf(l[h]);
        assert l[h] in es;
      }
    }
  }

  /** Two replicas of one log over one base, on a node whose writes are sure. */
  lemma {:induction false} SureReplicasAgree(env: Env, l: Log, r: Replica, q: Replica, id: string)
    requires Grounded(env, l, r) && Grounded(env, l, q) && r.base == q.base && Lww.Consistent(AllWrites(l, id))
    requires SureOf(env, Shown(r).ontology, l, id)
    ensures AgreeOn(Shown(r), Shown(q), id)
    ensures id in Shown(r).nodes && !Lww.RemoveWins(AllWrites(l, id)) ==> !Shown(r).nodes[id].dead && !Shown(q).nodes[id].dead
  {
    hide MayTake, Lists, ParentsEarlier, SureOf, WritesOn, Lww.Consistent, Lww.RemoveWins, AllWrites;
    SameOntology(env, l, r, q);
    SureWrites(env, l, r, id);
    SureWrites(env, l, q, id);
    ReplicasAgree(env, l, r, l, q, id);
  }

  /**
   * In every run, on every node whose writes are sure: the graph a peer shows agrees with any rebuild of its log
   * on the properties, their clocks and the add clock, and both show it live unless a remove is later than every add.
   */
  lemma {:induction false} EveryRunSteady(env: Env, ws: seq<World>, turns: seq<Turn>, i: nat, rebuilt: Replica, id: string)
    requires Run(env, ws, turns) && i < |ws[|turns|].replicas| == |ws[|turns|].net.peers|
    requires var w := ws[|turns|];
      var l := w.net.peers[i].log;
      && Rebuilds(env, l, w.replicas[i], rebuilt) && w.replicas[i].graphs != [] && Lww.Consistent(AllWrites(l, id))
      && SureOf(env, Shown(w.replicas[i]).ontology, l, id)
    ensures var shown, anew := Shown(ws[|turns|].replicas[i]), Shown(rebuilt);
      && AgreeOn(shown, anew, id)
      && (id in shown.nodes && !Lww.RemoveWins(AllWrites(ws[|turns|].net.peers[i].log, id)) ==> !shown.nodes[id].dead && !anew.nodes[id].dead)
  {
    hide Turns, Begins, Network.Inv, Grounded, SureOf, Lww.Consistent, Lww.RemoveWins, AllWrites, WellFormed, DistinctParents, AgreeOn;
    BeginsInv(env, ws[0]);
    PathKeepsInv(env, ws, turns, |turns|);
    var w := ws[|turns|];
    SoundPeer(env.digest, w.net, i);
    RebuildGrounds(env, w.net.peers[i].log, w.replicas[i], rebuilt);
    RebuildBase(env, w.net.peers[i].log, w.replicas[i], rebuilt);
    SureReplicasAgree(env, w.net.peers[i].log, w.replicas[i], rebuilt, id);
  }

  /** The same of two peers that hold the same log, however differently it reached them. */
  lemma {:induction false} EveryRunPeersAgree(env: Env, ws: seq<World>, turns: seq<Turn>, i: nat, j: nat, id: string)
    requires Run(env, ws, turns) && i < |ws[|turns|].replicas| == |ws[|turns|].net.peers| && j < |ws[|turns|].replicas|
    requires var w := ws[|turns|];
      var l := w.net.peers[i].log;
      && w.net.peers[j].log == l && w.replicas[i].base == w.replicas[j].base
      && w.replicas[i].graphs != [] && w.replicas[j].graphs != [] && SureOf(env, Shown(w.replicas[i]).ontology, l, id) && Lww.Consistent(AllWrites(l, id))
    ensures var g, h := Shown(ws[|turns|].replicas[i]), Shown(ws[|turns|].replicas[j]);
      && AgreeOn(g, h, id)
      && (id in g.nodes && !Lww.RemoveWins(AllWrites(ws[|turns|].net.peers[i].log, id)) ==> !g.nodes[id].dead && !h.nodes[id].dead)
  {
    hide Turns, Begins, Network.Inv, Grounded, SureOf, Lww.Consistent, Lww.RemoveWins, AllWrites, AgreeOn;
    BeginsInv(env, ws[0]);
    PathKeepsInv(env, ws, turns, |turns|);
    var w := ws[|turns|];
    SureReplicasAgree(env, w.net.peers[i].log, w.replicas[i], w.replicas[j], id);
  }
}
