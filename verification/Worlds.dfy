/**
 * Peers with graphs. A peer applies what it writes and what it is sent as it arrives, entries it already
 * holds included, and rebuilds only when the schema changes: what its graph then shares with a rebuild of
 * its log, and a run after which the two differ.
 */
module Worlds {
  import opened Base
  import opened Ontologies
  import opened Entries
  import opened Dag
  import opened Topo
  import opened Stability
  import opened OpLogs
  import opened Sync
  import opened Merge
  import opened Partial
  import opened Convergence
  import opened Graphs
  import opened Outcomes
  import opened Histories
  import opened Replicas
  import opened Network
  import opened Rings
  import Lww

  /** What was applied since the graph was last cleared, and the graph before, between and after. */
  datatype Replica = Replica(base: Ontology, applied: seq<Entry>, graphs: seq<Graph>)

  ghost function Shown(r: Replica): Graph
    requires r.graphs != []
  {
    r.graphs[|r.graphs| - 1]
  }

  datatype World = World(net: Net, replicas: seq<Replica>)

  datatype Turn = Acts(step: Step) | Revalidates(i: nat)

  /** The entries applied one after another to the graph as it is. */
  ghost predicate Extends(env: Env, r: Replica, es: seq<Entry>, r': Replica) {
    var n := |r.graphs|;
    && r'.base == r.base && r'.applied == r.applied + es
    && 0 < n && |r'.graphs| == n + |es| && r'.graphs[..n] == r.graphs
    && forall k :: 0 <= k < |es| ==> MayApply(env, r'.graphs[n - 1 + k], es[k], Full, false, r'.graphs[n + k])
  }

  /** The graph rebuilt from the log. */
  ghost predicate Rebuilds(env: Env, l: Log, r: Replica, r': Replica) {
    && WellFormed(l) && r'.base == r.base && r'.applied == Replayed(l)
    && Trail(env, r'.applied, r'.graphs) && r'.graphs[0] == FoldAll(EmptyGraph(r'.base), r'.applied)
  }

  predicate ChangesSchema(es: seq<Entry>) { exists e :: e in es && IsSchema(e) }

  /** A local write is applied; a schema change rebuilds. */
  ghost predicate WritesTo(env: Env, p: Peer, e: Entry, r: Replica, r': Replica) {
    if e.payload.ExtendOntology? then Rebuilds(env, p.log, r, r') else Extends(env, r, [e], r')
  }

  /** What a delivery to `p` applies: all admitted entries of the batch, in the causal order of the new log. */
  ghost predicate Receives(env: Env, p: Peer, reply: Reply, r: Replica, r': Replica) {
    var admitted := Network.Admitted(p.clock, reply.batch);
    var log := Absorb(p.log, admitted);
    if !WithinLimits(reply.batch, reply.bytes) || !Founded(log) || HashesOf(admitted) <= p.log.Keys then r' == r
    else if ChangesSchema(admitted) then Rebuilds(env, log, r, r')
    else Extends(env, r, EntriesAt(log, DeliveredOrder(log, admitted)), r')
  }

  ghost predicate OnlyAt(w: World, w': World, i: nat) {
    && |w'.replicas| == |w.replicas| == |w.net.peers| && i < |w.replicas|
    && forall k :: 0 <= k < |w.replicas| && k != i ==> w'.replicas[k] == w.replicas[k]
  }

  ghost predicate Turns(env: Env, w: World, turn: Turn, w': World) {
    match turn
    case Revalidates(i) => w'.net == w.net && OnlyAt(w, w', i) && Rebuilds(env, w.net.peers[i].log, w.replicas[i], w'.replicas[i])
    case Acts(step) =>
      && Enabled(env.digest, w.net, step) && w'.net == After(env.digest, w.net, step)
      && match step
         case Write(i, op, next, wall) =>
           OnlyAt(w, w', i) && |w'.net.peers| == |w.net.peers|
           && WritesTo(env, w'.net.peers[i], WrittenBy(env.digest, w.net.peers[i], op, next, wall), w.replicas[i], w'.replicas[i])
         case Deliver(k, _) =>
           var i := w.net.replies[k].to;
           OnlyAt(w, w', i) && Receives(env, w.net.peers[i], w.net.replies[k], w.replicas[i], w'.replicas[i])
         case _ => w'.replicas == w.replicas
  }

  /** Every peer starts with its root and the graph built from it. */
  ghost predicate Begins(env: Env, w: World) {
    && Initial(env.digest, w.net) && |w.replicas| == |w.net.peers|
    && forall i :: 0 <= i < |w.replicas| ==> Rebuilds(env, w.net.peers[i].log, w.replicas[i], w.replicas[i])
  }

  ghost predicate Path(env: Env, ws: seq<World>, turns: seq<Turn>) {
    |ws| == |turns| + 1 && forall k :: 0 <= k < |turns| ==> Turns(env, ws[k], turns[k], ws[k + 1])
  }

  ghost predicate Run(env: Env, ws: seq<World>, turns: seq<Turn>) { Path(env, ws, turns) && Begins(env, ws[0]) }

  // -- What every run keeps --------------------------------------------------------------------------------------------

  /** The entries are those of the log, each at least once. */
  ghost predicate Lists(l: Log, es: seq<Entry>) {
    (forall e :: e in es ==> e.hash in l && l[e.hash] == e) && forall h :: h in l ==> l[h] in es
  }

  ghost predicate Earlier(es: seq<Entry>, k: nat, h: Hash)
    requires k <= |es|
  {
    exists j :: 0 <= j < k && es[j].hash == h
  }

  /** Whenever an entry is applied, its predecessors have been. */
  ghost predicate ParentsEarlier(es: seq<Entry>) { forall k, p :: 0 <= k < |es| && p in es[k].next ==> Earlier(es, k, p) }

  /** The graph a rebuild of the log starts from: empty but for the ontology. */
  ghost function StartOf(base: Ontology, l: Log): Graph
    requires WellFormed(l)
  {
    FoldAll(EmptyGraph(base), Replayed(l))
  }

  /** The graph came about by applying exactly the entries of the log, causes first, from where a rebuild would start. */
  ghost predicate Grounded(env: Env, l: Log, r: Replica) {
    && Trail(env, r.applied, r.graphs) && r.graphs[0].nodes == map[] && Lists(l, r.applied) && NoCheckpoints(r.applied)
    && ParentsEarlier(r.applied) && WellFormed(l) && r.graphs[0] == StartOf(r.base, l)
  }

  ghost predicate WorldInv(env: Env, w: World) {
    && Network.Inv(env.digest, w.net) && |w.replicas| == |w.net.peers|
    && forall i :: 0 <= i < |w.replicas| ==> Grounded(env, w.net.peers[i].log, w.replicas[i])
  }

  lemma {:induction false} FoldNodes(g: Graph, es: seq<Entry>)
    ensures FoldAll(g, es).nodes == g.nodes
  {
    hide Fold;
    if es != [] {
      FoldNodes(g, es[..|es| - 1]);
      FoldLeavesNodes(FoldAll(g, es[..|es| - 1]), es[|es| - 1]);
    }
  }

  lemma {:induction false} FoldLeavesNodes(g: Graph, e: Entry)
    ensures Fold(g, e).nodes == g.nodes
  {
    hide MergeExtension, LastDefined, Quarantine;
    match e.payload {
      case ExtendOntology(x) => AsideNodes(g.(ontology := MergeExtension(g.ontology, x).0), e.hash);
      case _ =>
    }
  }

  lemma {:induction false} AsideNodes(g: Graph, h: Hash)
    ensures Quarantine(g, h, "extend_ontology").nodes == g.nodes
  {
  }

  predicate IsSchema(e: Entry) { e.payload.ExtendOntology? || e.payload.Checkpoint? }

  /** Only schema entries matter to the start. */
  lemma {:induction false} FoldSkips(l: Log, order: seq<Hash>, t: set<Hash>, g: Graph)
    requires (forall h :: h in order ==> h in l) && forall h :: h in order && h !in t ==> !IsSchema(l[h])
    ensures FoldAll(g, EntriesAt(l, order)) == FoldAll(g, EntriesAt(l, Keep(order, t)))
  {
    hide FoldAll, Keep, IsSchema, Fold;
    if order == [] {
      KeepNone(t);
    } else {
      var init, h := order[..|order| - 1], order[|order| - 1];
      assert order == init + [h];
      FoldSkips(l, init, t, g);
      KeepSnoc(init, h, t);
      FoldLast(l, init, h, g);
      if h in t {
        FoldLast(l, Keep(init, t), h, g);
      } else {
        assert Keep(order, t) == Keep(init, t);
        FoldNothing(FoldAll(g, EntriesAt(l, init)), l[h]);
      }
    }
  }

  lemma {:induction false} FoldLast(l: Log, init: seq<Hash>, h: Hash, g: Graph)
    requires (forall x :: x in init ==> x in l) && h in l
    ensures FoldAll(g, EntriesAt(l, init + [h])) == Fold(FoldAll(g, EntriesAt(l, init)), l[h])
  {
    hide Fold;
    assert EntriesAt(l, init + [h])[..|init|] == EntriesAt(l, init);
  }

  lemma {:induction false} FoldNothing(g: Graph, e: Entry)
    requires !IsSchema(e)
    ensures Fold(g, e) == g
  {
  }

  /** A log that grows by anything but schema entries starts its rebuilds from the same graph. */
  lemma {:induction false} StartStands(base: Ontology, l: Log, l': Log)
    requires WellFormed(l) && WellFormed(l') && Sublog(l, l') && forall h :: h in l' && h !in l ==> !IsSchema(l'[h])
    ensures StartOf(base, l) == StartOf(base, l')
  {
    hide CausalOrder, FoldAll, Founded, IsSchema;
    OrderKnown(l);
    OrderKnown(l');
    GrowthKeepsOrder(l, l');
    var order := CausalOrder(l', l'.Keys);
    FoldSkips(l', order, l.Keys, EmptyGraph(base));
    assert EntriesAt(l', Keep(order, l.Keys)) == EntriesAt(l, CausalOrder(l, l.Keys));
  }

  lemma {:induction false} ReplayedLists(l: Log)
    requires WellFormed(l) && DistinctParents(l)
    ensures Lists(l, Replayed(l))
  {
    hide CausalOrder, Founded;
    WholeOrder(l);
    OrderKnown(l);
    var order, es := CausalOrder(l, l.Keys), Replayed(l);
    forall h | h in l ensures l[h] in es {
      assert h in ToSet(order);
      var i :| 0 <= i < |order| && order[i] == h;
      assert es[i] == l[h];
    }
  }

  lemma {:induction false} ReplayedEarlier(l: Log)
    requires WellFormed(l)
    ensures ParentsEarlier(Replayed(l))
  {
    hide CausalOrder, Founded;
    OrderKnown(l);
    CausalOrderCorrect(l, l.Keys);
    var order, es := CausalOrder(l, l.Keys), Replayed(l);
    forall k, p | 0 <= k < |es| && p in es[k].next ensures Earlier(es, k, p) {
      assert es[k] == l[order[k]] && p in ParentsIn(l, l.Keys, order[k]);
      assert p in ToSet(order[..k]);
      var j :| 0 <= j < k && order[..k][j] == p;
      assert es[j] == l[order[j]] && es[j].hash == p;
    }
  }

  lemma {:induction false} RebuildGrounds(env: Env, l: Log, r: Replica, r': Replica)
    requires Rebuilds(env, l, r, r') && DistinctParents(l) && forall h :: h in l ==> !l[h].payload.Checkpoint?
    ensures Grounded(env, l, r')
  {
    hide Trail, FoldAll, Replayed, WellFormed, DistinctParents, ParentsEarlier;
    ReplayedLists(l);
    ReplayedEarlier(l);
    FoldNodes(EmptyGraph(r'.base), r'.applied);
  }

  lemma {:induction false} ExtendTrail(env: Env, r: Replica, es: seq<Entry>, r': Replica)
    requires Trail(env, r.applied, r.graphs) && Extends(env, r, es, r') && !ChangesSchema(es)
    ensures Trail(env, r'.applied, r'.graphs) && r'.graphs[0] == r.graphs[0]
  {
    hide MayApply;
    var n := |r.graphs|;
    forall k | 0 <= k < |r'.applied| ensures MayTake(env, r'.graphs[k], r'.applied[k], r'.graphs[k + 1]) {
      if k < |r.applied| {
        assert r'.graphs[..n][k] == r.graphs[k] && r'.graphs[..n][k + 1] == r.graphs[k + 1];
        assert MayTake(env, r.graphs[k], r.applied[k], r.graphs[k + 1]);
      } else {
        var m := k - |r.applied|;
        assert es[m] in es && MayApply(env, r'.graphs[n - 1 + m], es[m], Full, false, r'.graphs[n + m]);
      }
    }
    assert r'.graphs[..n][0] == r.graphs[0];
  }

  lemma {:induction false} ExtendGrounds(env: Env, l: Log, l': Log, r: Replica, es: seq<Entry>, r': Replica)
    requires Grounded(env, l, r) && Extends(env, r, es, r') && !ChangesSchema(es) && Sublog(l, l') && WellFormed(l')
    requires forall e :: e in es ==> e.hash in l' && l'[e.hash] == e
    requires forall h :: h in l' && h !in l ==> l'[h] in es
    requires forall k, p :: 0 <= k < |es| && p in es[k].next ==> p in l || Earlier(es, k, p)
    ensures Grounded(env, l', r')
  {
    hide Trail, MayApply, ParentsEarlier, Earlier, StartOf, WellFormed;
    WellFormedParts(l);
    ExtendTrail(env, r, es, r');
    ExtendEarlier(l, r.applied, es);
    StartStands(r.base, l, l');
  }

  lemma {:induction false} ExtendEarlier(l: Log, xs: seq<Entry>, ys: seq<Entry>)
    requires Lists(l, xs) && ParentsEarlier(xs) && forall h :: h in l ==> l[h].hash == h
    requires forall k, p :: 0 <= k < |ys| && p in ys[k].next ==> p in l || Earlier(ys, k, p)
    ensures ParentsEarlier(xs + ys)
  {
    var es := xs + ys;
    forall k, p | 0 <= k < |es| && p in es[k].next ensures Earlier(es, k, p) {
      if k < |xs| {
        assert Earlier(xs, k, p);
        var j :| 0 <= j < k && xs[j].hash == p;
        assert es[j].hash == p;
      } else if p in l {
        var j :| 0 <= j < |xs| && xs[j] == l[p];
        assert es[j].hash == p;
      } else {
        assert Earlier(ys, k - |xs|, p);
        var j :| 0 <= j < k - |xs| && ys[j].hash == p;
        assert es[|xs| + j].hash == p;
      }
    }
  }

  // -- Turns -----------------------------------------------------------------------------------------------------------

  lemma {:induction false} SoundPeer(d: Digest, s: Net, i: nat)
    requires Network.Inv(d, s) && i < |s.peers|
    ensures var l := s.peers[i].log;
      WellFormed(l) && DistinctParents(l) && Sublog(l, s.written) && forall h :: h in l ==> l[h].hash == h && !l[h].payload.Checkpoint?
  {
    hide Founded, GoodReply;
    PartIsLog(s.peers[i].log, s.written);
  }

  lemma {:induction false} RevalidateTurn(env: Env, w: World, i: nat, w': World)
    requires WorldInv(env, w) && Turns(env, w, Revalidates(i), w')
    ensures WorldInv(env, w')
  {
    hide Network.Inv, Rebuilds, Grounded, WellFormed, DistinctParents;
    SoundPeer(env.digest, w.net, i);
    RebuildGrounds(env, w.net.peers[i].log, w.replicas[i], w'.replicas[i]);
  }

  lemma {:induction false} WriteTurn(env: Env, w: World, i: nat, op: GraphOp, next: seq<Hash>, wall: u64, w': World)
    requires WorldInv(env, w) && Turns(env, w, Acts(Write(i, op, next, wall)), w')
    ensures WorldInv(env, w')
  {
    hide Network.Inv, Rebuilds, Extends, Grounded, WellFormed, DistinctParents, AppendTo, HeadsOf;
    var d, p, step := env.digest, w.net.peers[i], Write(i, op, next, wall);
    StepKeepsInv(d, w.net, step);
    SoundPeer(d, w.net, i);
    SoundPeer(d, w'.net, i);
    var e, l, l' := WrittenBy(d, p, op, next, wall), p.log, w'.net.peers[i].log;
    WrittenLog(d, w.net, i, op, next, wall);
    if op.ExtendOntology? {
      RebuildGrounds(env, l', w.replicas[i], w'.replicas[i]);
    } else {
      ExtendGrounds(env, l, l', w.replicas[i], [e], w'.replicas[i]);
    }
  }

  /** A write adds its entry to the writer's log, and nothing else. */
  lemma {:induction false} WrittenLog(d: Digest, s: Net, i: nat, op: GraphOp, next: seq<Hash>, wall: u64)
    requires Network.Inv(d, s) && Enabled(d, s, Write(i, op, next, wall))
    ensures var e, t := WrittenBy(d, s.peers[i], op, next, wall), After(d, s, Write(i, op, next, wall));
      && t.peers[i].log == s.peers[i].log[e.hash := e] && Sublog(s.peers[i].log, t.peers[i].log)
      && |t.peers| == |s.peers| && (forall k :: 0 <= k < |s.peers| && k != i ==> t.peers[k] == s.peers[k])
      && (forall p :: p in e.next ==> p in s.peers[i].log)
  {
    hide Founded, HeadsOf, GoodReply;
    var e, l := WrittenBy(d, s.peers[i], op, next, wall), s.peers[i].log;
    HeadsKnown(l);
    assert forall q :: q in next ==> q in ToSet(next);
    FirstMissingNone(l, e.next);
    if e.hash in l { assert l[e.hash := e] == l; }
  }

  lemma {:induction false} DeliverTurn(env: Env, w: World, k: nat, walls: nat -> u64, w': World)
    requires WorldInv(env, w) && Turns(env, w, Acts(Deliver(k, walls)), w')
    ensures WorldInv(env, w')
  {
    hide Network.Inv, Receives, Grounded, WellFormed, DistinctParents, Taken;
    var d, i := env.digest, w.net.replies[k].to;
    StepKeepsInv(d, w.net, Deliver(k, walls));
    ReceiveGrounds(env, w.net, k, walls, w.replicas[i], w'.replicas[i]);
  }

  /** What a delivery that brings something new leaves in the log. */
  lemma {:induction false} DeliveredLog(d: Digest, s: Net, k: nat, walls: nat -> u64)
    requires Network.Inv(d, s) && k < |s.replies| && WithinLimits(s.replies[k].batch, s.replies[k].bytes)
    requires s.replies[k].to < |s.peers|
    ensures var p := s.peers[s.replies[k].to];
      var admitted := Network.Admitted(p.clock, s.replies[k].batch);
      var log := Absorb(p.log, admitted);
      && WellFormed(log) && DistinctParents(log) && Sublog(p.log, log) && log.Keys == p.log.Keys + HashesOf(admitted)
      && (forall e :: e in admitted ==> e.hash in log && log[e.hash] == e)
      && (forall h :: h in log ==> log[h].hash == h && !log[h].payload.Checkpoint?)
      && Taken(p, s.replies[k], walls).log == (if HashesOf(admitted) <= p.log.Keys then p.log else log)
  {
    hide Absorb, HashesOf, Network.Admitted, GoodReply, Monotone, Authentic, MergedAll, ClocksAt, DeliveredOrder, ClosedBatch;
    var p, batch, all := s.peers[s.replies[k].to], s.replies[k].batch, s.written;
    var admitted := Network.Admitted(p.clock, batch);
    assert GoodReply(all, p.log, batch) && Network.History(d, all) && GoodPeer(all, p);
    AdmittedClosed(d, all, p, batch);
    PartIsLog(p.log, all);
    AdmittedParts(all, p.log, admitted);
    ClosedBatchMerges(p.log, admitted, all);
    var log := Absorb(p.log, admitted);
    assert PartOf(log, all);
    PartIsLog(log, all);
    AuthenticPart(d, all, log);
    forall e | e in admitted ensures e.hash in log && log[e.hash] == e {
      HashListed(admitted, e.hash);
    }
    assert Sublog(p.log, log);
  }

  lemma {:induction false} AdmittedParts(all: Log, l: Log, batch: seq<Entry>)
    requires GoodReply(all, l, batch)
    ensures ClosedBatch(l, batch) && forall e :: e in batch ==> e.hash in all && all[e.hash] == e
  {
  }

  lemma {:induction false} AuthenticPart(d: Digest, all: Log, l: Log)
    requires Network.History(d, all) && PartOf(l, all)
    ensures forall h :: h in l ==> l[h].hash == h && !l[h].payload.Checkpoint?
  {
    hide Founded;
  }

  lemma {:induction false} ReceiveGrounds(env: Env, s: Net, k: nat, walls: nat -> u64, r: Replica, r': Replica)
    requires Network.Inv(env.digest, s) && k < |s.replies| && s.replies[k].to < |s.peers|
    requires var p := s.peers[s.replies[k].to]; Grounded(env, p.log, r) && Receives(env, p, s.replies[k], r, r')
    ensures Grounded(env, Taken(s.peers[s.replies[k].to], s.replies[k], walls).log, r')
  {
    hide Network.Inv, WellFormed, DistinctParents, AfterDeliver, Absorb, HashesOf, Network.Admitted, WithinLimits, Extends, Rebuilds, Founded, DeliveredOrder, Grounded;
    var p, reply := s.peers[s.replies[k].to], s.replies[k];
    if WithinLimits(reply.batch, reply.bytes) {
      DeliveredLog(env.digest, s, k, walls);
      var admitted := Network.Admitted(p.clock, reply.batch);
      var log := Absorb(p.log, admitted);
      WellFormedParts(log);
      if !(HashesOf(admitted) <= p.log.Keys) {
        if ChangesSchema(admitted) {
          RebuildGrounds(env, log, r, r');
        } else {
          DeliveredEntries(log, admitted);
          SoundPeer(env.digest, s, reply.to);
          WellFormedParts(p.log);
          forall h | h in log && h !in p.log ensures log[h] in admitted { HashListed(admitted, h); }
          ExtendGrounds(env, p.log, log, r, EntriesAt(log, DeliveredOrder(log, admitted)), r');
        }
      }
    }
  }

  /** The entries a delivery applies are those admitted. */
  lemma {:induction false} DeliveredEntries(log: Log, admitted: seq<Entry>)
    requires WellFormed(log) && DistinctParents(log) && forall e :: e in admitted ==> e.hash in log && log[e.hash] == e
    ensures var es := EntriesAt(log, DeliveredOrder(log, admitted));
      forall k, p :: 0 <= k < |es| && p in es[k].next && p in HashesOf(admitted) ==> Earlier(es, k, p)
    ensures var es := EntriesAt(log, DeliveredOrder(log, admitted));
      (forall e :: e in es <==> e in admitted) && (!ChangesSchema(admitted) ==> !ChangesSchema(es)) && NoDup(es)
  {
    hide Founded, DistinctParents, CausalOrder;
    var order := DeliveredOrder(log, admitted);
    var es := EntriesAt(log, order);
    forall e | e in es ensures e in admitted {
      var i :| 0 <= i < |es| && es[i] == e;
      assert order[i] in HashesOf(admitted);
    }
    forall e | e in admitted ensures e in es {
      DeliveredCovers(log, admitted, e.hash);
      var i :| 0 <= i < |order| && order[i] == e.hash;
      assert es[i] == e;
    }
    WholeOrder(log);
    KeepDistinct(CausalOrder(log, log.Keys), HashesOf(admitted));
    DeliveredEarlier(log, admitted);
  }

  lemma {:induction false} DeliveredEarlier(log: Log, admitted: seq<Entry>)
    requires WellFormed(log)
    ensures var es := EntriesAt(log, DeliveredOrder(log, admitted));
      forall k, p :: 0 <= k < |es| && p in es[k].next && p in HashesOf(admitted) ==> Earlier(es, k, p)
  {
    hide Founded, CausalOrder, HashesOf;
    OrderKnown(log);
    CausalOrderCorrect(log, log.Keys);
    var all, kept := CausalOrder(log, log.Keys), DeliveredOrder(log, admitted);
    forall k | 0 <= k < |all| ensures CausesFirst(log, all, HashesOf(admitted), k) {
      forall p | p in log[all[k]].next ensures p in all[..k] {
        assert p in ParentsIn(log, log.Keys, all[k]);
        assert p in ToSet(all[..k]);
      }
    }
    KeepInOrder(log, all, HashesOf(admitted));
    assert kept == Keep(all, HashesOf(admitted));
    var es := EntriesAt(log, kept);
    forall k, p | 0 <= k < |es| && p in es[k].next && p in HashesOf(admitted) ensures Earlier(es, k, p) {
      assert es[k] == log[kept[k]] && CausesFirst(log, kept, HashesOf(admitted), k);
      var j :| 0 <= j < k && kept[..k][j] == p;
      assert es[j] == log[kept[j]] && es[j].hash == p;
    }
  }

  /** The predecessors of the `k`-th hash that lie in `s` are listed before it. */
  ghost predicate CausesFirst(l: Log, order: seq<Hash>, s: set<Hash>, k: nat)
    requires k < |order| && order[k] in l
  {
    forall p :: p in l[order[k]].next && p in s ==> p in order[..k]
  }

  /** Picking from a list with predecessors first keeps those picked first. */
  lemma {:induction false} KeepInOrder(l: Log, order: seq<Hash>, s: set<Hash>)
    requires (forall h :: h in order ==> h in l) && forall k :: 0 <= k < |order| ==> CausesFirst(l, order, s, k)
    ensures forall k :: 0 <= k < |Keep(order, s)| ==> Keep(order, s)[k] in l && CausesFirst(l, Keep(order, s), s, k)
  {
    if order != [] {
      var n := |order| - 1;
      var init := order[..n];
      forall k | 0 <= k < |init| ensures CausesFirst(l, init, s, k) {
        assert CausesFirst(l, order, s, k) && init[..k] == order[..k];
      }
      KeepInOrder(l, init, s);
      var before, kept := Keep(init, s), Keep(order, s);
      assert forall h :: h in kept ==> h in order;
      forall k | 0 <= k < |kept| ensures kept[k] in l && CausesFirst(l, kept, s, k) {
        assert kept[k] in kept;
        if k < |before| {
          assert CausesFirst(l, before, s, k) && kept[k] == before[k] && kept[..k] == before[..k];
        } else {
          assert CausesFirst(l, order, s, n);
          assert kept == before + [order[n]] && kept[..k] == before;
        }
      }
    }
  }

  // -- Runs ------------------------------------------------------------------------------------------------------------

  lemma {:induction false} TurnKeepsInv(env: Env, w: World, turn: Turn, w': World)
    requires WorldInv(env, w) && Turns(env, w, turn, w')
    ensures WorldInv(env, w')
  {
    hide Network.Inv, Grounded, After, Enabled, Rebuilds, WritesTo, Receives;
    match turn {
      case Revalidates(i) => RevalidateTurn(env, w, i, w');
      case Acts(step) =>
        match step {
          case Write(i, op, next, wall) => WriteTurn(env, w, i, op, next, wall, w');
          case Deliver(k, walls) => DeliverTurn(env, w, k, walls, w');
          case _ => OtherTurn(env, w, step, w');
        }
    }
  }

  lemma {:induction false} OtherTurn(env: Env, w: World, step: Step, w': World)
    requires WorldInv(env, w) && Turns(env, w, Acts(step), w') && !step.Write? && !step.Deliver?
    ensures WorldInv(env, w')
  {
    hide Network.Inv, Grounded, Reaction, Filtered, HeadsOf;
    StepKeepsInv(env.digest, w.net, step);
  }

  lemma {:induction false} BeginsInv(env: Env, w: World)
    requires Begins(env, w)
    ensures WorldInv(env, w)
  {
    hide Network.Inv, Initial, Rebuilds, Grounded, WellFormed, DistinctParents;
    InitialInv(env.digest, w.net);
    forall i | 0 <= i < |w.replicas| ensures Grounded(env, w.net.peers[i].log, w.replicas[i]) {
      SoundPeer(env.digest, w.net, i);
      RebuildGrounds(env, w.net.peers[i].log, w.replicas[i], w.replicas[i]);
    }
  }

  /** In every run, every graph has come about by applying exactly the entries of its log, some of them repeatedly. */
  lemma {:induction false} PathKeepsInv(env: Env, ws: seq<World>, turns: seq<Turn>, k: nat)
    requires Path(env, ws, turns) && WorldInv(env, ws[0]) && k <= |turns|
    ensures WorldInv(env, ws[k])
  {
    hide WorldInv, Turns;
    if k > 0 {
      PathKeepsInv(env, ws, turns, k - 1);
      TurnKeepsInv(env, ws[k - 1], turns[k - 1], ws[k - 1 + 1]);
    }
  }

  // -- What graphs agree on --------------------------------------------------------------------------------------------

  /** The writes to node `id` that took effect. */
  ghost function WritesOn(env: Env, r: Replica, id: string): seq<Lww.Write>
    requires Trail(env, r.applied, r.graphs)
  {
    WritesAlong(env, r.applied, r.graphs, id)
  }

  /** Two graphs have the same properties, property clocks and add clock for `id`. */
  predicate AgreeOn(g: Graph, h: Graph, id: string) {
    && (id in g.nodes <==> id in h.nodes)
    && (id in g.nodes ==> g.nodes[id].cells == h.nodes[id].cells && g.nodes[id].lastAdd == h.nodes[id].lastAdd)
  }

  lemma {:induction false} ReplicaExplained(env: Env, l: Log, r: Replica, id: string)
    requires Grounded(env, l, r)
    ensures Explains(Shown(r), id, WritesOn(env, r, id)) && Shown(r).ontology == r.graphs[0].ontology
  {
    hide Lists;
    TrailHistory(env, r.applied, r.graphs, id);
  }

  lemma {:induction false} ReplicasAgree(env: Env, l: Log, r: Replica, m: Log, q: Replica, id: string)
    requires Grounded(env, l, r) && Grounded(env, m, q)
    requires ToSet(WritesOn(env, r, id)) == ToSet(WritesOn(env, q, id)) && Lww.Consistent(ToSet(WritesOn(env, r, id)))
    ensures AgreeOn(Shown(r), Shown(q), id)
    ensures id in Shown(r).nodes && !Lww.RemoveWins(ToSet(WritesOn(env, r, id))) ==> !Shown(r).nodes[id].dead && !Shown(q).nodes[id].dead
  {
    hide Lists, MayTake, Lww.RemoveWins, WritesAlong, Explains, Lww.Consistent, Lww.LifeRun;
    var h, k := WritesOn(env, r, id), WritesOn(env, q, id);
    ReplicaExplained(env, l, r, id);
    ReplicaExplained(env, m, q, id);
    TrailsAgree(Shown(r), Shown(q), id, h, k);
    if id in Shown(r).nodes && !Lww.RemoveWins(ToSet(h)) {
      ExplainedLive(Shown(r), id, h);
      ExplainedLive(Shown(q), id, k);
    }
  }

  lemma {:induction false} ExplainedLive(g: Graph, id: string, h: seq<Lww.Write>)
    requires Explains(g, id, h) && id in g.nodes && !Lww.RemoveWins(ToSet(h))
    ensures !g.nodes[id].dead
  {
    hide Lww.RemoveWins, Lww.LifeRun;
    ExplainedFate(g, id, h);
    Lww.AddWins(h);
  }

  /** Replicas of one log over one base show one ontology. */
  lemma {:induction false} SameOntology(env: Env, l: Log, r: Replica, q: Replica)
    requires Grounded(env, l, r) && Grounded(env, l, q) && r.base == q.base
    ensures Shown(r).ontology == Shown(q).ontology == r.graphs[0].ontology && r.graphs[0] == q.graphs[0]
  {
    hide MayTake, Lists, ParentsEarlier, WellFormed;
    OntologyStays(env, r.applied, r.graphs, |r.applied|);
    OntologyStays(env, q.applied, q.graphs, |q.applied|);
  }

  lemma {:induction false} RebuildBase(env: Env, l: Log, r: Replica, r': Replica)
    requires Rebuilds(env, l, r, r')
    ensures r'.base == r.base
  {
  }

  /**
   * In every run, the graph a peer shows and any rebuild of its log agree on the ontology, and on the properties,
   * their clocks and the add clock of each node for which the same writes took effect; and both show it live unless a remove
   * is later than every add.
   */
  lemma {:induction false} EveryRunGraph(env: Env, ws: seq<World>, turns: seq<Turn>, i: nat, rebuilt: Replica, id: string)
    requires Run(env, ws, turns) && i < |ws[|turns|].replicas| && |ws[|turns|].replicas| == |ws[|turns|].net.peers|
    requires var w := ws[|turns|];
      && Rebuilds(env, w.net.peers[i].log, w.replicas[i], rebuilt) && Trail(env, w.replicas[i].applied, w.replicas[i].graphs)
      && ToSet(WritesOn(env, w.replicas[i], id)) == ToSet(WritesOn(env, rebuilt, id))
      && Lww.Consistent(ToSet(WritesOn(env, rebuilt, id)))
    ensures var shown, anew := Shown(ws[|turns|].replicas[i]), Shown(rebuilt);
      && AgreeOn(shown, anew, id) && shown.ontology == anew.ontology
      && (id in shown.nodes && !Lww.RemoveWins(ToSet(WritesOn(env, rebuilt, id))) ==> !shown.nodes[id].dead && !anew.nodes[id].dead)
  {
    hide Turns, Begins, Network.Inv, Rebuilds, Grounded, WellFormed, DistinctParents, WritesOn, Lww.Consistent, Lww.RemoveWins;
    BeginsInv(env, ws[0]);
    PathKeepsInv(env, ws, turns, |turns|);
    var w := ws[|turns|];
    SoundPeer(env.digest, w.net, i);
    RebuildGrounds(env, w.net.peers[i].log, w.replicas[i], rebuilt);
    RebuildBase(env, w.net.peers[i].log, w.replicas[i], rebuilt);
    SameOntology(env, w.net.peers[i].log, w.replicas[i], rebuilt);
    ReplicasAgree(env, w.net.peers[i].log, w.replicas[i], w.net.peers[i].log, rebuilt, id);
  }

  // -- Where they differ -----------------------------------------------------------------------------------------------

  predicate Live(g: Graph, id: string) { id in g.nodes && !g.nodes[id].dead }

  lemma {:induction false} AddLives(env: Env, g: Graph, e: Entry, id: string, g': Graph)
    requires Did(env, g, e, id, g') && GoodAdd(env, g.ontology, id, e)
    ensures Live(g', id)
  {
    hide ValidNode;
  }

  lemma {:induction false} NoRemoveLives(env: Env, g: Graph, e: Entry, id: string, g': Graph)
    requires Did(env, g, e, id, g') && Live(g, id) && e.payload != RemoveNode(id)
    ensures Live(g', id)
  {
    hide ValidNode, ValidUpdate;
  }

  /** Once added a node stays live until a remove. */
  lemma {:induction false} StaysLive(env: Env, entries: seq<Entry>, states: seq<Graph>, id: string, p: nat, n: nat)
    requires Trail(env, entries, states) && NoCheckpoints(entries) && p < n <= |entries| && GoodAdd(env, states[p].ontology, id, entries[p])
    requires forall k :: p < k < |entries| ==> entries[k].payload != RemoveNode(id)
    ensures Live(states[n], id)
  {
    hide MayTake, Did, GoodAdd, Live;
    assert entries[n - 1] in entries;
    EntryDid(env, states[n - 1], entries[n - 1], id, states[n - 1 + 1]);
    if n == p + 1 {
      AddLives(env, states[p], entries[p], id, states[n]);
    } else {
      StaysLive(env, entries, states, id, p, n - 1);
      NoRemoveLives(env, states[n - 1], entries[n - 1], id, states[n]);
    }
  }

  lemma {:induction false} OntologyStays(env: Env, entries: seq<Entry>, states: seq<Graph>, n: nat)
    requires Trail(env, entries, states) && NoCheckpoints(entries) && n <= |entries|
    ensures states[n].ontology == states[0].ontology
  {
    hide MayTake;
    if n > 0 {
      OntologyStays(env, entries, states, n - 1);
      assert entries[n - 1] in entries;
      EntryDid(env, states[n - 1], entries[n - 1], "", states[n - 1 + 1]);
    }
  }

  /** The admitted part of reply `k`. */
  ghost function AdmittedOf(s: Net, k: nat): seq<Entry>
    requires k < |s.replies| && s.replies[k].to < |s.peers|
  {
    Network.Admitted(s.peers[s.replies[k].to].clock, s.replies[k].batch)
  }

  /**
   * Any delivery that brings something new, changes no schema, carries an acceptable add of a node and no
   * remove of it leaves the node live, whatever the peer had removed and however late that remove.
   */
  lemma {:induction false} DeliveredAddRevives(env: Env, w: World, k: nat, walls: nat -> u64, w': World, id: string, a: Entry)
    requires WorldInv(env, w) && Turns(env, w, Acts(Deliver(k, walls)), w')
    requires var s, r := w.net, w.replicas[w.net.replies[k].to];
      && WithinLimits(s.replies[k].batch, s.replies[k].bytes) && a in AdmittedOf(s, k)
      && !(HashesOf(AdmittedOf(s, k)) <= s.peers[s.replies[k].to].log.Keys) && !ChangesSchema(AdmittedOf(s, k))
      && (forall e :: e in AdmittedOf(s, k) ==> e.payload != RemoveNode(id))
      && r.graphs != [] && GoodAdd(env, Shown(r).ontology, id, a)
    ensures var r' := w'.replicas[w.net.replies[k].to]; r'.graphs != [] && Live(Shown(r'), id)
  {
    hide Network.Inv, Grounded, Receives, After, GoodAdd, Live, MayTake, AdmittedOf, Extends, ChangesSchema, HashesOf, WithinLimits;
    var s, i := w.net, w.net.replies[k].to;
    var p, r, r' := s.peers[i], w.replicas[i], w'.replicas[i];
    var es := DeliveredExtends(env, w, k, walls, w');
    GroundedTrail(env, p.log, r);
    ExtendTrail(env, r, es, r');
    TurnKeepsInv(env, w, Acts(Deliver(k, walls)), w');
    GroundedTrail(env, w'.net.peers[i].log, r');
    var m :| 0 <= m < |es| && es[m] == a;
    var at := |r.applied| + m;
    ExtendedAt(env, r, es, r');
    OntologyStays(env, r'.applied, r'.graphs, at);
    OntologyStays(env, r.applied, r.graphs, |r.applied|);
    StaysLive(env, r'.applied, r'.graphs, id, at, |r'.applied|);
  }

  /** What such a delivery applies. */
  lemma {:induction false} DeliveredExtends(env: Env, w: World, k: nat, walls: nat -> u64, w': World) returns (es: seq<Entry>)
    requires WorldInv(env, w) && Turns(env, w, Acts(Deliver(k, walls)), w')
    requires var s := w.net;
      && WithinLimits(s.replies[k].batch, s.replies[k].bytes)
      && !(HashesOf(AdmittedOf(s, k)) <= s.peers[s.replies[k].to].log.Keys) && !ChangesSchema(AdmittedOf(s, k))
    ensures (forall e :: e in es <==> e in AdmittedOf(w.net, k)) && !ChangesSchema(es)
    ensures Extends(env, w.replicas[w.net.replies[k].to], es, w'.replicas[w.net.replies[k].to])
  {
    hide Network.Inv, Grounded, WellFormed, DistinctParents, Taken, Absorb, Extends, Founded, DeliveredOrder, HashesOf, Rebuilds, WithinLimits, Network.Admitted;
    var s, i, admitted := w.net, w.net.replies[k].to, AdmittedOf(w.net, k);
    DeliveredLog(env.digest, s, k, walls);
    var log := Absorb(s.peers[i].log, admitted);
    WellFormedParts(log);
    DeliveredEntries(log, admitted);
    es := EntriesAt(log, DeliveredOrder(log, admitted));
  }

  lemma {:induction false} GroundedTrail(env: Env, l: Log, r: Replica)
    requires Grounded(env, l, r)
    ensures Trail(env, r.applied, r.graphs) && NoCheckpoints(r.applied)
  {
  }

  lemma {:induction false} ExtendedAt(env: Env, r: Replica, es: seq<Entry>, r': Replica)
    requires Extends(env, r, es, r')
    ensures r'.applied == r.applied + es
  {
  }

  // -- Runs exist ------------------------------------------------------------------------------------------------------

  lemma {:induction false} CanRebuild(env: Env, l: Log, base: Ontology) returns (r: Replica)
    requires WellFormed(l)
    ensures r.base == base && Rebuilds(env, l, r, r)
  {
    hide WellFormed, FoldAll, MayMaterialize, MaterializeAll, Replayed, Trail;
    var es := Replayed(l);
    var g := FoldAll(EmptyGraph(base), es);
    MaterializeIsOutcome(env, g, es);
    var states := MaterializeTrail(env, g, es, MaterializeAll(env, g, es));
    r := Replica(base, es, states);
  }

  lemma {:induction false} CanExtend(env: Env, r: Replica, es: seq<Entry>) returns (r': Replica)
    requires r.graphs != []
    ensures Extends(env, r, es, r')
  {
    hide MayApply, Apply;
    if es == [] {
      r' := r;
    } else {
      var n := |es| - 1;
      var before := CanExtend(env, r, es[..n]);
      var g := Apply(env, Shown(before), es[n], Full, false);
      ApplyIsOutcome(env, Shown(before), es[n], Full, false);
      r' := Replica(r.base, r.applied + es, before.graphs + [g]);
      assert es == es[..n] + [es[n]];
      assert r'.graphs[..|r.graphs|] == before.graphs[..|r.graphs|];
      forall k | 0 <= k < |es| ensures MayApply(env, r'.graphs[|r.graphs| - 1 + k], es[k], Full, false, r'.graphs[|r.graphs| + k]) {
        if k < n {
          assert MayApply(env, before.graphs[|r.graphs| - 1 + k], es[..n][k], Full, false, before.graphs[|r.graphs| + k]);
        }
      }
    }
  }

  lemma {:induction false} CanReceive(env: Env, p: Peer, reply: Reply, r: Replica) returns (r': Replica)
    requires r.graphs != [] && (Founded(Absorb(p.log, Network.Admitted(p.clock, reply.batch))) ==> WellFormed(Absorb(p.log, Network.Admitted(p.clock, reply.batch))))
    ensures Receives(env, p, reply, r, r')
  {
    hide Absorb, HashesOf, Network.Admitted, WithinLimits, Extends, Rebuilds, DeliveredOrder, Founded, ChangesSchema;
    var admitted := Network.Admitted(p.clock, reply.batch);
    var log := Absorb(p.log, admitted);
    if !WithinLimits(reply.batch, reply.bytes) || !Founded(log) || HashesOf(admitted) <= p.log.Keys {
      r' := r;
    } else if ChangesSchema(admitted) {
      r' := CanRebuild(env, log, r.base);
      SameBase(env, log, r, r');
    } else {
      r' := CanExtend(env, r, EntriesAt(log, DeliveredOrder(log, admitted)));
    }
  }

  lemma {:induction false} SameBase(env: Env, l: Log, r: Replica, r': Replica)
    requires Rebuilds(env, l, r', r') && r'.base == r.base
    ensures Rebuilds(env, l, r, r')
  {
  }

  lemma {:induction false} PathConcat(env: Env, xs: seq<World>, ts: seq<Turn>, ys: seq<World>, us: seq<Turn>)
    requires Path(env, xs, ts) && Path(env, ys, us) && xs[|ts|] == ys[0]
    ensures Path(env, xs + ys[1..], ts + us) && (xs + ys[1..])[0] == xs[0] && (xs + ys[1..])[|ts| + |us|] == ys[|us|]
  {
    hide Turns;
    var zs, vs := xs + ys[1..], ts + us;
    forall k | 0 <= k < |vs| ensures Turns(env, zs[k], vs[k], zs[k + 1]) {
      if k < |ts| {
        assert zs[k] == xs[k] && zs[k + 1] == xs[k + 1] && Turns(env, xs[k], ts[k], xs[k + 1]);
      } else {
        var m := k - |ts|;
        assert zs[k] == ys[m] && zs[k + 1] == ys[m + 1] && Turns(env, ys[m], us[m], ys[m + 1]);
      }
    }
  }

  /** A write other than a schema change can always be applied. */
  lemma {:induction false} WriteHappens(env: Env, w: World, i: nat, op: GraphOp, next: seq<Hash>, wall: u64) returns (w': World)
    requires WorldInv(env, w) && Enabled(env.digest, w.net, Write(i, op, next, wall)) && !op.ExtendOntology?
    ensures Turns(env, w, Acts(Write(i, op, next, wall)), w') && WorldInv(env, w')
    ensures w'.net == After(env.digest, w.net, Write(i, op, next, wall)) && OnlyAt(w, w', i)
    ensures Extends(env, w.replicas[i], [WrittenBy(env.digest, w.net.peers[i], op, next, wall)], w'.replicas[i])
  {
    hide Network.Inv, Grounded, Extends, HeadsOf, AppendTo;
    var e, step := WrittenBy(env.digest, w.net.peers[i], op, next, wall), Write(i, op, next, wall);
    GroundedTrail(env, w.net.peers[i].log, w.replicas[i]);
    var r := CanExtend(env, w.replicas[i], [e]);
    w' := World(After(env.digest, w.net, step), w.replicas[i := r]);
    TurnKeepsInv(env, w, Acts(step), w');
  }

  /** So can a sync. */
  lemma {:induction false} SyncHappens(env: Env, w: World, j: nat, i: nat, link: Link) returns (ws: seq<World>, turns: seq<Turn>)
    requires WorldInv(env, w) && i < |w.net.peers| && j < |w.net.peers|
    ensures Path(env, ws, turns) && |turns| == 3 && ws[0] == w && ws[3].net == Synced(w.net, j, i, link)
    ensures ws[2] == World(InFlight(w.net, j, i, link), w.replicas) && turns[2] == Acts(Deliver(|w.net.replies|, link.walls))
    ensures WorldInv(env, ws[2]) && WorldInv(env, ws[3])
  {
    hide Network.Inv, Grounded, Receives, Reaction, Taken, HeadsOf, Founded, WellFormed, Absorb, Network.Admitted, NoDup;
    var d, o := env.digest, OfferFrom(w.net.peers[i], link.bloom);
    var ask, answer, deliver := Ask(i, o), Answer(j, |w.net.requests|, link.bytes), Deliver(|w.net.replies|, link.walls);
    var n1 := After(d, w.net, ask);
    var n2 := After(d, n1, answer);
    var w1, w2 := World(n1, w.replicas), World(n2, w.replicas);
    TurnKeepsInv(env, w, Acts(ask), w1);
    TurnKeepsInv(env, w1, Acts(answer), w2);
    var p, reply := n2.peers[i], n2.replies[|w.net.replies|];
    assert reply.to == i && Enabled(d, n2, deliver);
    GroundedTrail(env, p.log, w.replicas[i]);
    AbsorbedLog(d, n2, |w.net.replies|);
    var r := CanReceive(env, p, reply, w.replicas[i]);
    var w3 := World(After(d, n2, deliver), w.replicas[i := r]);
    TurnKeepsInv(env, w2, Acts(deliver), w3);
    ws, turns := [w, w1, w2, w3], [Acts(ask), Acts(answer), Acts(deliver)];
  }

  /** The network with the answer still in flight. */
  ghost function InFlight(s: Net, j: nat, i: nat, link: Link): Net
    requires i < |s.peers| && j < |s.peers|
  {
    s.(requests := s.requests + [Request(i, OfferFrom(s.peers[i], link.bloom))], replies := s.replies + [AnswerTo(s, j, i, link)])
  }

  lemma {:induction false} AbsorbedLog(d: Digest, s: Net, k: nat)
    requires Network.Inv(d, s) && k < |s.replies| && s.replies[k].to < |s.peers|
    ensures WellFormed(Absorb(s.peers[s.replies[k].to].log, Network.Admitted(s.peers[s.replies[k].to].clock, s.replies[k].batch)))
  {
    hide Absorb, Network.Admitted, GoodReply, Network.History, GoodPeer, WellFormed;
    DeliverKeepsPeer(d, s.written, s.peers[s.replies[k].to], s.replies[k].batch, _ => 0);
  }
}
