/**
 * What applying entries may lead to. Held edges are retried in whatever order a hash table lists them,
 * so an entry has a set of outcomes; every outcome keeps the graph's invariant, and edges that do not
 * clash leave only one.
 */
module Outcomes {
  import opened Base
  import opened Clocks
  import opened Ontologies
  import opened Entries
  import opened Graphs
  import opened GraphInvariant
  import opened RetryOrder

  // -- The entries that occur ----------------------------------------------------------------------------------------

  /** An entry and, for a checkpoint, the synthetic entries of its operations. */
  ghost function Parts(env: Env, e: Entry): set<Entry>
    decreases e.payload, 1, 0
  {
    {e} + (if e.payload.Checkpoint? then PartsTo(env, e, |e.payload.ops|) else {})
  }

  ghost function PartsTo(env: Env, cp: Entry, n: nat): set<Entry>
    requires cp.payload.Checkpoint? && n <= |cp.payload.ops|
    decreases cp.payload, 0, n
  {
    if n == 0 then {} else PartsTo(env, cp, n - 1) + Parts(env, Synthetic(env, cp, n - 1))
  }

  ghost function Occurring(env: Env, entries: seq<Entry>): set<Entry> {
    if entries == [] then {} else Occurring(env, entries[..|entries| - 1]) + Parts(env, entries[|entries| - 1])
  }

  lemma {:induction false} PartsInside(env: Env, cp: Entry, n: nat, i: nat)
    requires cp.payload.Checkpoint? && i < n <= |cp.payload.ops|
    ensures Parts(env, Synthetic(env, cp, i)) <= PartsTo(env, cp, n)
  {
    hide Parts;
    if i < n - 1 { PartsInside(env, cp, n - 1, i); }
  }

  /** Edge additions that do not clash: pairwise coherent. */
  ghost predicate CoherentPool(pool: set<Entry>) {
    forall a, b :: a in pool && b in pool && a.payload.AddEdge? && b.payload.AddEdge? ==> Coherent(OpOf(a), OpOf(b))
  }

  /** Additions of one edge, wherever they occur, agree on type and endpoints and do not clash on a property. */
  ghost predicate CoherentEntries(env: Env, entries: seq<Entry>) { CoherentPool(Occurring(env, entries)) }

  /** Held edges come from the pool and are filed under their own hashes. */
  ghost predicate Drawn(pool: set<Entry>, g: Graph) { PendingKeyed(g) && forall h :: h in g.pending ==> g.pending[h] in pool }

  // -- Outcomes --------------------------------------------------------------------------------------------------------

  /** The held edges of `order`, taken up one after another. */
  ghost function RetryList(env: Env, g: Graph, order: seq<Hash>): Graph {
    if order == [] then g
    else
      var before, h := RetryList(env, g, order[..|order| - 1]), order[|order| - 1];
      if h in before.pending && before.pending[h].payload.AddEdge? then RetryEdge(env, before, h) else before
  }

  ghost predicate MayRetry(env: Env, g: Graph, g': Graph) {
    exists order: seq<Hash> :: NoDup(order) && ToSet(order) == ReadyEdges(g) && g' == RetryList(env, g, order)
  }

  ghost predicate MayApply(env: Env, g: Graph, e: Entry, mode: Mode, adopt: bool, g': Graph)
    decreases e.payload, 1, 0
  {
    match e.payload
    case Checkpoint(ops, _, _, _) => exists m :: MayReplay(env, g, e, |ops|, adopt, m) && g' == Release(m, e.hash)
    case AddNode(id, t, st, title, props) =>
      if !ValidNode(env.accepts, g.ontology, t, st, props, mode) then g' == Quarantine(g, e.hash, "add_node")
      else MayRetry(env, ApplyAddNode(Release(g, e.hash), id, t, st, title, props, e.clock), g')
    case _ => g' == Apply(env, g, e, mode, adopt)
  }

  /** The first `n` operations of a checkpoint. */
  ghost predicate MayReplay(env: Env, g: Graph, cp: Entry, n: nat, adopt: bool, g': Graph)
    requires cp.payload.Checkpoint? && n <= |cp.payload.ops|
    decreases cp.payload, 0, n
  {
    if n == 0 then g' == g
    else
      var k := n - 1;
      exists m :: MayReplay(env, g, cp, k, adopt, m) && MayReplayOne(env, m, cp, k, adopt, g')
  }

  ghost predicate MayReplayOne(env: Env, g: Graph, cp: Entry, i: nat, adopt: bool, g': Graph)
    requires cp.payload.Checkpoint? && i < |cp.payload.ops|
    decreases cp.payload, 0, 0
  {
    if cp.payload.ops[i].DefineOntology? then g' == (if adopt then g.(ontology := cp.payload.ops[i].ontology) else g)
    else MayApply(env, g, Synthetic(env, cp, i), SkipRequired, true, g')
  }

  /** Second pass over one entry. */
  ghost predicate MayTake(env: Env, g: Graph, e: Entry, g': Graph) {
    if e.payload.ExtendOntology? then g' == g else MayApply(env, g, e, Full, false, g')
  }

  ghost predicate MayMaterialize(env: Env, g: Graph, entries: seq<Entry>, g': Graph) {
    if entries == [] then g' == g
    else
      var init, e := entries[..|entries| - 1], entries[|entries| - 1];
      exists m :: MayMaterialize(env, g, init, m) && MayTake(env, m, e, g')
  }

  /** The graphs a rebuild from these entries may end with. */
  ghost predicate MayRebuild(env: Env, base: Ontology, entries: seq<Entry>, g: Graph) {
    MayMaterialize(env, FoldAll(EmptyGraph(base), entries), entries, g)
  }

  // -- Retrying --------------------------------------------------------------------------------------------------------

  /** After part of the ready edges, in any order: what is left is still ready. */
  lemma {:induction false} ListHeld(env: Env, pool: set<Entry>, g: Graph, ready: set<Hash>, order: seq<Hash>)
    requires Held(g, ready) && Drawn(pool, g) && NoDup(order) && ToSet(order) <= ready
    ensures var g' := RetryList(env, g, order);
      Held(g', ready - ToSet(order)) && Drawn(pool, g') && g'.nodes == g.nodes && g'.ontology == g.ontology
    ensures Exact(g) && HeldRightly(g, ready) ==>
      Exact(RetryList(env, g, order)) && HeldRightly(RetryList(env, g, order), ready - ToSet(order))
    ensures CoherentPool(pool) ==>
      RetryAll(env, g, ready) == RetryAll(env, RetryList(env, g, order), ready - ToSet(order))
  {
    hide RetryEdge, Exact, HeldRightly, CoherentPool, RetryAll;
    if order == [] {
      assert ready - ToSet(order) == ready;
    } else {
      var n := |order| - 1;
      var init, h := order[..n], order[n];
      assert order == init + [h];
      ToSetSnoc(init, h);
      assert h in ToSet(order) && h !in ToSet(init);
      ListHeld(env, pool, g, ready, init);
      var before, left := RetryList(env, g, init), ready - ToSet(init);
      assert ready - ToSet(order) == left - {h};
      RetryKeepsHeld(env, before, left, h);
      if Exact(g) && HeldRightly(g, ready) { RetryKeepsInv(env, before, left, h); }
      if CoherentPool(pool) {
        PoolCoherent(pool, before, left);
        RetryAnyFirst(env, before, left, h);
      }
    }
  }

  lemma {:induction false} PoolCoherent(pool: set<Entry>, g: Graph, ready: set<Hash>)
    requires CoherentPool(pool) && Drawn(pool, g)
    ensures AllCoherent(g, ready)
  {
  }

  /** Whatever the order, retrying restores the invariant; when edges do not clash it has one outcome. */
  lemma {:induction false} RetryOutcome(env: Env, pool: set<Entry>, g: Graph, g': Graph)
    requires Drawn(pool, g) && MayRetry(env, g, g')
    ensures Drawn(pool, g') && g'.nodes == g.nodes && g'.ontology == g.ontology
    ensures Exact(g) && HeldRightly(g, ReadyEdges(g)) ==> Inv(g')
    ensures CoherentPool(pool) ==> g' == RetryPending(env, g)
  {
    hide Exact, HeldRightly, RetryList, ReadyEdges, RetryAll, CoherentPool, Drawn, NoDup;
    var order: seq<Hash> :| NoDup(order) && ToSet(order) == ReadyEdges(g) && g' == RetryList(env, g, order);
    ReadyHeld(g);
    ListHeld(env, pool, g, ReadyEdges(g), order);
    assert ReadyEdges(g) - ToSet(order) == {};
    RetryAllNone(env, g');
  }

  /** The fixed order of the specification is one of the orders. */
  lemma {:induction false} RetryAllListed(env: Env, g: Graph, ready: set<Hash>) returns (order: seq<Hash>)
    requires Held(g, ready)
    ensures NoDup(order) && ToSet(order) == ready && RetryAll(env, g, ready) == RetryList(env, g, order)
    decreases ready
  {
    hide RetryEdge;
    if ready == {} {
      order := [];
    } else {
      var h := Pick(ready);
      RetryKeepsHeld(env, g, ready, h);
      var rest := RetryAllListed(env, RetryEdge(env, g, h), ready - {h});
      order := [h] + rest;
      ListFront(env, g, h, rest);
      FrontDistinct(h, rest);
    }
  }

  lemma {:induction false} FrontDistinct(h: Hash, rest: seq<Hash>)
    requires NoDup(rest) && h !in ToSet(rest)
    ensures NoDup([h] + rest) && ToSet([h] + rest) == {h} + ToSet(rest)
  {
    var xs := [h] + rest;
    forall i, j | 0 <= i < j < |xs| ensures xs[i] != xs[j] {
      assert xs[j] == rest[j - 1] && rest[j - 1] in ToSet(rest);
      if i > 0 { assert xs[i] == rest[i - 1]; }
    }
    assert xs[0] == h && forall k :: 0 <= k < |rest| ==> xs[k + 1] == rest[k];
  }

  lemma {:induction false} ListFront(env: Env, g: Graph, h: Hash, rest: seq<Hash>)
    requires h in g.pending && g.pending[h].payload.AddEdge?
    ensures RetryList(env, g, [h] + rest) == RetryList(env, RetryEdge(env, g, h), rest)
  {
    hide RetryEdge;
    if rest == [] {
      assert [h] + rest == [h] && [h][..0] == [];
    } else {
      var n := |rest| - 1;
      assert ([h] + rest)[..n + 1] == [h] + rest[..n];
      ListFront(env, g, h, rest[..n]);
    }
  }

  // -- One entry -------------------------------------------------------------------------------------------------------

  lemma {:induction false} SamePending(pool: set<Entry>, g: Graph, g': Graph)
    requires g'.pending == g.pending
    ensures Drawn(pool, g) ==> Drawn(pool, g')
  {
  }

  lemma {:induction false} SidePending(g: Graph, h: Hash, kind: string)
    ensures Release(g, h).pending == g.pending && Quarantine(g, h, kind).pending == g.pending
  {
  }

  lemma {:induction false} RemovePending(g: Graph, id: string, c: Clock)
    ensures ApplyRemoveNode(g, id, c).pending == g.pending && ApplyRemoveEdge(g, id, c).pending == g.pending
  {
    hide RemovedNode, RemovedEdge;
  }

  predicate Simple(op: GraphOp) { !op.Checkpoint? && !op.AddNode? && !op.AddEdge? }

  lemma {:induction false} UpdateOutcome(env: Env, g: Graph, e: Entry, mode: Mode, adopt: bool)
    requires e.payload.UpdateProperty?
    ensures Apply(env, g, e, mode, adopt).pending == g.pending
    ensures Inv(g) && e.hash !in g.pending ==> Inv(Apply(env, g, e, mode, adopt))
  {
    hide ValidUpdate, ApplyUpdate, Inv, Quarantine, Release;
    var op := e.payload;
    UpdateShape(Release(g, e.hash), op.entityId, op.key, op.value, e.clock);
    SidePending(g, e.hash, "update_property");
    if Inv(g) && e.hash !in g.pending {
      QuarantineKeepsInv(g, e.hash, "update_property");
      UpdateKeepsInv(g, e.hash, op.entityId, op.key, op.value, e.clock);
    }
  }

  lemma {:induction false} RemoveOutcome(env: Env, g: Graph, e: Entry, mode: Mode, adopt: bool)
    requires e.payload.RemoveNode? || e.payload.RemoveEdge?
    ensures Apply(env, g, e, mode, adopt).pending == g.pending
    ensures Inv(g) && e.hash !in g.pending ==> Inv(Apply(env, g, e, mode, adopt))
  {
    hide ApplyRemoveNode, ApplyRemoveEdge, Inv, Release;
    var id := if e.payload.RemoveNode? then e.payload.nodeId else e.payload.edgeId;
    RemovePending(Release(g, e.hash), id, e.clock);
    SidePending(g, e.hash, "");
    if Inv(g) && e.hash !in g.pending { RemoveKeepsInv(g, e.hash, id, e.clock); }
  }

  lemma {:induction false} SchemaOutcome(env: Env, g: Graph, e: Entry, mode: Mode, adopt: bool)
    requires e.payload.ExtendOntology? || e.payload.DefineOntology? || e.payload.DefineLens?
    ensures Apply(env, g, e, mode, adopt).pending == g.pending
    ensures Inv(g) && e.hash !in g.pending ==> Inv(Apply(env, g, e, mode, adopt))
  {
    hide MergeExtension, Inv, Release, Quarantine;
    if e.payload.ExtendOntology? {
      var g' := g.(ontology := MergeExtension(g.ontology, e.payload.extension).0);
      SidePending(g', e.hash, "extend_ontology");
      if Inv(g) && e.hash !in g.pending {
        OntologyKeepsInv(g, g'.ontology);
        QuarantineKeepsInv(g', e.hash, "extend_ontology");
      }
    }
  }

  lemma {:induction false} SimpleOutcome(env: Env, g: Graph, e: Entry, mode: Mode, adopt: bool)
    requires Simple(e.payload)
    ensures Apply(env, g, e, mode, adopt).pending == g.pending
    ensures Inv(g) && e.hash !in g.pending ==> Inv(Apply(env, g, e, mode, adopt))
  {
    hide Apply, Inv;
    match e.payload {
      case UpdateProperty(_, _, _) => UpdateOutcome(env, g, e, mode, adopt);
      case RemoveNode(_) => RemoveOutcome(env, g, e, mode, adopt);
      case RemoveEdge(_) => RemoveOutcome(env, g, e, mode, adopt);
      case _ => SchemaOutcome(env, g, e, mode, adopt);
    }
  }

  lemma {:induction false} EdgeOutcome(env: Env, pool: set<Entry>, g: Graph, e: Entry, mode: Mode)
    requires Drawn(pool, g) && e.payload.AddEdge? && e in pool
    ensures Drawn(pool, AdmitEdge(env, g, e, mode))
    ensures OneEntryPerHash(pool) && Inv(g) ==> Inv(AdmitEdge(env, g, e, mode))
  {
    hide AdmitEdge, Admissible, ApplyAddEdge, Inv;
    var op := e.payload;
    AdmitCases(env, g, e, mode);
    AddEdgeLeaves(Release(g, e.hash), op.edgeId, op.edgeType, op.source, op.target, op.props, e.clock);
    if OneEntryPerHash(pool) && Inv(g) { AdmitKeepsInv(env, g, e, mode); }
  }

  /** No entry but an edge shares its hash with a held edge. */
  lemma {:induction false} NotHeld(pool: set<Entry>, g: Graph, e: Entry)
    requires OneEntryPerHash(pool) && Inv(g) && Drawn(pool, g) && e in pool && !e.payload.AddEdge?
    ensures e.hash !in g.pending
  {
    hide Exact;
  }

  lemma {:induction false} NodeOutcome(env: Env, pool: set<Entry>, g: Graph, e: Entry, mode: Mode, adopt: bool, g': Graph)
    requires Drawn(pool, g) && e in pool && e.payload.AddNode? && MayApply(env, g, e, mode, adopt, g')
    ensures Drawn(pool, g')
    ensures OneEntryPerHash(pool) && Inv(g) ==> Inv(g')
    ensures CoherentPool(pool) ==> g' == Apply(env, g, e, mode, adopt)
  {
    hide Drawn, Inv, MayRetry, ValidNode, OneEntryPerHash, CoherentPool, RetryPending, Release, Quarantine, ApplyAddNode;
    var op := e.payload;
    var grown := ApplyAddNode(Release(g, e.hash), op.nodeId, op.nodeType, op.subtype, op.title, op.props, e.clock);
    SidePending(g, e.hash, "add_node");
    AddNodeLeaves(Release(g, e.hash), op.nodeId, op.nodeType, op.subtype, op.title, op.props, e.clock);
    SamePending(pool, g, grown);
    SamePending(pool, g, Quarantine(g, e.hash, "add_node"));
    if OneEntryPerHash(pool) && Inv(g) {
      NotHeld(pool, g, e);
      QuarantineKeepsInv(g, e.hash, "add_node");
      AddNodeHolds(g, e.hash, op.nodeId, op.nodeType, op.subtype, op.title, op.props, e.clock);
    }
    if ValidNode(env.accepts, g.ontology, op.nodeType, op.subtype, op.props, mode) { RetryOutcome(env, pool, grown, g'); }
  }

  /**
   * Every outcome of every entry, checkpoints included: it keeps the graph's invariant when hashes
   * tell the occurring entries apart, and it is the only one when edge additions do not clash.
   */
  lemma {:induction false} ApplyOutcome(env: Env, pool: set<Entry>, g: Graph, e: Entry, mode: Mode, adopt: bool, g': Graph)
    requires Drawn(pool, g) && Parts(env, e) <= pool && MayApply(env, g, e, mode, adopt, g')
    ensures Drawn(pool, g')
    ensures OneEntryPerHash(pool) && Inv(g) ==> Inv(g')
    ensures CoherentPool(pool) ==> g' == Apply(env, g, e, mode, adopt)
    decreases e.payload, 1, 0
  {
    hide Drawn, Inv, OneEntryPerHash, CoherentPool, Apply, MayReplay, Release;
    assert e in pool by { assert e in Parts(env, e); }
    match e.payload {
      case Checkpoint(ops, _, _, _) =>
        var m :| MayReplay(env, g, e, |ops|, adopt, m) && g' == Release(m, e.hash);
        ReplayOutcome(env, pool, g, e, |ops|, adopt, m);
        SidePending(m, e.hash, "");
        SamePending(pool, m, g');
        if OneEntryPerHash(pool) && Inv(g) {
          NotHeld(pool, m, e);
          QuarantineKeepsInv(m, e.hash, "");
        }
        CheckpointIs(env, g, e, mode, adopt);
      case AddNode(_, _, _, _, _) => NodeOutcome(env, pool, g, e, mode, adopt, g');
      case AddEdge(_, _, _, _, _) =>
        EdgeOutcome(env, pool, g, e, mode);
        EdgeIs(env, g, e, mode, adopt);
      case _ =>
        SimpleOutcome(env, g, e, mode, adopt);
        SamePending(pool, g, g');
        if OneEntryPerHash(pool) && Inv(g) { NotHeld(pool, g, e); }
    }
  }

  lemma {:induction false} CheckpointIs(env: Env, g: Graph, e: Entry, mode: Mode, adopt: bool)
    requires e.payload.Checkpoint?
    ensures Apply(env, g, e, mode, adopt) == Release(ReplayTo(env, g, e, |e.payload.ops|, adopt), e.hash)
  {
    hide Release;
    ReplayForward(env, g, e, |e.payload.ops|, adopt);
    assert ReplayTo(env, g, e, 0, adopt) == g;
  }

  lemma {:induction false} EdgeIs(env: Env, g: Graph, e: Entry, mode: Mode, adopt: bool)
    requires e.payload.AddEdge?
    ensures Apply(env, g, e, mode, adopt) == AdmitEdge(env, g, e, mode)
  {
    hide AdmitEdge;
  }

  /** The first `n` operations, in the specification's fixed order of retries. */
  ghost function ReplayTo(env: Env, g: Graph, cp: Entry, n: nat, adopt: bool): Graph
    requires cp.payload.Checkpoint? && n <= |cp.payload.ops|
  {
    if n == 0 then g else ReplayOne(env, ReplayTo(env, g, cp, n - 1, adopt), cp, n - 1, adopt)
  }

  lemma {:induction false} ReplayForward(env: Env, g: Graph, cp: Entry, n: nat, adopt: bool)
    requires cp.payload.Checkpoint? && n <= |cp.payload.ops|
    ensures Replay(env, g, cp, 0, adopt) == Replay(env, ReplayTo(env, g, cp, n, adopt), cp, n, adopt)
    ensures n == |cp.payload.ops| ==> Replay(env, g, cp, 0, adopt) == ReplayTo(env, g, cp, n, adopt)
  {
    hide ReplayOne;
    if n > 0 { ReplayForward(env, g, cp, n - 1, adopt); }
  }

  lemma {:induction false} ReplayOutcome(env: Env, pool: set<Entry>, g: Graph, cp: Entry, n: nat, adopt: bool, g': Graph)
    requires cp.payload.Checkpoint? && n <= |cp.payload.ops| && Parts(env, cp) <= pool
    requires Drawn(pool, g) && MayReplay(env, g, cp, n, adopt, g')
    ensures Drawn(pool, g')
    ensures OneEntryPerHash(pool) && Inv(g) ==> Inv(g')
    ensures CoherentPool(pool) ==> g' == ReplayTo(env, g, cp, n, adopt)
    decreases cp.payload, 0, n
  {
    hide Drawn, Inv, OneEntryPerHash, CoherentPool, Apply, MayApply;
    if n > 0 {
      var m :| MayReplay(env, g, cp, n - 1, adopt, m) && MayReplayOne(env, m, cp, n - 1, adopt, g');
      ReplayOutcome(env, pool, g, cp, n - 1, adopt, m);
      if cp.payload.ops[n - 1].DefineOntology? {
        SamePending(pool, m, g');
        if Inv(m) { OntologyKeepsInv(m, cp.payload.ops[n - 1].ontology); }
      } else {
        PartsInside(env, cp, |cp.payload.ops|, n - 1);
        ApplyOutcome(env, pool, m, Synthetic(env, cp, n - 1), SkipRequired, true, g');
      }
    }
  }

  /** The specified effect is one of the outcomes. */
  lemma {:induction false} ApplyIsOutcome(env: Env, g: Graph, e: Entry, mode: Mode, adopt: bool)
    ensures MayApply(env, g, e, mode, adopt, Apply(env, g, e, mode, adopt))
    decreases e.payload, 1, 0
  {
    hide MayReplay, Release, ReplayTo, RetryList, RetryAll, ReadyEdges, ApplyAddNode, ValidNode, NoDup;
    match e.payload {
      case Checkpoint(ops, _, _, _) =>
        ReplayIsOutcome(env, g, e, |ops|, adopt);
        CheckpointIs(env, g, e, mode, adopt);
      case AddNode(id, t, st, title, props) =>
        var g' := ApplyAddNode(Release(g, e.hash), id, t, st, title, props, e.clock);
        ReadyHeld(g');
        var order := RetryAllListed(env, g', ReadyEdges(g'));
        assert MayRetry(env, g', RetryPending(env, g'));
      case _ =>
    }
  }

  lemma {:induction false} ReplayIsOutcome(env: Env, g: Graph, cp: Entry, n: nat, adopt: bool)
    requires cp.payload.Checkpoint? && n <= |cp.payload.ops|
    ensures MayReplay(env, g, cp, n, adopt, ReplayTo(env, g, cp, n, adopt))
    decreases cp.payload, 0, n
  {
    hide Apply, MayApply;
    if n > 0 {
      ReplayIsOutcome(env, g, cp, n - 1, adopt);
      if !cp.payload.ops[n - 1].DefineOntology? {
        ApplyIsOutcome(env, ReplayTo(env, g, cp, n - 1, adopt), Synthetic(env, cp, n - 1), SkipRequired, true);
      }
    }
  }

  // -- Rebuilding ------------------------------------------------------------------------------------------------------

  lemma {:induction false} FoldKeepsInv(g: Graph, e: Entry)
    requires Inv(g) && g.pending == map[]
    ensures Inv(Fold(g, e)) && Fold(g, e).pending == map[]
  {
    hide MergeExtension, Inv, LastDefined, Quarantine;
    match e.payload {
      case ExtendOntology(x) =>
        var g' := g.(ontology := MergeExtension(g.ontology, x).0);
        OntologyKeepsInv(g, g'.ontology);
        QuarantineKeepsInv(g', e.hash, "extend_ontology");
        SidePending(g', e.hash, "extend_ontology");
      case Checkpoint(ops, _, _, _) => OntologyKeepsInv(g, LastDefined(ops, g.ontology));
      case _ =>
    }
  }

  lemma {:induction false} FoldAllKeepsInv(g: Graph, entries: seq<Entry>)
    requires Inv(g) && g.pending == map[]
    ensures Inv(FoldAll(g, entries)) && FoldAll(g, entries).pending == map[]
  {
    hide Inv, Fold;
    if entries != [] {
      FoldAllKeepsInv(g, entries[..|entries| - 1]);
      FoldKeepsInv(FoldAll(g, entries[..|entries| - 1]), entries[|entries| - 1]);
    }
  }

  lemma {:induction false} MaterializeOutcome(env: Env, pool: set<Entry>, g: Graph, entries: seq<Entry>, g': Graph)
    requires Drawn(pool, g) && Occurring(env, entries) <= pool && MayMaterialize(env, g, entries, g')
    ensures Drawn(pool, g')
    ensures OneEntryPerHash(pool) && Inv(g) ==> Inv(g')
    ensures CoherentPool(pool) ==> g' == MaterializeAll(env, g, entries)
  {
    hide Drawn, Inv, OneEntryPerHash, CoherentPool, Apply, MayApply, Parts;
    if entries != [] {
      var init, e := entries[..|entries| - 1], entries[|entries| - 1];
      var m :| MayMaterialize(env, g, init, m) && MayTake(env, m, e, g');
      MaterializeOutcome(env, pool, g, init, m);
      if !e.payload.ExtendOntology? { ApplyOutcome(env, pool, m, e, Full, false, g'); }
    }
  }

  /**
   * Every graph a rebuild may end with satisfies the invariant when hashes tell the occurring entries
   * apart; and when edge additions do not clash there is exactly one, the specified one.
   */
  lemma {:induction false} RebuildOutcome(env: Env, base: Ontology, entries: seq<Entry>, g: Graph)
    ensures MayRebuild(env, base, entries, g) && OneEntryPerHash(Occurring(env, entries)) ==> Inv(g)
    ensures CoherentEntries(env, entries) ==> (MayRebuild(env, base, entries, g) <==> g == Rebuilt(env, base, entries))
  {
    hide Inv, OneEntryPerHash, CoherentPool, MaterializeAll, MayMaterialize, FoldAll;
    var folded := FoldAll(EmptyGraph(base), entries);
    EmptyInv(base);
    FoldAllKeepsInv(EmptyGraph(base), entries);
    if MayRebuild(env, base, entries, g) { MaterializeOutcome(env, Occurring(env, entries), folded, entries, g); }
    MaterializeIsOutcome(env, folded, entries);
  }

  lemma {:induction false} MaterializeIsOutcome(env: Env, g: Graph, entries: seq<Entry>)
    ensures MayMaterialize(env, g, entries, MaterializeAll(env, g, entries))
  {
    hide Apply, MayApply;
    if entries != [] {
      var init, e := entries[..|entries| - 1], entries[|entries| - 1];
      MaterializeIsOutcome(env, g, init);
      var m := MaterializeAll(env, g, init);
      ApplyIsOutcome(env, m, e, Full, false);
      assert MayTake(env, m, e, MaterializeAll(env, g, entries));
    }
  }
}
