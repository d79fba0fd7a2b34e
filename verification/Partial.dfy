/** Type-filtered sync: the part of a payload that concerns the wanted node types, closed under ancestry. */
module Partial {
  import opened Base
  import opened Entries
  import opened Dag
  import opened OpLogs
  import opened Merge
  import Paths

  function WantedNodes(batch: seq<Entry>, types: set<string>): set<string> {
    set e | e in batch && e.payload.AddNode? && e.payload.nodeType in types :: e.payload.nodeId
  }

  predicate Matches(op: GraphOp, types: set<string>, nodes: set<string>) {
    match op
    case AddNode(_, t, _, _, _) => t in types
    case AddEdge(_, _, s, t, _) => s in nodes || t in nodes
    case UpdateProperty(id, _, _) => id in nodes
    case RemoveNode(id) => id in nodes
    case _ => true
  }

  function MatchingHashes(batch: seq<Entry>, types: set<string>): set<Hash> {
    set e | e in batch && Matches(e.payload, types, WantedNodes(batch, types)) :: e.hash
  }

  function Among(batch: seq<Entry>, s: set<Hash>): (r: seq<Entry>)
    ensures forall e :: e in r <==> e in batch && e.hash in s
  {
    if batch == [] then []
    else Among(batch[..|batch| - 1], s) + (if batch[|batch| - 1].hash in s then [batch[|batch| - 1]] else [])
  }

  /** Order and repetitions stay as they were. */
  lemma {:induction false} AmongConcat(xs: seq<Entry>, ys: seq<Entry>, s: set<Hash>)
    ensures Among(xs + ys, s) == Among(xs, s) + Among(ys, s)
  {
    hide Among;
    if ys == [] {
      AmongNothing(s);
      assert xs + ys == xs;
    } else {
      var init, e := ys[..|ys| - 1], ys[|ys| - 1];
      assert ys == init + [e] && xs + ys == (xs + init) + [e];
      AmongConcat(xs, init, s);
      AmongSnoc(xs + init, e, s);
      AmongSnoc(init, e, s);
    }
  }

  lemma {:induction false} AmongNothing(s: set<Hash>)
    ensures Among([], s) == []
  {
  }

  lemma {:induction false} AmongSnoc(xs: seq<Entry>, e: Entry, s: set<Hash>)
    ensures Among(xs + [e], s) == Among(xs, s) + (if e.hash in s then [e] else [])
  {
    assert (xs + [e])[..|xs|] == xs;
  }

  ghost function Filtered(batch: seq<Entry>, types: set<string>): seq<Entry> {
    Among(batch, AncestorsOf(ByHash(batch), MatchingHashes(batch, types)))
  }

  /** The filtered payload keeps every match, and every predecessor that the full payload carried. */
  lemma {:induction false} FilteredClosed(batch: seq<Entry>, types: set<string>)
    requires Consistent(batch)
    ensures forall e :: e in batch && e.hash in MatchingHashes(batch, types) ==> e in Filtered(batch, types)
    ensures forall e, p :: e in Filtered(batch, types) && p in e.next && p in HashesOf(batch) ==>
      p in HashesOf(Filtered(batch, types))
  {
    hide MatchingHashes, AncestorsOf;
    var l := ByHash(batch);
    var wanted := MatchingHashes(batch, types);
    ByHashContents(batch);
    forall e | e in batch && e.hash in wanted ensures e.hash in AncestorsOf(l, wanted) { SelfAncestor(l, wanted, e.hash); }
    forall e, p | e in Filtered(batch, types) && p in e.next && p in HashesOf(batch)
      ensures p in HashesOf(Filtered(batch, types))
    {
      assert l[e.hash] == e;
      AncestorStep(l, wanted, e.hash, p);
      assert l[p] in Filtered(batch, types);
    }
  }

  /** The batch adds node `id` under a wanted type. */
  ghost predicate WantedHere(batch: seq<Entry>, types: set<string>, id: string) {
    exists e :: e in batch && e.payload.AddNode? && e.payload.nodeId == id && e.payload.nodeType in types
  }

  /** What is wanted of a batch, payload by payload. */
  ghost predicate Wanted(batch: seq<Entry>, types: set<string>, e: Entry) {
    && (e.payload.AddNode? ==> e.payload.nodeType in types)
    && (e.payload.AddEdge? ==> WantedHere(batch, types, e.payload.source) || WantedHere(batch, types, e.payload.target))
    && (e.payload.UpdateProperty? ==> WantedHere(batch, types, e.payload.entityId))
    && (e.payload.RemoveNode? ==> WantedHere(batch, types, e.payload.nodeId))
  }

  lemma {:induction false} WantedIs(batch: seq<Entry>, types: set<string>, e: Entry)
    ensures Matches(e.payload, types, WantedNodes(batch, types)) <==> Wanted(batch, types, e)
  {
    forall id ensures id in WantedNodes(batch, types) <==> WantedHere(batch, types, id) {}
  }

  /**
   * The filtered payload, exactly: the entries at or below a wanted one. Adds count by their type, edges, updates and
   * removes of nodes by the nodes they touch; removes of edges and everything about the schema always count.
   */
  lemma {:induction false} FilteredIs(batch: seq<Entry>, types: set<string>, e: Entry)
    requires Consistent(batch)
    ensures e in Filtered(batch, types) <==>
      e in batch && exists w :: w in batch && Wanted(batch, types, w) && Below(ByHash(batch), e.hash, w.hash)
  {
    hide Matches, Wanted, WantedNodes, Below;
    ByHashContents(batch);
    var l := ByHash(batch);
    forall w: Entry ensures Matches(w.payload, types, WantedNodes(batch, types)) <==> Wanted(batch, types, w) { WantedIs(batch, types, w); }
    if e in Filtered(batch, types) {
      var s :| s in MatchingHashes(batch, types) && Below(l, e.hash, s);
      var w :| w in batch && Matches(w.payload, types, WantedNodes(batch, types)) && w.hash == s;
    }
    if w :| e in batch && w in batch && Wanted(batch, types, w) && Below(l, e.hash, w.hash) {
      assert w.hash in MatchingHashes(batch, types);
    }
  }

  lemma {:induction false} SelfAncestor(l: Log, starts: set<Hash>, h: Hash)
    requires h in l && h in starts
    ensures h in AncestorsOf(l, starts)
  {
    Paths.ReachesSelf(ParentMap(l), h);
  }

  lemma {:induction false} AncestorStep(l: Log, starts: set<Hash>, h: Hash, p: Hash)
    requires h in AncestorsOf(l, starts) && p in l[h].next && p in l
    ensures p in AncestorsOf(l, starts)
  {
    var s :| s in starts && Below(l, h, s);
    Paths.ReachesStep(ParentMap(l), s, h, p);
  }

  method FilterPayload(batch: seq<Entry>, types: set<string>) returns (r: seq<Entry>)
    requires Consistent(batch)
    ensures r == Filtered(batch, types)
  {
    hide AncestorsOf, MatchingHashes;
    var l := ByHash(batch);
    var starts := Elements(MatchingHashes(batch, types));
    var keep := Walk(l, starts);
    ReachIsAncestors(l, starts);
    ByHashContents(batch);
    r := [];
    for i := 0 to |batch|
      invariant r == Among(batch[..i], AncestorsOf(l, ToSet(starts)))
    {
      assert batch[..i + 1][..i] == batch[..i];
      assert batch[i].hash in l;
      if batch[i].hash in keep { r := r + [batch[i]]; }
    }
    assert batch[..|batch|] == batch;
  }
}
