/** What one sync achieves: the union of two logs, and agreement after syncing both ways. */
module Convergence {
  import opened Base
  import opened Entries
  import opened Dag
  import opened Topo
  import opened Sync
  import opened Merge

  /** A causally complete part of a universe of entries that is acyclic and never repeats a predecessor. */
  ghost predicate Universe(all: Log) { Keyed(all) && Founded(all) && DistinctParents(all) }

  ghost predicate PartOf(l: Log, all: Log) { Sublog(l, all) && Complete(l) }

  lemma {:induction false} PartIsLog(l: Log, all: Log)
    requires Universe(all) && PartOf(l, all)
    ensures WellFormed(l) && DistinctParents(l)
  {
    SublogFounded(l, all);
  }

  /** `o` is an offer made by `l`, with any membership test at all. */
  ghost predicate OfferOf(o: Offer, l: Log) { ToSet(o.heads) == HeadsOf(l) }

  /** One directed sync: `dst` offers, `src` answers, `dst` merges. */
  ghost function SyncInto(src: Log, dst: Log, o: Offer): Log {
    if !WellFormed(src) then dst
    else
      MissingHashesKnown(src, o);
      Absorb(dst, EntriesAt(src, MissingHashes(src, o)))
  }

  lemma {:induction false} AnswerEntries(src: Log, hs: seq<Hash>)
    requires Keyed(src) && forall h :: h in hs ==> h in src
    ensures HashesOf(EntriesAt(src, hs)) == ToSet(hs)
    ensures forall e :: e in EntriesAt(src, hs) ==> e.hash in src && src[e.hash] == e && e.hash in hs
  {
    var es := EntriesAt(src, hs);
    forall h | h in hs ensures h in HashesOf(es) {
      var i :| 0 <= i < |hs| && hs[i] == h;
      assert es[i] in es && es[i].hash == h;
    }
  }

  lemma {:induction false} AnswerBatch(src: Log, dst: Log, o: Offer, all: Log)
    requires WellFormed(src) && DistinctParents(src) && WellFormed(dst) && Sublog(src, all) && Sublog(dst, all)
    requires OfferOf(o, dst)
    ensures forall h :: h in MissingHashes(src, o) ==> h in src
    ensures var batch := EntriesAt(src, MissingHashes(src, o));
      && ClosedBatch(dst, batch) && HashesOf(batch) == ToSet(MissingHashes(src, o)) && HashesOf(batch) <= src.Keys
      && (forall e :: e in batch ==> e.hash in all && all[e.hash] == e)
      && src.Keys <= HashesOf(batch) + dst.Keys
  {
    hide MissingHashes, HeadsOf, Founded, DistinctParents, EntriesAt;
    HeadsKnown(dst);
    MissingHashesKnown(src, o);
    AnswerSuffices(src, o, dst);
    AnswerEntries(src, MissingHashes(src, o));
    AnswerClosed(src, o);
    var batch := EntriesAt(src, MissingHashes(src, o));
    forall e, p | e in batch && p in e.next ensures p in dst || p in HashesOf(batch) {
      assert p in ToSet(MissingHashes(src, o)) || p in ToSet(o.heads);
    }
  }

  /**
   * A directed sync delivers exactly the union of the two logs, for every membership test the
   * offer may carry; the delivered batch always merges.
   */
  lemma {:induction false} SyncIsUnion(src: Log, dst: Log, o: Offer, all: Log)
    requires Universe(all) && PartOf(src, all) && PartOf(dst, all) && OfferOf(o, dst)
    ensures PartOf(SyncInto(src, dst, o), all) && SyncInto(src, dst, o).Keys == src.Keys + dst.Keys
  {
    hide WellFormed, MissingHashes, Absorb, Founded, DistinctParents, EntriesAt, OfferOf, Keyed, HashesOf, ClosedBatch;
    PartIsLog(src, all);
    PartIsLog(dst, all);
    AnswerBatch(src, dst, o, all);
    ClosedBatchMerges(dst, EntriesAt(src, MissingHashes(src, o)), all);
    WellFormedParts(Absorb(dst, EntriesAt(src, MissingHashes(src, o))));
  }

  /** Parts of one universe with the same hashes are the same log, heads included. */
  lemma {:induction false} SameKeysSameLog(a: Log, b: Log, all: Log)
    requires PartOf(a, all) && PartOf(b, all) && a.Keys == b.Keys
    ensures a == b && HeadsOf(a) == HeadsOf(b)
  {
    MapsAgree(a, b);
  }

  /** Theorem 3: syncing one way and then back leaves both peers with the same log and the same order. */
  lemma {:induction false} BothWaysConverge(a: Log, b: Log, oB: Offer, oA: Offer, all: Log)
    requires Universe(all) && PartOf(a, all) && PartOf(b, all) && OfferOf(oB, b) && OfferOf(oA, a)
    ensures var b' := SyncInto(a, b, oB);
      var a' := SyncInto(b', a, oA);
      && a' == b' && a'.Keys == a.Keys + b.Keys
      && HeadsOf(a') == HeadsOf(b') && CausalOrder(a', a'.Keys) == CausalOrder(b', b'.Keys)
  {
    hide WellFormed, SyncInto, HeadsOf, CausalOrder, Universe, PartOf, OfferOf;
    SyncIsUnion(a, b, oB, all);
    var b' := SyncInto(a, b, oB);
    SyncIsUnion(b', a, oA, all);
    SameKeysSameLog(SyncInto(b', a, oA), b', all);
  }
}
