/** Delta sync: which entries a peer is missing, and merging a batch that arrives in any order. */
module Sync {
  import opened Base
  import opened Entries
  import opened Paths
  import opened Dag
  import opened Topo
  import opened OpLogs
  import opened Bloom

  /** What a peer advertises: its heads and a lossy membership test over its entries. */
  datatype Offer = Offer(heads: seq<Hash>, bloom: Hash -> bool)

  datatype Payload = Payload(entries: seq<Entry>, need: seq<Hash>)

  // -- Answering an offer ----------------------------------------------------------------------------------

  /** What is sent before closing under ancestry: bloom misses, and our heads unless they are theirs. */
  function Seeds(l: Log, o: Offer): set<Hash> {
    (set h | h in l && !o.bloom(h)) + (set h | h in HeadsOf(l) && h !in o.heads)
  }

  /** Causal links that the closure follows: those not cut off at one of their heads. */
  function Links(l: Log, theirs: seq<Hash>): map<Hash, set<Hash>> {
    map h | h in l :: set p | p in l[h].next && p !in theirs && p in l
  }

  ghost function SendSet(l: Log, o: Offer): set<Hash> {
    set h | h in l && exists b :: b in Seeds(l, o) && Reaches(Links(l, o.heads), b, h)
  }

  function EntriesAt(l: Log, order: seq<Hash>): (r: seq<Entry>)
    requires forall h :: h in order ==> h in l
    ensures |r| == |order| && forall i :: 0 <= i < |r| ==> r[i] == l[order[i]]
  {
    seq(|order|, i requires 0 <= i < |order| => l[order[i]])
  }

  function Keep(order: seq<Hash>, s: set<Hash>): (r: seq<Hash>)
    ensures forall h :: h in r <==> h in order && h in s
  {
    if order == [] then []
    else Keep(order[..|order| - 1], s) + (if order[|order| - 1] in s then [order[|order| - 1]] else [])
  }

  function Need(l: Log, theirs: seq<Hash>): seq<Hash> {
    if theirs == [] then []
    else Need(l, theirs[..|theirs| - 1]) + (if theirs[|theirs| - 1] in l then [] else [theirs[|theirs| - 1]])
  }

  /** The hashes answered to an offer, in causal order. */
  ghost function MissingHashes(l: Log, o: Offer): (r: seq<Hash>) {
    if HeadsOf(l) <= ToSet(o.heads) then [] else Keep(CausalOrder(l, l.Keys), SendSet(l, o))
  }

  lemma {:induction false} MissingHashesKnown(l: Log, o: Offer)
    requires WellFormed(l)
    ensures forall h :: h in MissingHashes(l, o) ==> h in l && h in SendSet(l, o)
    ensures DistinctParents(l) && !(HeadsOf(l) <= ToSet(o.heads)) ==> ToSet(MissingHashes(l, o)) == SendSet(l, o)
  {
    hide ParentsFirst, SendSet, HeadsOf;
    CausalOrderCorrect(l, l.Keys);
    var order := CausalOrder(l, l.Keys);
    assert forall h :: h in order ==> h in ToSet(order);
    SendSetKnown(l, o);
    if DistinctParents(l) { AllDistinct(l); }
  }

  lemma {:induction false} AllDistinct(l: Log)
    requires DistinctParents(l)
    ensures forall c :: c in l ==> DistinctIn(l, l.Keys, c)
  {
  }

  lemma {:induction false} SendSetKnown(l: Log, o: Offer)
    ensures SendSet(l, o) <= l.Keys
  {
  }

  /** The whole log in causal order lists every entry once, provided no entry repeats a predecessor. */
  lemma {:induction false} WholeOrder(l: Log)
    requires WellFormed(l) && DistinctParents(l)
    ensures NoDup(CausalOrder(l, l.Keys)) && ToSet(CausalOrder(l, l.Keys)) == l.Keys
  {
    AllDistinct(l);
    CausalOrderCorrect(l, l.Keys);
  }

  /** Every predecessor of an answered entry is answered too, or is one of the heads offered. */
  lemma {:induction false} AnswerClosed(l: Log, o: Offer)
    requires WellFormed(l) && DistinctParents(l)
    ensures forall h, p :: h in MissingHashes(l, o) && p in l[h].next ==> p in MissingHashes(l, o) || p in o.heads
  {
    hide CausalOrder, Keep, HeadsOf, Founded, SendSet, MissingHashes;
    MissingHashesKnown(l, o);
    NothingMissing(l, o);
    forall h, p | h in MissingHashes(l, o) && p in l[h].next ensures p in MissingHashes(l, o) || p in o.heads {
      if p !in o.heads {
        SendSetStep(l, o, h, p);
        assert p in ToSet(MissingHashes(l, o));
      }
    }
  }

  lemma {:induction false} NothingMissing(l: Log, o: Offer)
    ensures HeadsOf(l) <= ToSet(o.heads) ==> MissingHashes(l, o) == []
  {
  }

  lemma {:induction false} SendSetStep(l: Log, o: Offer, h: Hash, p: Hash)
    requires Complete(l) && h in SendSet(l, o) && p in l[h].next && p !in o.heads
    ensures p in SendSet(l, o)
  {
    hide Seeds, Reaches;
    var b :| b in Seeds(l, o) && Reaches(Links(l, o.heads), b, h);
    ReachesStep(Links(l, o.heads), b, h, p);
  }

  lemma {:induction false} SeedsSent(l: Log, o: Offer)
    ensures Seeds(l, o) <= SendSet(l, o)
  {
    hide HeadsOf, Reaches;
    forall b | b in Seeds(l, o) ensures b in SendSet(l, o) {
      ReachesSelf(Links(l, o.heads), b);
      HeadsKnown(l);
    }
  }

  /** Two logs never hold different entries under one hash. */
  ghost predicate Agree(a: Log, b: Log) { forall h :: h in a && h in b ==> a[h] == b[h] }

  /**
   * Whatever the membership test answers, the reply to an offer whose heads the receiver holds
   * supplies everything the receiver lacks.
   */
  lemma {:induction false} AnswerSuffices(src: Log, o: Offer, dst: Log)
    requires WellFormed(src) && DistinctParents(src) && Complete(dst) && Agree(src, dst)
    requires ToSet(o.heads) <= dst.Keys
    ensures src.Keys <= ToSet(MissingHashes(src, o)) + dst.Keys
  {
    hide MissingHashes, Seeds, SendSet, Founded, HeadsOf, AncestorsOf;
    var x := ToSet(MissingHashes(src, o)) + dst.Keys;
    AnswerClosed(src, o);
    assert AncestorClosed(src, x) by {
      forall h, p | h in x && h in src && p in src[h].next ensures p in x {
        if h in ToSet(MissingHashes(src, o)) {
          assert p in MissingHashes(src, o) || p in ToSet(o.heads);
        } else {
          assert src[h] == dst[h];
        }
      }
    }
    HeadsAnswered(src, o);
    HeadsCover(src);
    CoveredByClosed(src, HeadsOf(src), x);
  }

  lemma {:induction false} HeadsAnswered(l: Log, o: Offer)
    requires WellFormed(l) && DistinctParents(l)
    ensures HeadsOf(l) <= ToSet(MissingHashes(l, o)) + ToSet(o.heads)
  {
    hide MissingHashes, SendSet, Founded, HeadsOf;
    MissingHashesKnown(l, o);
    SeedsSent(l, o);
  }

  lemma {:induction false} CoveredByClosed(l: Log, starts: set<Hash>, x: set<Hash>)
    requires starts <= x && AncestorClosed(l, x)
    ensures AncestorsOf(l, starts) <= x
  {
    hide Below;
    forall a | a in AncestorsOf(l, starts) ensures a in x {
      var s :| s in starts && Below(l, a, s);
      ClosedKeepsBelow(l, x, a, s);
    }
  }

  // -- Exactly what is answered and needed -------------------------------------------------------------------

  /** A path back from a filter miss, or from a head of ours that is not theirs, that enters no head of theirs. */
  ghost predicate SendPath(l: Log, o: Offer, p: seq<Hash>) {
    && p != [] && p[0] in l
    && (!o.bloom(p[0]) || (p[0] !in o.heads && forall c :: c in l ==> p[0] !in l[c].next))
    && forall i :: 0 <= i < |p| - 1 ==> BackStep(l, o, p[i], p[i + 1])
  }

  /** From an entry to a predecessor that is held and is no head of theirs. */
  predicate BackStep(l: Log, o: Offer, a: Hash, b: Hash) { a in l && b in l[a].next && b in l && b !in o.heads }

  lemma {:induction false} SeedIs(l: Log, o: Offer, b: Hash)
    ensures b in Seeds(l, o) <==> b in l && (!o.bloom(b) || (b !in o.heads && forall c :: c in l ==> b !in l[c].next))
  {
    assert ChildrenOf(l, b) == {} <==> forall c :: c in l ==> b !in l[c].next by {
      if ChildrenOf(l, b) == {} {
        forall c | c in l ensures b !in l[c].next { assert c !in ChildrenOf(l, b); }
      }
    }
  }

  lemma {:induction false} SentByPath(l: Log, o: Offer, h: Hash)
    ensures h in SendSet(l, o) <==> h in l && exists p :: SendPath(l, o, p) && p[|p| - 1] == h
  {
    hide Seeds;
    var g := Links(l, o.heads);
    if h in SendSet(l, o) {
      var b :| b in Seeds(l, o) && Reaches(g, b, h);
      var p :| Joins(g, b, h, p);
      SeedIs(l, o, b);
      forall i | 0 <= i < |p| - 1 ensures BackStep(l, o, p[i], p[i + 1]) {
        assert p[i + 1] in Succ(g, p[i]);
      }
      assert SendPath(l, o, p);
    }
    if p :| h in l && SendPath(l, o, p) && p[|p| - 1] == h {
      SeedIs(l, o, p[0]);
      forall i | 0 <= i < |p| - 1 ensures p[i + 1] in Succ(g, p[i]) { assert BackStep(l, o, p[i], p[i + 1]); }
      assert Joins(g, p[0], h, p);
    }
  }

  /**
   * What is answered, exactly: nothing when all our heads are theirs; else the filter's misses, our heads that are
   * not theirs, and whatever a path back from one of them meets before it enters a head of theirs.
   */
  lemma {:induction false} AnswerIs(l: Log, o: Offer, h: Hash)
    requires WellFormed(l) && DistinctParents(l)
    ensures h in MissingHashes(l, o) <==>
      && (exists x :: x in l && x !in o.heads && forall c :: c in l ==> x !in l[c].next)
      && h in l && exists p :: SendPath(l, o, p) && p[|p| - 1] == h
  {
    hide WellFormed, DistinctParents, SendSet, SendPath, CausalOrder;
    SentByPath(l, o, h);
    MissingHashesKnown(l, o);
    NothingMissing(l, o);
    assert h in MissingHashes(l, o) <==> h in ToSet(MissingHashes(l, o));
    HeadsOffered(l, o);
  }

  lemma {:induction false} HeadsOffered(l: Log, o: Offer)
    ensures HeadsOf(l) <= ToSet(o.heads) <==> !exists x :: x in l && x !in o.heads && forall c :: c in l ==> x !in l[c].next
  {
    forall x | x in l ensures x in HeadsOf(l) <==> forall c :: c in l ==> x !in l[c].next {
      if x in HeadsOf(l) {
        forall c | c in l ensures x !in l[c].next { assert c !in ChildrenOf(l, x); }
      }
    }
    assert forall x :: x in HeadsOf(l) ==> x in l;
  }

  /** `places` are the positions of `theirs` that `l` lacks, in order, and `need` lists what stands there. */
  ghost predicate LackedAt(l: Log, theirs: seq<Hash>, places: seq<nat>, need: seq<Hash>) {
    && (forall i :: 0 <= i < |places| ==> places[i] < |theirs|)
    && (forall i, j :: 0 <= i < j < |places| ==> places[i] < places[j])
    && (forall k: nat :: k in places <==> k < |theirs| && theirs[k] !in l)
    && |need| == |places| && forall i :: 0 <= i < |places| ==> need[i] == theirs[places[i]]
  }

  /** The need list is the offered heads not held, in the order offered and as often. */
  lemma {:induction false} NeedIs(l: Log, theirs: seq<Hash>)
    ensures exists places: seq<nat> :: LackedAt(l, theirs, places, Need(l, theirs))
  {
    hide LackedAt;
    if theirs == [] {
      LackedNone(l);
      assert LackedAt(l, theirs, [], Need(l, theirs));
    } else {
      var init, h := theirs[..|theirs| - 1], theirs[|theirs| - 1];
      assert theirs == init + [h];
      NeedIs(l, init);
      var places: seq<nat> :| LackedAt(l, init, places, Need(l, init));
      if h in l {
        LackedHeld(l, init, h, places, Need(l, init));
        assert LackedAt(l, theirs, places, Need(l, theirs));
      } else {
        LackedMore(l, init, h, places, Need(l, init));
        assert LackedAt(l, theirs, places + [|init|], Need(l, theirs));
      }
    }
  }

  lemma {:induction false} LackedNone(l: Log)
    ensures LackedAt(l, [], [], [])
  {
  }

  lemma {:induction false} LackedHeld(l: Log, init: seq<Hash>, h: Hash, places: seq<nat>, need: seq<Hash>)
    requires LackedAt(l, init, places, need) && h in l
    ensures LackedAt(l, init + [h], places, need + [])
  {
    var theirs := init + [h];
    forall k: nat ensures k in places <==> k < |theirs| && theirs[k] !in l {
      if k < |init| { assert theirs[k] == init[k]; }
    }
  }

  lemma {:induction false} LackedMore(l: Log, init: seq<Hash>, h: Hash, places: seq<nat>, need: seq<Hash>)
    requires LackedAt(l, init, places, need) && h !in l
    ensures LackedAt(l, init + [h], places + [|init|], need + [h])
  {
    var theirs, after := init + [h], places + [|init|];
    forall k: nat ensures k in after <==> k < |theirs| && theirs[k] !in l {
      if k < |init| { assert theirs[k] == init[k]; }
      assert k in after <==> k in places || k == |init|;
    }
  }

  /** A hash is asked for if and only if it was offered and is not held; nothing, if and only if all are held. */
  lemma {:induction false} NeedIff(l: Log, theirs: seq<Hash>)
    ensures forall h :: h in Need(l, theirs) <==> h in theirs && h !in l
    ensures Need(l, theirs) == [] <==> ToSet(theirs) <= l.Keys
    ensures forall h :: multiset(Need(l, theirs))[h] == if h in l then 0 else multiset(theirs)[h]
  {
    hide Need;
    if theirs == [] {
      NeedNothing(l);
    } else {
      var init, h := theirs[..|theirs| - 1], theirs[|theirs| - 1];
      assert theirs == init + [h];
      NeedIff(l, init);
      NeedSnoc(l, init, h);
      ToSetSnoc(init, h);
      if h in l { assert Need(l, init) + [] == Need(l, init); }
    }
  }

  lemma {:induction false} NeedNothing(l: Log)
    ensures Need(l, []) == []
  {
  }

  lemma {:induction false} NeedSnoc(l: Log, init: seq<Hash>, h: Hash)
    ensures Need(l, init + [h]) == Need(l, init) + (if h in l then [] else [h])
  {
    assert (init + [h])[..|init|] == init;
  }

  // -- How much is answered ----------------------------------------------------------------------------------

  lemma {:induction false} KeepDistinct(order: seq<Hash>, s: set<Hash>)
    requires NoDup(order)
    ensures NoDup(Keep(order, s))
  {
    if order != [] {
      var n := |order| - 1;
      KeepDistinct(order[..n], s);
      var kept := Keep(order[..n], s);
      forall i | 0 <= i < |kept| ensures kept[i] != order[n] { assert kept[i] in kept && kept[i] in order[..n]; }
    }
  }

  /**
   * The size of an answer, for every membership test: at least what the receiver lacks, and at most
   * the whole log; and exactly the whole log when none of the offered heads is known.
   */
  lemma {:induction false} AnswerSize(src: Log, o: Offer, dst: Log)
    requires WellFormed(src) && DistinctParents(src) && Complete(dst) && Agree(src, dst) && ToSet(o.heads) <= dst.Keys
    ensures NoDup(MissingHashes(src, o)) && |src.Keys - dst.Keys| <= |MissingHashes(src, o)| <= |src|
    ensures ToSet(o.heads) !! src.Keys ==> ToSet(MissingHashes(src, o)) == src.Keys && |MissingHashes(src, o)| == |src|
  {
    hide MissingHashes, WellFormed, DistinctParents, Complete, Agree, NoDup;
    var r := MissingHashes(src, o);
    AnswerSuffices(src, o, dst);
    AnswerListed(src, o);
    NoDupSize(r);
    SubsetSize(src.Keys - dst.Keys, ToSet(r));
    SubsetSize(ToSet(r), src.Keys);
    assert |src.Keys| == |src|;
    if ToSet(o.heads) !! src.Keys { AnswerWhole(src, o); }
  }

  lemma {:induction false} AnswerListed(src: Log, o: Offer)
    requires WellFormed(src) && DistinctParents(src)
    ensures NoDup(MissingHashes(src, o)) && ToSet(MissingHashes(src, o)) <= src.Keys
  {
    hide CausalOrder, SendSet, HeadsOf, Founded;
    WholeOrder(src);
    KeepDistinct(CausalOrder(src, src.Keys), SendSet(src, o));
    SendSetKnown(src, o);
    assert forall h :: h in MissingHashes(src, o) ==> h in src.Keys by { MissingHashesKnown(src, o); }
  }

  /** A peer that knows none of the offered heads answers with everything it has. */
  lemma {:induction false} AnswerWhole(src: Log, o: Offer)
    requires WellFormed(src) && DistinctParents(src) && ToSet(o.heads) !! src.Keys
    ensures ToSet(MissingHashes(src, o)) == src.Keys
  {
    hide MissingHashes, SendSet, Founded, HeadsOf, AncestorsOf;
    var x := ToSet(MissingHashes(src, o));
    MissingHashesKnown(src, o);
    AnswerClosed(src, o);
    WellFormedParts(src);
    assert AncestorClosed(src, x) by {
      forall h, p | h in x && h in src && p in src[h].next ensures p in x {
        assert p in src.Keys;
        assert p in MissingHashes(src, o) || p in ToSet(o.heads);
      }
    }
    HeadsAnswered(src, o);
    HeadsKnown(src);
    HeadsCover(src);
    CoveredByClosed(src, HeadsOf(src), x);
  }

  // -- The reply as the source computes it -----------------------------------------------------------------

  method EntriesMissing(oplog: OpLog, o: Offer) returns (r: Payload)
    requires oplog.Valid()
    ensures forall h :: h in MissingHashes(oplog.entries, o) ==> h in oplog.entries
    ensures r == Payload(EntriesAt(oplog.entries, MissingHashes(oplog.entries, o)), Need(oplog.entries, o.heads))
  {
    hide WellFormed, HeadsOf, SendSet, CausalOrder, Past, Indexes;
    var l := oplog.entries;
    MissingHashesKnown(l, o);
    var all := oplog.EntriesSince(None);
    PastNothing(l);
    var need := ComputeNeed(l, o.heads);
    if oplog.heads <= ToSet(o.heads) { return Payload([], need); }
    var send := (set h | h in l && !o.bloom(h)) + (set h | h in oplog.heads && h !in o.heads);
    send := Closure(l, o, send);
    var chosen := Filter(all, send);
    r := Payload(EntriesAt(l, chosen), need);
  }

  lemma {:induction false} PastNothing(l: Log)
    ensures Past(l, []) == l.Keys
  {
    assert AncestorsOf(l, ToSet([])) == {};
  }

  method ComputeNeed(l: Log, theirs: seq<Hash>) returns (need: seq<Hash>)
    ensures need == Need(l, theirs)
  {
    need := [];
    for i := 0 to |theirs|
      invariant need == Need(l, theirs[..i])
    {
      assert theirs[..i + 1][..i] == theirs[..i];
      if theirs[i] !in l { need := need + [theirs[i]]; }
    }
    assert theirs[..|theirs|] == theirs;
  }

  method Filter(order: seq<Hash>, s: set<Hash>) returns (r: seq<Hash>)
    ensures r == Keep(order, s)
  {
    r := [];
    for i := 0 to |order|
      invariant r == Keep(order[..i], s)
    {
      assert order[..i + 1][..i] == order[..i];
      if order[i] in s { r := r + [order[i]]; }
    }
    assert order[..|order|] == order;
  }

  /** Ancestor closure by a queue, stopping at the heads offered. */
  method Closure(l: Log, o: Offer, seeds: set<Hash>) returns (send: set<Hash>)
    requires seeds == Seeds(l, o)
    ensures send == SendSet(l, o)
  {
    hide Seeds, SendSet, Links;
    send := seeds;
    SeedsSent(l, o);
    SendSetKnown(l, o);
    ghost var goal := SendSet(l, o);
    var queue := Elements(seeds);
    while queue != []
      invariant seeds <= send <= goal && ToSet(queue) <= send
      invariant forall h :: h in send && h !in ToSet(queue) && h in l ==> LinksAt(l, o.heads, h) <= send
      decreases goal - send, |queue|
    {
      var h := queue[0];
      assert ToSet(queue) == {h} + ToSet(queue[1..]) by { assert queue == [h] + queue[1..]; }
      queue := queue[1..];
      if h in l {
        SendSetLinks(l, o, h);
        var more := NewLinks(l, o.heads, send, l[h].next);
        assert ToSet(queue + more) == ToSet(queue) + ToSet(more);
        if more != [] { assert more[0] in ToSet(more) && more[0] in goal - send; }
        send, queue := send + ToSet(more), queue + more;
      }
    }
    ClosureComplete(l, o, send);
  }

  function LinksAt(l: Log, theirs: seq<Hash>, h: Hash): set<Hash>
    requires h in l
  {
    set p | p in l[h].next && p !in theirs && p in l
  }

  lemma {:induction false} SendSetLinks(l: Log, o: Offer, h: Hash)
    requires h in l && h in SendSet(l, o)
    ensures LinksAt(l, o.heads, h) <= SendSet(l, o)
  {
    hide Seeds, Reaches;
    var b :| b in Seeds(l, o) && Reaches(Links(l, o.heads), b, h);
    forall p | p in LinksAt(l, o.heads, h) ensures p in SendSet(l, o) { ReachesStep(Links(l, o.heads), b, h, p); }
  }

  lemma {:induction false} ClosureComplete(l: Log, o: Offer, send: set<Hash>)
    requires Seeds(l, o) <= send <= SendSet(l, o)
    requires forall h :: h in send && h in l ==> LinksAt(l, o.heads, h) <= send
    ensures send == SendSet(l, o)
  {
    hide Seeds, Reaches;
    forall h | h in SendSet(l, o) ensures h in send {
      var b :| b in Seeds(l, o) && Reaches(Links(l, o.heads), b, h);
      ClosedKeepsReach(Links(l, o.heads), send, b, h);
    }
  }

  /** The predecessors still to be added, once each. */
  method NewLinks(l: Log, theirs: seq<Hash>, send: set<Hash>, next: seq<Hash>) returns (r: seq<Hash>)
    ensures ToSet(r) == (set p | p in next && p !in theirs && p in l) - send
  {
    r := [];
    for i := 0 to |next|
      invariant forall p :: p in r <==> p in next[..i] && p !in theirs && p in l && p !in send
    {
      assert next[..i + 1] == next[..i] + [next[i]];
      if next[i] !in send && next[i] !in r && next[i] !in theirs && next[i] in l { r := r + [next[i]]; }
    }
    assert next[..|next|] == next;
  }

  // -- Making an offer ---------------------------------------------------------------------------------------

  /** The filter of an offer: no entry of the log is ever missed, as long as none repeats a predecessor. */
  method OfferFilter(oplog: OpLog, numBits: nat, numHashes: u32, words: nat) returns (filter: BloomFilter)
    requires oplog.Valid() && numBits > 0 && words * 64 >= numBits && 1 <= numHashes <= 32
    ensures filter.Valid() && fresh(filter)
    ensures DistinctParents(oplog.entries) ==> forall h :: h in oplog.entries ==> filter.Finds(h)
  {
    hide CausalOrder, WellFormed, HeadsOf, Indexes, DistinctParents;
    var all := oplog.EntriesSince(None);
    PastNothing(oplog.entries);
    filter := new BloomFilter(numBits, numHashes, words);
    filter.InsertAll(all);
    if DistinctParents(oplog.entries) {
      WholeOrder(oplog.entries);
      forall h | h in oplog.entries ensures filter.Finds(h) { assert h in ToSet(all); }
    }
  }
}
