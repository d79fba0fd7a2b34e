/**
 * A run, for every length from the message limit up, after which two peers that share a chain and then
 * write once each never sync again: each answer is the sender's whole log, and is refused.
 */
module Oversize {
  import opened Base
  import opened Clocks
  import opened Ontologies
  import opened Entries
  import opened Paths
  import opened Dag
  import opened Sync
  import opened Merge
  import opened Network
  import opened Rings

  /** A digest that counts along a line of entries and keeps two authors apart. */
  function Rank(): Digest { (c: Content) => if c.next == [] then 0 else c.next[0] + (if c.author == "a" then 2 else 1) }

  function Root(): Entry { NewEntry(Rank(), DefineOntology(Ontology(map[], map[])), [], Clock("a", 0, 0), "a") }

  function Start(): Net {
    Net([Peer(map[0 := Root()], Clock("a", 0, 0)), Peer(map[0 := Root()], Clock("b", 0, 0))], [], [], map[0 := Root()])
  }

  function Op(): GraphOp { AddNode("n", "t", None, "", map[]) }

  /** Both peers hold the same `n + 1` entries under the one head `2 * n`. */
  ghost predicate Shared(s: Net, n: nat) {
    && Inv(Rank(), s) && |s.peers| == 2 && s.peers[0].clock.id == "a" && s.peers[1].clock.id == "b" && s.peers[0].clock.physical == 0
    && s.peers[0].log == s.written && s.peers[1].log == s.written
    && Chained(s.written, n)
  }

  ghost predicate Chained(l: Log, n: nat) {
    |l| == n + 1 && HeadsOf(l) == {2 * n} && forall h :: h in l ==> h <= 2 * n && l[h].clock.physical == 0
  }

  lemma {:induction false} StartShared()
    ensures Initial(Rank(), Start()) && Shared(Start(), 0)
  {
    hide Inv;
    var s := Start();
    assert s.written[0] == Root() && Root().hash == 0;
    forall i | 0 <= i < |s.peers| ensures RootOnly(s.written, s.peers[i]) {
      assert 0 in s.written && s.peers[i].log == map[0 := s.written[0]];
    }
    RootWellFormed(Root());
    InitialInv(Rank(), s);
  }

  lemma {:induction false} WriteNext(s: Net, i: nat, top: Hash)
    requires Inv(Rank(), s) && i < |s.peers| && HeadsOf(s.peers[i].log) == {top}
    requires var h := top + (if s.peers[i].clock.id == "a" then 2 else 1); h !in s.written
    ensures var d, step := Rank(), Write(i, Op(), [top], 0);
      && Enabled(d, s, step) && Inv(d, After(d, s, step))
      && var e := WrittenBy(d, s.peers[i], Op(), [top], 0);
      var t := After(d, s, step);
      && e.hash == top + (if s.peers[i].clock.id == "a" then 2 else 1) && e.next == [top] && e.clock == Ticked(s.peers[i].clock, 0)
      && t == s.(peers := s.peers[i := Peer(s.peers[i].log[e.hash := e], e.clock)], written := s.written[e.hash := e])
      && HeadsOf(t.peers[i].log) == {e.hash}
  {
    hide Inv, HeadsOf, Enabled, After;
    WriteOnHead(Rank(), s, i, Op(), top, 0);
  }

  function OpenLink(): Link { Link((h: Hash) => true, 0, (i: nat) => 0) }

  /** With a filter that finds everything, a head on top of the offered one travels alone. */
  lemma {:induction false} HeadAlone(l: Log, o: Offer, top: Hash)
    requires WellFormed(l) && DistinctParents(l) && HeadsOf(l) == {top} && top !in o.heads && top in l
    requires ToSet(l[top].next) <= ToSet(o.heads) && forall h :: o.bloom(h)
    ensures |MissingHashes(l, o)| == 1
  {
    hide WellFormed, DistinctParents, MissingHashes, HeadsOf, SendSet, NoDup;
    SendAlone(l, o, top);
    MissingHashesKnown(l, o);
    AnswerListed(l, o);
    NoDupSize(MissingHashes(l, o));
  }

  lemma {:induction false} SendAlone(l: Log, o: Offer, top: Hash)
    requires HeadsOf(l) == {top} && top !in o.heads && top in l
    requires ToSet(l[top].next) <= ToSet(o.heads) && forall h :: o.bloom(h)
    ensures SendSet(l, o) == {top}
  {
    hide HeadsOf, Reaches, Links, Seeds, ClosedUnder;
    SeedsSent(l, o);
    SeedAlone(l, o, top);
    NoLinks(l, o, top);
    forall h | h in SendSet(l, o) ensures h == top {
      var b :| b in Seeds(l, o) && Reaches(Links(l, o.heads), b, h);
      ClosedKeepsReach(Links(l, o.heads), {top}, top, h);
    }
  }

  lemma {:induction false} SeedAlone(l: Log, o: Offer, top: Hash)
    requires HeadsOf(l) == {top} && top !in o.heads && forall h :: o.bloom(h)
    ensures Seeds(l, o) == {top}
  {
    hide HeadsOf;
  }

  lemma {:induction false} NoLinks(l: Log, o: Offer, top: Hash)
    requires top in l && ToSet(l[top].next) <= ToSet(o.heads)
    ensures ClosedUnder(Links(l, o.heads), {top})
  {
    assert forall p :: p in l[top].next ==> p in ToSet(o.heads);
  }

  /** Peer 0 writes, and its one new entry reaches peer 1. */
  lemma {:induction false} OneMore(s: Net, n: nat) returns (steps: seq<Step>)
    requires Shared(s, n)
    ensures Possible(Rank(), s, steps) && Shared(Final(Rank(), s, steps), n + 1)
  {
    hide Possible, Final, Inv, Synced, SyncSteps, After, Enabled, HeadsOf;
    var d, write := Rank(), Write(0, Op(), [2 * n], 0);
    WriteNext(s, 0, 2 * n);
    var t := After(d, s, write);
    RunOne(d, s, write);
    SyncRuns(d, t, 0, 1, OpenLink());
    RunConcat(d, s, [write], SyncSteps(t, 0, 1, OpenLink()));
    steps := [write] + SyncSteps(t, 0, 1, OpenLink());
    RunKeepsInv(d, s, steps);
    PassedOn(s, t, n);
  }

  lemma {:induction false} PassedOn(s: Net, t: Net, n: nat)
    requires Shared(s, n) && Inv(Rank(), t)
    requires Enabled(Rank(), s, Write(0, Op(), [2 * n], 0)) && t == After(Rank(), s, Write(0, Op(), [2 * n], 0))
    requires Inv(Rank(), Synced(t, 0, 1, OpenLink()))
    ensures Shared(Synced(t, 0, 1, OpenLink()), n + 1)
  {
    hide Inv, After, Enabled, HeadsOf, Sane, Synced;
    WriteNext(s, 0, 2 * n);
    var d := Rank();
    var e := WrittenBy(d, s.peers[0], Op(), [2 * n], 0);
    assert t.peers[0].log == s.written[e.hash := e] && t.written == t.peers[0].log && t.peers[1] == s.peers[1];
    InvSane(d, t);
    CaughtUp(t, n);
  }

  lemma {:induction false} CaughtUp(t: Net, n: nat)
    requires Sane(Rank(), t) && |t.peers| == 2 && HeadsOf(t.peers[1].log) == {2 * n} && HeadsOf(t.peers[0].log) == {2 * n + 2}
    requires 2 * n + 2 in t.peers[0].log && t.peers[0].log[2 * n + 2].next == [2 * n]
    requires t.peers[1].log.Keys <= t.peers[0].log.Keys && forall h :: h in t.peers[0].log ==> t.peers[0].log[h].clock.physical == 0
    ensures var u := Synced(t, 0, 1, OpenLink());
      && |u.peers| == 2 && u.peers[0] == t.peers[0] && u.peers[1].log == t.peers[0].log && u.written == t.written
      && u.peers[1].clock.id == t.peers[1].clock.id
  {
    hide HeadsOf, Taken, Sane, AnswerTo, WithinLimits;
    var d, u, p, q := Rank(), Synced(t, 0, 1, OpenLink()), t.peers[1], t.peers[0].log;
    LoneAnswer(t, n);
    RingSync(d, t, 0, 1, OpenLink());
    assert AllInReach(p, q);
    assert p.log.Keys + q.Keys == q.Keys;
    SaneSame(d, u, 1, 0);
    SyncKeepsId(p, AnswerTo(t, 0, 1, OpenLink()), OpenLink().walls);
  }

  lemma {:induction false} InvSane(d: Digest, s: Net)
    requires Inv(d, s)
    ensures Sane(d, s)
  {
  }

  lemma {:induction false} LoneAnswer(t: Net, n: nat)
    requires Sane(Rank(), t) && |t.peers| == 2 && HeadsOf(t.peers[1].log) == {2 * n} && HeadsOf(t.peers[0].log) == {2 * n + 2}
    requires 2 * n + 2 in t.peers[0].log && t.peers[0].log[2 * n + 2].next == [2 * n]
    ensures WithinLimits(AnswerTo(t, 0, 1, OpenLink()).batch, 0)
  {
    hide HeadsOf, Sane, WellFormed, DistinctParents, Agree, Complete, MissingHashes;
    SaneLogs(Rank(), t, 0, 1);
    var o := OfferFrom(t.peers[1], OpenLink().bloom);
    assert ToSet([2 * n]) == {2 * n} == ToSet(o.heads);
    MissingHashesKnown(t.peers[0].log, o);
    assert 2 * n + 2 !in ToSet(o.heads);
    HeadAlone(t.peers[0].log, o, 2 * n + 2);
  }

  lemma {:induction false} SyncKeepsId(p: Peer, r: Reply, walls: nat -> u64)
    ensures Taken(p, r, walls).clock.id == p.clock.id
  {
    hide DeliveredOrder, Absorb, Admitted, Founded, HashesOf, ClocksAt, MergedAll;
    var admitted := Admitted(p.clock, r.batch);
    var log := Absorb(p.log, admitted);
    if Founded(log) { MergedAllId(p.clock, ClocksAt(log, DeliveredOrder(log, admitted)), walls); }
  }

  lemma {:induction false} MergedAllId(c: Clock, others: seq<Clock>, walls: nat -> u64)
    ensures MergedAll(c, others, walls).id == c.id
  {
    if others != [] { MergedAllId(c, others[..|others| - 1], walls); }
  }

  /** Chains of any length get shared. */
  lemma {:induction false} ShareChain(n: nat) returns (steps: seq<Step>)
    ensures Possible(Rank(), Start(), steps) && Shared(Final(Rank(), Start(), steps), n)
  {
    hide Possible, Final, Shared;
    StartShared();
    if n == 0 {
      RunNothing(Rank(), Start());
      steps := [];
    } else {
      var before := ShareChain(n - 1);
      var more := OneMore(Final(Rank(), Start(), before), n - 1);
      RunConcat(Rank(), Start(), before, more);
      steps := before + more;
    }
  }

  /** One write by each peer. */
  lemma {:induction false} Fork(s: Net, n: nat) returns (steps: seq<Step>)
    requires Shared(s, n)
    ensures var d := Rank();
      && Possible(d, s, steps) && var t := Final(d, s, steps);
      && Inv(d, t) && |t.peers| == 2 && |t.peers[0].log| == |t.peers[1].log| == n + 2
      && HeadsOf(t.peers[0].log) == {2 * n + 2} && HeadsOf(t.peers[1].log) == {2 * n + 1}
      && 2 * n + 2 !in t.peers[1].log && 2 * n + 1 !in t.peers[0].log
      && |t.peers[0].log.Keys * t.peers[1].log.Keys| == n + 1
  {
    hide Possible, Final, Inv, After, Enabled, HeadsOf;
    var d, first, second := Rank(), Write(0, Op(), [2 * n], 0), Write(1, Op(), [2 * n], 0);
    WriteNext(s, 0, 2 * n);
    var t := After(d, s, first);
    WriteNext(t, 1, 2 * n);
    var u := After(d, t, second);
    RunOne(d, t, second);
    RunFront(d, s, first, [second]);
    steps := [first] + [second];
    assert u.peers[0].log.Keys * u.peers[1].log.Keys == s.written.Keys;
    assert |s.written.Keys| == |s.written|;
  }

  /** A run after which two peers share `n` entries, hold one more each, and stay as they are in every round. */
  ghost predicate NeverMeets(n: nat, steps: seq<Step>) {
    var d, s := Rank(), Start();
    && Initial(d, s) && Possible(d, s, steps) && var t := Final(d, s, steps);
    && |t.peers| == 2 && |t.peers[0].log| == |t.peers[1].log| == n + 1 && |t.peers[0].log.Keys * t.peers[1].log.Keys| == n
    && t.peers[0].log != t.peers[1].log && forall r: nat, links :: Rounds(t, r, links).peers == t.peers
  }

  /**
   * For every length from the limit up there is a run after which two peers, sharing that many entries and
   * having written once each, never sync again, whatever filters and clocks say.
   */
  lemma {:induction false} ForkNeverHeals(n: nat)
    requires n >= MAX_ENTRIES
    ensures exists steps :: NeverMeets(n, steps)
  {
    hide Possible, Final, Inv, Shared, Initial, HeadsOf, Rounds, Overfull, Rank, Start, Sane;
    var d := Rank();
    StartShared();
    var share := ShareChain(n - 1);
    var fork := Fork(Final(d, Start(), share), n - 1);
    RunConcat(d, Start(), share, fork);
    var steps := share + fork;
    var t := Final(d, Start(), steps);
    InvSane(d, t);
    ForkIsOverfull(t, n - 1);
    forall r: nat, links ensures Rounds(t, r, links).peers == t.peers { OverfullForever(d, t, r, links); }
    assert NeverMeets(n, steps);
  }

  lemma {:induction false} ForkIsOverfull(t: Net, n: nat)
    requires |t.peers| == 2 && |t.peers[0].log| == |t.peers[1].log| == n + 2 && n + 1 >= MAX_ENTRIES
    requires HeadsOf(t.peers[0].log) == {2 * n + 2} && HeadsOf(t.peers[1].log) == {2 * n + 1}
    requires 2 * n + 2 !in t.peers[1].log && 2 * n + 1 !in t.peers[0].log
    ensures Overfull(t) && t.peers[0].log != t.peers[1].log
  {
    hide HeadsOf;
    HeadsKnown(t.peers[0].log);
  }
}
