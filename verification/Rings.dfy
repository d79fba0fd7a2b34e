/**
 * Syncing as peers do it, drift filter included: exactly what one offer, answer and delivery achieve,
 * when two rounds of a ring make all logs equal, and a run after which no round ever will.
 */
module Rings {
  import opened Base
  import opened Clocks
  import opened Ontologies
  import opened Entries
  import opened Dag
  import opened OpLogs
  import opened Sync
  import opened Merge
  import opened Convergence
  import opened Network

  // -- One sync --------------------------------------------------------------------------------------------------------

  /** What `p` ends up holding of `l`: what it has, and what is not too far ahead of its clock. */
  function WithinReach(p: Peer, l: Log): set<Hash> { set h | h in l && (h in p.log || WithinDrift(p.clock, l[h])) }

  /** Everything `p` lacks of `l` is within drift of its clock. */
  ghost predicate AllInReach(p: Peer, l: Log) { forall h :: h in l && h !in p.log ==> WithinDrift(p.clock, l[h]) }

  /** Nothing `p` lacks of `l` is. */
  ghost predicate NoneInReach(p: Peer, l: Log) { forall h :: h in l && h !in p.log ==> !WithinDrift(p.clock, l[h]) }

  lemma {:induction false} AnsweredParts(d: Digest, all: Log, p: Peer, q: Log, o: Offer)
    requires History(d, all) && GoodPeer(all, p) && PartOf(q, all) && OfferOf(o, p.log)
    ensures var batch := Reaction(q, o);
      && GoodReply(all, p.log, batch) && q.Keys <= HashesOf(batch) + p.log.Keys
      && (forall e :: e in batch ==> e.hash in q && q[e.hash] == e)
  {
    hide MissingHashes, Monotone, Authentic, HeadsOf, WellFormed, HashesOf, DistinctParents, EntriesAt, GoodReply, ClosedBatch, Founded;
    PartIsLog(q, all);
    PartIsLog(p.log, all);
    MissingHashesKnown(q, o);
    HeadsKnown(p.log);
    AnswerBatch(q, p.log, o, all);
    AnswerIsGood(d, all, q, o, p.log);
    WellFormedParts(q);
    AnswerEntries(q, MissingHashes(q, o));
  }

  /**
   * The exact effect, for any filter contents: an answer within the message limits gives the receiver
   * what it lacks and its clock lets in, one over them nothing.
   */
  lemma {:induction false} SyncTakes(d: Digest, all: Log, p: Peer, q: Log, o: Offer, bytes: nat, walls: nat -> u64)
    requires History(d, all) && GoodPeer(all, p) && PartOf(q, all) && OfferOf(o, p.log)
    ensures var p', fits := Taken(p, Reply(0, Reaction(q, o), bytes), walls), WithinLimits(Reaction(q, o), bytes);
      && GoodPeer(all, p') && TupleLeq(p.clock, p'.clock)
      && p'.log.Keys == p.log.Keys + (if fits then WithinReach(p, q) else {})
      && (p'.log.Keys == p.log.Keys + q.Keys <==> q.Keys <= p.log.Keys || (fits && AllInReach(p, q)))
      && (p' == p <==> !fits || NoneInReach(p, q))
  {
    hide GoodPeer, GoodReply, History, Reaction, PartOf, OfferOf, AfterDeliver, Universe, WithinDrift, WithinLimits;
    var batch := Reaction(q, o);
    if WithinLimits(batch, bytes) {
      DeliveryTakes(d, all, p, q, o, walls);
    } else {
      TupleLeqSelf(p.clock);
      assert p.log.Keys == p.log.Keys + {};
    }
  }

  lemma {:induction false} TupleLeqSelf(c: Clock)
    ensures TupleLeq(c, c)
  {
  }

  lemma {:induction false} DeliveryTakes(d: Digest, all: Log, p: Peer, q: Log, o: Offer, walls: nat -> u64)
    requires History(d, all) && GoodPeer(all, p) && PartOf(q, all) && OfferOf(o, p.log)
    ensures var p' := AfterDeliver(p, Reaction(q, o), walls);
      && GoodPeer(all, p') && TupleLeq(p.clock, p'.clock) && p'.log.Keys == p.log.Keys + WithinReach(p, q)
      && (p'.log.Keys == p.log.Keys + q.Keys <==> AllInReach(p, q)) && (p' == p <==> NoneInReach(p, q))
  {
    hide GoodPeer, GoodReply, History, Reaction, PartOf, OfferOf, AfterDeliver, Universe, WithinDrift;
    var batch := Reaction(q, o);
    AnsweredParts(d, all, p, q, o);
    DeliverKeepsPeer(d, all, p, batch, walls);
    DeliverMovesOn(d, all, p, batch, walls);
    var admitted := Admitted(p.clock, batch);
    forall h ensures h in p.log.Keys + HashesOf(admitted) <==> h in p.log.Keys + WithinReach(p, q) {
      if h in HashesOf(admitted) {
        var e :| e in admitted && e.hash == h;
      }
      if h in q && h !in p.log {
        var e :| e in batch && e.hash == h;
        assert e in admitted <==> WithinDrift(p.clock, e);
      }
    }
    if NoneInReach(p, q) {
      forall e | e in admitted ensures e.hash in p.log { assert q[e.hash] == e; }
      NothingNew(p, batch, walls);
    }
  }

  lemma {:induction false} NothingNew(p: Peer, batch: seq<Entry>, walls: nat -> u64)
    requires forall e :: e in Admitted(p.clock, batch) ==> e.hash in p.log
    ensures AfterDeliver(p, batch, walls) == p
  {
  }

  lemma {:induction false} DeliverMovesOn(d: Digest, all: Log, p: Peer, batch: seq<Entry>, walls: nat -> u64)
    requires History(d, all) && GoodPeer(all, p) && GoodReply(all, p.log, batch)
    ensures TupleLeq(p.clock, AfterDeliver(p, batch, walls).clock)
  {
    hide Absorb, HashesOf, Admitted, MergedAll, ClocksAt, DeliveredOrder, History, GoodPeer, GoodReply, Founded;
    var log := Absorb(p.log, Admitted(p.clock, batch));
    if Founded(log) { ClockCovers(p, log, DeliveredOrder(log, Admitted(p.clock, batch)), walls); }
  }

  // -- As steps of the machine -----------------------------------------------------------------------------------------

  /** What the surroundings decide about one sync: the filter offered, the answer's size, the wall readings. */
  datatype Link = Link(bloom: Hash -> bool, bytes: nat, walls: nat -> u64)

  ghost function OfferFrom(p: Peer, bloom: Hash -> bool): Offer { Offer(Listing(HeadsOf(p.log)), bloom) }

  /** Peer `i` asks, peer `j` answers that request, and the answer is delivered. */
  ghost function SyncSteps(s: Net, j: nat, i: nat, link: Link): seq<Step>
    requires i < |s.peers| && j < |s.peers|
  {
    [Ask(i, OfferFrom(s.peers[i], link.bloom)), Answer(j, |s.requests|, link.bytes), Deliver(|s.replies|, link.walls)]
  }

  /** The answer peer `j` gives to peer `i`. */
  ghost function AnswerTo(s: Net, j: nat, i: nat, link: Link): Reply
    requires i < |s.peers| && j < |s.peers|
  {
    Reply(i, Reaction(s.peers[j].log, OfferFrom(s.peers[i], link.bloom)), link.bytes)
  }

  ghost function ReceiverAfter(s: Net, j: nat, i: nat, link: Link): Peer
    requires i < |s.peers| && j < |s.peers|
  {
    Taken(s.peers[i], AnswerTo(s, j, i, link), link.walls)
  }

  /** The network after that sync. */
  ghost function Synced(s: Net, j: nat, i: nat, link: Link): Net
    requires i < |s.peers| && j < |s.peers|
  {
    var o := OfferFrom(s.peers[i], link.bloom);
    s.(peers := s.peers[i := ReceiverAfter(s, j, i, link)], requests := s.requests + [Request(i, o)],
       replies := s.replies + [AnswerTo(s, j, i, link)])
  }

  lemma {:induction false} SyncRuns(d: Digest, s: Net, j: nat, i: nat, link: Link)
    requires i < |s.peers| && j < |s.peers|
    ensures Possible(d, s, SyncSteps(s, j, i, link)) && Final(d, s, SyncSteps(s, j, i, link)) == Synced(s, j, i, link)
  {
    hide Taken, Reaction, HeadsOf, AfterWrite, WrittenBy;
    var steps := SyncSteps(s, j, i, link);
    assert steps[1..] == [steps[1], steps[2]] && steps[1..][1..] == [steps[2]] && [steps[2]][1..] == [];
    var s1 := After(d, s, steps[0]);
    var s2 := After(d, s1, steps[1]);
    RunOne(d, s2, steps[2]);
    RunFront(d, s1, steps[1], [steps[2]]);
    RunFront(d, s, steps[0], steps[1..]);
  }

  lemma {:induction false} RunNothing(d: Digest, s: Net)
    ensures Possible(d, s, []) && Final(d, s, []) == s
  {
  }

  lemma {:induction false} RunOne(d: Digest, s: Net, step: Step)
    requires Enabled(d, s, step)
    ensures Possible(d, s, [step]) && Final(d, s, [step]) == After(d, s, step)
  {
    assert [step][1..] == [];
    assert Possible(d, After(d, s, step), []) && Final(d, After(d, s, step), []) == After(d, s, step);
  }

  lemma {:induction false} RunFront(d: Digest, s: Net, step: Step, rest: seq<Step>)
    requires Enabled(d, s, step) && Possible(d, After(d, s, step), rest)
    ensures Possible(d, s, [step] + rest) && Final(d, s, [step] + rest) == Final(d, After(d, s, step), rest)
  {
    hide After;
    assert ([step] + rest)[1..] == rest;
  }

  lemma {:induction false} RunConcat(d: Digest, s: Net, xs: seq<Step>, ys: seq<Step>)
    requires Possible(d, s, xs) && Possible(d, Final(d, s, xs), ys)
    ensures Possible(d, s, xs + ys) && Final(d, s, xs + ys) == Final(d, Final(d, s, xs), ys)
    decreases |xs|
  {
    hide After;
    if xs == [] {
      assert xs + ys == ys;
    } else {
      RunConcat(d, After(d, s, xs[0]), xs[1..], ys);
      assert xs + ys == [xs[0]] + (xs[1..] + ys);
      RunFront(d, s, xs[0], xs[1..] + ys);
    }
  }

  /** The successor of seat `n - 1` around a ring. */
  function Seat(n: nat, size: nat): (i: nat)
    requires 0 < n <= size
    ensures i < size && i == n % size
  {
    if n == size then 0 else n
  }

  /** The first `n` syncs of a round: 0 into 1, 1 into 2, and so on around. */
  ghost function RingNet(s: Net, n: nat, links: nat -> Link): (t: Net)
    requires n <= |s.peers|
    ensures |t.peers| == |s.peers| && t.written == s.written
  {
    if n == 0 then s else Synced(RingNet(s, n - 1, links), n - 1, Seat(n, |s.peers|), links(n - 1))
  }

  lemma {:induction false} RingStart(s: Net, links: nat -> Link)
    ensures RingNet(s, 0, links) == s
  {
  }

  lemma {:induction false} RingStep(s: Net, n: nat, links: nat -> Link)
    requires 0 < n <= |s.peers|
    ensures RingNet(s, n, links) == Synced(RingNet(s, n - 1, links), n - 1, Seat(n, |s.peers|), links(n - 1))
  {
    hide Synced;
  }

  /** A round is a run of the machine. */
  lemma {:induction false} RingIsRun(d: Digest, s: Net, n: nat, links: nat -> Link) returns (steps: seq<Step>)
    requires n <= |s.peers|
    ensures Possible(d, s, steps) && Final(d, s, steps) == RingNet(s, n, links)
  {
    hide Possible, Final, Synced, SyncSteps;
    RunNothing(d, s);
    if n == 0 {
      steps := [];
    } else {
      var before := RingIsRun(d, s, n - 1, links);
      var t, i := RingNet(s, n - 1, links), Seat(n, |s.peers|);
      SyncRuns(d, t, n - 1, i, links(n - 1));
      RunConcat(d, s, before, SyncSteps(t, n - 1, i, links(n - 1)));
      steps := before + SyncSteps(t, n - 1, i, links(n - 1));
    }
  }

  // -- Convergence -----------------------------------------------------------------------------------------------------

  /** The sync from `j` into `i` is not held up: there is nothing to bring, or all of it fits and is in reach. */
  ghost predicate Unimpeded(s: Net, j: nat, i: nat, link: Link)
    requires i < |s.peers| && j < |s.peers|
  {
    || s.peers[j].log.Keys <= s.peers[i].log.Keys
    || (WithinLimits(AnswerTo(s, j, i, link).batch, link.bytes) && AllInReach(s.peers[i], s.peers[j].log))
  }

  /** The first `n` syncs of a round are not held up. */
  ghost predicate Smooth(s: Net, n: nat, links: nat -> Link)
    requires n <= |s.peers|
  {
    n == 0 || (Smooth(s, n - 1, links) && Unimpeded(RingNet(s, n - 1, links), n - 1, Seat(n, |s.peers|), links(n - 1)))
  }

  ghost function Logs(s: Net): seq<Log> { seq(|s.peers|, i requires 0 <= i < |s.peers| => s.peers[i].log) }

  ghost function UnionOf(peers: seq<Log>): set<Hash> {
    if peers == [] then {} else UnionOf(peers[..|peers| - 1]) + peers[|peers| - 1].Keys
  }

  lemma {:induction false} UnionHolds(peers: seq<Log>, k: nat)
    requires k < |peers|
    ensures peers[k].Keys <= UnionOf(peers)
  {
    if k < |peers| - 1 { UnionHolds(peers[..|peers| - 1], k); }
  }

  /** After `n` syncs peer `k` holds what it had and, once its turn has passed, everything up to it. */
  ghost predicate Progress(peers: seq<Log>, r: seq<Log>, n: nat)
    requires |r| == |peers|
  {
    && (forall k :: 0 <= k < |peers| ==> peers[k].Keys <= r[k].Keys <= UnionOf(peers))
    && (forall k :: 0 < k < |peers| && k <= n ==> UnionOf(peers[..k + 1]) <= r[k].Keys)
    && (0 < n == |peers| ==> UnionOf(peers) <= r[0].Keys)
  }

  lemma {:induction false} ProgressStart(peers: seq<Log>)
    ensures Progress(peers, peers, 0)
  {
    forall k | 0 <= k < |peers| ensures peers[k].Keys <= UnionOf(peers) { UnionHolds(peers, k); }
  }

  lemma {:induction false} ProgressStep(peers: seq<Log>, a: seq<Log>, b: seq<Log>, n: nat)
    requires |a| == |b| == |peers| && 0 < n <= |peers| && Progress(peers, a, n - 1)
    requires forall k :: 0 <= k < |peers| ==> b[k].Keys == a[k].Keys + (if k == Seat(n, |peers|) then a[n - 1].Keys else {})
    ensures Progress(peers, b, n)
  {
    hide UnionOf;
    var size := |peers|;
    UnionHolds(peers, n - 1);
    UnionSnoc(peers, n - 1);
    assert UnionOf(peers[..n]) <= a[n - 1].Keys;
    if n < size {
      UnionSnoc(peers, n);
    } else {
      assert peers[..size] == peers;
    }
  }

  lemma {:induction false} UnionSnoc(peers: seq<Log>, n: nat)
    requires n < |peers|
    ensures UnionOf(peers[..n + 1]) == UnionOf(peers[..n]) + peers[n].Keys
    ensures n == 0 ==> UnionOf(peers[..n + 1]) == peers[0].Keys
  {
    assert peers[..n + 1][..n] == peers[..n];
  }

  lemma {:induction false} UnionBounded(peers: seq<Log>, s: set<Hash>)
    requires forall k :: 0 <= k < |peers| ==> peers[k].Keys <= s
    ensures UnionOf(peers) <= s
  {
    if peers != [] { UnionBounded(peers[..|peers| - 1], s); }
  }

  /** Sound peers over one history. */
  ghost predicate Sane(d: Digest, s: Net) {
    History(d, s.written) && forall i :: 0 <= i < |s.peers| ==> GoodPeer(s.written, s.peers[i])
  }

  /** One sync: exactly when it is not held up the receiver gets the union. */
  lemma {:induction false} RingSync(d: Digest, s: Net, j: nat, i: nat, link: Link)
    requires Sane(d, s) && i < |s.peers| && j < |s.peers|
    ensures var t := Synced(s, j, i, link);
      && Sane(d, t) && s.peers[i].log.Keys <= t.peers[i].log.Keys && TupleLeq(s.peers[i].clock, t.peers[i].clock)
      && (t.peers[i].log.Keys == s.peers[i].log.Keys + s.peers[j].log.Keys <==> Unimpeded(s, j, i, link))
      && t.peers[i].log.Keys <= s.peers[i].log.Keys + s.peers[j].log.Keys
      && (t.peers == s.peers <==> !WithinLimits(AnswerTo(s, j, i, link).batch, link.bytes) || NoneInReach(s.peers[i], s.peers[j].log))
  {
    hide GoodPeer, History, WithinDrift, Taken, Reaction, HeadsOf, WithinLimits, AllInReach, NoneInReach;
    var p, q := s.peers[i], s.peers[j].log;
    GoodPeerPart(s.written, s.peers[j]);
    SyncTakes(d, s.written, p, q, OfferFrom(p, link.bloom), link.bytes, link.walls);
    SameTaken(p, AnswerTo(s, j, i, link), Reply(0, AnswerTo(s, j, i, link).batch, link.bytes), link.walls);
    assert Synced(s, j, i, link).peers == s.peers[i := ReceiverAfter(s, j, i, link)];
    assert s.peers[i := s.peers[i]] == s.peers;
  }

  lemma {:induction false} SameTaken(p: Peer, a: Reply, b: Reply, walls: nat -> u64)
    requires a.batch == b.batch && a.bytes == b.bytes
    ensures Taken(p, a, walls) == Taken(p, b, walls)
  {
  }

  /** A round whose syncs are not held up passes everything on, seat by seat. */
  lemma {:induction false} RoundProgress(d: Digest, s: Net, n: nat, links: nat -> Link)
    requires n <= |s.peers| && Sane(d, s) && Smooth(s, n, links)
    ensures Progress(Logs(s), Logs(RingNet(s, n, links)), n) && Sane(d, RingNet(s, n, links))
  {
    hide Sane, Progress, UnionOf, Synced, Unimpeded, RingNet, AnswerTo, NoneInReach, WithinLimits;
    if n == 0 {
      RingStart(s, links);
      ProgressStart(Logs(s));
    } else {
      RoundProgress(d, s, n - 1, links);
      RingStep(s, n, links);
      var a, i := RingNet(s, n - 1, links), Seat(n, |s.peers|);
      RingSync(d, a, n - 1, i, links(n - 1));
      OthersStay(a, n - 1, i, links(n - 1));
      ProgressStep(Logs(s), Logs(a), Logs(RingNet(s, n, links)), n);
    }
  }

  lemma {:induction false} OthersStay(s: Net, j: nat, i: nat, link: Link)
    requires i < |s.peers| && j < |s.peers|
    ensures var t := Synced(s, j, i, link);
      |t.peers| == |s.peers| && forall k :: 0 <= k < |s.peers| && k != i ==> t.peers[k] == s.peers[k]
  {
    hide ReceiverAfter;
  }

  /** A sync brings nothing that nobody held. */
  lemma {:induction false} SyncInside(d: Digest, s: Net, j: nat, i: nat, link: Link, u: set<Hash>)
    requires Sane(d, s) && i < |s.peers| && j < |s.peers| && forall k :: 0 <= k < |s.peers| ==> s.peers[k].log.Keys <= u
    ensures var t := Synced(s, j, i, link); Sane(d, t) && forall k :: 0 <= k < |t.peers| ==> t.peers[k].log.Keys <= u
  {
    hide Sane, Synced, Unimpeded, AnswerTo, WithinLimits, NoneInReach;
    RingSync(d, s, j, i, link);
    OthersStay(s, j, i, link);
    assert s.peers[i].log.Keys + s.peers[j].log.Keys <= u;
  }

  /** The union spreads at each of the first `n` syncs. */
  ghost predicate Spreads(s: Net, n: nat, links: nat -> Link)
    requires n <= |s.peers|
  {
    n == 0 || (
      Spreads(s, n - 1, links) &&
      var a, i := RingNet(s, n - 1, links), Seat(n, |s.peers|);
      RingNet(s, n, links).peers[i].log.Keys == a.peers[i].log.Keys + a.peers[n - 1].log.Keys)
  }

  /** The exact condition for a round: every sync yields the union exactly when none is held up. */
  lemma {:induction false} RoundExact(d: Digest, s: Net, n: nat, links: nat -> Link)
    requires n <= |s.peers| && Sane(d, s)
    ensures Spreads(s, n, links) <==> Smooth(s, n, links)
    ensures Sane(d, RingNet(s, n, links))
  {
    hide Sane, Synced, Unimpeded, RingNet, AnswerTo, NoneInReach, WithinLimits;
    if n == 0 {
      RingStart(s, links);
    } else {
      RoundExact(d, s, n - 1, links);
      RingStep(s, n, links);
      RingSync(d, RingNet(s, n - 1, links), n - 1, Seat(n, |s.peers|), links(n - 1));
    }
  }

  ghost function TwoRounds(s: Net, first: nat -> Link, second: nat -> Link): (t: Net)
    ensures |t.peers| == |s.peers|
  {
    RingNet(RingNet(s, |s.peers|, first), |s.peers|, second)
  }

  /** For every number of peers: after two rounds in which no sync is held up, all logs are the union of all. */
  lemma {:induction false} TwoRoundsConverge(d: Digest, s: Net, first: nat -> Link, second: nat -> Link)
    requires s.peers != [] && Sane(d, s) && Smooth(s, |s.peers|, first) && Smooth(RingNet(s, |s.peers|, first), |s.peers|, second)
    ensures var t := TwoRounds(s, first, second);
      Sane(d, t) && forall k :: 0 <= k < |t.peers| ==> t.peers[k].log == t.peers[0].log && t.peers[k].log.Keys == UnionOf(Logs(s))
  {
    hide Sane, UnionOf, RingNet, Smooth;
    var n := |s.peers|;
    RoundProgress(d, s, n, first);
    var once := RingNet(s, n, first);
    RoundProgress(d, once, n, second);
    var twice := RingNet(once, n, second);
    var logs := Logs(once);
    UnionBounded(logs, UnionOf(Logs(s)));
    forall k | 0 <= k < n ensures Logs(twice)[k].Keys == UnionOf(Logs(s)) { UnionHolds(logs[..k + 1], 0); }
    forall k | 0 <= k < n ensures twice.peers[k].log == twice.peers[0].log {
      assert Logs(twice)[k].Keys == Logs(twice)[0].Keys;
      SaneSame(d, twice, k, 0);
    }
  }

  lemma {:induction false} SaneSame(d: Digest, s: Net, i: nat, j: nat)
    requires Sane(d, s) && i < |s.peers| && j < |s.peers| && s.peers[i].log.Keys == s.peers[j].log.Keys
    ensures s.peers[i].log == s.peers[j].log
  {
    SameKeysSameLog(s.peers[i].log, s.peers[j].log, s.written);
  }

  // -- A condition to check beforehand -----------------------------------------------------------------------------------

  /** No entry that any peer holds is too far ahead of any peer's clock. */
  ghost predicate AllWithinDrift(s: Net) {
    forall i, j :: 0 <= i < |s.peers| && 0 <= j < |s.peers| ==> EntriesInReach(s.peers[i].clock, s.peers[j].log)
  }

  ghost predicate EntriesInReach(c: Clock, l: Log) { forall h :: h in l ==> WithinDrift(c, l[h]) }

  /** The entries held anywhere are few enough, and every answer small enough, for one message. */
  ghost predicate Manageable(s: Net, links: nat -> Link) {
    |UnionOf(Logs(s))| <= MAX_ENTRIES && forall k :: links(k).bytes <= MAX_BYTES
  }

  lemma {:induction false} InReachAll(p: Peer, l: Log)
    requires EntriesInReach(p.clock, l)
    ensures AllInReach(p, l)
  {
  }

  lemma {:induction false} ReachUnion(c: Clock, a: Log, b: Log, u: Log, all: Log)
    requires EntriesInReach(c, a) && EntriesInReach(c, b) && u.Keys <= a.Keys + b.Keys
    requires PartOf(a, all) && PartOf(b, all) && PartOf(u, all)
    ensures EntriesInReach(c, u)
  {
    hide WithinDrift, Complete;
    forall h | h in u ensures WithinDrift(c, u[h]) { assert h in a || h in b; }
  }

  lemma {:induction false} ReachLater(c: Clock, c': Clock, l: Log)
    requires EntriesInReach(c, l) && (c' == c || TupleLeq(c, c'))
    ensures EntriesInReach(c', l)
  {
  }

  /** A sync keeps every entry within every peer's drift. */
  lemma {:induction false} DriftStays(d: Digest, s: Net, j: nat, i: nat, link: Link)
    requires Sane(d, s) && AllWithinDrift(s) && i < |s.peers| && j < |s.peers|
    ensures AllWithinDrift(Synced(s, j, i, link))
  {
    hide GoodPeer, History, ReceiverAfter, Unimpeded, WithinLimits, NoneInReach, EntriesInReach;
    RingSync(d, s, j, i, link);
    OthersStay(s, j, i, link);
    var t := Synced(s, j, i, link);
    GoodPeerPart(s.written, s.peers[i]);
    GoodPeerPart(s.written, s.peers[j]);
    GoodPeerPart(s.written, t.peers[i]);
    forall k, m | 0 <= k < |t.peers| && 0 <= m < |t.peers| ensures EntriesInReach(t.peers[k].clock, t.peers[m].log) {
      if m == i { ReachUnion(s.peers[k].clock, s.peers[i].log, s.peers[j].log, t.peers[i].log, s.written); }
      ReachLater(s.peers[k].clock, t.peers[k].clock, t.peers[m].log);
    }
  }

  /** An answer holds no more than its sender does. */
  lemma {:induction false} AnswerFits(d: Digest, s: Net, j: nat, i: nat, link: Link)
    requires Sane(d, s) && i < |s.peers| && j < |s.peers| && |s.peers[j].log| <= MAX_ENTRIES && link.bytes <= MAX_BYTES
    ensures WithinLimits(AnswerTo(s, j, i, link).batch, link.bytes)
  {
    hide MissingHashes, HeadsOf, Founded;
    var p, q := s.peers[i].log, s.peers[j].log;
    SaneLogs(d, s, j, i);
    var o := OfferFrom(s.peers[i], link.bloom);
    HeadsKnown(p);
    MissingHashesKnown(q, o);
    AnswerSize(q, o, p);
  }

  lemma {:induction false} SaneLogs(d: Digest, s: Net, j: nat, i: nat)
    requires Sane(d, s) && i < |s.peers| && j < |s.peers|
    ensures WellFormed(s.peers[j].log) && DistinctParents(s.peers[j].log) && Complete(s.peers[i].log) && Agree(s.peers[j].log, s.peers[i].log)
  {
    hide Founded;
    PartIsLog(s.peers[j].log, s.written);
    PartIsLog(s.peers[i].log, s.written);
  }

  /** Then no sync of the round is held up, whatever the filters say. */
  lemma {:induction false} ManageableIsSmooth(d: Digest, s: Net, n: nat, links: nat -> Link)
    requires n <= |s.peers| && Sane(d, s) && AllWithinDrift(s) && Manageable(s, links)
    ensures Smooth(s, n, links) && Sane(d, RingNet(s, n, links)) && AllWithinDrift(RingNet(s, n, links))
    ensures forall k :: 0 <= k < |s.peers| ==> RingNet(s, n, links).peers[k].log.Keys <= UnionOf(Logs(s))
  {
    hide Sane, AllWithinDrift, UnionOf, Synced, WithinLimits, AnswerTo, RingNet, NoneInReach;
    if n == 0 {
      RingStart(s, links);
      forall k | 0 <= k < |s.peers| ensures s.peers[k].log.Keys <= UnionOf(Logs(s)) { UnionHolds(Logs(s), k); }
    } else {
      ManageableIsSmooth(d, s, n - 1, links);
      var a, i, link := RingNet(s, n - 1, links), Seat(n, |s.peers|), links(n - 1);
      SubsetSize(a.peers[n - 1].log.Keys, UnionOf(Logs(s)));
      assert |a.peers[n - 1].log.Keys| == |a.peers[n - 1].log|;
      AnswerFits(d, a, n - 1, i, link);
      DriftReach(a, n - 1, i);
      RingStep(s, n, links);
      SyncInside(d, a, n - 1, i, link, UnionOf(Logs(s)));
      DriftStays(d, a, n - 1, i, link);
    }
  }

  lemma {:induction false} DriftReach(s: Net, j: nat, i: nat)
    requires AllWithinDrift(s) && i < |s.peers| && j < |s.peers|
    ensures AllInReach(s.peers[i], s.peers[j].log)
  {
    hide EntriesInReach;
    InReachAll(s.peers[i], s.peers[j].log);
  }

  /** Two rounds that a caller can foresee to converge. */
  lemma {:induction false} ForeseenToConverge(d: Digest, s: Net, first: nat -> Link, second: nat -> Link)
    requires s.peers != [] && Sane(d, s) && AllWithinDrift(s) && Manageable(s, first) && Manageable(s, second)
    ensures var t := TwoRounds(s, first, second);
      Sane(d, t) && forall k :: 0 <= k < |t.peers| ==> t.peers[k].log == t.peers[0].log && t.peers[k].log.Keys == UnionOf(Logs(s))
  {
    hide Sane, AllWithinDrift, UnionOf, RingNet, Smooth;
    var n := |s.peers|;
    ManageableIsSmooth(d, s, n, first);
    var once := RingNet(s, n, first);
    UnionBounded(Logs(once), UnionOf(Logs(s)));
    SubsetSize(UnionOf(Logs(once)), UnionOf(Logs(s)));
    ManageableIsSmooth(d, once, n, second);
    TwoRoundsConverge(d, s, first, second);
  }

  /**
   * At the end of every run that leaves clocks within drift and no more entries than one message
   * holds, two further rounds of the ring agree on one log.
   */
  lemma {:induction false} EveryRunConverges(d: Digest, s: Net, steps: seq<Step>, first: nat -> Link, second: nat -> Link)
    requires Initial(d, s) && Possible(d, s, steps) && s.peers != [] && AllWithinDrift(Final(d, s, steps))
    requires Manageable(Final(d, s, steps), first) && Manageable(Final(d, s, steps), second)
    ensures var t := Final(d, s, steps);
      var u := TwoRounds(t, first, second);
      && Sane(d, u) && |u.peers| == |s.peers|
      && forall k :: 0 <= k < |u.peers| ==> u.peers[k].log == u.peers[0].log && u.peers[k].log.Keys == UnionOf(Logs(t))
  {
    hide Possible, Final, Initial, History, GoodPeer, GoodReply, AllWithinDrift, UnionOf, TwoRounds, Manageable;
    InitialInv(d, s);
    RunKeepsInv(d, s, steps);
    RunKeepsPeers(d, s, steps);
    ForeseenToConverge(d, Final(d, s, steps), first, second);
  }

  // -- Where rounds end ------------------------------------------------------------------------------------------------

  /** The sync from `j` into `i` changes nothing: the answer is refused, or nothing lacked is in reach. */
  ghost predicate Idle(s: Net, j: nat, i: nat, link: Link)
    requires i < |s.peers| && j < |s.peers|
  {
    !WithinLimits(AnswerTo(s, j, i, link).batch, link.bytes) || NoneInReach(s.peers[i], s.peers[j].log)
  }

  ghost predicate AllIdle(s: Net, n: nat, links: nat -> Link)
    requires n <= |s.peers|
  {
    forall k :: 0 < k <= n ==> Idle(s, k - 1, Seat(k, |s.peers|), links(k - 1))
  }

  lemma {:induction false} SamePeersSameSync(s: Net, t: Net, j: nat, i: nat, link: Link)
    requires i < |s.peers| && j < |s.peers| && t.peers == s.peers
    ensures Idle(t, j, i, link) <==> Idle(s, j, i, link)
  {
  }

  /** Logs only grow over a round; its peers are unchanged exactly when every sync of it is idle. */
  lemma {:induction false} RoundChanges(d: Digest, s: Net, n: nat, links: nat -> Link)
    requires n <= |s.peers| && Sane(d, s)
    ensures var t := RingNet(s, n, links); Sane(d, t) && Enlarged(s, t) && (t.peers == s.peers <==> AllIdle(s, n, links))
  {
    hide Sane, Synced, Unimpeded, Idle, Enlarged;
    if n == 0 {
      EnlargedSelf(s);
    } else {
      RoundChanges(d, s, n - 1, links);
      var a, i, link := RingNet(s, n - 1, links), Seat(n, |s.peers|), links(n - 1);
      SyncGrows(d, a, n - 1, i, link);
      EnlargedTrans(s, a, RingNet(s, n, links));
      if a.peers == s.peers {
        SamePeersSameSync(s, a, n - 1, i, link);
      }
    }
  }

  /** Every log grows or stays, and no peer changes without some log growing. */
  ghost predicate Enlarged(s: Net, t: Net) {
    && |t.peers| == |s.peers| && (forall k :: 0 <= k < |s.peers| ==> s.peers[k].log.Keys <= t.peers[k].log.Keys)
    && (t.peers != s.peers ==> exists k :: 0 <= k < |s.peers| && s.peers[k].log.Keys != t.peers[k].log.Keys)
  }

  lemma {:induction false} EnlargedSelf(s: Net)
    ensures Enlarged(s, s)
  {
  }

  lemma {:induction false} EnlargedTrans(s: Net, a: Net, t: Net)
    requires Enlarged(s, a) && Enlarged(a, t)
    ensures Enlarged(s, t) && (t.peers == s.peers <==> a.peers == s.peers && t.peers == a.peers)
  {
    if a.peers != s.peers {
      var k :| 0 <= k < |s.peers| && s.peers[k].log.Keys != a.peers[k].log.Keys;
      assert s.peers[k].log.Keys != t.peers[k].log.Keys;
    }
  }

  /** A sync that changes the receiver gives it something. */
  lemma {:induction false} SyncGrows(d: Digest, s: Net, j: nat, i: nat, link: Link)
    requires Sane(d, s) && i < |s.peers| && j < |s.peers|
    ensures var t := Synced(s, j, i, link); Sane(d, t) && Enlarged(s, t) && (t.peers == s.peers <==> Idle(s, j, i, link))
  {
    hide GoodPeer, History, WithinDrift, Taken, Reaction, HeadsOf, WithinLimits;
    RingSync(d, s, j, i, link);
    OthersStay(s, j, i, link);
    var p, q := s.peers[i], s.peers[j].log;
    GoodPeerPart(s.written, s.peers[j]);
    SyncTakes(d, s.written, p, q, OfferFrom(p, link.bloom), link.bytes, link.walls);
    SameTaken(p, AnswerTo(s, j, i, link), Reply(0, AnswerTo(s, j, i, link).batch, link.bytes), link.walls);
    if !NoneInReach(p, q) {
      var h :| h in q && h !in p.log && WithinDrift(p.clock, q[h]);
      assert h in WithinReach(p, q);
    }
  }

  ghost function Rounds(s: Net, r: nat, links: nat -> nat -> Link): (t: Net)
    ensures |t.peers| == |s.peers| && t.written == s.written
  {
    if r == 0 then s
    else
      var t := Rounds(s, r - 1, links);
      RingNet(t, |t.peers|, links(r - 1))
  }

  lemma {:induction false} RoundsSane(d: Digest, s: Net, r: nat, links: nat -> nat -> Link)
    requires Sane(d, s)
    ensures Sane(d, Rounds(s, r, links))
  {
    hide Sane, RingNet;
    if r > 0 {
      RoundsSane(d, s, r - 1, links);
      RoundChanges(d, Rounds(s, r - 1, links), |s.peers|, links(r - 1));
    }
  }

  // -- How many rounds it takes ----------------------------------------------------------------------------------------

  function Total(peers: seq<Peer>): nat {
    if peers == [] then 0 else Total(peers[..|peers| - 1]) + |peers[|peers| - 1].log.Keys|
  }

  lemma {:induction false} TotalGrows(a: seq<Peer>, b: seq<Peer>)
    requires |a| == |b| && forall k :: 0 <= k < |a| ==> a[k].log.Keys <= b[k].log.Keys
    ensures Total(a) <= Total(b)
    ensures (exists k :: 0 <= k < |a| && a[k].log.Keys != b[k].log.Keys) ==> Total(a) < Total(b)
  {
    if a != [] {
      var n := |a| - 1;
      TotalGrows(a[..n], b[..n]);
      SubsetSize(a[n].log.Keys, b[n].log.Keys);
    }
  }

  lemma {:induction false} TotalBounded(peers: seq<Peer>, all: set<Hash>)
    requires forall k :: 0 <= k < |peers| ==> peers[k].log.Keys <= all
    ensures Total(peers) <= |peers| * |all|
  {
    if peers != [] {
      TotalBounded(peers[..|peers| - 1], all);
      SubsetSize(peers[|peers| - 1].log.Keys, all);
    }
  }

  lemma {:induction false} SaneInside(d: Digest, s: Net)
    requires Sane(d, s)
    ensures forall k :: 0 <= k < |s.peers| ==> s.peers[k].log.Keys <= s.written.Keys
  {
    forall k | 0 <= k < |s.peers| ensures s.peers[k].log.Keys <= s.written.Keys { GoodPeerPart(s.written, s.peers[k]); }
  }

  /** While rounds change something, the peers' holdings grow. */
  lemma {:induction false} RoundsGrow(d: Digest, s: Net, r: nat, links: nat -> nat -> Link)
    requires Sane(d, s) && forall q: nat :: q < r ==> Rounds(s, q + 1, links).peers != Rounds(s, q, links).peers
    ensures Total(Rounds(s, r, links).peers) >= r
  {
    hide Sane, RingNet, Total, AllIdle;
    if r > 0 {
      RoundsGrow(d, s, r - 1, links);
      RoundsSane(d, s, r - 1, links);
      var a, b := Rounds(s, r - 1, links), Rounds(s, r, links);
      RoundChanges(d, a, |s.peers|, links(r - 1));
      TotalGrows(a.peers, b.peers);
      assert Rounds(s, r - 1 + 1, links).peers != Rounds(s, r - 1, links).peers;
    }
  }

  ghost predicate Settled(s: Net, r: nat, links: nat -> nat -> Link) { Rounds(s, r + 1, links).peers == Rounds(s, r, links).peers }

  /** Within as many rounds as there are peers times entries, one changes nothing. */
  lemma {:induction false} RoundsSettle(d: Digest, s: Net, links: nat -> nat -> Link)
    requires Sane(d, s)
    ensures exists r: nat :: r <= |s.peers| * |s.written| && Settled(s, r, links)
  {
    hide Sane, RingNet, Total, Rounds;
    var bound := |s.peers| * |s.written|;
    if forall r: nat :: r <= bound ==> !Settled(s, r, links) {
      forall q: nat | q < bound + 1 ensures Rounds(s, q + 1, links).peers != Rounds(s, q, links).peers { assert !Settled(s, q, links); }
      RoundsGrow(d, s, bound + 1, links);
      RoundsSane(d, s, bound + 1, links);
      var t := Rounds(s, bound + 1, links);
      SaneInside(d, t);
      TotalBounded(t.peers, t.written.Keys);
    }
  }

  /** Around the ring, whatever a peer lacks of the one before it is too far ahead of its clock. */
  ghost predicate Stalemate(s: Net) {
    forall j :: 0 <= j < |s.peers| ==> NoneInReach(s.peers[Seat(j + 1, |s.peers|)], s.peers[j].log)
  }

  ghost predicate AllEqual(s: Net) { forall k :: 0 <= k < |s.peers| ==> s.peers[k].log == s.peers[0].log }

  /** Where a round changes nothing although every answer fits, the state is a stalemate. */
  lemma {:induction false} EqualOrStalemate(d: Digest, s: Net, links: nat -> Link)
    requires s.peers != [] && Sane(d, s) && RingNet(s, |s.peers|, links).peers == s.peers
    requires forall k :: 0 < k <= |s.peers| ==> WithinLimits(AnswerTo(s, k - 1, Seat(k, |s.peers|), links(k - 1)).batch, links(k - 1).bytes)
    ensures Stalemate(s)
    ensures AllEqual(s) || exists j :: 0 <= j < |s.peers| && !Passed(s, j)
  {
    hide Sane, RingNet, WithinLimits, AnswerTo, NoneInReach;
    RoundChanges(d, s, |s.peers|, links);
    forall j | 0 <= j < |s.peers| ensures NoneInReach(s.peers[Seat(j + 1, |s.peers|)], s.peers[j].log) {
      assert Idle(s, j + 1 - 1, Seat(j + 1, |s.peers|), links(j + 1 - 1));
      assert WithinLimits(AnswerTo(s, j + 1 - 1, Seat(j + 1, |s.peers|), links(j + 1 - 1)).batch, links(j + 1 - 1).bytes);
    }
    if forall j :: 0 <= j < |s.peers| ==> Passed(s, j) { RingIncluded(d, s); }
  }

  /** The next peer around the ring has everything peer `j` has. */
  ghost predicate Passed(s: Net, j: nat)
    requires j < |s.peers|
  {
    s.peers[j].log.Keys <= s.peers[Seat(j + 1, |s.peers|)].log.Keys
  }

  /** If each log includes the one before it around the ring, all are equal. */
  lemma {:induction false} RingIncluded(d: Digest, s: Net)
    requires s.peers != [] && Sane(d, s) && forall j :: 0 <= j < |s.peers| ==> Passed(s, j)
    ensures AllEqual(s)
  {
    hide Sane;
    var n := |s.peers|;
    forall k | 0 <= k < n ensures s.peers[k].log == s.peers[0].log {
      Included(s, 0, k);
      Included(s, k, n - 1);
      assert Passed(s, n - 1);
      SaneSame(d, s, k, 0);
    }
  }

  lemma {:induction false} Included(s: Net, i: nat, k: nat)
    requires i <= k < |s.peers| && forall j :: 0 <= j < |s.peers| ==> Passed(s, j)
    ensures s.peers[i].log.Keys <= s.peers[k].log.Keys
    decreases k
  {
    if i < k {
      Included(s, i, k - 1);
      assert Passed(s, k - 1);
    }
  }

  /** What rounds spread was held by someone before. */
  lemma {:induction false} RingInUnion(d: Digest, s: Net, n: nat, links: nat -> Link, u: set<Hash>)
    requires n <= |s.peers| && Sane(d, s) && forall k :: 0 <= k < |s.peers| ==> s.peers[k].log.Keys <= u
    ensures Sane(d, RingNet(s, n, links)) && forall k :: 0 <= k < |s.peers| ==> RingNet(s, n, links).peers[k].log.Keys <= u
  {
    hide Sane, Synced, RingNet;
    if n == 0 {
      RingStart(s, links);
    } else {
      RingInUnion(d, s, n - 1, links, u);
      RingStep(s, n, links);
      SyncInside(d, RingNet(s, n - 1, links), n - 1, Seat(n, |s.peers|), links(n - 1), u);
    }
  }

  lemma {:induction false} RoundsInUnion(d: Digest, s: Net, r: nat, links: nat -> nat -> Link)
    requires Sane(d, s)
    ensures Sane(d, Rounds(s, r, links))
    ensures forall k :: 0 <= k < |s.peers| ==> Rounds(s, r, links).peers[k].log.Keys <= UnionOf(Logs(s))
  {
    hide Sane, RingNet, UnionOf;
    if r == 0 {
      forall k | 0 <= k < |s.peers| ensures s.peers[k].log.Keys <= UnionOf(Logs(s)) { UnionHolds(Logs(s), k); }
    } else {
      RoundsInUnion(d, s, r - 1, links);
      RingInUnion(d, Rounds(s, r - 1, links), |s.peers|, links(r - 1), UnionOf(Logs(s)));
    }
  }

  /** From round `r` on nothing changes, in a stalemate that has all logs equal or an entry stuck between two peers. */
  ghost predicate Ended(s: Net, r: nat, links: nat -> nat -> Link) {
    var t := Rounds(s, r, links);
    && Stalemate(t) && (forall q: nat :: q >= r ==> Rounds(s, q, links).peers == t.peers)
    && (AllEqual(t) || exists j :: 0 <= j < |t.peers| && !Passed(t, j))
  }

  /**
   * The dichotomy, for rounds whose answers are within the message limits: after boundedly many of them
   * either all logs are equal, or everything any peer lacks of the one before it is out of its clock's
   * reach, and so for ever.
   */
  lemma {:induction false} RoundsEnd(d: Digest, s: Net, links: nat -> nat -> Link)
    requires s.peers != [] && Sane(d, s) && forall q: nat :: Manageable(s, links(q))
    ensures exists r: nat :: r <= |s.peers| * |s.written| && Ended(s, r, links)
  {
    hide Sane, Rounds, Stalemate, AllEqual, Passed, UnionOf, WithinLimits, AnswerTo;
    RoundsSettle(d, s, links);
    var r: nat :| r <= |s.peers| * |s.written| && Settled(s, r, links);
    var t := Rounds(s, r, links);
    RoundsInUnion(d, s, r, links);
    forall k | 0 < k <= |t.peers|
      ensures WithinLimits(AnswerTo(t, k - 1, Seat(k, |t.peers|), links(r)(k - 1)).batch, links(r)(k - 1).bytes)
    {
      assert Manageable(s, links(r));
      SubsetSize(t.peers[k - 1].log.Keys, UnionOf(Logs(s)));
      assert |t.peers[k - 1].log.Keys| == |t.peers[k - 1].log|;
      AnswerFits(d, t, k - 1, Seat(k, |t.peers|), links(r)(k - 1));
    }
    NextRound(s, r, links);
    EqualOrStalemate(d, t, links(r));
    forall q: nat | q >= r ensures Rounds(s, q, links).peers == t.peers { StalemateStays(d, s, r, q, links); }
    assert Ended(s, r, links);
  }

  lemma {:induction false} NextRound(s: Net, r: nat, links: nat -> nat -> Link)
    ensures Rounds(s, r + 1, links) == RingNet(Rounds(s, r, links), |s.peers|, links(r))
  {
  }

  lemma {:induction false} StalemateStays(d: Digest, s: Net, r: nat, q: nat, links: nat -> nat -> Link)
    requires Sane(d, s) && r <= q && Stalemate(Rounds(s, r, links))
    ensures Rounds(s, q, links).peers == Rounds(s, r, links).peers
    decreases q
  {
    hide Sane, RingNet, Rounds, NoneInReach, AnswerTo, WithinLimits;
    if r < q {
      StalemateStays(d, s, r, q - 1, links);
      RoundsSane(d, s, q - 1, links);
      var t := Rounds(s, q - 1, links);
      forall k | 0 < k <= |t.peers| ensures Idle(t, k - 1, Seat(k, |t.peers|), links(q - 1)(k - 1)) {
        assert NoneInReach(Rounds(s, r, links).peers[Seat(k - 1 + 1, |s.peers|)], Rounds(s, r, links).peers[k - 1].log);
      }
      RoundChanges(d, t, |t.peers|, links(q - 1));
      NextRound(s, q - 1, links);
    }
  }

  /** If a round can change nothing, however its links turn out, no number of rounds does. */
  lemma {:induction false} IdleForever(d: Digest, s: Net, r: nat, links: nat -> nat -> Link)
    requires Sane(d, s) && forall q: nat :: AllIdle(s, |s.peers|, links(q))
    ensures Rounds(s, r, links).peers == s.peers
  {
    hide RingNet, Sane, Idle;
    if r > 0 {
      IdleForever(d, s, r - 1, links);
      RoundsSane(d, s, r - 1, links);
      var t := Rounds(s, r - 1, links);
      forall k | 0 < k <= |t.peers| ensures Idle(t, k - 1, Seat(k, |t.peers|), links(r - 1)(k - 1)) {
        assert AllIdle(s, |s.peers|, links(r - 1));
        assert Idle(s, k - 1, Seat(k, |s.peers|), links(r - 1)(k - 1));
        SamePeersSameSync(s, t, k - 1, Seat(k, |s.peers|), links(r - 1)(k - 1));
      }
      RoundChanges(d, t, |t.peers|, links(r - 1));
    }
  }

  lemma {:induction false} StalemateForever(d: Digest, s: Net, r: nat, links: nat -> nat -> Link)
    requires Sane(d, s) && Stalemate(s)
    ensures Rounds(s, r, links).peers == s.peers
  {
    hide Sane, Stalemate, RingNet;
    assert Rounds(s, 0, links) == s;
    StalemateStays(d, s, 0, r, links);
  }

  /** Around the ring, no peer knows the heads of the next, and each holds more than one message carries. */
  ghost predicate Overfull(s: Net) {
    forall k :: 0 < k <= |s.peers| ==>
      HeadsOf(s.peers[Seat(k, |s.peers|)].log) !! s.peers[k - 1].log.Keys && |s.peers[k - 1].log| > MAX_ENTRIES
  }

  /** Then every answer is refused in every round: such peers never sync again. */
  lemma {:induction false} OverfullForever(d: Digest, s: Net, r: nat, links: nat -> nat -> Link)
    requires Sane(d, s) && Overfull(s)
    ensures Rounds(s, r, links).peers == s.peers
  {
    hide Rounds, Sane, NoneInReach, HeadsOf;
    forall q: nat ensures AllIdle(s, |s.peers|, links(q)) {
      forall k | 0 < k <= |s.peers| ensures Idle(s, k - 1, Seat(k, |s.peers|), links(q)(k - 1)) {
        AnswerRefused(d, s, k - 1, Seat(k, |s.peers|), links(q)(k - 1));
      }
    }
    IdleForever(d, s, r, links);
  }

  lemma {:induction false} AnswerRefused(d: Digest, s: Net, j: nat, i: nat, link: Link)
    requires Sane(d, s) && i < |s.peers| && j < |s.peers| && HeadsOf(s.peers[i].log) !! s.peers[j].log.Keys && |s.peers[j].log| > MAX_ENTRIES
    ensures !WithinLimits(AnswerTo(s, j, i, link).batch, link.bytes)
  {
    hide MissingHashes, HeadsOf, Founded;
    var p, q := s.peers[i].log, s.peers[j].log;
    SaneLogs(d, s, j, i);
    var o := OfferFrom(s.peers[i], link.bloom);
    HeadsKnown(p);
    MissingHashesKnown(q, o);
    AnswerSize(q, o, p);
  }

  /** What a write on top of a single head does. */
  lemma {:induction false} WriteOnHead(d: Digest, s: Net, i: nat, op: GraphOp, top: Hash, wall: u64)
    requires Inv(d, s) && i < |s.peers| && HeadsOf(s.peers[i].log) == {top} && !op.DefineOntology? && !op.Checkpoint?
    requires WrittenBy(d, s.peers[i], op, [top], wall).hash !in s.written
    ensures var step := Write(i, op, [top], wall);
      && Enabled(d, s, step) && Inv(d, After(d, s, step))
      && var e := WrittenBy(d, s.peers[i], op, [top], wall);
      var t := After(d, s, step);
      && t == s.(peers := s.peers[i := Peer(s.peers[i].log[e.hash := e], e.clock)], written := s.written[e.hash := e])
      && HeadsOf(t.peers[i].log) == {e.hash}
  {
    hide Founded, HeadsOf, History;
    var p, step := s.peers[i], Write(i, op, [top], wall);
    assert ToSet([top]) == {top};
    var e := WrittenBy(d, p, op, [top], wall);
    GoodPeerPart(s.written, p);
    HeadsKnown(p.log);
    StepKeepsInv(d, s, step);
    FirstMissingNone(p.log, e.next);
    assert AppendTo(d, p.log, e) == p.log[e.hash := e];
    PeerIsSound(d, s.written, p);
    AppendIndexes(p.log, e);
  }

  /** Genesis and one write 1000.001 s later, under a digest that tells them apart. */
  function TwoHashes(): Digest { (c: Content) => if c.next == [] then 0 else 1 }

  function Genesis(): Entry { NewEntry(TwoHashes(), DefineOntology(Ontology(map[], map[])), [], Clock("a", 0, 0), "a") }

  function IdleStart(): Net {
    Net([Peer(map[0 := Genesis()], Clock("a", 0, 0)), Peer(map[0 := Genesis()], Clock("b", 0, 0))], [], [], map[0 := Genesis()])
  }

  function LateWrite(): Step { Write(0, AddNode("n", "t", None, "", map[]), [0], 1_000_001) }

  function LateEntry(): Entry { NewEntry(TwoHashes(), AddNode("n", "t", None, "", map[]), [0], Clock("a", 1_000_001, 0), "a") }

  lemma {:induction false} LateRun()
    ensures var d, s := TwoHashes(), IdleStart();
      && Initial(d, s) && Possible(d, s, [LateWrite()])
      && Final(d, s, [LateWrite()]).peers ==
           [Peer(map[0 := Genesis(), 1 := LateEntry()], Clock("a", 1_000_001, 0)), Peer(map[0 := Genesis()], Clock("b", 0, 0))]
  {
    var d, s, step := TwoHashes(), IdleStart(), LateWrite();
    LateStart();
    RootWellFormed(Genesis());
    assert ToSet([0]) == {0};
    assert WrittenBy(d, s.peers[0], step.op, [0], step.wall) == LateEntry();
    LateAppend();
    RunOne(d, s, step);
  }

  lemma {:induction false} LateStart()
    ensures Initial(TwoHashes(), IdleStart())
  {
    var s := IdleStart();
    assert s.written[0] == Genesis() && Genesis().hash == 0;
    forall i | 0 <= i < |s.peers| ensures RootOnly(s.written, s.peers[i]) {
      assert 0 in s.written && s.peers[i].log == map[0 := s.written[0]];
    }
  }

  lemma {:induction false} LateAppend()
    ensures AppendTo(TwoHashes(), map[0 := Genesis()], LateEntry()) == map[0 := Genesis(), 1 := LateEntry()]
  {
    var l: Log := map[0 := Genesis()];
    assert LateEntry().hash == 1 && 1 !in l;
    assert [0][..0] == [];
    FirstMissingNone(l, [0]);
  }

  /**
   * A run of one write after which the other peer, idle since, refuses that write in every round of the
   * ring for ever, whatever the filters and the wall clocks say.
   */
  lemma {:induction false} IdlePeerNeverCatchesUp(r: nat, links: nat -> nat -> Link)
    ensures var d, s := TwoHashes(), IdleStart();
      Initial(d, s) && Possible(d, s, [LateWrite()]) &&
      var t := Rounds(Final(d, s, [LateWrite()]), r, links);
      |t.peers| == 2 && t.peers[0].log != t.peers[1].log
  {
    hide Possible, Final, Initial, Rounds, History, GoodPeer, GoodReply;
    var d, s := TwoHashes(), IdleStart();
    LateRun();
    InitialInv(d, s);
    RunKeepsInv(d, s, [LateWrite()]);
    var t := Final(d, s, [LateWrite()]);
    assert Stalemate(t) by { LateStalemate(t); }
    StalemateForever(d, t, r, links);
    assert 1 in t.peers[0].log && 1 !in t.peers[1].log;
  }

  lemma {:induction false} LateStalemate(t: Net)
    requires t.peers == [Peer(map[0 := Genesis(), 1 := LateEntry()], Clock("a", 1_000_001, 0)), Peer(map[0 := Genesis()], Clock("b", 0, 0))]
    ensures Stalemate(t)
  {
    forall j | 0 <= j < |t.peers| ensures NoneInReach(t.peers[Seat(j + 1, |t.peers|)], t.peers[j].log) {
      assert j == 0 || j == 1;
    }
  }
}
