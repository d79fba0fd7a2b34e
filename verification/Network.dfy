/**
 * Any number of peers that write, offer, answer and deliver. Messages stay in flight for ever, so
 * they may be delayed, duplicated, reordered or lost.
 */
module Network {
  import opened Base
  import opened Clocks
  import opened Entries
  import opened Dag
  import opened Topo
  import opened OpLogs
  import opened Sync
  import opened Merge
  import opened Partial
  import opened Convergence

  datatype Peer = Peer(log: Log, clock: Clock)

  datatype Request = Request(from: nat, offer: Offer)

  /** An answer in flight, with the size of its encoding. */
  datatype Reply = Reply(to: nat, batch: seq<Entry>, bytes: nat)

  /** `written` is history: every entry any peer has ever created. */
  datatype Net = Net(peers: seq<Peer>, requests: seq<Request>, replies: seq<Reply>, written: Log)

  datatype Step =
    | Write(i: nat, op: GraphOp, next: seq<Hash>, wall: u64)
    | Refuse(i: nat, wall: u64)
    | Ask(i: nat, offer: Offer)
    | Answer(j: nat, k: nat, bytes: nat)
    | AnswerFiltered(j: nat, k: nat, types: set<string>, bytes: nat)
    | Deliver(k: nat, walls: nat -> u64)

  const MAX_CLOCK_DRIFT: u64 := 1_000_000
  const MAX_ENTRIES: nat := 100_000
  const MAX_BYTES: nat := 67_108_864

  /** A payload over the message limits is refused as a whole. */
  predicate WithinLimits(batch: seq<Entry>, bytes: nat) { |batch| <= MAX_ENTRIES && bytes <= MAX_BYTES }

  /** Entries too far ahead of the local clock are turned away; genesis entries are exempt. */
  predicate WithinDrift(c: Clock, e: Entry) {
    e.payload.DefineOntology? || e.clock.physical <= c.physical + MAX_CLOCK_DRIFT
  }

  function Admitted(c: Clock, batch: seq<Entry>): (r: seq<Entry>)
    ensures forall e :: e in r <==> e in batch && WithinDrift(c, e)
  {
    if batch == [] then []
    else Admitted(c, batch[..|batch| - 1]) + (if WithinDrift(c, batch[|batch| - 1]) then [batch[|batch| - 1]] else [])
  }

  /** Absorbing clocks one after another, each at its own wall reading. */
  function MergedAll(c: Clock, others: seq<Clock>, walls: nat -> u64): Clock {
    if others == [] then c
    else Merged(MergedAll(c, others[..|others| - 1], walls), others[|others| - 1], walls(|others| - 1))
  }

  function ClocksAt(l: Log, order: seq<Hash>): (r: seq<Clock>)
    requires forall h :: h in order ==> h in l
    ensures |r| == |order| && forall i :: 0 <= i < |r| ==> r[i] == l[order[i]].clock
  {
    seq(|order|, i requires 0 <= i < |order| => l[order[i]].clock)
  }

  // -- Steps -------------------------------------------------------------------------------------------------

  function WrittenBy(d: Digest, p: Peer, op: GraphOp, next: seq<Hash>, wall: u64): Entry {
    NewEntry(d, op, next, Ticked(p.clock, wall), p.clock.id)
  }

  /** A local write: tick, link to the heads, append. */
  function AfterWrite(d: Digest, p: Peer, op: GraphOp, next: seq<Hash>, wall: u64): Peer {
    Peer(AppendTo(d, p.log, WrittenBy(d, p, op, next, wall)), Ticked(p.clock, wall))
  }

  /** The clocks absorbed by a delivery: those of the admitted entries, in causal order. */
  ghost function DeliveredOrder(l: Log, batch: seq<Entry>): (r: seq<Hash>)
    requires Founded(l)
    ensures forall h :: h in r ==> h in l
  {
    CausalOrderCorrect(l, l.Keys);
    var order := CausalOrder(l, l.Keys);
    assert forall h :: h in order ==> h in ToSet(order);
    Keep(order, HashesOf(batch))
  }

  /** A delivery: the admitted entries join the log; the clock moves only if something was new. */
  ghost function AfterDeliver(p: Peer, batch: seq<Entry>, walls: nat -> u64): Peer {
    var admitted := Admitted(p.clock, batch);
    var log := Absorb(p.log, admitted);
    if !Founded(log) || HashesOf(admitted) <= p.log.Keys then p
    else Peer(log, MergedAll(p.clock, ClocksAt(log, DeliveredOrder(log, admitted)), walls))
  }

  ghost function Taken(p: Peer, r: Reply, walls: nat -> u64): Peer {
    if WithinLimits(r.batch, r.bytes) then AfterDeliver(p, r.batch, walls) else p
  }

  /** The digest does not give a new entry the hash of a different one already written. */
  predicate Unclashing(all: Log, e: Entry) { e.hash in all ==> all[e.hash] == e }

  ghost predicate Enabled(d: Digest, s: Net, step: Step) {
    match step
    case Write(i, op, next, wall) =>
      && i < |s.peers| && !op.DefineOntology? && !op.Checkpoint? && NoDup(next) && ToSet(next) == HeadsOf(s.peers[i].log)
      && Unclashing(s.written, WrittenBy(d, s.peers[i], op, next, wall))
    case Refuse(i, _) => i < |s.peers|
    case Ask(i, o) => i < |s.peers| && OfferOf(o, s.peers[i].log)
    case Answer(j, k, _) => j < |s.peers| && k < |s.requests|
    case AnswerFiltered(j, k, _, _) => j < |s.peers| && k < |s.requests|
    case Deliver(k, _) => k < |s.replies| && s.replies[k].to < |s.peers|
  }

  ghost function Reaction(l: Log, o: Offer): seq<Entry> {
    if WellFormed(l) then MissingHashesKnown(l, o); EntriesAt(l, MissingHashes(l, o)) else []
  }

  ghost function After(d: Digest, s: Net, step: Step): Net
    requires Enabled(d, s, step)
  {
    match step
    case Write(i, op, next, wall) =>
      var e := WrittenBy(d, s.peers[i], op, next, wall);
      s.(peers := s.peers[i := AfterWrite(d, s.peers[i], op, next, wall)], written := s.written[e.hash := e])
    case Refuse(i, wall) => s.(peers := s.peers[i := s.peers[i].(clock := Ticked(s.peers[i].clock, wall))])
    case Ask(i, o) => s.(requests := s.requests + [Request(i, o)])
    case Answer(j, k, bytes) =>
      s.(replies := s.replies + [Reply(s.requests[k].from, Reaction(s.peers[j].log, s.requests[k].offer), bytes)])
    case AnswerFiltered(j, k, types, bytes) =>
      s.(replies := s.replies + [Reply(s.requests[k].from, Filtered(Reaction(s.peers[j].log, s.requests[k].offer), types), bytes)])
    case Deliver(k, walls) =>
      var i := s.replies[k].to;
      s.(peers := s.peers[i := Taken(s.peers[i], s.replies[k], walls)])
  }

  /** A local write, seen by anyone: its content hashes to its hash, it names its author, and its clock is the author's next. */
  lemma {:induction false} WrittenIs(d: Digest, p: Peer, op: GraphOp, next: seq<Hash>, wall: u64)
    ensures var e := WrittenBy(d, p, op, next, wall);
      && d(Content(op, next, e.clock, p.clock.id)) == e.hash && e.payload == op && e.next == next
      && e.author == e.clock.id == p.clock.id && Advances(p.clock, e.clock) && wall <= e.clock.physical
  {
    TickAdvances(p.clock, wall);
  }

  /** Of a batch, in its order, exactly those pass that are at most a thousand seconds ahead, or genesis entries. */
  lemma {:induction false} AdmittedIs(c: Clock, batch: seq<Entry>)
    ensures forall e :: e in Admitted(c, batch) <==> e in batch && (e.payload.DefineOntology? || e.clock.physical - c.physical <= 1000 * 1000)
    ensures (forall e :: e in batch ==> e.payload.DefineOntology? || e.clock.physical - c.physical <= 1000 * 1000) ==> Admitted(c, batch) == batch
  {
    if batch != [] {
      AdmittedIs(c, batch[..|batch| - 1]);
      assert batch == batch[..|batch| - 1] + [batch[|batch| - 1]];
    }
  }

  lemma {:induction false} AdmittedConcat(c: Clock, xs: seq<Entry>, ys: seq<Entry>)
    ensures Admitted(c, xs + ys) == Admitted(c, xs) + Admitted(c, ys)
  {
    if ys == [] {
      assert xs + ys == xs;
    } else {
      assert (xs + ys)[..|xs| + |ys| - 1] == xs + ys[..|ys| - 1];
      AdmittedConcat(c, xs, ys[..|ys| - 1]);
    }
  }

  /** A message of a hundred thousand entries and 64 MiB is the largest to pass. */
  lemma {:induction false} LimitsAre(batch: seq<Entry>, bytes: nat)
    ensures !WithinLimits(batch, bytes) <==> |batch| >= 100_001 || bytes >= 64 * 1024 * 1024 + 1
  {
  }

  // -- What every step keeps ---------------------------------------------------------------------------------

  /** A later entry's clock is strictly greater, or stands at a saturated counter. */
  ghost predicate Monotone(l: Log) { forall h, p :: h in l && p in l[h].next && p in l ==> Advances(l[p].clock, l[h].clock) }

  ghost predicate Authentic(d: Digest, l: Log) {
    forall h :: h in l ==> VerifyHash(d, l[h]) && !l[h].payload.Checkpoint? && (l[h].payload.DefineOntology? ==> l[h].next == [])
  }

  ghost predicate History(d: Digest, all: Log) {
    Universe(all) && Complete(all) && Monotone(all) && Authentic(d, all)
  }

  ghost predicate GoodPeer(all: Log, p: Peer) {
    PartOf(p.log, all) && forall h :: h in p.log ==> TupleLeq(p.log[h].clock, p.clock)
  }

  ghost predicate GoodReply(all: Log, l: Log, batch: seq<Entry>) {
    ClosedBatch(l, batch) && forall e :: e in batch ==> e.hash in all && all[e.hash] == e
  }

  ghost predicate Inv(d: Digest, s: Net) {
    && History(d, s.written)
    && (forall i :: 0 <= i < |s.peers| ==> GoodPeer(s.written, s.peers[i]))
    && (forall k :: 0 <= k < |s.requests| ==>
          s.requests[k].from < |s.peers| && ToSet(s.requests[k].offer.heads) <= s.peers[s.requests[k].from].log.Keys)
    && (forall k :: 0 <= k < |s.replies| ==>
          s.replies[k].to < |s.peers| && GoodReply(s.written, s.peers[s.replies[k].to].log, s.replies[k].batch))
  }

  /** Logs and history only ever grow. */
  ghost predicate Grows(s: Net, t: Net) {
    && |s.peers| == |t.peers| && Sublog(s.written, t.written)
    && forall i :: 0 <= i < |s.peers| ==> s.peers[i].log.Keys <= t.peers[i].log.Keys
  }

  lemma {:induction false} ReplyOutlives(all: Log, l: Log, batch: seq<Entry>, all': Log, l': Log)
    requires GoodReply(all, l, batch) && Sublog(all, all') && l.Keys <= l'.Keys
    ensures GoodReply(all', l', batch)
  {
  }

  /** Growth never invalidates a message in flight. */
  lemma {:induction false} MessagesOutlive(d: Digest, s: Net, t: Net)
    requires Inv(d, s) && Grows(s, t) && History(d, t.written)
    requires forall i :: 0 <= i < |t.peers| ==> GoodPeer(t.written, t.peers[i])
    requires t.requests == s.requests && t.replies == s.replies
    ensures Inv(d, t)
  {
    hide History, GoodPeer, GoodReply;
    forall k | 0 <= k < |t.replies|
      ensures t.replies[k].to < |t.peers| && GoodReply(t.written, t.peers[t.replies[k].to].log, t.replies[k].batch)
    {
      var i := s.replies[k].to;
      ReplyOutlives(s.written, s.peers[i].log, s.replies[k].batch, t.written, t.peers[i].log);
    }
  }

  // -- Writing ---------------------------------------------------------------------------------------------

  lemma {:induction false} WriteKeepsHistory(d: Digest, all: Log, p: Peer, op: GraphOp, next: seq<Hash>, wall: u64)
    requires History(d, all) && GoodPeer(all, p) && !op.DefineOntology? && !op.Checkpoint?
    requires NoDup(next) && ToSet(next) == HeadsOf(p.log) && Unclashing(all, WrittenBy(d, p, op, next, wall))
    ensures var e := WrittenBy(d, p, op, next, wall);
      && History(d, all[e.hash := e]) && Sublog(all, all[e.hash := e])
      && (forall q :: q in e.next ==> q in p.log)
  {
    hide Founded, HeadsOf, HasMinimal;
    var e := WrittenBy(d, p, op, next, wall);
    HeadsKnown(p.log);
    assert forall q :: q in next ==> q in ToSet(next);
    if e.hash in all {
      assert all[e.hash := e] == all;
    } else {
      AppendWellFormed(all, e);
      TickAdvances(p.clock, wall);
    }
  }

  lemma {:induction false} WriteKeepsPeer(d: Digest, all: Log, p: Peer, op: GraphOp, next: seq<Hash>, wall: u64)
    requires GoodPeer(all, p) && !op.Checkpoint?
    requires (forall q :: q in next ==> q in p.log) && Unclashing(all, WrittenBy(d, p, op, next, wall))
    ensures var e := WrittenBy(d, p, op, next, wall);
      GoodPeer(all[e.hash := e], AfterWrite(d, p, op, next, wall)) && p.log.Keys <= AfterWrite(d, p, op, next, wall).log.Keys
  {
    var e := WrittenBy(d, p, op, next, wall);
    FirstMissingNone(p.log, e.next);
    TickAdvances(p.clock, wall);
    assert AppendTo(d, p.log, e) == if e.hash in p.log then p.log else p.log[e.hash := e];
  }

  lemma {:induction false} GoodPeerGrows(all: Log, all': Log, p: Peer)
    requires GoodPeer(all, p) && Sublog(all, all')
    ensures GoodPeer(all', p)
  {
  }

  // -- Delivering ------------------------------------------------------------------------------------------

  /** The drift filter never separates an entry from a predecessor it admits it without. */
  lemma {:induction false} AdmittedClosed(d: Digest, all: Log, p: Peer, batch: seq<Entry>)
    requires History(d, all) && GoodReply(all, p.log, batch)
    ensures GoodReply(all, p.log, Admitted(p.clock, batch))
  {
    hide Universe, Complete, HashesOf;
    var admitted := Admitted(p.clock, batch);
    forall e, q | e in admitted && q in e.next ensures q in p.log || q in HashesOf(admitted) {
      if q !in p.log {
        HashListed(batch, q);
        var e' :| e' in batch && e'.hash == q;
        assert all[e.hash] == e && all[q] == e';
        assert Advances(e'.clock, e.clock);
        assert WithinDrift(p.clock, e');
        HashListed(admitted, q);
      }
    }
  }

  lemma {:induction false} HashListed(batch: seq<Entry>, h: Hash)
    ensures h in HashesOf(batch) <==> exists e :: e in batch && e.hash == h
  {
  }

  lemma {:induction false} TupleLeqTrans(a: Clock, b: Clock, c: Clock)
    requires TupleLeq(a, b) && TupleLeq(b, c)
    ensures TupleLeq(a, c)
  {
  }

  lemma {:induction false} MergedAllDominates(c: Clock, others: seq<Clock>, walls: nat -> u64)
    ensures TupleLeq(c, MergedAll(c, others, walls))
    ensures forall i :: 0 <= i < |others| ==> TupleLeq(others[i], MergedAll(c, others, walls))
  {
    if others != [] {
      var n := |others| - 1;
      MergedAllDominates(c, others[..n], walls);
      var before, after := MergedAll(c, others[..n], walls), MergedAll(c, others, walls);
      MergeAdvances(before, others[n], walls(n));
      forall i | 0 <= i < n ensures TupleLeq(others[i], after) {
        assert others[..n][i] == others[i];
        TupleLeqTrans(others[i], before, after);
      }
    }
  }

  lemma {:induction false} DeliveredCovers(l: Log, batch: seq<Entry>, h: Hash)
    requires WellFormed(l) && DistinctParents(l) && h in l && h in HashesOf(batch)
    ensures h in DeliveredOrder(l, batch)
  {
    hide CausalOrder;
    WholeOrder(l);
    assert h in ToSet(CausalOrder(l, l.Keys));
  }

  lemma {:induction false} ClockCovers(p: Peer, l: Log, order: seq<Hash>, walls: nat -> u64)
    requires forall h :: h in order ==> h in l
    ensures var c := MergedAll(p.clock, ClocksAt(l, order), walls);
      TupleLeq(p.clock, c) && forall h :: h in order ==> TupleLeq(l[h].clock, c)
  {
    hide MergedAll;
    var cs := ClocksAt(l, order);
    MergedAllDominates(p.clock, cs, walls);
    forall h | h in order ensures TupleLeq(l[h].clock, MergedAll(p.clock, cs, walls)) {
      var i :| 0 <= i < |order| && order[i] == h;
      assert cs[i] == l[h].clock;
    }
  }

  /** Delivery never fails: what is admitted merges, and the peer ends up holding exactly it as well. */
  lemma {:induction false} DeliverKeepsPeer(d: Digest, all: Log, p: Peer, batch: seq<Entry>, walls: nat -> u64)
    requires History(d, all) && GoodPeer(all, p) && GoodReply(all, p.log, batch)
    ensures var admitted := Admitted(p.clock, batch);
      WellFormed(Absorb(p.log, admitted)) && Mergeable(d, admitted)
    ensures var p' := AfterDeliver(p, batch, walls);
      && GoodPeer(all, p') && p'.log.Keys == p.log.Keys + HashesOf(Admitted(p.clock, batch))
  {
    hide Absorb, HashesOf, Admitted, MergedAll, ClosedBatch, Monotone, ClocksAt, DeliveredOrder;
    var admitted := Admitted(p.clock, batch);
    AdmittedClosed(d, all, p, batch);
    PartIsLog(p.log, all);
    ClosedBatchMerges(p.log, admitted, all);
    var log := Absorb(p.log, admitted);
    assert PartOf(log, all);
    PartIsLog(log, all);
    if !(HashesOf(admitted) <= p.log.Keys) {
      var order := DeliveredOrder(log, admitted);
      ClockCovers(p, log, order, walls);
      var p' := AfterDeliver(p, batch, walls);
      assert p' == Peer(log, MergedAll(p.clock, ClocksAt(log, order), walls));
      forall h | h in log ensures TupleLeq(log[h].clock, p'.clock) {
        if h in p.log {
          TupleLeqTrans(log[h].clock, p.clock, p'.clock);
        } else {
          DeliveredCovers(log, admitted, h);
        }
      }
    }
  }

  // -- Answering -------------------------------------------------------------------------------------------

  lemma {:induction false} AnswerIsGood(d: Digest, all: Log, src: Log, o: Offer, dst: Log)
    requires History(d, all) && PartOf(src, all) && ToSet(o.heads) <= dst.Keys
    ensures GoodReply(all, dst, Reaction(src, o))
  {
    hide MissingHashes, Monotone, Authentic, HeadsOf, WellFormed, HashesOf, DistinctParents, EntriesAt;
    PartIsLog(src, all);
    MissingHashesKnown(src, o);
    WellFormedParts(src);
    AnswerEntries(src, MissingHashes(src, o));
    AnswerClosed(src, o);
    var batch := Reaction(src, o);
    forall e, p | e in batch && p in e.next ensures p in dst || p in HashesOf(batch) {
      assert p in ToSet(MissingHashes(src, o)) || p in ToSet(o.heads);
    }
  }

  lemma {:induction false} FilteredIsGood(all: Log, dst: Log, batch: seq<Entry>, types: set<string>)
    requires GoodReply(all, dst, batch)
    ensures GoodReply(all, dst, Filtered(batch, types))
  {
    hide MatchingHashes, AncestorsOf, HashesOf;
    FilteredClosed(batch, types);
  }

  // -- Runs ------------------------------------------------------------------------------------------------

  lemma {:induction false} StepKeepsInv(d: Digest, s: Net, step: Step)
    requires Inv(d, s) && Enabled(d, s, step)
    ensures Inv(d, After(d, s, step)) && Grows(s, After(d, s, step))
  {
    hide History, GoodPeer, GoodReply, AfterDeliver, WithinLimits, AfterWrite, WrittenBy, Reaction, Filtered, HeadsOf;
    var t := After(d, s, step);
    match step {
      case Write(i, op, next, wall) => WriteStep(d, s, i, op, next, wall);
      case Refuse(i, wall) =>
        RefuseKeepsPeer(s.written, s.peers[i], wall);
        SublogRefl(s.written);
        MessagesOutlive(d, s, t);
      case Ask(i, o) =>
        HeadsKnown(s.peers[i].log);
        SublogRefl(s.written);
      case Answer(j, k, _) =>
        var r := s.requests[k];
        GoodPeerPart(s.written, s.peers[j]);
        AnswerIsGood(d, s.written, s.peers[j].log, r.offer, s.peers[r.from].log);
        SublogRefl(s.written);
      case AnswerFiltered(j, k, types, _) =>
        var r := s.requests[k];
        GoodPeerPart(s.written, s.peers[j]);
        AnswerIsGood(d, s.written, s.peers[j].log, r.offer, s.peers[r.from].log);
        FilteredIsGood(s.written, s.peers[r.from].log, Reaction(s.peers[j].log, r.offer), types);
        SublogRefl(s.written);
      case Deliver(k, walls) =>
        var i := s.replies[k].to;
        DeliverKeepsPeer(d, s.written, s.peers[i], s.replies[k].batch, walls);
        SublogRefl(s.written);
        MessagesOutlive(d, s, t);
    }
  }

  lemma {:induction false} SublogRefl(l: Log)
    ensures Sublog(l, l)
  {
  }

  lemma {:induction false} GoodPeerPart(all: Log, p: Peer)
    requires GoodPeer(all, p)
    ensures PartOf(p.log, all)
  {
  }

  lemma {:induction false} RefuseKeepsPeer(all: Log, p: Peer, wall: u64)
    requires GoodPeer(all, p)
    ensures GoodPeer(all, p.(clock := Ticked(p.clock, wall)))
  {
    TickAdvances(p.clock, wall);
  }

  lemma {:induction false} WriteStep(d: Digest, s: Net, i: nat, op: GraphOp, next: seq<Hash>, wall: u64)
    requires Inv(d, s) && Enabled(d, s, Write(i, op, next, wall))
    ensures var t := After(d, s, Write(i, op, next, wall)); Inv(d, t) && Grows(s, t)
  {
    hide History, GoodPeer, GoodReply, AfterWrite, WrittenBy;
    var t := After(d, s, Write(i, op, next, wall));
    var e := WrittenBy(d, s.peers[i], op, next, wall);
    WriteKeepsHistory(d, s.written, s.peers[i], op, next, wall);
    WrittenLinks(d, s.peers[i], op, next, wall);
    WriteKeepsPeer(d, s.written, s.peers[i], op, next, wall);
    forall k | 0 <= k < |s.peers| ensures GoodPeer(t.written, t.peers[k]) {
      if k != i { GoodPeerGrows(s.written, t.written, s.peers[k]); }
    }
    MessagesOutlive(d, s, t);
  }

  lemma {:induction false} WrittenLinks(d: Digest, p: Peer, op: GraphOp, next: seq<Hash>, wall: u64)
    ensures WrittenBy(d, p, op, next, wall).next == next
  {
  }

  /** A genesis-only start: every peer holds one root of its own or of a shared history. */
  ghost predicate Initial(d: Digest, s: Net) {
    && s.requests == [] && s.replies == []
    && Keyed(s.written) && Authentic(d, s.written) && (forall h :: h in s.written ==> s.written[h].next == [])
    && (forall i :: 0 <= i < |s.peers| ==> RootOnly(s.written, s.peers[i]))
  }

  ghost predicate RootOnly(all: Log, p: Peer) { exists h :: h in all && p.log == map[h := all[h]] && TupleLeq(all[h].clock, p.clock) }

  lemma {:induction false} InitialInv(d: Digest, s: Net)
    requires Initial(d, s)
    ensures Inv(d, s)
  {
    hide Founded;
    RootsFounded(s.written);
    forall i | 0 <= i < |s.peers| ensures GoodPeer(s.written, s.peers[i]) { RootPeer(s.written, s.peers[i]); }
  }

  lemma {:induction false} RootPeer(all: Log, p: Peer)
    requires RootOnly(all, p) && forall h :: h in all ==> all[h].next == []
    ensures GoodPeer(all, p)
  {
  }

  lemma {:induction false} RootsFounded(l: Log)
    requires forall h :: h in l ==> l[h].next == []
    ensures Founded(l)
  {
    forall t: set<Hash> ensures HasMinimal(l, t) {
      if t != {} && t <= l.Keys {
        var m :| m in t;
        assert Minimal(l, t, m);
      }
    }
  }

  ghost predicate Possible(d: Digest, s: Net, steps: seq<Step>)
    decreases |steps|
  {
    steps == [] || (Enabled(d, s, steps[0]) && Possible(d, After(d, s, steps[0]), steps[1..]))
  }

  ghost function Final(d: Digest, s: Net, steps: seq<Step>): Net
    requires Possible(d, s, steps)
    decreases |steps|
  {
    if steps == [] then s else Final(d, After(d, s, steps[0]), steps[1..])
  }

  lemma {:induction false} RunKeepsInv(d: Digest, s: Net, steps: seq<Step>)
    requires Inv(d, s) && Possible(d, s, steps)
    ensures Inv(d, Final(d, s, steps))
    decreases |steps|
  {
    hide Inv, After, Enabled, Grows;
    if steps != [] {
      StepKeepsInv(d, s, steps[0]);
      RunKeepsInv(d, After(d, s, steps[0]), steps[1..]);
    }
  }

  /**
   * In every run from a genesis-only start, whatever the interleaving and the wall clocks: each
   * peer's log is well-formed; whatever reply within the message limits reaches it, full or filtered,
   * merges, leaving exactly what the peer had and what its clock admits, and one over them changes
   * nothing; clocks grow strictly along causality until saturation, so every historical cut is
   * ancestor-closed.
   */
  lemma {:induction false} EveryRun(d: Digest, s: Net, steps: seq<Step>)
    requires Initial(d, s) && Possible(d, s, steps)
    ensures var t := Final(d, s, steps);
      && (forall i :: 0 <= i < |t.peers| ==>
            && WellFormed(t.peers[i].log) && DistinctParents(t.peers[i].log) && Monotone(t.peers[i].log)
            && (forall cutoff :: AncestorClosed(t.peers[i].log, UpTo(t.peers[i].log, cutoff))))
      && (forall k :: 0 <= k < |t.replies| ==>
            t.replies[k].to < |t.peers| && forall walls :: Received(d, t.peers[t.replies[k].to], t.replies[k], walls))
  {
    hide Possible, Final, Initial, WellFormed, Mergeable, Absorb, UpTo, History, GoodPeer, GoodReply;
    InitialInv(d, s);
    RunKeepsInv(d, s, steps);
    var t := Final(d, s, steps);
    forall i | 0 <= i < |t.peers|
      ensures WellFormed(t.peers[i].log) && DistinctParents(t.peers[i].log) && Monotone(t.peers[i].log)
      ensures forall cutoff :: AncestorClosed(t.peers[i].log, UpTo(t.peers[i].log, cutoff))
    {
      PeerIsSound(d, t.written, t.peers[i]);
    }
    forall k | 0 <= k < |t.replies|
      ensures forall walls :: Received(d, t.peers[t.replies[k].to], t.replies[k], walls)
    {
      forall walls ensures Received(d, t.peers[t.replies[k].to], t.replies[k], walls) {
        DeliverKeepsPeer(d, t.written, t.peers[t.replies[k].to], t.replies[k].batch, walls);
      }
    }
  }

  /** What a reply does to the peer it reaches. */
  ghost predicate Received(d: Digest, p: Peer, r: Reply, walls: nat -> u64) {
    var admitted, p' := Admitted(p.clock, r.batch), Taken(p, r, walls);
    if WithinLimits(r.batch, r.bytes)
    then Mergeable(d, admitted) && WellFormed(Absorb(p.log, admitted)) && p'.log.Keys == p.log.Keys + HashesOf(admitted)
    else p' == p
  }

  lemma {:induction false} PeerIsSound(d: Digest, all: Log, p: Peer)
    requires History(d, all) && GoodPeer(all, p)
    ensures WellFormed(p.log) && DistinctParents(p.log) && Monotone(p.log)
    ensures forall cutoff :: AncestorClosed(p.log, UpTo(p.log, cutoff))
  {
    hide Founded;
    PartIsLog(p.log, all);
    assert Monotone(p.log);
    forall cutoff ensures AncestorClosed(p.log, UpTo(p.log, cutoff)) { CutIsClosed(p.log, cutoff); }
  }

  /** Time travel never shows an entry without its causes. */
  lemma {:induction false} CutIsClosed(l: Log, cutoff: Clock)
    requires Complete(l) && Monotone(l)
    ensures AncestorClosed(l, UpTo(l, cutoff))
  {
    forall h, p | h in UpTo(l, cutoff) && p in l[h].next ensures p in UpTo(l, cutoff) {
      TupleLeqTrans(l[p].clock, l[h].clock, cutoff);
    }
  }

  lemma {:induction false} RunKeepsPeers(d: Digest, s: Net, steps: seq<Step>)
    requires Possible(d, s, steps)
    ensures |Final(d, s, steps).peers| == |s.peers|
    decreases |steps|
  {
    hide AfterWrite, AfterDeliver, Reaction, Filtered, WrittenBy, HeadsOf, Unclashing;
    if steps != [] { RunKeepsPeers(d, After(d, s, steps[0]), steps[1..]); }
  }
}
