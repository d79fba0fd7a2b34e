/** Merging a batch into a log, retrying entries whose predecessors have not arrived yet. */
module Merge {
  import opened Base
  import opened Entries
  import opened Dag
  import opened OpLogs

  datatype MergeError = BadHash(hash: Hash) | Unresolvable(count: nat)

  /** The log and the batch together; on a shared hash the log's own entry stays. */
  function Absorb(l: Log, batch: seq<Entry>): Log { ByHash(batch) + l }

  ghost predicate Consistent(batch: seq<Entry>) { forall a, b :: a in batch && b in batch && a.hash == b.hash ==> a == b }

  /** Hashes check out, nothing replaces the log, and one hash means one entry. */
  ghost predicate Mergeable(d: Digest, batch: seq<Entry>) {
    Consistent(batch) && forall e :: e in batch ==> VerifyHash(d, e) && !IsRootCheckpoint(e)
  }

  function HashesOf(batch: seq<Entry>): set<Hash> { set e | e in batch :: e.hash }

  /** Every entry is already held or is the one the merged log will hold. */
  ghost predicate Fits(start: Log, goal: Log, batch: seq<Entry>) {
    forall e :: e in batch ==> e.hash in goal && (e.hash in start || goal[e.hash] == e)
  }

  /** Between `start` and `goal`, with exactly `rest` still to come. */
  ghost predicate Midway(start: Log, goal: Log, l: Log, rest: seq<Entry>) {
    && Sublog(start, l) && Sublog(l, goal)
    && l.Keys + HashesOf(rest) == goal.Keys
    && Fits(start, goal, rest)
  }

  lemma {:induction false} MergeBegins(start: Log, batch: seq<Entry>)
    requires Keyed(start) && Consistent(batch)
    ensures Midway(start, Absorb(start, batch), start, batch)
  {
    ByHashContents(batch);
    var goal := Absorb(start, batch);
    forall h ensures h in goal <==> h in start.Keys + HashesOf(batch) {}
    assert goal.Keys == start.Keys + HashesOf(batch);
  }

  /** An entry that is appended, or was already there, is settled. */
  lemma {:induction false} MergeSettles(d: Digest, start: Log, goal: Log, l: Log, kept: seq<Entry>, e: Entry, todo: seq<Entry>)
    requires Midway(start, goal, l, kept + [e] + todo) && !IsRootCheckpoint(e) && AppendVerdict(d, l, e).Ok?
    ensures Midway(start, goal, AppendTo(d, l, e), kept + todo)
    ensures |AppendTo(d, l, e)| == |l| + (if AppendVerdict(d, l, e).value then 1 else 0)
  {
    hide AppendTo, AppendVerdict, HashesOf, Fits, Sublog;
    WithoutOne(start, goal, kept, e, todo);
    AppendShape(d, l, e);
    Grown(start, goal, l, e, AppendTo(d, l, e));
    UnionMoves(l.Keys, {e.hash}, HashesOf(kept + todo));
  }

  lemma {:induction false} UnionMoves(a: set<Hash>, b: set<Hash>, c: set<Hash>)
    ensures a + b + c == a + (b + c)
  {
  }

  lemma {:induction false} Grown(start: Log, goal: Log, l: Log, e: Entry, l': Log)
    requires Sublog(start, l) && Sublog(l, goal) && l' == (if e.hash in l then l else l[e.hash := e])
    requires e.hash in goal && (e.hash in start || goal[e.hash] == e)
    ensures Sublog(start, l') && Sublog(l', goal)
  {
  }

  lemma {:induction false} AppendShape(d: Digest, l: Log, e: Entry)
    requires !IsRootCheckpoint(e) && AppendVerdict(d, l, e).Ok?
    ensures AppendVerdict(d, l, e).value <==> e.hash !in l
    ensures AppendTo(d, l, e) == if e.hash in l then l else l[e.hash := e]
    ensures AppendTo(d, l, e).Keys == l.Keys + {e.hash}
    ensures |AppendTo(d, l, e)| == |l| + (if AppendVerdict(d, l, e).value then 1 else 0)
  {
  }

  lemma {:induction false} WithoutOne(start: Log, goal: Log, kept: seq<Entry>, e: Entry, todo: seq<Entry>)
    requires Fits(start, goal, kept + [e] + todo)
    ensures HashesOf(kept + [e] + todo) == {e.hash} + HashesOf(kept + todo)
    ensures Fits(start, goal, kept + todo) && e.hash in goal && (e.hash in start || goal[e.hash] == e)
  {
    var rest, rest' := kept + [e] + todo, kept + todo;
    assert e in rest;
    assert forall x :: x in rest <==> x == e || x in rest';
  }

  /** No entry waiting can be appended: each lacks a predecessor. */
  ghost predicate Stuck(l: Log, rest: seq<Entry>) {
    forall e :: e in rest ==> e.hash !in l && exists p :: p in e.next && p !in l
  }

  /** A merge that is stuck with entries left can never be finished: the union is not a log. */
  lemma {:induction false} StuckMeansMalformed(start: Log, goal: Log, l: Log, rest: seq<Entry>)
    requires Midway(start, goal, l, rest) && rest != [] && Stuck(l, rest)
    ensures !WellFormed(goal)
  {
    hide Founded, Minimal, Midway, Stuck;
    var t := HashesOf(rest);
    assert rest[0].hash in t;
    StuckGoal(start, goal, l, rest);
    if Complete(goal) {
      forall m | m in t ensures !Minimal(goal, t, m) { StuckNotMinimal(start, goal, l, rest, m); }
      NoMinimal(goal, t);
    }
  }

  lemma {:induction false} StuckGoal(start: Log, goal: Log, l: Log, rest: seq<Entry>)
    requires Midway(start, goal, l, rest)
    ensures HashesOf(rest) <= goal.Keys
  {
  }

  lemma {:induction false} StuckNotMinimal(start: Log, goal: Log, l: Log, rest: seq<Entry>, m: Hash)
    requires Midway(start, goal, l, rest) && Stuck(l, rest) && m in HashesOf(rest) && Complete(goal)
    ensures !Minimal(goal, HashesOf(rest), m)
  {
    var e :| e in rest && e.hash == m;
    assert goal[m] == e;
    var p :| p in e.next && p !in l;
    assert p in goal.Keys;
    assert p in HashesOf(rest);
  }

  lemma {:induction false} NoMinimal(l: Log, t: set<Hash>)
    requires t != {} && t <= l.Keys && forall m :: m in t ==> !Minimal(l, t, m)
    ensures !Founded(l)
  {
    assert !HasMinimal(l, t);
  }

  lemma {:induction false} MergeEnds(start: Log, goal: Log, l: Log)
    requires Midway(start, goal, l, [])
    ensures l == goal
  {
    assert HashesOf([]) == {};
    assert l.Keys == goal.Keys;
  }

  lemma {:induction false} ParentMissing(l: Log, e: Entry)
    requires FirstMissing(l, e.next).Some?
    ensures exists p :: p in e.next && p !in l
  {
    FirstMissingNone(l, e.next);
  }

  ghost predicate Plain(d: Digest, batch: seq<Entry>) { forall e :: e in batch ==> VerifyHash(d, e) && !IsRootCheckpoint(e) }

  lemma {:induction false} MergeableParts(d: Digest, batch: seq<Entry>, part: seq<Entry>)
    requires Mergeable(d, batch) && forall e :: e in part ==> e in batch
    ensures Plain(d, part) && Consistent(batch)
  {
  }

  lemma {:induction false} UnresolvableEnd(start: Log, l: Log, rest: seq<Entry>, batch: seq<Entry>)
    requires Midway(start, Absorb(start, batch), l, rest) && Stuck(l, rest) && rest != []
    requires Consistent(batch) && forall e :: e in rest ==> e in batch
    ensures !WellFormed(Absorb(start, batch)) && Sublog(start, l) && Sublog(l, Absorb(start, batch))
    ensures forall e :: e in batch && e.hash !in l ==> exists p :: p in e.next && p !in l
    ensures LeftOut(l, batch, |rest|)
  {
    hide WellFormed;
    var goal := Absorb(start, batch);
    StuckMeansMalformed(start, goal, l, rest);
    ByHashContents(batch);
    forall e | e in batch && e.hash !in l ensures e in rest && exists p :: p in e.next && p !in l {
      assert e.hash in goal.Keys;
      assert e.hash in HashesOf(rest);
      var e' :| e' in rest && e'.hash == e.hash;
      assert e' == e;
    }
    assert forall e :: e in rest <==> e in batch && e.hash !in l;
  }

  /** `count` entries, repeats included, are those of the batch that the log does not hold. */
  ghost predicate LeftOut(l: Log, batch: seq<Entry>, count: nat) {
    exists rest: seq<Entry> :: |rest| == count && forall e :: e in rest <==> e in batch && e.hash !in l
  }

  lemma {:induction false} ResolvedEnd(start: Log, goal: Log, l: Log)
    requires Midway(start, goal, l, []) && WellFormed(l)
    ensures l == goal && WellFormed(goal) && Sublog(start, l) && Sublog(l, goal)
  {
    hide WellFormed;
    MergeEnds(start, goal, l);
  }

  lemma {:induction false} MergeWaits(start: Log, goal: Log, l: Log, kept: seq<Entry>, e: Entry, todo: seq<Entry>)
    requires Midway(start, goal, l, kept + [e] + todo)
    ensures Midway(start, goal, l, (kept + [e]) + todo)
  {
  }

  lemma {:induction false} StuckMore(l: Log, kept: seq<Entry>, e: Entry)
    requires Stuck(l, kept) && e.hash !in l && FirstMissing(l, e.next).Some?
    ensures Stuck(l, kept + [e])
  {
    ParentMissing(l, e);
  }

  /** One pass over the entries still waiting. */
  method Pass(oplog: OpLog, remaining: seq<Entry>, ghost good: bool, ghost start: Log, ghost goal: Log)
    returns (r: Result<(nat, seq<Entry>), MergeError>)
    requires oplog.Valid()
    requires good ==> Midway(start, goal, oplog.entries, remaining) && Plain(oplog.digest, remaining)
    modifies oplog
    ensures oplog.Valid()
    ensures r.Err? ==> r.error.BadHash? && !good && exists e :: e in remaining && e.hash == r.error.hash && !VerifyHash(oplog.digest, e)
    ensures r.Ok? ==> |r.value.1| <= |remaining| && forall e :: e in r.value.1 ==> e in remaining
    ensures good && r.Ok? ==>
      && Midway(start, goal, oplog.entries, r.value.1)
      && |oplog.entries| == |old(oplog.entries)| + r.value.0
      && (|r.value.1| == |remaining| ==> r.value.1 == remaining && Stuck(oplog.entries, remaining))
  {
    hide Midway, Stuck, WellFormed, Indexes, HeadsOf, AppendTo, FirstMissing, VerifyHash;
    var inserted := 0;
    var waiting: seq<Entry> := [];
    assert [] + remaining[0..] == remaining;
    StuckEmpty(oplog.entries);
    for i := 0 to |remaining|
      invariant oplog.Valid() && |waiting| <= i && forall e :: e in waiting ==> e in remaining
      invariant good ==> Midway(start, goal, oplog.entries, waiting + remaining[i..])
      invariant good ==> |oplog.entries| == |old(oplog.entries)| + inserted
      invariant good && |waiting| == i ==> waiting == remaining[..i] && Stuck(oplog.entries, waiting)
    {
      var e := remaining[i];
      assert waiting + remaining[i..] == waiting + [e] + remaining[i + 1..];
      ghost var l := oplog.entries;
      var verdict := oplog.Append(e);
      match verdict {
        case Ok(isNew) =>
          if good { MergeSettles(oplog.digest, start, goal, l, waiting, e, remaining[i + 1..]); }
          if isNew { inserted := inserted + 1; }
        case Err(InvalidHash) =>
          return Err(BadHash(e.hash));
        case Err(MissingParent(_)) =>
          AppendRefused(oplog.digest, l, e);
          if good {
            MergeWaits(start, goal, l, waiting, e, remaining[i + 1..]);
            if |waiting| == i { StuckMore(l, waiting, e); }
          }
          waiting := waiting + [e];
      }
    }
    assert remaining[..|remaining|] == remaining && waiting + remaining[|remaining|..] == waiting;
    r := Ok((inserted, waiting));
  }

  lemma {:induction false} StuckEmpty(l: Log)
    ensures Stuck(l, [])
  {
  }

  lemma {:induction false} AppendRefused(d: Digest, l: Log, e: Entry)
    requires AppendVerdict(d, l, e).Err? && AppendVerdict(d, l, e).error.MissingParent?
    ensures AppendTo(d, l, e) == l && e.hash !in l && FirstMissing(l, e.next).Some?
  {
  }

  /**
   * Merging succeeds exactly when log and batch together form a log, in whatever order the batch
   * arrives; then the result is that union and the count is the number of new entries. Otherwise
   * it stops with a valid log in which every batch entry still missing lacks a predecessor.
   */
  method MergeEntries(oplog: OpLog, batch: seq<Entry>) returns (r: Result<nat, MergeError>)
    requires oplog.Valid()
    modifies oplog
    ensures oplog.Valid()
    ensures Mergeable(oplog.digest, batch) ==>
      var start, goal := old(oplog.entries), Absorb(old(oplog.entries), batch);
      && (r.Ok? <==> WellFormed(goal))
      && (r.Ok? ==> oplog.entries == goal && |goal| == |start| + r.value)
      && Sublog(start, oplog.entries) && Sublog(oplog.entries, goal)
      && (r.Err? ==> forall e :: e in batch && e.hash !in oplog.entries ==> exists p :: p in e.next && p !in oplog.entries)
      && (r.Err? ==> r.error.Unresolvable? && LeftOut(oplog.entries, batch, r.error.count))
    ensures r.Err? && r.error.BadHash? ==> exists e :: e in batch && e.hash == r.error.hash && !VerifyHash(oplog.digest, e)
  {
    hide Absorb, Midway, Stuck, WellFormed, Indexes, HeadsOf, Mergeable, Plain, Sublog, VerifyHash, Consistent;
    ghost var start, goal := oplog.entries, Absorb(oplog.entries, batch);
    ghost var good := Mergeable(oplog.digest, batch);
    if good {
      MergeableParts(oplog.digest, batch, batch);
      WellFormedParts(start);
      MergeBegins(start, batch);
    }
    var inserted := 0;
    var remaining := batch;
    var maxPasses := |batch| + 1;
    while remaining != [] && maxPasses > 0
      invariant oplog.Valid() && maxPasses > |remaining|
      invariant forall e :: e in remaining ==> e in batch
      invariant good ==> Midway(start, goal, oplog.entries, remaining) && |oplog.entries| == |start| + inserted
      decreases |remaining|
    {
      if good { MergeableParts(oplog.digest, batch, remaining); }
      var pass := Pass(oplog, remaining, good, start, goal);
      if pass.Err? { return Err(pass.error); }
      var (more, waiting) := pass.value;
      inserted := inserted + more;
      if |waiting| == |remaining| {
        if good { UnresolvableEnd(start, oplog.entries, remaining, batch); }
        return Err(Unresolvable(|remaining|));
      }
      remaining, maxPasses := waiting, maxPasses - 1;
    }
    if good { ResolvedEnd(start, goal, oplog.entries); }
    r := Ok(inserted);
  }

  // -- Consequences ------------------------------------------------------------------------------------------

  /** Merging what is already there changes nothing. */
  lemma {:induction false} AbsorbAgain(l: Log, batch: seq<Entry>)
    ensures Absorb(Absorb(l, batch), batch) == Absorb(l, batch)
  {
  }

  lemma {:induction false} ByHashPermuted(a: seq<Entry>, b: seq<Entry>)
    requires Consistent(a) && (forall e :: e in a <==> e in b)
    ensures ByHash(a) == ByHash(b)
  {
    ByHashContents(a);
    ByHashContents(b);
    forall h ensures h in ByHash(a) <==> h in ByHash(b) {}
    forall h | h in ByHash(a) ensures ByHash(a)[h] == ByHash(b)[h] {}
  }

  /** Arrival order is irrelevant to the merged log, and so to whether the merge succeeds. */
  lemma {:induction false} AbsorbPermuted(l: Log, a: seq<Entry>, b: seq<Entry>)
    requires Consistent(a) && (forall e :: e in a <==> e in b)
    ensures Absorb(l, a) == Absorb(l, b)
  {
    ByHashPermuted(a, b);
  }

  /** Each predecessor of a batch entry is in the log or in the batch. */
  ghost predicate ClosedBatch(l: Log, batch: seq<Entry>) {
    forall e, p :: e in batch && p in e.next ==> p in l || p in HashesOf(batch)
  }

  /** A closed batch cut from a larger acyclic log always merges. */
  lemma {:induction false} ClosedBatchMerges(l: Log, batch: seq<Entry>, all: Log)
    requires WellFormed(l) && ClosedBatch(l, batch) && Founded(all)
    requires Sublog(l, all) && forall e :: e in batch ==> e.hash in all && all[e.hash] == e
    ensures WellFormed(Absorb(l, batch)) && Sublog(Absorb(l, batch), all)
    ensures Absorb(l, batch).Keys == l.Keys + HashesOf(batch)
  {
    hide Founded;
    ByHashContents(batch);
    var goal := Absorb(l, batch);
    forall h ensures h in goal <==> h in l.Keys + HashesOf(batch) {}
    assert goal.Keys == l.Keys + HashesOf(batch);
    SublogFounded(goal, all);
  }

  /** Two batches closed relative to the same starting log merge in either order to the same log. */
  lemma {:induction false} MergesCommute(l: Log, a: seq<Entry>, b: seq<Entry>, all: Log)
    requires WellFormed(l) && ClosedBatch(l, a) && ClosedBatch(l, b) && Founded(all) && Sublog(l, all)
    requires forall e :: e in a || e in b ==> e.hash in all && all[e.hash] == e
    ensures WellFormed(Absorb(Absorb(l, a), b)) && WellFormed(Absorb(Absorb(l, b), a))
    ensures Absorb(Absorb(l, a), b) == Absorb(Absorb(l, b), a)
  {
    hide WellFormed, Founded, Absorb;
    ClosedBatchMerges(l, a, all);
    ClosedBatchMerges(l, b, all);
    ClosedBatchMerges(Absorb(l, a), b, all);
    ClosedBatchMerges(Absorb(l, b), a, all);
    MapsAgree(Absorb(Absorb(l, a), b), Absorb(Absorb(l, b), a));
  }
}
