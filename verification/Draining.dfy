/** Repeated fetches over a log that stands still: exactly when they drain it, and a shape of log for which they do. */
module Draining {
  import opened Base
  import opened Entries
  import opened Paths
  import opened Dag
  import opened Topo
  import opened OpLogs
  import opened Tail
  import opened Chains

  /** The delta past a cursor, in the order it is delivered. */
  ghost function Pending(l: Log, cursor: seq<Hash>): seq<Hash> { CausalOrder(l, Past(l, cursor)) }

  /** What is left fits into one batch. */
  ghost predicate Fits(l: Log, cursor: seq<Hash>, limit: nat) { |Pending(l, cursor)| <= limit }

  /** The cursor after `n` fetches, as long as they are truncated. */
  ghost function CursorAfter(l: Log, cursor: seq<Hash>, limit: nat, n: nat): seq<Hash>
    requires limit > 0
  {
    if n == 0 then cursor
    else
      var c := CursorAfter(l, cursor, limit, n - 1);
      if Fits(l, c, limit) then c else [Pending(l, c)[limit - 1]]
  }

  /** A truncated fetch comes back to a cursor that was already left. */
  ghost predicate Returns(l: Log, cursor: seq<Hash>, limit: nat)
    requires limit > 0
  {
    exists i: nat, j: nat :: i < j && LeavesAndMeets(l, cursor, limit, i, j)
  }

  ghost predicate LeavesAndMeets(l: Log, cursor: seq<Hash>, limit: nat, i: nat, j: nat)
    requires limit > 0
  {
    var c := CursorAfter(l, cursor, limit, i);
    !Fits(l, c, limit) && CursorAfter(l, cursor, limit, j) == c
  }

  // -- Following the cursor --------------------------------------------------------------------------------------------

  /** Where the cursor goes depends on where it is. */
  lemma {:induction false} SameCursorSameFuture(l: Log, cursor: seq<Hash>, limit: nat, i: nat, j: nat, k: nat)
    requires limit > 0 && CursorAfter(l, cursor, limit, i) == CursorAfter(l, cursor, limit, j)
    ensures CursorAfter(l, cursor, limit, i + k) == CursorAfter(l, cursor, limit, j + k)
  {
    hide Fits, Pending;
    if k > 0 { SameCursorSameFuture(l, cursor, limit, i, j, k - 1); }
  }

  /** Once the rest fits, the cursor stands. */
  lemma {:induction false} FitsStays(l: Log, cursor: seq<Hash>, limit: nat, m: nat, n: nat)
    requires limit > 0 && m <= n && Fits(l, CursorAfter(l, cursor, limit, m), limit)
    ensures CursorAfter(l, cursor, limit, n) == CursorAfter(l, cursor, limit, m)
  {
    hide Fits, Pending;
    if m < n { FitsStays(l, cursor, limit, m, n - 1); }
  }

  /** A cursor that returns never gets to a rest that fits. */
  lemma {:induction false} ReturnIsForever(l: Log, cursor: seq<Hash>, limit: nat, i: nat, j: nat, n: nat)
    requires limit > 0 && i < j && LeavesAndMeets(l, cursor, limit, i, j)
    ensures !Fits(l, CursorAfter(l, cursor, limit, n), limit)
    decreases n
  {
    hide Fits, Pending, CursorAfter;
    if Fits(l, CursorAfter(l, cursor, limit, n), limit) {
      if n <= i {
        FitsStays(l, cursor, limit, n, i);
      } else if n <= j {
        FitsStays(l, cursor, limit, n, j);
      } else {
        SameCursorSameFuture(l, cursor, limit, i, j, n - j);
        ReturnIsForever(l, cursor, limit, i, j, i + (n - j));
      }
    }
  }

  lemma {:induction false} CursorKnown(l: Log, cursor: seq<Hash>, limit: nat, n: nat)
    requires Sound(l) && limit > 0 && ToSet(cursor) <= l.Keys
    ensures ToSet(CursorAfter(l, cursor, limit, n)) <= l.Keys
    ensures n > 0 && !Fits(l, CursorAfter(l, cursor, limit, n - 1), limit) ==> |CursorAfter(l, cursor, limit, n)| == 1
  {
    hide CausalOrder, WellFormed;
    if n > 0 {
      CursorKnown(l, cursor, limit, n - 1);
      var c := CursorAfter(l, cursor, limit, n - 1);
      DeltaWhole(l, c);
      if !Fits(l, c, limit) { assert Pending(l, c)[limit - 1] in ToSet(Pending(l, c)); }
    }
  }

  /** The cursor the `k`-th fetch leaves. */
  ghost function StopAt(l: Log, cursor: seq<Hash>, limit: nat, k: nat): seq<Hash>
    requires limit > 0
  {
    CursorAfter(l, cursor, limit, k + 1)
  }

  /** The entries the first few truncated fetches stop at. */
  ghost function Stops(l: Log, cursor: seq<Hash>, limit: nat, n: nat): (r: seq<Hash>)
    requires limit > 0 && (forall k: nat :: k < n ==> |StopAt(l, cursor, limit, k)| == 1)
    ensures |r| == n && forall k :: 0 <= k < n ==> [r[k]] == StopAt(l, cursor, limit, k)
  {
    seq(n, k requires 0 <= k < n => StopAt(l, cursor, limit, k)[0])
  }

  /** A cursor that never returns reaches a rest that fits within as many fetches as there are entries. */
  lemma {:induction false} NoReturnFits(l: Log, cursor: seq<Hash>, limit: nat)
    requires Sound(l) && limit > 0 && ToSet(cursor) <= l.Keys && !Returns(l, cursor, limit)
    ensures exists n: nat :: n <= |l| && Fits(l, CursorAfter(l, cursor, limit, n), limit)
  {
    hide CursorAfter, Fits, Sound;
    if forall n: nat :: n <= |l| ==> !Fits(l, CursorAfter(l, cursor, limit, n), limit) {
      forall k: nat | k < |l| + 1
        ensures |StopAt(l, cursor, limit, k)| == 1 && ToSet(StopAt(l, cursor, limit, k)) <= l.Keys
      {
        CursorKnown(l, cursor, limit, k + 1);
      }
      var r := Stops(l, cursor, limit, |l| + 1);
      forall k | 0 <= k < |r| ensures r[k] in l.Keys { assert r[k] in ToSet([r[k]]); }
      assert |l.Keys| == |l|;
      var i, j := Pigeonhole(r, l.Keys);
      assert [r[i]] == [r[j]];
      CursorKnown(l, cursor, limit, i + 1);
      ReturnFound(l, cursor, limit, i + 1, j + 1);
    }
  }

  lemma {:induction false} ReturnFound(l: Log, cursor: seq<Hash>, limit: nat, i: nat, j: nat)
    requires limit > 0 && i < j && CursorAfter(l, cursor, limit, i) == CursorAfter(l, cursor, limit, j)
    requires !Returns(l, cursor, limit)
    ensures Fits(l, CursorAfter(l, cursor, limit, i), limit)
  {
    hide CursorAfter, Fits;
    assert !LeavesAndMeets(l, cursor, limit, i, j);
  }

  // -- Runs of fetches -------------------------------------------------------------------------------------------------

  ghost predicate FetchRun(l: Log, limit: nat, cursors: seq<seq<Hash>>, results: seq<Fetched>) {
    && |cursors| == |results| + 1
    && forall i :: 0 <= i < |results| ==>
         MayFetch(l, cursors[i], limit, results[i]) && cursors[i + 1] == (if results[i].Batch? then results[i].cursor else cursors[i])
  }

  /** Until the rest fits, a run follows the cursor. */
  lemma {:induction false} RunFollows(l: Log, limit: nat, cursors: seq<seq<Hash>>, results: seq<Fetched>, n: nat)
    requires Sound(l) && limit > 0 && FetchRun(l, limit, cursors, results) && ToSet(cursors[0]) <= l.Keys && n <= |results|
    requires forall k: nat :: k < n ==> !Fits(l, CursorAfter(l, cursors[0], limit, k), limit)
    ensures cursors[n] == CursorAfter(l, cursors[0], limit, n)
    ensures forall k :: 0 <= k < n ==> results[k].Batch?
  {
    hide CausalOrder, Sound, FirstMissing;
    if n > 0 {
      RunFollows(l, limit, cursors, results, n - 1);
      CursorKnown(l, cursors[0], limit, n - 1);
      KnownCursor(l, cursors[n - 1]);
      assert MayFetch(l, cursors[n - 1], limit, results[n - 1]) && cursors[n - 1 + 1] == cursors[n];
    }
  }

  lemma {:induction false} KnownCursor(l: Log, cursor: seq<Hash>)
    requires ToSet(cursor) <= l.Keys
    ensures FirstMissing(l, cursor) == None
  {
    FirstMissingNone(l, cursor);
    assert forall h :: h in cursor ==> h in ToSet(cursor);
  }

  /** Past the heads there is nothing. */
  lemma {:induction false} NothingPastHeads(l: Log, cursor: seq<Hash>)
    requires Sound(l) && ToSet(cursor) == HeadsOf(l)
    ensures Pending(l, cursor) == []
  {
    hide CausalOrder, HeadsOf;
    HeadsCover(l);
    assert Past(l, cursor) == {};
    DeltaWhole(l, cursor);
    NothingListed(Pending(l, cursor));
  }

  /** What the first `n` fetches delivered. */
  ghost function Delivered(results: seq<Fetched>, n: nat): set<Hash>
    requires n <= |results|
  {
    if n == 0 then {} else Delivered(results, n - 1) + (if results[n - 1].Batch? then ToSet(results[n - 1].hashes) else {})
  }

  /** A run of fetches keeps the account of what was delivered. */
  lemma {:induction false} RunAccounts(l: Log, limit: nat, cursors: seq<seq<Hash>>, results: seq<Fetched>, n: nat)
    requires Sound(l) && FetchRun(l, limit, cursors, results) && n <= |results|
    ensures CursorInv(l, cursors[0], cursors[n], Delivered(results, n))
    ensures n < |results| && results[n].Nothing? ==> AllAccounted(l, cursors[0], Delivered(results, n))
  {
    hide Sound, MayFetch, CursorInv, AllAccounted;
    if n == 0 {
      CursorStarts(l, cursors[0]);
    } else {
      RunAccounts(l, limit, cursors, results, n - 1);
      assert MayFetch(l, cursors[n - 1], limit, results[n - 1]) && cursors[n - 1 + 1] == cursors[n];
      FetchKeepsCursor(l, cursors[0], cursors[n - 1], Delivered(results, n - 1), limit, results[n - 1]);
      assert Delivered(results, n - 1) + {} == Delivered(results, n - 1);
    }
    if n < |results| { FetchKeepsCursor(l, cursors[0], cursors[n], Delivered(results, n), limit, results[n]); }
  }

  /**
   * Over a log that stands still, a run of more than |l| + 1 fetches comes to an empty delta exactly
   * when no truncated fetch returns to a cursor already left; and by then the whole log is accounted for.
   */
  lemma {:induction false} DrainsIff(l: Log, limit: nat, cursors: seq<seq<Hash>>, results: seq<Fetched>)
    requires Sound(l) && limit > 0 && FetchRun(l, limit, cursors, results) && ToSet(cursors[0]) <= l.Keys && |results| > |l| + 1
    ensures (exists k :: 0 <= k < |results| && results[k].Nothing?) <==> !Returns(l, cursors[0], limit)
    ensures forall k :: 0 <= k < |results| && results[k].Nothing? ==> AllAccounted(l, cursors[0], Delivered(results, k))
  {
    hide Fits, CursorAfter, Sound, MayFetch, LeavesAndMeets, AllAccounted, Delivered;
    forall k | 0 <= k < |results| && results[k].Nothing? ensures AllAccounted(l, cursors[0], Delivered(results, k)) {
      RunAccounts(l, limit, cursors, results, k);
    }
    if Returns(l, cursors[0], limit) {
      var i: nat, j: nat :| i < j && LeavesAndMeets(l, cursors[0], limit, i, j);
      forall n: nat ensures !Fits(l, CursorAfter(l, cursors[0], limit, n), limit) { ReturnIsForever(l, cursors[0], limit, i, j, n); }
      RunFollows(l, limit, cursors, results, |results|);
    } else {
      NoReturnFits(l, cursors[0], limit);
      var n: nat :| n <= |l| && Fits(l, CursorAfter(l, cursors[0], limit, n), limit);
      var m := FirstFit(l, cursors[0], limit, n);
      RunFollows(l, limit, cursors, results, m);
      LastFetches(l, limit, cursors, results, m);
    }
  }

  lemma {:induction false} FirstFit(l: Log, cursor: seq<Hash>, limit: nat, n: nat) returns (m: nat)
    requires limit > 0 && Fits(l, CursorAfter(l, cursor, limit, n), limit)
    ensures m <= n && Fits(l, CursorAfter(l, cursor, limit, m), limit)
    ensures forall k: nat :: k < m ==> !Fits(l, CursorAfter(l, cursor, limit, k), limit)
  {
    hide CursorAfter, Fits;
    m := n;
    if k: nat :| k < n && Fits(l, CursorAfter(l, cursor, limit, k), limit) { m := FirstFit(l, cursor, limit, k); }
  }

  /** Where the rest fits, this fetch or the next finds nothing. */
  lemma {:induction false} LastFetches(l: Log, limit: nat, cursors: seq<seq<Hash>>, results: seq<Fetched>, m: nat)
    requires Sound(l) && limit > 0 && FetchRun(l, limit, cursors, results) && ToSet(cursors[0]) <= l.Keys && m + 1 < |results|
    requires cursors[m] == CursorAfter(l, cursors[0], limit, m) && Fits(l, cursors[m], limit)
    ensures results[m].Nothing? || results[m + 1].Nothing?
  {
    hide CausalOrder, Sound, HeadsOf, Past;
    CursorKnown(l, cursors[0], limit, m);
    KnownCursor(l, cursors[m]);
    assert MayFetch(l, cursors[m], limit, results[m]) && MayFetch(l, cursors[m + 1], limit, results[m + 1]);
    if results[m].Batch? {
      NothingPastHeads(l, results[m].cursor);
      HeadsKnown(l);
      KnownCursor(l, results[m].cursor);
    }
  }

  // -- A shape that drains ---------------------------------------------------------------------------------------------

  ghost predicate Comparable(l: Log, x: Hash, y: Hash) { Below(l, x, y) || Below(l, y, x) }

  /** Every entry past the cursor is causally before or after every entry of the log. */
  ghost predicate Linear(l: Log, cursor: seq<Hash>) {
    forall x, y :: x in l && y in Past(l, cursor) ==> Comparable(l, x, y)
  }

  /** A truncated fetch then moves past exactly what it delivered. */
  lemma {:induction false} LinearMove(l: Log, cursor: seq<Hash>, limit: nat)
    requires Sound(l) && limit > 0 && Linear(l, cursor) && !Fits(l, cursor, limit)
    ensures var r := Pending(l, cursor);
      Past(l, [r[limit - 1]]) == Past(l, cursor) - ToSet(r[..limit]) && r[limit - 1] in Past(l, cursor)
  {
    hide CausalOrder, Sound, Comparable, Past;
    var r := Pending(l, cursor);
    var last := r[limit - 1];
    DeltaWhole(l, cursor);
    assert last in ToSet(r);
    PastOne(l, last);
    PastInside(l, cursor);
    forall x | x in l ensures x in Past(l, [last]) <==> x in Past(l, cursor) && x !in ToSet(r[..limit]) {
      LinearSide(l, cursor, limit, x);
    }
    PastInside(l, [last]);
  }

  lemma {:induction false} PastInside(l: Log, cursor: seq<Hash>)
    ensures Past(l, cursor) <= l.Keys
  {
  }

  lemma {:induction false} PastOne(l: Log, h: Hash)
    ensures forall x :: x in Past(l, [h]) <==> x in l && !Below(l, x, h)
  {
    assert ToSet([h]) == {h};
    forall x ensures x in Past(l, [h]) <==> x in l && !Below(l, x, h) { assert h in {h}; }
  }

  /** Below the last delivered entry lies exactly what was delivered or already known. */
  lemma {:induction false} LinearSide(l: Log, cursor: seq<Hash>, limit: nat, x: Hash)
    requires Sound(l) && limit > 0 && Linear(l, cursor) && !Fits(l, cursor, limit) && x in l
    ensures var r := Pending(l, cursor);
      !Below(l, x, r[limit - 1]) <==> x in Past(l, cursor) && x !in ToSet(r[..limit])
  {
    hide CausalOrder, Sound, Past, WellFormed;
    var r := Pending(l, cursor);
    var last := r[limit - 1];
    DeltaWhole(l, cursor);
    assert last in ToSet(r);
    assert Comparable(l, x, last);
    if x !in Past(l, cursor) {
      KnownBelow(l, cursor, x, last);
    } else {
      assert x in ToSet(r);
      var k :| 0 <= k < |r| && r[k] == x;
      if Below(l, x, last) {
        BelowEmitted(l, cursor, limit - 1, x);
        assert r[..limit - 1 + 1] == r[..limit];
      }
      if k < limit {
        assert r[..limit][k] == x;
        if Below(l, last, x) {
          BelowEmitted(l, cursor, k, last);
          EmittedPlace(r, k, limit - 1);
        }
      } else {
        LaterPlace(r, k, limit);
      }
    }
  }

  lemma {:induction false} EmittedPlace(r: seq<Hash>, k: nat, m: nat)
    requires NoDup(r) && k <= m < |r| && r[m] in r[..k + 1]
    ensures k == m
  {
    var i :| 0 <= i < k + 1 && r[..k + 1][i] == r[m];
  }

  lemma {:induction false} LaterPlace(r: seq<Hash>, k: nat, limit: nat)
    requires NoDup(r) && limit <= k < |r|
    ensures r[k] !in ToSet(r[..limit])
  {
    forall i | 0 <= i < limit ensures r[..limit][i] != r[k] {}
  }

  lemma {:induction false} KnownBelow(l: Log, cursor: seq<Hash>, x: Hash, y: Hash)
    requires Sound(l) && x in l && x !in Past(l, cursor) && y in Past(l, cursor) && Comparable(l, x, y)
    ensures Below(l, x, y)
  {
    hide Founded;
    var known := AncestorsOf(l, ToSet(cursor));
    AncestorsClosed(l, ToSet(cursor));
    if Below(l, y, x) { ClosedKeepsBelow(l, known, y, x); }
  }

  lemma {:induction false} LinearShrinks(l: Log, cursor: seq<Hash>, limit: nat, i: nat, j: nat)
    requires Sound(l) && limit > 0 && Linear(l, cursor) && i <= j
    ensures var a, b := CursorAfter(l, cursor, limit, i), CursorAfter(l, cursor, limit, j);
      && Linear(l, b) && Past(l, b) <= Past(l, a) && (i < j && !Fits(l, a, limit) ==> Past(l, b) < Past(l, a))
    decreases j
  {
    hide Pending, Fits, Sound, Comparable, Past;
    if j > 0 {
      var c := CursorAfter(l, cursor, limit, j - 1);
      LinearShrinks(l, cursor, limit, if i < j then i else j - 1, j - 1);
      if !Fits(l, c, limit) {
        LinearMove(l, c, limit);
        StepInside(l, c, limit);
      }
    }
  }

  lemma {:induction false} StepInside(l: Log, c: seq<Hash>, limit: nat)
    requires Sound(l) && limit > 0 && !Fits(l, c, limit)
    ensures var r := Pending(l, c); r[limit - 1] in ToSet(r[..limit])
  {
    var r := Pending(l, c);
    assert r[..limit][limit - 1] == r[limit - 1];
  }

  /** Over such a log no cursor returns, so every run drains it. */
  lemma {:induction false} LinearDrains(l: Log, cursor: seq<Hash>, limit: nat)
    requires Sound(l) && limit > 0 && Linear(l, cursor)
    ensures !Returns(l, cursor, limit)
  {
    hide Fits, CursorAfter, Sound, Linear, Past;
    forall i: nat, j: nat | i < j ensures !LeavesAndMeets(l, cursor, limit, i, j) { LinearShrinks(l, cursor, limit, i, j); }
  }

  /** Chains are of that shape, from any cursor. */
  lemma {:induction false} ChainIsLinear(l: Log, line: seq<Hash>, cursor: seq<Hash>)
    requires IsChain(l, line)
    ensures Sound(l) && Linear(l, cursor)
  {
    hide CausalOrder;
    ChainWellFormed(l, line);
    forall x, y | x in l && y in l ensures Comparable(l, x, y) {
      assert x in ToSet(line) && y in ToSet(line);
      var i :| 0 <= i < |line| && line[i] == x;
      var j :| 0 <= j < |line| && line[j] == y;
      if i <= j { ChainBelow(l, line, i, j); } else { ChainBelow(l, line, j, i); }
    }
  }

  lemma {:induction false} ChainBelow(l: Log, line: seq<Hash>, i: nat, j: nat)
    requires IsChain(l, line) && i <= j < |line|
    ensures Below(l, line[i], line[j])
    decreases j - i
  {
    hide IsChain, Below;
    if i == j {
      BelowSelf(l, line[j]);
    } else {
      ChainBelow(l, line, i + 1, j);
      ChainParent(l, line, i + 1);
      BelowStep(l, line[i], line[i + 1], line[j]);
    }
  }

  lemma {:induction false} BelowSelf(l: Log, h: Hash)
    ensures Below(l, h, h)
  {
    ReachesSelf(ParentMap(l), h);
  }

  lemma {:induction false} BelowStep(l: Log, a: Hash, b: Hash, h: Hash)
    requires Below(l, b, h) && b in l && a in l[b].next
    ensures Below(l, a, h)
  {
    ReachesStep(ParentMap(l), h, b, a);
  }
}
