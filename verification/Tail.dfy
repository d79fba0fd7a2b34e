/** Tail subscriptions: a cursor into the log, fetched past in batches, and the bell that wakes consumers. */
module Tail {
  import opened Base
  import opened Entries
  import opened Paths
  import opened Dag
  import opened Topo
  import opened OpLogs

  datatype Fetched =
    | Stale(missing: Hash)
    | Crash
    | Nothing
    | Batch(hashes: seq<Hash>, cursor: seq<Hash>)

  /**
   * The outcomes a fetch allows: an unknown cursor hash is an error; a truncated batch leaves the
   * cursor at its last entry alone; a full one leaves it at the heads. A zero limit indexes out of bounds.
   */
  ghost predicate MayFetch(l: Log, cursor: seq<Hash>, limit: nat, r: Fetched) {
    match FirstMissing(l, cursor)
    case Some(h) => r == Stale(h)
    case None =>
      var order := CausalOrder(l, Past(l, cursor));
      if order == [] then r == Nothing
      else if |order| > limit then r == (if limit == 0 then Crash else Batch(order[..limit], [order[limit - 1]]))
      else r.Batch? && r.hashes == order && ToSet(r.cursor) == HeadsOf(l)
  }

  class NotifyBell {
    var counter: u64
    var closed: bool

    constructor ()
      ensures counter == 0 && !closed
    {
      counter, closed := 0, false;
    }

    method Notify()
      modifies this`counter
      ensures counter == (old(counter) + 1) % TWO_64
    {
      counter := if counter == TWO_64 - 1 then 0 else counter + 1;
    }

    method Close()
      modifies this`closed
      ensures closed
    {
      closed := true;
    }
  }

  class TailSubscription {
    const store: OpLog
    const bell: NotifyBell
    var cursor: seq<Hash>
    var closed: bool

    constructor (store: OpLog, cursor: seq<Hash>, bell: NotifyBell)
      ensures this.store == store && this.bell == bell && this.cursor == cursor && !closed
    {
      this.store, this.bell, this.cursor, closed := store, bell, cursor, false;
    }

    /** One attempt; the cursor moves exactly when a batch is returned. */
    method TryFetch(limit: nat) returns (r: Fetched)
      requires store.Valid()
      modifies this`cursor
      ensures MayFetch(store.entries, old(cursor), limit, r)
      ensures cursor == if r.Batch? then r.cursor else old(cursor)
    {
      var answer := store.EntriesSinceHeads(cursor);
      match answer {
        case Err(e) =>
          FirstMissingNone(store.entries, cursor);
          return Stale(FirstMissing(store.entries, cursor).value);
        case Ok(order) =>
          if order == [] { return Nothing; }
          var truncated := |order| > limit;
          if truncated && limit == 0 { return Crash; }
          var next;
          if truncated { next := [order[limit - 1]]; } else { next := Elements(store.heads); }
          r := Batch(if truncated then order[..limit] else order, next);
          cursor := next;
      }
    }

    /** Closing marks the subscription, then rings the shared bell. */
    method Close()
      modifies this`closed, bell`counter
      ensures closed && bell.counter == (old(bell.counter) + 1) % TWO_64
    {
      closed := true;
      bell.Notify();
    }
  }

  // -- What the cursor accounts for ------------------------------------------------------------------------------

  /** Delivered, or at or below where the subscription began. */
  ghost predicate Accounted(l: Log, start: seq<Hash>, got: set<Hash>, h: Hash) {
    h in got || h in AncestorsOf(l, ToSet(start))
  }

  /** Everything at or below the cursor is accounted for; the cursor is known, unless it never moved. */
  ghost predicate CursorInv(l: Log, start: seq<Hash>, cursor: seq<Hash>, got: set<Hash>) {
    && (cursor == start || ToSet(cursor) <= l.Keys)
    && forall h :: h in AncestorsOf(l, ToSet(cursor)) ==> Accounted(l, start, got, h)
  }

  ghost predicate AllAccounted(l: Log, start: seq<Hash>, got: set<Hash>) {
    forall h :: h in l ==> Accounted(l, start, got, h)
  }

  ghost predicate Sound(l: Log) { WellFormed(l) && DistinctParents(l) }

  lemma {:induction false} CursorStarts(l: Log, start: seq<Hash>)
    ensures CursorInv(l, start, start, {})
  {
  }

  /** Growth of the log neither moves nor loosens what the cursor accounts for. */
  lemma {:induction false} CursorSurvivesGrowth(l: Log, l': Log, start: seq<Hash>, cursor: seq<Hash>, got: set<Hash>)
    requires Complete(l) && Sublog(l, l') && CursorInv(l, start, cursor, got)
    ensures CursorInv(l', start, cursor, got)
  {
    if cursor != start {
      forall h | h in AncestorsOf(l', ToSet(cursor)) ensures Accounted(l', start, got, h) {
        var s :| s in ToSet(cursor) && Below(l', h, s);
        BelowInSublog(l, l', h, s);
        assert h in AncestorsOf(l, ToSet(cursor));
        AccountedGrows(l, l', start, got, h);
      }
    }
  }

  lemma {:induction false} AccountedGrows(l: Log, l': Log, start: seq<Hash>, got: set<Hash>, h: Hash)
    requires Complete(l) && Sublog(l, l') && Accounted(l, start, got, h) && h in l
    ensures Accounted(l', start, got, h)
  {
    if h !in got {
      var s :| s in ToSet(start) && Below(l, h, s);
      if s in l {
        BelowInSublog(l, l', h, s);
      } else {
        StuckOutside(l, h, s);
        ReachesSelf(ParentMap(l'), h);
      }
      assert Below(l', h, s);
    }
  }

  /** From a hash outside the log nothing else is reached. */
  lemma {:induction false} StuckOutside(l: Log, h: Hash, s: Hash)
    requires s !in l && Below(l, h, s)
    ensures h == s
  {
    var p :| Joins(ParentMap(l), s, h, p);
    assert |p| == 1 || p[0 + 1] in Succ(ParentMap(l), p[0]);
  }

  /** Of a delta, whatever lies at or below an emitted entry was emitted no later. */
  lemma {:induction false} BelowEmitted(l: Log, cursor: seq<Hash>, k: nat, a: Hash)
    requires Sound(l)
    requires k < |CausalOrder(l, Past(l, cursor))| && a in Past(l, cursor)
    requires Below(l, a, CausalOrder(l, Past(l, cursor))[k])
    ensures a in CausalOrder(l, Past(l, cursor))[..k + 1]
  {
    hide CausalOrder, WellFormed, DistinctParents;
    var known := AncestorsOf(l, ToSet(cursor));
    var order := CausalOrder(l, Past(l, cursor));
    WellFormedParts(l);
    AncestorsClosed(l, ToSet(cursor));
    CausalOrderCorrect(l, Past(l, cursor));
    var b := order[k];
    assert b in ToSet(order);
    if a == b {
      assert order[..k + 1][k] == a;
    } else {
      DeltaOrder(l, known, a, b);
      var i, j :| 0 <= i < j < |order| && order[i] == a && order[j] == b;
      assert j == k;
      assert order[..k + 1][i] == a;
    }
  }

  /** A fetch keeps the account; when it yields nothing, or a batch within the limit, the whole log is accounted for. */
  lemma {:induction false} FetchKeepsCursor(l: Log, start: seq<Hash>, cursor: seq<Hash>, got: set<Hash>, limit: nat, r: Fetched)
    requires Sound(l) && CursorInv(l, start, cursor, got) && MayFetch(l, cursor, limit, r)
    ensures r.Batch? ==> CursorInv(l, start, r.cursor, got + ToSet(r.hashes)) && r.hashes != []
    ensures r.Batch? ==> NoDup(r.hashes) && ToSet(r.hashes) !! AncestorsOf(l, ToSet(cursor)) && ToSet(r.hashes) <= l.Keys
    ensures r.Nothing? ==> AllAccounted(l, start, got)
    ensures r.Batch? && |CausalOrder(l, Past(l, cursor))| <= limit ==> AllAccounted(l, start, got + ToSet(r.hashes))
  {
    hide CausalOrder, WellFormed, FirstMissing;
    var order := CausalOrder(l, Past(l, cursor));
    DeltaWhole(l, cursor);
    if r.Nothing? {
      forall h | h in l ensures Accounted(l, start, got, h) {
        assert order == [];
        assert h !in ToSet(order);
      }
    } else if r.Batch? {
      var got' := got + ToSet(r.hashes);
      PrefixDistinct(order, r.hashes);
      if |order| > limit {
        TruncatedCursor(l, start, cursor, got, limit);
      } else {
        forall h | h in l ensures Accounted(l, start, got', h) {
          if h !in ToSet(order) { assert h in AncestorsOf(l, ToSet(cursor)); }
        }
      }
    }
  }

  lemma {:induction false} PrefixDistinct(order: seq<Hash>, hs: seq<Hash>)
    requires NoDup(order) && hs <= order
    ensures NoDup(hs) && ToSet(hs) <= ToSet(order)
  {
    forall i | 0 <= i < |hs| ensures hs[i] in ToSet(order) { assert order[i] == hs[i]; }
  }

  lemma {:induction false} DeltaWhole(l: Log, cursor: seq<Hash>)
    requires Sound(l)
    ensures var order := CausalOrder(l, Past(l, cursor)); NoDup(order) && ToSet(order) == Past(l, cursor)
  {
    hide CausalOrder;
    CausalOrderCorrect(l, Past(l, cursor));
    forall c | c in Past(l, cursor) ensures DistinctIn(l, Past(l, cursor), c) { assert NoDup(l[c].next); }
  }

  lemma {:induction false} TruncatedCursor(l: Log, start: seq<Hash>, cursor: seq<Hash>, got: set<Hash>, limit: nat)
    requires Sound(l) && CursorInv(l, start, cursor, got)
    requires 0 < limit < |CausalOrder(l, Past(l, cursor))|
    ensures var order := CausalOrder(l, Past(l, cursor));
      CursorInv(l, start, [order[limit - 1]], got + ToSet(order[..limit]))
  {
    hide CausalOrder, WellFormed, DistinctParents;
    var order := CausalOrder(l, Past(l, cursor));
    var last, got' := order[limit - 1], got + ToSet(order[..limit]);
    DeltaWhole(l, cursor);
    assert last in ToSet(order);
    assert ToSet([last]) == {last};
    forall h | h in AncestorsOf(l, {last}) ensures Accounted(l, start, got', h) {
      if h in Past(l, cursor) {
        BelowEmitted(l, cursor, limit - 1, h);
        assert h in order[..limit];
      } else {
        assert h in AncestorsOf(l, ToSet(cursor));
      }
    }
  }
}
