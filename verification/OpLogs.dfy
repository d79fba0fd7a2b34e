/** The in-memory operation log: entries, heads and the reverse children index, updated in place. */
module OpLogs {
  import opened Base
  import opened Clocks
  import opened Entries
  import opened Paths
  import opened Dag
  import opened Topo

  datatype LogError = InvalidHash | MissingParent(parent: Hash)

  function FirstMissing(l: Log, next: seq<Hash>): Option<Hash> {
    if next == [] then None else if next[0] !in l then Some(next[0]) else FirstMissing(l, next[1..])
  }

  lemma {:induction false} FirstMissingNone(l: Log, next: seq<Hash>)
    ensures FirstMissing(l, next) == None <==> forall p :: p in next ==> p in l
  {
    if next != [] {
      FirstMissingNone(l, next[1..]);
      assert next == [next[0]] + next[1..];
    }
  }

  method FindMissing(l: Log, next: seq<Hash>) returns (r: Option<Hash>)
    ensures r == FirstMissing(l, next)
  {
    for i := 0 to |next|
      invariant FirstMissing(l, next) == FirstMissing(l, next[i..])
    {
      if next[i] !in l { return Some(next[i]); }
    }
    r := None;
  }

  /** The verdict on appending `e`. */
  function AppendVerdict(d: Digest, l: Log, e: Entry): Result<bool, LogError> {
    if !VerifyHash(d, e) then Err(InvalidHash)
    else if e.hash in l then Ok(false)
    else if IsRootCheckpoint(e) && l != map[] then Ok(true)
    else match FirstMissing(l, e.next)
      case Some(p) => Err(MissingParent(p))
      case None => Ok(true)
  }

  /** The log after appending `e`: unchanged unless the verdict is a fresh insertion. */
  function AppendTo(d: Digest, l: Log, e: Entry): Log {
    if AppendVerdict(d, l, e) != Ok(true) then l
    else if IsRootCheckpoint(e) && l != map[] then map[e.hash := e]
    else l[e.hash := e]
  }

  /** `p` is the first of these that the log lacks. */
  ghost predicate FirstLacked(l: Log, next: seq<Hash>, p: Hash) {
    exists i :: 0 <= i < |next| && next[i] == p && p !in l && forall j :: 0 <= j < i ==> next[j] in l
  }

  lemma {:induction false} FirstMissingIs(l: Log, next: seq<Hash>, p: Hash)
    ensures FirstMissing(l, next) == Some(p) <==> FirstLacked(l, next, p)
  {
    if next != [] {
      var rest := next[1..];
      FirstMissingIs(l, rest, p);
      if next[0] in l && FirstLacked(l, rest, p) {
        var i :| 0 <= i < |rest| && rest[i] == p && p !in l && forall j :: 0 <= j < i ==> rest[j] in l;
        forall j | 0 <= j < i + 1 ensures next[j] in l { if j > 0 { assert next[j] == rest[j - 1]; } }
        assert next[i + 1] == p;
      }
      if FirstLacked(l, next, p) && next[0] in l {
        var i :| 0 <= i < |next| && next[i] == p && p !in l && forall j :: 0 <= j < i ==> next[j] in l;
        assert rest[i - 1] == p && forall j :: 0 <= j < i - 1 ==> rest[j] == next[j + 1];
      }
      if next[0] !in l && next[0] == p { assert FirstLacked(l, next, p); }
      if FirstLacked(l, next, p) && next[0] !in l {
        var i :| 0 <= i < |next| && next[i] == p && p !in l && forall j :: 0 <= j < i ==> next[j] in l;
        assert i == 0;
      }
    }
  }

  /** A checkpoint without predecessors, onto a log that holds something. */
  predicate Replaces(l: Log, e: Entry) { e.next == [] && e.payload.Checkpoint? && |l| > 0 }

  /**
   * The ends of an append, in the order they are tried: the content does not hash to the entry's hash; the hash is
   * held already; the entry replaces the log; a predecessor is lacking, and the first such is named; it joins the log.
   */
  lemma {:induction false} AppendEnds(d: Digest, l: Log, e: Entry)
    ensures var v, l' := AppendVerdict(d, l, e), AppendTo(d, l, e);
      var content := Content(e.payload, e.next, e.clock, e.author);
      if d(content) != e.hash then v == Err(InvalidHash) && l' == l
      else if e.hash in l then v == Ok(false) && l' == l
      else if Replaces(l, e) then v == Ok(true) && l' == map[e.hash := e]
      else if exists p :: p in e.next && p !in l then (exists p :: v == Err(MissingParent(p)) && FirstLacked(l, e.next, p)) && l' == l
      else v == Ok(true) && l'.Keys == l.Keys + {e.hash} && l'[e.hash] == e && forall h :: h in l ==> l'[h] == l[h]
  {
    hide FirstMissing;
    FirstMissingNone(l, e.next);
    assert |l| > 0 <==> l != map[];
    match FirstMissing(l, e.next) {
      case None =>
      case Some(p) =>
        FirstMissingIs(l, e.next, p);
        assert p in e.next;
    }
  }

  /** Appending keeps a log well-formed, whatever is appended. */
  lemma {:induction false} AppendToWellFormed(d: Digest, l: Log, e: Entry)
    requires WellFormed(l)
    ensures WellFormed(AppendTo(d, l, e))
    ensures !IsRootCheckpoint(e) ==> Sublog(l, AppendTo(d, l, e))
  {
    FirstMissingNone(l, e.next);
    if AppendVerdict(d, l, e) == Ok(true) {
      if IsRootCheckpoint(e) && l != map[] { RootWellFormed(e); } else { AppendWellFormed(l, e); }
    }
  }

  /** The reverse index is exact: it lists the successors of every entry that has one, and nothing else. */
  ghost predicate Indexes(children: map<Hash, set<Hash>>, l: Log) {
    && (forall h :: Succ(children, h) == ChildrenOf(l, h))
    && (forall h :: h in children ==> children[h] != {})
  }

  /** `c` registered under each of `next`. */
  function Linked(children: map<Hash, set<Hash>>, next: seq<Hash>, c: Hash): map<Hash, set<Hash>> {
    if next == [] then children
    else
      var p, before := next[|next| - 1], Linked(children, next[..|next| - 1], c);
      before[p := Succ(before, p) + {c}]
  }

  lemma {:induction false} LinkedSucc(children: map<Hash, set<Hash>>, next: seq<Hash>, c: Hash)
    ensures forall h :: Succ(Linked(children, next, c), h) == Succ(children, h) + (if h in next then {c} else {})
    ensures forall h :: h in Linked(children, next, c) <==> h in children || h in next
  {
    if next != [] {
      LinkedSucc(children, next[..|next| - 1], c);
      assert next == next[..|next| - 1] + [next[|next| - 1]];
    }
  }

  lemma {:induction false} LinkedNone(children: map<Hash, set<Hash>>, c: Hash)
    ensures Linked(children, [], c) == children
  {
  }

  lemma {:induction false} LinkedSnoc(children: map<Hash, set<Hash>>, next: seq<Hash>, p: Hash, c: Hash)
    ensures var before := Linked(children, next, c); Linked(children, next + [p], c) == before[p := Succ(before, p) + {c}]
  {
    assert (next + [p])[..|next|] == next;
  }

  lemma {:induction false} LinkedIndex(l: Log, children: map<Hash, set<Hash>>, e: Entry)
    requires WellFormed(l) && Attachable(l, e) && Indexes(children, l)
    ensures Indexes(Linked(children, e.next, e.hash), l[e.hash := e])
  {
    AppendIndexes(l, e);
    LinkedSucc(children, e.next, e.hash);
    var linked := Linked(children, e.next, e.hash);
    forall h | h in linked ensures linked[h] != {} {
      assert Succ(linked, h) == Succ(children, h) + (if h in e.next then {e.hash} else {});
    }
  }

  /** `h` is at or below one of the starts. */
  ghost predicate BelowSome(l: Log, starts: seq<Hash>, h: Hash) { exists s :: s in starts && Below(l, h, s) }

  class OpLog {
    const digest: Digest
    var entries: Log
    var heads: set<Hash>
    var children: map<Hash, set<Hash>>
    var len: nat

    ghost predicate Valid()
      reads this
    {
      && WellFormed(entries)
      && heads == HeadsOf(entries)
      && Indexes(children, entries)
      && len == |entries|
    }

    constructor (digest: Digest, genesis: Entry)
      requires genesis.next == []
      ensures Valid() && this.digest == digest && entries == map[genesis.hash := genesis]
    {
      this.digest := digest;
      entries := map[genesis.hash := genesis];
      heads := {genesis.hash};
      children := map[];
      len := 1;
      RootWellFormed(genesis);
    }

    method Append(e: Entry) returns (r: Result<bool, LogError>)
      requires Valid()
      modifies this
      ensures Valid()
      ensures r == AppendVerdict(digest, old(entries), e)
      ensures entries == AppendTo(digest, old(entries), e)
    {
      if !VerifyHash(digest, e) { return Err(InvalidHash); }
      if e.hash in entries { return Ok(false); }
      if e.next == [] && entries != map[] && e.payload.Checkpoint? {
        ReplaceWithCheckpoint(e);
        return Ok(true);
      }
      var missing := FindMissing(entries, e.next);
      if missing.Some? { return Err(MissingParent(missing.value)); }
      FirstMissingNone(entries, e.next);
      Attach(e);
      return Ok(true);
    }

    /** The index updates of a successful append. */
    method Attach(e: Entry)
      requires Valid() && Attachable(entries, e)
      modifies this
      ensures Valid() && entries == old(entries)[e.hash := e]
    {
      hide WellFormed, HeadsOf, Indexes, Linked;
      AppendWellFormed(entries, e);
      AppendIndexes(entries, e);
      LinkedIndex(entries, children, e);
      Link(e.next, e.hash);
      heads := heads + {e.hash};
      entries := entries[e.hash := e];
      len := len + 1;
    }

    /** Each predecessor stops being a head and gains a child. */
    method Link(next: seq<Hash>, c: Hash)
      modifies this`heads, this`children
      ensures heads == old(heads) - ToSet(next)
      ensures children == Linked(old(children), next, c)
    {
      hide Linked;
      LinkedNone(children, c);
      for i := 0 to |next|
        invariant heads == old(heads) - ToSet(next[..i])
        invariant children == Linked(old(children), next[..i], c)
      {
        assert next[..i + 1] == next[..i] + [next[i]];
        LinkedSnoc(old(children), next[..i], next[i], c);
        ToSetSnoc(next[..i], next[i]);
        heads := heads - {next[i]};
        children := children[next[i] := Succ(children, next[i]) + {c}];
      }
      assert next[..|next|] == next;
    }

    method ReplaceWithCheckpoint(checkpoint: Entry)
      requires checkpoint.next == []
      modifies this
      ensures Valid() && entries == map[checkpoint.hash := checkpoint]
    {
      entries := map[checkpoint.hash := checkpoint];
      heads := {checkpoint.hash};
      children := map[];
      len := 1;
      RootWellFormed(checkpoint);
    }

    method ReachableFrom(starts: seq<Hash>) returns (visited: set<Hash>)
      requires Valid()
      ensures visited == Reach(entries, starts)
    {
      visited := Walk(entries, starts);
    }

    method TopoSort(hashes: set<Hash>) returns (order: seq<Hash>)
      requires Valid() && hashes <= entries.Keys
      ensures order == CausalOrder(entries, hashes)
    {
      order := Kahn(entries, children, hashes);
    }

    /** Everything not at or below `known`, in causal order; everything when nothing is known. */
    method EntriesSince(known: Option<Hash>) returns (order: seq<Hash>)
      requires Valid()
      ensures order == CausalOrder(entries, Past(entries, if known.None? then [] else [known.value]))
    {
      var delta := Delta(entries, heads, if known.None? then [] else [known.value]);
      order := TopoSort(delta);
    }

    /** The cursor form: an unknown hash in the cursor is an error, otherwise the delta past it. */
    method EntriesSinceHeads(cursor: seq<Hash>) returns (r: Result<seq<Hash>, LogError>)
      requires Valid()
      ensures FirstMissing(entries, cursor).Some? ==> r == Err(MissingParent(FirstMissing(entries, cursor).value))
      ensures FirstMissing(entries, cursor).None? ==> r == Ok(CausalOrder(entries, Past(entries, cursor)))
    {
      var missing := FindMissing(entries, cursor);
      if missing.Some? { return Err(MissingParent(missing.value)); }
      var delta := Delta(entries, heads, cursor);
      var order := TopoSort(delta);
      r := Ok(order);
    }

    method EntriesAsOf(physical: u64, logical: u32) returns (order: seq<Hash>)
      requires Valid()
      ensures order == CausalOrder(entries, UpTo(entries, Clock("", physical, logical)))
    {
      order := TopoSort(UpTo(entries, Clock("", physical, logical)));
    }
  }

  /** Breadth-first walk along causal links. */
  method Walk(l: Log, starts: seq<Hash>) returns (visited: set<Hash>)
    ensures visited == Reach(l, starts)
  {
    ghost var all := Reach(l, starts);
    visited := {};
    var queue := starts;
    while queue != []
      invariant visited <= all && ToSet(queue) <= all
      invariant ToSet(starts) <= visited + ToSet(queue)
      invariant forall h :: h in visited && h in l ==> ToSet(l[h].next) <= visited + ToSet(queue)
      decreases all - visited, |queue|
    {
      var h := queue[0];
      assert ToSet(queue) == {h} + ToSet(queue[1..]) by { assert queue == [h] + queue[1..]; }
      queue := queue[1..];
      if h !in visited {
        visited := visited + {h};
        if h in l {
          var more := Unseen(l[h].next, visited);
          assert ToSet(more) == ToSet(l[h].next) - visited;
          assert ToSet(queue + more) == ToSet(queue) + ToSet(more);
          queue := queue + more;
        }
      }
    }
    WalkComplete(l, starts, visited);
  }

  /** Everything at or below the starts, as a finite set. */
  ghost function Reach(l: Log, starts: seq<Hash>): (r: set<Hash>)
    ensures forall h :: h in r <==> BelowSome(l, starts, h)
    ensures ToSet(starts) <= r
    ensures forall h :: h in r && h in l ==> ToSet(l[h].next) <= r
  {
    var mentioned := set h, p | h in l && p in l[h].next :: p;
    var r := set h | h in mentioned + ToSet(starts) && BelowSome(l, starts, h);
    assert ToSet(starts) <= r by {
      forall s | s in starts ensures BelowSome(l, starts, s) { ReachesSelf(ParentMap(l), s); }
    }
    assert forall h :: h in r && h in l ==> ToSet(l[h].next) <= r by {
      forall h | h in r && h in l ensures ToSet(l[h].next) <= r { BelowSomeStep(l, starts, h); }
    }
    WalkComplete(l, starts, r);
    r
  }

  lemma {:induction false} WalkComplete(l: Log, starts: seq<Hash>, visited: set<Hash>)
    requires ToSet(starts) <= visited
    requires forall h :: h in visited && h in l ==> ToSet(l[h].next) <= visited
    ensures forall h :: BelowSome(l, starts, h) ==> h in visited
  {
    forall h | BelowSome(l, starts, h) ensures h in visited {
      var s :| s in starts && Below(l, h, s);
      assert s in ToSet(starts);
      ClosedKeepsReach(ParentMap(l), visited, s, h);
    }
  }

  /** The members of `xs` not yet visited, in order. */
  method Unseen(xs: seq<Hash>, visited: set<Hash>) returns (r: seq<Hash>)
    ensures forall x :: x in r <==> x in xs && x !in visited
  {
    r := [];
    for i := 0 to |xs|
      invariant forall x :: x in r <==> x in xs[..i] && x !in visited
    {
      assert xs[..i + 1] == xs[..i] + [xs[i]];
      if xs[i] !in visited { r := r + [xs[i]]; }
    }
    assert xs[..|xs|] == xs;
  }

  lemma {:induction false} BelowSomeStep(l: Log, starts: seq<Hash>, h: Hash)
    requires h in l && BelowSome(l, starts, h)
    ensures forall p :: p in l[h].next ==> BelowSome(l, starts, p)
  {
    var s :| s in starts && Below(l, h, s);
    forall p | p in l[h].next ensures BelowSome(l, starts, p) { ReachesStep(ParentMap(l), s, h, p); }
  }

  /** The entries whose clock tuple is at most the cutoff's. */
  function UpTo(l: Log, cutoff: Clock): set<Hash> { set h | h in l && TupleLeq(l[h].clock, cutoff) }

  /** The past as of a cutoff leaves out exactly what is later; the entries of the cutoff's own tuple are in it. */
  lemma {:induction false} UpToIs(l: Log, cutoff: Clock, h: Hash)
    requires h in l
    ensures h !in UpTo(l, cutoff) <==>
      cutoff.physical < l[h].clock.physical || (cutoff.physical == l[h].clock.physical && cutoff.logical < l[h].clock.logical)
    ensures l[h].clock.physical == cutoff.physical && l[h].clock.logical == cutoff.logical ==> h in UpTo(l, cutoff)
  {
  }

  /** What a holder of `known` and everything below it still lacks. */
  ghost function Past(l: Log, known: seq<Hash>): set<Hash> { l.Keys - AncestorsOf(l, ToSet(known)) }

  lemma {:induction false} ReachIsAncestors(l: Log, starts: seq<Hash>)
    ensures Reach(l, starts) * l.Keys == AncestorsOf(l, ToSet(starts))
    ensures l.Keys - Reach(l, starts) == Past(l, starts)
  {
    forall h | h in l ensures BelowSome(l, starts, h) <==> h in AncestorsOf(l, ToSet(starts)) {
      if BelowSome(l, starts, h) {
        var s :| s in starts && Below(l, h, s);
        assert s in ToSet(starts);
      }
    }
  }

  /** All entries reachable from the heads, less those reachable from `known`. */
  method Delta(l: Log, heads: set<Hash>, known: seq<Hash>) returns (delta: set<Hash>)
    requires WellFormed(l) && heads == HeadsOf(l)
    ensures delta == Past(l, known)
  {
    var starts := Elements(heads);
    var all := Walk(l, starts);
    HeadsReachAll(l, starts);
    var below := Walk(l, known);
    ReachIsAncestors(l, known);
    delta := all - below;
  }

  lemma {:induction false} HeadsReachAll(l: Log, starts: seq<Hash>)
    requires WellFormed(l) && ToSet(starts) == HeadsOf(l)
    ensures Reach(l, starts) == l.Keys
  {
    WalkComplete(l, starts, l.Keys);
    HeadsCover(l);
    ReachIsAncestors(l, starts);
  }

  /** A hash set listed in whatever order iteration happens to give. */
  method Elements(s: set<Hash>) returns (xs: seq<Hash>)
    ensures NoDup(xs) && ToSet(xs) == s
  {
    xs := [];
    var rest := s;
    while rest != {}
      invariant NoDup(xs) && ToSet(xs) !! rest && ToSet(xs) + rest == s
    {
      var x :| x in rest;
      assert x !in ToSet(xs);
      xs, rest := xs + [x], rest - {x};
      assert ToSet(xs) == ToSet(xs[..|xs| - 1]) + {x};
    }
  }

  // -- Kahn's algorithm with in-degree counters -----------------------------------------------------------

  /** The counters: in-subset predecessors with multiplicity, less those already out. */
  ghost function Degrees(l: Log, s: set<Hash>, out: set<Hash>): map<Hash, int>
    requires s <= l.Keys
  {
    map c | c in s :: CountIn(l[c].next, s) - |ParentsIn(l, s, c) * out|
  }

  /** A counter is never negative, and reaches zero exactly when the entry is unlocked. */
  lemma {:induction false} DegreeZero(l: Log, s: set<Hash>, out: set<Hash>, c: Hash)
    requires s <= l.Keys && c in s
    ensures CountIn(l[c].next, s) >= |ParentsIn(l, s, c) * out|
    ensures CountIn(l[c].next, s) == |ParentsIn(l, s, c) * out| <==> Unlocked(l, s, out, c)
  {
    var ps := ParentsIn(l, s, c);
    CountInDistinct(l[c].next, s);
    SubsetSize(ps * out, ps);
    assert ps * out == ps <==> ps <= out;
  }

  lemma {:induction false} RootsHaveNoDegree(l: Log, s: set<Hash>)
    requires s <= l.Keys
    ensures Roots(l, s) == set h | h in s && CountIn(l[h].next, s) == 0
  {
    forall h | h in s ensures ParentsIn(l, s, h) == {} <==> CountIn(l[h].next, s) == 0 {
      var ps := ParentsIn(l, s, h);
      CountInDistinct(l[h].next, s);
      assert forall i :: 0 <= i < |l[h].next| && l[h].next[i] in s ==> l[h].next[i] in ps;
    }
  }

  method Kahn(l: Log, children: map<Hash, set<Hash>>, s: set<Hash>) returns (out: seq<Hash>)
    requires s <= l.Keys && Indexes(children, l)
    ensures out == CausalOrder(l, s)
  {
    hide *;
    var inDegree := map h | h in s :: CountIn(l[h].next, s) as int;
    RootsHaveNoDegree(l, s);
    NothingOut(l, s);
    var start := Elements(set h | h in s && inDegree[h] == 0);
    var queue := SortListed(l, start, Roots(l, s));
    out := [];
    ghost var n := 0;
    KahnZero(l, s);
    while queue != []
      invariant n <= |s| && KahnAfter(l, s, n) == KahnState(queue, out)
      invariant inDegree == Degrees(l, s, ToSet(out))
      decreases |s| - n
    {
      var h := queue[0];
      KahnHead(l, s, n);
      KahnAdvance(l, s, n, queue, out);
      ToSetSnoc(out, h);
      IndexedAt(children, l, h);
      var more;
      inDegree, more := Release(l, Succ(children, h), s, ToSet(out), h, inDegree);
      queue, out, n := queue[1..] + more, out + [h], n + 1;
    }
    KahnStuck(l, s, n, |s|);
    CausalOrderIs(l, s);
  }

  lemma {:induction false} IndexedAt(children: map<Hash, set<Hash>>, l: Log, h: Hash)
    requires Indexes(children, l)
    ensures Succ(children, h) == ChildrenOf(l, h)
  {
  }

  lemma {:induction false} NothingOut(l: Log, s: set<Hash>)
    requires s <= l.Keys
    ensures Degrees(l, s, ToSet([])) == map h | h in s :: CountIn(l[h].next, s) as int
  {
    forall c | c in s ensures |ParentsIn(l, s, c) * ToSet([])| == 0 { assert ParentsIn(l, s, c) * ToSet([]) == {}; }
  }

  /** Emitting `h`: its children are counted down and those that reach zero are returned in order. */
  method Release(l: Log, kids: set<Hash>, s: set<Hash>, ghost out: set<Hash>, h: Hash, degrees: map<Hash, int>)
    returns (inDegree: map<Hash, int>, more: seq<Hash>)
    requires s <= l.Keys && h in s && h !in out && kids == ChildrenOf(l, h) && degrees == Degrees(l, s, out)
    ensures inDegree == Degrees(l, s, out + {h})
    ensures more == InOrder(l, Freed(l, s, out, h))
  {
    hide *;
    ReleaseCounts(l, s, out, h);
    var ready;
    inDegree, ready := CountDown(kids, s, degrees);
    MapsAgree(inDegree, Degrees(l, s, out + {h}));
    more := SortListed(l, ready, Freed(l, s, out, h));
  }

  lemma {:induction false} ReleaseCounts(l: Log, s: set<Hash>, out: set<Hash>, h: Hash)
    requires s <= l.Keys && h in s && h !in out
    ensures Degrees(l, s, out).Keys == s && Degrees(l, s, out + {h}).Keys == s && Freed(l, s, out, h) <= s
    ensures forall c :: c in s ==>
      Degrees(l, s, out + {h})[c] == Degrees(l, s, out)[c] - (if c in ChildrenOf(l, h) then 1 else 0)
    ensures Freed(l, s, out, h) == set c | c in ChildrenOf(l, h) && c in s && Degrees(l, s, out)[c] == 1
  {
    forall c | c in s
      ensures Degrees(l, s, out + {h})[c] == Degrees(l, s, out)[c] - (if c in ChildrenOf(l, h) then 1 else 0)
      ensures c in Freed(l, s, out, h) <==> c in ChildrenOf(l, h) && Degrees(l, s, out)[c] == 1
    {
      ReleaseCount(l, s, out, h, c);
    }
  }

  method SortListed(l: Log, xs: seq<Hash>, ghost s: set<Hash>) returns (r: seq<Hash>)
    requires NoDup(xs) && ToSet(xs) == s && s <= l.Keys
    ensures r == InOrder(l, s)
  {
    assert forall x :: x in xs ==> x in ToSet(xs);
    SortedIsCanonical(l, xs);
    r := Sorted(l, xs);
  }

  /** Counting down the children inside `s`; those that reach zero are ready. */
  method CountDown(kids: set<Hash>, s: set<Hash>, degrees: map<Hash, int>)
    returns (inDegree: map<Hash, int>, ready: seq<Hash>)
    requires degrees.Keys == s
    ensures inDegree.Keys == s
    ensures forall c :: c in s ==> inDegree[c] == degrees[c] - (if c in kids then 1 else 0)
    ensures NoDup(ready) && ToSet(ready) == set c | c in kids && c in s && degrees[c] == 1
  {
    inDegree, ready := degrees, [];
    var todo := kids;
    while todo != {}
      invariant todo <= kids && inDegree.Keys == s
      invariant forall c :: c in s ==> inDegree[c] == degrees[c] - (if c in kids - todo then 1 else 0)
      invariant NoDup(ready)
      invariant forall c :: c in ready <==> c in kids - todo && c in s && degrees[c] == 1
    {
      var c :| c in todo;
      todo := todo - {c};
      if c in s {
        inDegree := inDegree[c := inDegree[c] - 1];
        if inDegree[c] == 0 { ready := ready + [c]; }
      }
    }
  }

  lemma {:induction false} ReleaseCount(l: Log, s: set<Hash>, out: set<Hash>, h: Hash, c: Hash)
    requires s <= l.Keys && h in s && h !in out && c in s
    ensures |ParentsIn(l, s, c) * (out + {h})| == |ParentsIn(l, s, c) * out| + (if h in l[c].next then 1 else 0)
    ensures c in Freed(l, s, out, h) <==>
      h in l[c].next && CountIn(l[c].next, s) == |ParentsIn(l, s, c) * out| + 1
  {
    var ps := ParentsIn(l, s, c);
    assert ps * (out + {h}) == (ps * out) + (if h in l[c].next then {h} else {});
    DegreeZero(l, s, out + {h}, c);
  }
}
