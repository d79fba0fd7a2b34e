/** Rebuilding the operation log from an unordered table of entries. */
module Reconstruction {
  import opened Base
  import opened Entries
  import opened Dag
  import opened OpLogs
  import opened Merge

  datatype StoreError = NoEntries | NoGenesis | Rejected(error: LogError) | Unresolved(count: nat)

  function RootsOf(m: Log): set<Hash> { set h | h in m && m[h].next == [] }

  /** For each entry that is not a root, the predecessors not yet announced. */
  function Pending(m: Log, announced: set<Hash>): map<Hash, set<Hash>> {
    map h | h in m && m[h].next != [] :: ToSet(m[h].next) - announced
  }

  /** The entries, roots aside, with every predecessor announced. */
  function Free(m: Log, announced: set<Hash>): set<Hash> {
    set h | h in m && m[h].next != [] && ToSet(m[h].next) <= announced
  }

  function KidsOf(m: Log, h: Hash): set<Hash> { set k | k in m && m[k].next != [] && h in m[k].next }

  function Restrict(m: Log, s: set<Hash>): Log { map h | h in m && h in s :: m[h] }

  /** Announcing `h` frees exactly the children that were waiting for nothing else. */
  lemma {:induction false} Announced(m: Log, announced: set<Hash>, h: Hash)
    requires h !in announced
    ensures Free(m, announced + {h}) == Free(m, announced) + set k | k in KidsOf(m, h) && Pending(m, announced)[k] == {h}
    ensures Free(m, announced) !! set k | k in KidsOf(m, h) && Pending(m, announced)[k] == {h}
  {
    var woken := set k | k in KidsOf(m, h) && Pending(m, announced)[k] == {h};
    forall k | k in m && m[k].next != []
      ensures k in Free(m, announced + {h}) <==> k in Free(m, announced) || k in woken
      ensures !(k in Free(m, announced) && k in woken)
    {
      var ps := ToSet(m[k].next);
      assert ps - announced == {} <==> ps <= announced;
      assert ps - announced == {h} ==> h in ps;
      assert ps <= announced + {h} <==> ps - announced <= {h};
    }
  }

  method Announce(m: Log, h: Hash, ghost announced: set<Hash>, pending: map<Hash, set<Hash>>, ready: seq<Hash>)
    returns (pending': map<Hash, set<Hash>>, ready': seq<Hash>)
    requires h !in announced && pending == Pending(m, announced)
    requires NoDup(ready) && ToSet(ready) <= Free(m, announced)
    ensures pending' == Pending(m, announced + {h})
    ensures NoDup(ready') && ToSet(ready') == ToSet(ready) + (Free(m, announced + {h}) - Free(m, announced))
  {
    hide KidsOf, Pending, Free;
    Announced(m, announced, h);
    PendingKeys(m, announced, h);
    ghost var woken := set k | k in KidsOf(m, h) && pending[k] == {h};
    pending', ready' := pending, ready;
    var todo := KidsOf(m, h);
    while todo != {}
      invariant todo <= KidsOf(m, h) && pending'.Keys == pending.Keys
      invariant forall k :: k in pending ==>
        pending'[k] == if k in KidsOf(m, h) && k !in todo then pending[k] - {h} else pending[k]
      invariant NoDup(ready') && ToSet(ready') == ToSet(ready) + (woken - todo)
    {
      var k :| k in todo;
      todo := todo - {k};
      pending' := pending'[k := pending'[k] - {h}];
      WaitingFor(m, announced, h, k);
      if pending'[k] == {} {
        assert pending[k] == {h};
        assert k !in ToSet(ready');
        ToSetSnoc(ready', k);
        ready' := ready' + [k];
      }
    }
    MapsAgree(pending', Pending(m, announced + {h}));
  }

  lemma {:induction false} WaitingFor(m: Log, announced: set<Hash>, h: Hash, k: Hash)
    requires h !in announced && k in KidsOf(m, h)
    ensures k in Pending(m, announced) && h in Pending(m, announced)[k]
    ensures Pending(m, announced)[k] - {h} == {} <==> Pending(m, announced)[k] == {h}
  {
  }

  lemma {:induction false} PendingKeys(m: Log, announced: set<Hash>, h: Hash)
    ensures Pending(m, announced).Keys == Pending(m, announced + {h}).Keys
    ensures KidsOf(m, h) <= Pending(m, announced).Keys
    ensures forall k :: k in Pending(m, announced) ==>
      Pending(m, announced + {h})[k] == if k in KidsOf(m, h) then Pending(m, announced)[k] - {h} else Pending(m, announced)[k]
  {
    forall k | k in Pending(m, announced)
      ensures Pending(m, announced + {h})[k] == if k in KidsOf(m, h) then Pending(m, announced)[k] - {h} else Pending(m, announced)[k]
    {
      if k !in KidsOf(m, h) { assert h !in ToSet(m[k].next); }
    }
  }

  /** Exhausted with entries still pending: the table is not a log. */
  lemma {:induction false} LeftoversMeanMalformed(m: Log, done: set<Hash>)
    requires RootsOf(m) <= done <= m.Keys && Free(m, done) <= done
    ensures (exists h :: h in Pending(m, done) && Pending(m, done)[h] != {}) ==> !WellFormed(m)
    ensures (forall h :: h in Pending(m, done) ==> Pending(m, done)[h] == {}) ==> done == m.Keys
  {
    hide Founded;
    var t := m.Keys - done;
    forall h | h in Pending(m, done) && Pending(m, done)[h] == {} ensures h in done {
      assert forall p :: p in ToSet(m[h].next) ==> p in done by {
        forall p | p in ToSet(m[h].next) ensures p in done { assert p !in Pending(m, done)[h]; }
      }
      assert h in Free(m, done);
    }
    if exists h :: h in Pending(m, done) && Pending(m, done)[h] != {} {
      if Complete(m) {
        StillWaiting(m, done);
        NoMinimal(m, t);
      }
    } else {
      forall h | h in m ensures h in done {
        if m[h].next == [] { assert h in RootsOf(m); } else { assert h in Pending(m, done); }
      }
    }
  }

  lemma {:induction false} StillWaiting(m: Log, done: set<Hash>)
    requires RootsOf(m) <= done <= m.Keys && Free(m, done) <= done && Complete(m)
    requires exists h :: h in Pending(m, done) && Pending(m, done)[h] != {}
    ensures m.Keys - done != {} && forall h :: h in m.Keys - done ==> !Minimal(m, m.Keys - done, h)
  {
    var t := m.Keys - done;
    var h :| h in Pending(m, done) && Pending(m, done)[h] != {};
    var p :| p in Pending(m, done)[h];
    assert p in t;
    forall x | x in t ensures !Minimal(m, t, x) {
      assert x !in RootsOf(m) && x !in Free(m, done);
      assert !(ToSet(m[x].next) <= done);
      var q :| q in ToSet(m[x].next) && q !in done;
      assert q in t;
    }
  }

  lemma {:induction false} RestrictGrows(m: Log, s: set<Hash>, h: Hash)
    requires h in m
    ensures Restrict(m, s)[h := m[h]] == Restrict(m, s + {h})
  {
  }

  /** The entry verifies and names none of the lost roots. */
  ghost predicate Sprouts(d: Digest, m: Log, lost: set<Hash>, h: Hash)
    requires h in m
  {
    VerifyHash(d, m[h]) && forall p :: p in m[h].next ==> p !in lost
  }

  /** An entry whose predecessors are all announced is appended exactly when it sprouts. */
  lemma {:induction false} FreeAttaches(d: Digest, m: Log, done: set<Hash>, lost: set<Hash>, h: Hash)
    requires Keyed(m) && lost <= done <= m.Keys && h in Free(m, done) && h !in done
    ensures Sprouts(d, m, lost, h) ==>
      && AppendVerdict(d, Restrict(m, done - lost), m[h]) == Ok(true)
      && AppendTo(d, Restrict(m, done - lost), m[h]) == Restrict(m, done + {h} - lost)
    ensures !Sprouts(d, m, lost, h) ==> AppendVerdict(d, Restrict(m, done - lost), m[h]).Err?
  {
    hide VerifyHash;
    var l := Restrict(m, done - lost);
    assert forall p :: p in m[h].next ==> p in ToSet(m[h].next);
    FirstMissingNone(l, m[h].next);
    RestrictGrows(m, done - lost, h);
    assert done - lost + {h} == done + {h} - lost;
  }

  lemma {:induction false} RestrictAll(m: Log)
    ensures Restrict(m, m.Keys) == m
  {
  }

  lemma {:induction false} TableFacts(entries: seq<Entry>)
    requires Consistent(entries)
    ensures Keyed(ByHash(entries))
    ensures forall e :: e in entries ==> e.hash in ByHash(entries) && ByHash(entries)[e.hash] == e
  {
    ByHashContents(entries);
  }

  // -- Roots -------------------------------------------------------------------------------------------------

  /** The entries without predecessors, in table order. */
  function RootsIn(entries: seq<Entry>): (r: seq<Entry>)
    ensures forall e :: e in r <==> e in entries && e.next == []
  {
    if entries == [] then []
    else
      var init, e := entries[..|entries| - 1], entries[|entries| - 1];
      RootsIn(init) + (if e.next == [] then [e] else [])
  }

  /** Roots keep the order of the table: the first of them is the table's first, and so on. */
  lemma {:induction false} RootsConcat(xs: seq<Entry>, ys: seq<Entry>)
    ensures RootsIn(xs + ys) == RootsIn(xs) + RootsIn(ys)
  {
    hide RootsIn;
    if ys == [] {
      RootsNone();
      assert xs + ys == xs;
    } else {
      var init, e := ys[..|ys| - 1], ys[|ys| - 1];
      assert ys == init + [e] && xs + ys == (xs + init) + [e];
      RootsConcat(xs, init);
      RootsSnoc(xs + init, e);
      RootsSnoc(init, e);
    }
  }

  lemma {:induction false} RootsNone()
    ensures RootsIn([]) == []
  {
  }

  lemma {:induction false} RootsSnoc(xs: seq<Entry>, e: Entry)
    ensures RootsIn(xs + [e]) == RootsIn(xs) + (if e.next == [] then [e] else [])
  {
    assert (xs + [e])[..|xs|] == xs;
  }

  /** So the root taken unseen is the table's first. */
  lemma {:induction false} FirstRootIs(xs: seq<Entry>, e: Entry, ys: seq<Entry>)
    requires e.next == [] && forall x :: x in xs ==> x.next != []
    ensures RootsIn(xs + [e] + ys) != [] && RootsIn(xs + [e] + ys)[0] == e
  {
    hide RootsIn;
    RootsConcat(xs + [e], ys);
    RootsSnoc(xs, e);
    assert ToSet(RootsIn(xs)) == {};
    NothingListed(RootsIn(xs));
  }

  method FindRoots(entries: seq<Entry>) returns (roots: seq<Entry>)
    ensures roots == RootsIn(entries)
  {
    roots := [];
    for i := 0 to |entries|
      invariant roots == RootsIn(entries[..i])
    {
      assert entries[..i + 1][..i] == entries[..i];
      if entries[i].next == [] { roots := roots + [entries[i]]; }
    }
    assert entries[..|entries|] == entries;
  }

  /** The log after the first root, taken unseen, and the others, appended with errors ignored. */
  function Planted(d: Digest, roots: seq<Entry>): Log
    requires roots != []
  {
    if |roots| == 1 then map[roots[0].hash := roots[0]]
    else AppendTo(d, Planted(d, roots[..|roots| - 1]), roots[|roots| - 1])
  }

  /** The roots that do not end up in the log. */
  function Lost(d: Digest, roots: seq<Entry>): set<Hash>
    requires roots != []
  {
    HashesOf(roots) - Planted(d, roots).Keys
  }

  lemma {:induction false} PlantedInit(d: Digest, roots: seq<Entry>)
    requires |roots| > 1
    ensures var init, e := roots[..|roots| - 1], roots[|roots| - 1];
      && Planted(d, roots) == AppendTo(d, Planted(d, init), e)
      && HashesOf(roots) == HashesOf(init) + {e.hash} && (forall x :: x in roots <==> x in init || x == e)
  {
    var n := |roots| - 1;
    assert roots == roots[..n] + [roots[n]];
  }

  /** What is planted are roots of the table. */
  lemma {:induction false} PlantedPart(d: Digest, roots: seq<Entry>, m: Log)
    requires roots != [] && forall e :: e in roots ==> e.next == [] && e.hash in m && m[e.hash] == e
    ensures Planted(d, roots).Keys <= HashesOf(roots) && Planted(d, roots) == Restrict(m, HashesOf(roots) - Lost(d, roots))
  {
    var l := Planted(d, roots);
    PlantedKnown(d, roots, m);
    forall h ensures h in l <==> h in Restrict(m, HashesOf(roots) - Lost(d, roots)) {}
    assert l.Keys == Restrict(m, HashesOf(roots) - Lost(d, roots)).Keys;
    MapsAgree(l, Restrict(m, HashesOf(roots) - Lost(d, roots)));
  }

  lemma {:induction false} PlantedKnown(d: Digest, roots: seq<Entry>, m: Log)
    requires roots != [] && forall e :: e in roots ==> e.next == [] && e.hash in m && m[e.hash] == e
    ensures forall h :: h in Planted(d, roots) ==> h in HashesOf(roots) && h in m && Planted(d, roots)[h] == m[h]
  {
    hide VerifyHash;
    if |roots| == 1 {
      assert roots[0] in roots;
    } else {
      PlantedInit(d, roots);
      PlantedKnown(d, roots[..|roots| - 1], m);
      assert roots[|roots| - 1] in roots;
    }
  }

  /** The first root starts the log and the others are appended to it. */
  method PlantRoots(d: Digest, roots: seq<Entry>) returns (oplog: OpLog, resolved: set<Hash>)
    requires roots != [] && forall e :: e in roots ==> e.next == []
    ensures fresh(oplog) && oplog.Valid() && oplog.digest == d
    ensures resolved == HashesOf(roots) && oplog.entries == Planted(d, roots)
  {
    hide WellFormed, Indexes, HeadsOf, AppendTo, VerifyHash;
    assert roots[0] in roots;
    oplog := new OpLog(d, roots[0]);
    resolved := {roots[0].hash};
    assert roots[..1] == [roots[0]];
    for i := 1 to |roots|
      invariant oplog.Valid() && oplog.digest == d && fresh(oplog)
      invariant resolved == HashesOf(roots[..i]) && oplog.entries == Planted(d, roots[..i])
    {
      HashesSnoc(roots, i);
      assert roots[..i + 1][..i] == roots[..i];
      resolved := resolved + {roots[i].hash};
      var _ := oplog.Append(roots[i]);
    }
    assert roots[..|roots|] == roots;
  }

  /** No two roots share a hash. */
  ghost predicate DistinctHashes(roots: seq<Entry>) { forall i, j :: 0 <= i < j < |roots| ==> roots[i].hash != roots[j].hash }

  /** Every root after the first verifies and is no checkpoint. */
  predicate Harmless(d: Digest, roots: seq<Entry>) {
    forall i :: 1 <= i < |roots| ==> VerifyHash(d, roots[i]) && !roots[i].payload.Checkpoint?
  }

  /** Roots are lost exactly when one after the first fails its hash or is a checkpoint, which wipes those before it. */
  lemma {:induction false} NothingLostIff(d: Digest, roots: seq<Entry>)
    requires roots != [] && DistinctHashes(roots) && forall e :: e in roots ==> e.next == []
    ensures Planted(d, roots) != map[] && Planted(d, roots).Keys <= HashesOf(roots)
    ensures Lost(d, roots) == {} <==> Harmless(d, roots)
  {
    hide VerifyHash, AppendTo, Harmless;
    if |roots| == 1 {
      assert HashesOf(roots) == {roots[0].hash};
      assert roots[0].hash in Planted(d, roots);
      HarmlessAlone(d, roots);
    } else {
      var n := |roots| - 1;
      var init, e := roots[..n], roots[n];
      PlantedInit(d, roots);
      NothingLostIff(d, init);
      FreshHash(roots, n);
      assert e in roots && e.next == [] && init[0] in init;
      var before, hs := Planted(d, init), HashesOf(init);
      assert init[0].hash in hs;
      AppendRoot(d, before, e);
      LostNext(hs, before.Keys, e.hash, init[0].hash);
      HarmlessMore(d, roots);
    }
  }

  lemma {:induction false} AppendRoot(d: Digest, l: Log, e: Entry)
    requires l != map[] && e.hash !in l && e.next == []
    ensures AppendTo(d, l, e).Keys ==
      if !VerifyHash(d, e) then l.Keys else if e.payload.Checkpoint? then {e.hash} else l.Keys + {e.hash}
    ensures AppendTo(d, l, e) != map[]
  {
    hide VerifyHash;
  }

  /** What is lost once the next root is kept, refused, or wipes the rest. */
  lemma {:induction false} LostNext(hs: set<Hash>, kept: set<Hash>, h: Hash, first: Hash)
    requires h !in hs && kept <= hs && first in hs
    ensures (hs + {h}) - (kept + {h}) == hs - kept
    ensures (hs + {h}) - kept != {} && (hs + {h}) - {h} != {}
  {
    assert h in (hs + {h}) - kept && first in (hs + {h}) - {h};
  }

  lemma {:induction false} FreshHash(roots: seq<Entry>, n: nat)
    requires DistinctHashes(roots) && n < |roots|
    ensures roots[n].hash !in HashesOf(roots[..n]) && DistinctHashes(roots[..n])
  {
  }

  lemma {:induction false} HarmlessAlone(d: Digest, roots: seq<Entry>)
    requires |roots| == 1
    ensures Harmless(d, roots)
  {
  }

  lemma {:induction false} HarmlessMore(d: Digest, roots: seq<Entry>)
    requires |roots| > 1
    ensures var n := |roots| - 1;
      Harmless(d, roots) <==> Harmless(d, roots[..n]) && VerifyHash(d, roots[n]) && !roots[n].payload.Checkpoint?
  {
    hide VerifyHash;
    var n := |roots| - 1;
    if Harmless(d, roots) {
      forall i | 1 <= i < n ensures VerifyHash(d, roots[..n][i]) && !roots[..n][i].payload.Checkpoint? { assert roots[..n][i] == roots[i]; }
    }
    if Harmless(d, roots[..n]) {
      forall i | 1 <= i < n ensures VerifyHash(d, roots[i]) && !roots[i].payload.Checkpoint? { assert roots[..n][i] == roots[i]; }
    }
  }

  lemma {:induction false} HashesSnoc(es: seq<Entry>, i: nat)
    requires i < |es|
    ensures HashesOf(es[..i + 1]) == HashesOf(es[..i]) + {es[i].hash}
  {
    assert es[..i + 1] == es[..i] + [es[i]];
  }

  lemma {:induction false} RootsAre(m: Log, roots: seq<Entry>, entries: seq<Entry>)
    requires Keyed(m) && forall e :: e in roots <==> e in entries && e.next == []
    requires forall e :: e in entries ==> e.hash in m && m[e.hash] == e
    requires forall h :: h in m ==> m[h] in entries
    ensures HashesOf(roots) == RootsOf(m)
  {
    forall h ensures h in HashesOf(roots) <==> h in RootsOf(m) {
      if h in RootsOf(m) { assert m[h] in roots; }
    }
  }

  /** Nothing is free before anything is announced. */
  lemma {:induction false} NothingAnnounced(m: Log)
    ensures Free(m, {}) == {}
    ensures Pending(m, {}) == map h | h in m && m[h].next != [] :: ToSet(m[h].next)
  {
    forall h | h in m && m[h].next != [] ensures !(ToSet(m[h].next) <= {}) { assert m[h].next[0] in ToSet(m[h].next); }
    forall h | h in m && m[h].next != [] ensures ToSet(m[h].next) - {} == ToSet(m[h].next) {}
  }

  lemma {:induction false} RootsAreNotFree(m: Log, s: set<Hash>)
    ensures RootsOf(m) !! Free(m, s)
    ensures Free(m, s) <= m.Keys && RootsOf(m) <= m.Keys
  {
  }

  lemma {:induction false} FreeGrows(m: Log, a: set<Hash>, b: set<Hash>)
    requires a <= b
    ensures Free(m, a) <= Free(m, b)
  {
  }

  /** Announcing every root. */
  method AnnounceRoots(m: Log, resolved: set<Hash>) returns (pending: map<Hash, set<Hash>>, ready: seq<Hash>)
    ensures pending == Pending(m, resolved) && NoDup(ready) && ToSet(ready) == Free(m, resolved)
  {
    hide Pending, Free;
    NothingAnnounced(m);
    pending := map h | h in m && m[h].next != [] :: ToSet(m[h].next);
    ready := [];
    ghost var announced: set<Hash> := {};
    var todo := resolved;
    while todo != {}
      invariant todo <= resolved && announced == resolved - todo
      invariant pending == Pending(m, announced) && NoDup(ready) && ToSet(ready) == Free(m, announced)
    {
      var h :| h in todo;
      FreeGrows(m, announced, announced + {h});
      pending, ready := Announce(m, h, announced, pending, ready);
      announced, todo := announced + {h}, todo - {h};
    }
    assert announced == resolved;
  }

  /** Appending whatever is ready until nothing is, or until an entry does not sprout. */
  method Drain(oplog: OpLog, m: Log, roots: set<Hash>, ghost lost: set<Hash>, pending0: map<Hash, set<Hash>>, ready0: seq<Hash>)
    returns (r: Result<map<Hash, set<Hash>>, LogError>, ghost done: set<Hash>)
    requires oplog.Valid() && Keyed(m) && roots == RootsOf(m) && lost <= roots && oplog.entries == Restrict(m, roots - lost)
    requires pending0 == Pending(m, roots) && NoDup(ready0) && ToSet(ready0) == Free(m, roots)
    modifies oplog
    ensures r.Err? ==> exists h :: h in m && m[h].next != [] && !Sprouts(oplog.digest, m, lost, h)
    ensures r.Ok? ==>
      && oplog.Valid() && RootsOf(m) <= done <= m.Keys && Free(m, done) <= done
      && (forall h :: h in done && h !in RootsOf(m) ==> h in m && Sprouts(oplog.digest, m, lost, h))
      && oplog.entries == Restrict(m, done - lost) && r.value == Pending(m, done)
  {
    hide WellFormed, Indexes, HeadsOf, Pending, Free, Restrict, RootsOf, AppendTo, FirstMissing, Sprouts;
    var pending, ready := pending0, ready0;
    done := roots;
    RootsAreNotFree(m, done);
    while ready != []
      invariant oplog.Valid()
      invariant RootsOf(m) <= done <= RootsOf(m) + Free(m, done)
      invariant done <= m.Keys && oplog.entries == Restrict(m, done - lost)
      invariant forall h :: h in done && h !in RootsOf(m) ==> h in m && Sprouts(oplog.digest, m, lost, h)
      invariant pending == Pending(m, done) && NoDup(ready) && ToSet(ready) == Free(m, done) - done
      decreases m.Keys - done
    {
      var h := ready[0];
      PopHead(ready);
      RootsAreNotFree(m, done);
      FreeAttaches(oplog.digest, m, done, lost, h);
      FreeNamed(m, done, h);
      var verdict := oplog.Append(m[h]);
      match verdict {
        case Ok(_) =>
        case Err(e) => return Err(e), done;
      }
      FreeGrows(m, done, done + {h});
      RootsAreNotFree(m, done + {h});
      pending, ready := Announce(m, h, done, pending, ready[1..]);
      done := done + {h};
    }
    forall h | h in Free(m, done) ensures h in done { assert h !in Free(m, done) - done; }
    r := Ok(pending);
  }

  lemma {:induction false} FreeNamed(m: Log, done: set<Hash>, h: Hash)
    requires h in Free(m, done)
    ensures h in m && m[h].next != []
  {
  }

  /** A log without some of the roots, none of them named, is a log with them. */
  lemma {:induction false} WithLostRoots(d: Digest, m: Log, lost: set<Hash>)
    requires Keyed(m) && lost <= RootsOf(m) && WellFormed(Restrict(m, m.Keys - lost))
    ensures WellFormed(m)
  {
    var l := Restrict(m, m.Keys - lost);
    forall h, p | h in m && p in m[h].next ensures p in m { assert h in l && p in l; }
    forall t: set<Hash> ensures HasMinimal(m, t) {
      if t != {} && t <= m.Keys {
        if x :| x in t && x in lost {
          assert Minimal(m, t, x);
        } else {
          assert t <= l.Keys && HasMinimal(l, t);
          var x :| Minimal(l, t, x);
          assert Minimal(m, t, x);
        }
      }
    }
  }

  /** Every entry that is not a root sprouts. */
  ghost predicate AllSprout(d: Digest, m: Log, lost: set<Hash>) { forall h :: h in m && m[h].next != [] ==> Sprouts(d, m, lost, h) }

  /**
   * Reconstruction from any table with one entry per hash, read in any order: it succeeds exactly when
   * the table forms a log in which every entry that is not a root verifies and none names a lost root;
   * it returns that log without the lost roots, with exact heads and children, each waiting entry
   * queued once.
   */
  method ReconstructOpLog(d: Digest, entries: seq<Entry>) returns (r: Result<OpLog, StoreError>)
    requires Consistent(entries)
    ensures r.Ok? <==>
      && RootsIn(entries) != [] && WellFormed(ByHash(entries))
      && AllSprout(d, ByHash(entries), Lost(d, RootsIn(entries)))
    ensures r.Ok? ==>
      r.value.Valid() && r.value.entries == Restrict(ByHash(entries), ByHash(entries).Keys - Lost(d, RootsIn(entries)))
    ensures r.Ok? && Lost(d, RootsIn(entries)) == {} ==> r.value.entries == ByHash(entries)
    ensures entries != [] && RootsIn(entries) == [] ==> !WellFormed(ByHash(entries))
  {
    hide WellFormed, Indexes, HeadsOf, Pending, Free, Restrict, RootsOf, HashesOf, ByHash, Planted, RootsIn, Sprouts;
    if entries == [] { NoEntriesNoRoots(); return Err(NoEntries); }
    var m := ByHash(entries);
    TableFacts(entries);
    ByHashContents(entries);
    var roots := FindRoots(entries);
    if roots == [] {
      NoRootsNoLog(m, entries);
      return Err(NoGenesis);
    }
    ghost var lost := Lost(d, roots);
    var oplog, resolved := PlantRoots(d, roots);
    PlantedPart(d, roots, m);
    RootsAre(m, roots, entries);
    var pending, ready := AnnounceRoots(m, resolved);
    var drained;
    ghost var done;
    drained, done := Drain(oplog, m, resolved, lost, pending, ready);
    match drained {
      case Err(e) => return Err(Rejected(e));
      case Ok(left) =>
        LeftoversMeanMalformed(m, done);
        var unresolved := set h | h in left && left[h] != {};
        if unresolved != {} {
          SomeLeft(left, unresolved);
          return Err(Unresolved(|unresolved|));
        }
        forall h | h in left ensures left[h] == {} { assert h !in unresolved; }
        WithLostRoots(d, m, lost);
        RootsListed(m);
        RestrictAll(m);
        assert lost == {} ==> m.Keys - lost == m.Keys;
        r := Ok(oplog);
    }
  }

  lemma {:induction false} NoEntriesNoRoots()
    ensures RootsIn([]) == []
  {
  }

  lemma {:induction false} RootsListed(m: Log)
    ensures forall h :: h in m ==> (h in RootsOf(m) <==> m[h].next == [])
  {
  }

  lemma {:induction false} SomeLeft(left: map<Hash, set<Hash>>, unresolved: set<Hash>)
    requires unresolved != {} && unresolved == set h | h in left && left[h] != {}
    ensures exists h :: h in left && left[h] != {}
  {
    var h :| h in unresolved;
  }

  lemma {:induction false} PopHead(xs: seq<Hash>)
    requires xs != [] && NoDup(xs)
    ensures NoDup(xs[1..]) && ToSet(xs[1..]) == ToSet(xs) - {xs[0]} && xs[0] in ToSet(xs)
  {
    assert xs == [xs[0]] + xs[1..];
  }

  lemma {:induction false} NoRootsNoLog(m: Log, entries: seq<Entry>)
    requires entries != [] && entries[0].hash in m && forall h :: h in m ==> m[h] in entries
    requires forall e :: e in entries ==> e.next != []
    ensures !WellFormed(m)
  {
    if Complete(m) {
      forall h | h in m ensures !Minimal(m, m.Keys, h) { assert m[h].next[0] in m; }
      NoMinimal(m, m.Keys);
    }
  }
}
