/** The log as a value: a content-addressed DAG of entries, its heads, its children index and its ancestry. */
module Dag {
  import opened Base
  import opened Entries
  import opened Paths

  type Log = map<Hash, Entry>

  ghost predicate Keyed(l: Log) { forall h :: h in l ==> l[h].hash == h }

  /** I-02: every causal predecessor is present. */
  ghost predicate Complete(l: Log) { forall h, p :: h in l && p in l[h].next ==> p in l }

  /** `m` is in `t` and none of its predecessors is. */
  ghost predicate Minimal(l: Log, t: set<Hash>, m: Hash) { m in t && m in l && forall p :: p in l[m].next ==> p !in t }

  ghost predicate HasMinimal(l: Log, t: set<Hash>) { t != {} && t <= l.Keys ==> exists m :: Minimal(l, t, m) }

  /** Acyclicity: every non-empty set of entries has one whose predecessors all lie outside it. */
  ghost predicate Founded(l: Log) { forall t: set<Hash> :: HasMinimal(l, t) }

  ghost predicate WellFormed(l: Log) { Keyed(l) && Complete(l) && Founded(l) }

  lemma {:induction false} WellFormedParts(l: Log)
    requires WellFormed(l)
    ensures Keyed(l) && Complete(l) && Founded(l)
  {
  }

  /** No entry names a predecessor twice. */
  ghost predicate DistinctParents(l: Log) { forall h :: h in l ==> NoDup(l[h].next) }

  function ChildrenOf(l: Log, h: Hash): set<Hash> { set c | c in l && h in l[c].next }

  /** I-04: the heads are the entries without successors. */
  function HeadsOf(l: Log): set<Hash> { set h | h in l && ChildrenOf(l, h) == {} }

  lemma {:induction false} HeadsKnown(l: Log)
    ensures HeadsOf(l) <= l.Keys
  {
  }

  function ParentMap(l: Log): map<Hash, set<Hash>> { map h | h in l :: ToSet(l[h].next) }

  /** `a` is `h` or a causal ancestor of it. */
  ghost predicate Below(l: Log, a: Hash, h: Hash) { Reaches(ParentMap(l), h, a) }

  ghost function AncestorsOf(l: Log, starts: set<Hash>): set<Hash> {
    set a | a in l && exists s :: s in starts && Below(l, a, s)
  }

  ghost predicate AncestorClosed(l: Log, s: set<Hash>) { forall h, p :: h in s && h in l && p in l[h].next ==> p in s }

  ghost predicate Sublog(a: Log, b: Log) { forall h :: h in a ==> h in b && a[h] == b[h] }

  function ByHash(batch: seq<Entry>): Log {
    if batch == [] then map[] else ByHash(batch[..|batch| - 1])[batch[|batch| - 1].hash := batch[|batch| - 1]]
  }

  lemma {:induction false} ByHashContents(batch: seq<Entry>)
    ensures Keyed(ByHash(batch))
    ensures forall e :: e in batch ==> e.hash in ByHash(batch)
    ensures forall h :: h in ByHash(batch) ==> ByHash(batch)[h] in batch
  {
    if batch != [] {
      var n := |batch| - 1;
      ByHashContents(batch[..n]);
      assert batch == batch[..n] + [batch[n]];
    }
  }

  // -- What appending keeps -------------------------------------------------------------------------

  ghost predicate Attachable(l: Log, e: Entry) { e.hash !in l && forall p :: p in e.next ==> p in l }

  lemma {:induction false} AppendWellFormed(l: Log, e: Entry)
    requires WellFormed(l) && Attachable(l, e)
    ensures WellFormed(l[e.hash := e])
  {
    var l' := l[e.hash := e];
    forall t: set<Hash> | t != {} && t <= l'.Keys ensures exists m :: Minimal(l', t, m) {
      var rest := t - {e.hash};
      assert HasMinimal(l, rest);
      if rest != {} {
        var m :| Minimal(l, rest, m);
        assert Minimal(l', t, m);
      } else {
        assert t == {e.hash};
        assert Minimal(l', t, e.hash);
      }
    }
    forall t: set<Hash> ensures HasMinimal(l', t) {}
  }

  lemma {:induction false} AppendIndexes(l: Log, e: Entry)
    requires WellFormed(l) && Attachable(l, e)
    ensures HeadsOf(l[e.hash := e]) == HeadsOf(l) - ToSet(e.next) + {e.hash}
    ensures forall h :: ChildrenOf(l[e.hash := e], h) == ChildrenOf(l, h) + (if h in e.next then {e.hash} else {})
  {
    var l' := l[e.hash := e];
    forall h ensures ChildrenOf(l', h) == ChildrenOf(l, h) + (if h in e.next then {e.hash} else {}) {}
    assert ChildrenOf(l, e.hash) == {};
    forall h ensures h in HeadsOf(l') <==> h in HeadsOf(l) - ToSet(e.next) + {e.hash} {}
  }

  lemma {:induction false} RootWellFormed(e: Entry)
    requires e.next == []
    ensures WellFormed(map[e.hash := e])
    ensures HeadsOf(map[e.hash := e]) == {e.hash}
  {
    var l: Log := map[e.hash := e];
    forall t: set<Hash> | t != {} && t <= l.Keys ensures exists m :: Minimal(l, t, m) {
      assert Minimal(l, t, e.hash);
    }
    forall t: set<Hash> ensures HasMinimal(l, t) {}
    assert ChildrenOf(l, e.hash) == {};
  }

  /** Acyclicity is inherited by every part of a log. */
  lemma {:induction false} SublogFounded(a: Log, b: Log)
    requires Sublog(a, b) && Founded(b)
    ensures Founded(a)
  {
    forall t: set<Hash> ensures HasMinimal(a, t) {
      assert HasMinimal(b, t);
      if t != {} && t <= a.Keys {
        var m :| Minimal(b, t, m);
        assert Minimal(a, t, m);
      }
    }
  }

  // -- Heads and ancestry ---------------------------------------------------------------------------

  /** Some member of `t` names `x` as a predecessor. */
  ghost predicate Succeeded(l: Log, t: set<Hash>, x: Hash) { exists c :: c in t && c in l && x in l[c].next }

  ghost predicate AllSucceeded(l: Log, t: set<Hash>) {
    forall x {:trigger Succeeded(l, t, x)} :: x in t ==> Succeeded(l, t, x)
  }

  /** In a founded log no non-empty set gives each member a successor inside it. */
  lemma {:induction false} NoUpwardSet(l: Log, t: set<Hash>)
    requires Founded(l) && t <= l.Keys && AllSucceeded(l, t)
    ensures t == {}
    decreases |t|
  {
    if t != {} {
      assert HasMinimal(l, t);
      var m :| Minimal(l, t, m);
      var rest := t - {m};
      forall x | x in rest ensures Succeeded(l, rest, x) {
        assert Succeeded(l, t, x);
        var c :| c in t && c in l && x in l[c].next;
        assert c in rest;
      }
      assert Succeeded(l, t, m);
      var c :| c in t && c in l && m in l[c].next;
      assert c in rest;
      NoUpwardSet(l, rest);
    }
  }

  lemma {:induction false} CompleteIsClosed(l: Log)
    requires Complete(l)
    ensures ClosedUnder(ParentMap(l), l.Keys)
  {
  }

  /** Every entry lies at or below some head. */
  lemma {:induction false} HeadsCover(l: Log)
    requires WellFormed(l)
    ensures AncestorsOf(l, HeadsOf(l)) == l.Keys
  {
    var g := ParentMap(l);
    var t := l.Keys - AncestorsOf(l, HeadsOf(l));
    forall x | x in t ensures Succeeded(l, t, x) {
      if x in HeadsOf(l) { ReachesSelf(g, x); }
      var c :| c in ChildrenOf(l, x);
      if c !in t {
        var s :| s in HeadsOf(l) && Below(l, c, s);
        ReachesStep(g, s, c, x);
      }
      assert c in t && x in l[c].next;
    }
    NoUpwardSet(l, t);
    assert l.Keys == AncestorsOf(l, HeadsOf(l)) + t;
  }

  lemma {:induction false} AncestorsClosed(l: Log, starts: set<Hash>)
    requires Complete(l)
    ensures AncestorClosed(l, AncestorsOf(l, starts))
  {
    var g := ParentMap(l);
    forall h, p | h in AncestorsOf(l, starts) && p in l[h].next ensures p in AncestorsOf(l, starts) {
      var s :| s in starts && Below(l, h, s);
      ReachesStep(g, s, h, p);
    }
  }

  lemma {:induction false} ClosedKeepsBelow(l: Log, s: set<Hash>, a: Hash, h: Hash)
    requires AncestorClosed(l, s) && h in s && Below(l, a, h)
    ensures a in s
  {
    ClosedKeepsReach(ParentMap(l), s, h, a);
  }

  /** A larger log that stays complete gives its old entries the same ancestors. */
  lemma {:induction false} BelowInSublog(a: Log, b: Log, x: Hash, h: Hash)
    requires Sublog(a, b) && Complete(a) && h in a
    ensures Below(a, x, h) <==> Below(b, x, h)
    ensures Below(b, x, h) ==> x in a
  {
    var ga, gb := ParentMap(a), ParentMap(b);
    assert ClosedUnder(gb, a.Keys);
    if Below(b, x, h) {
      var p :| Joins(gb, h, x, p);
      ClosedKeepsPath(gb, a.Keys, p);
      forall i | 0 <= i < |p| - 1 ensures p[i + 1] in Succ(ga, p[i]) {
        assert p[i + 1] in Succ(gb, p[i]);
      }
      assert Joins(ga, h, x, p);
    }
    if Below(a, x, h) {
      var p :| Joins(ga, h, x, p);
      forall i | 0 <= i < |p| - 1 ensures p[i + 1] in Succ(gb, p[i]) {
        assert p[i + 1] in Succ(ga, p[i]);
      }
      assert Joins(gb, h, x, p);
    }
  }
}
