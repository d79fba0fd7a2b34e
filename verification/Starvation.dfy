/** What truncated tail batches do not promise: a consumer with a small limit may circle two branches forever. */
module Starvation {
  import opened Base
  import opened Clocks
  import opened Entries
  import opened Paths
  import opened Dag
  import opened Topo
  import opened OpLogs
  import opened Tail

  /** Without causal links inside the subset, the causal order is the tie-break order. */
  lemma {:induction false} AntichainOrder(l: Log, s: set<Hash>, n: nat)
    requires s <= l.Keys && n <= |s| && forall c :: c in s ==> ParentsIn(l, s, c) == {}
    ensures |InOrder(l, s)| == |s|
    ensures KahnAfter(l, s, n) == KahnState(InOrder(l, s)[n..], InOrder(l, s)[..n])
  {
    hide InOrder;
    var r := InOrder(l, s);
    NoDupSize(r);
    if n == 0 {
      assert Roots(l, s) == s;
      KahnZero(l, s);
    } else {
      AntichainOrder(l, s, n - 1);
      var h := r[n - 1];
      assert h in ToSet(r);
      forall c | c in s ensures h !in l[c].next { assert h !in ParentsIn(l, s, c); }
      assert Freed(l, s, ToSet(r[..n - 1]), h) == {};
      NothingInOrder(l);
      KahnAdvance(l, s, n - 1, r[n - 1..], r[..n - 1]);
      assert r[n - 1..][1..] + [] == r[n..] && r[..n - 1] + [h] == r[..n];
    }
  }

  lemma {:induction false} NothingInOrder(l: Log)
    ensures InOrder(l, {}) == []
  {
  }

  lemma {:induction false} PairInOrder(l: Log, x: Hash, y: Hash)
    requires x in l && y in l && x != y && Precedes(l, x, y)
    ensures InOrder(l, {x, y}) == [x, y]
  {
    hide InOrder;
    var s := {x, y};
    assert IsFirst(l, s, x) && IsFirst(l, {y}, y);
    InOrderUnfold(l, s, x);
    assert s - {x} == {y} && {y} - {y} == {};
    InOrderUnfold(l, {y}, y);
    NothingInOrder(l);
  }

  lemma {:induction false} PairOrder(l: Log, x: Hash, y: Hash)
    requires x in l && y in l && x != y && Precedes(l, x, y) && ToSet(l[x].next) !! {x, y} && ToSet(l[y].next) !! {x, y}
    ensures CausalOrder(l, {x, y}) == [x, y]
  {
    hide InOrder, KahnAfter, CausalOrder;
    var s := {x, y};
    AntichainOrder(l, s, |s|);
    CausalOrderIs(l, s);
    PairInOrder(l, x, y);
    assert [x, y][..2] == [x, y];
  }

  /** A root with three children: `a`, `b` and `c`, in tie-break order. */
  ghost predicate Fork(l: Log, g: Hash, a: Hash, b: Hash, c: Hash) {
    && l.Keys == {g, a, b, c} && g != a && g != b && g != c && a != b && b != c && a != c
    && Keyed(l) && l[g].next == [] && l[a].next == [g] && l[b].next == [g] && l[c].next == [g]
    && Precedes(l, a, b) && Precedes(l, b, c) && Precedes(l, a, c)
  }

  /** Such a log exists. */
  lemma {:induction false} ForkExists(op: GraphOp, author: string)
    ensures exists l :: Fork(l, 0, 1, 2, 3)
  {
    var clock := Clock(author, 0, 0);
    var l: Log := map[0 := Entry(0, op, [], clock, author), 1 := Entry(1, op, [0], clock, author),
                      2 := Entry(2, op, [0], clock, author), 3 := Entry(3, op, [0], clock, author)];
    assert Fork(l, 0, 1, 2, 3);
  }

  lemma {:induction false} ForkSound(l: Log, g: Hash, a: Hash, b: Hash, c: Hash)
    requires Fork(l, g, a, b, c)
    ensures Sound(l)
  {
    forall t: set<Hash> ensures HasMinimal(l, t) {
      if t != {} && t <= l.Keys {
        var m :| m in t;
        var f := if g in t then g else m;
        assert Minimal(l, t, f);
      }
    }
  }

  /** Past a cursor at one child lie exactly the other two. */
  lemma {:induction false} PastChild(l: Log, g: Hash, x: Hash)
    requires g in l && x in l && l[g].next == [] && l[x].next == [g] && x != g
    ensures Past(l, [x]) == l.Keys - {g, x} && FirstMissing(l, [x]) == None
  {
    assert ToSet([x]) == {x};
    var near := {g, x};
    assert AncestorClosed(l, near);
    forall h | h in AncestorsOf(l, {x}) ensures h in near { ClosedKeepsBelow(l, near, h, x); }
    ReachesSelf(ParentMap(l), x);
    ReachesStep(ParentMap(l), x, x, g);
    assert Below(l, x, x) && Below(l, g, x);
  }

  /**
   * With a limit of one, a fetch past `a` delivers `b`, and a fetch past `b` delivers `a`: the cursor
   * alternates and `c` is never delivered, however often the consumer asks.
   */
  lemma {:induction false} TruncationCanStarve(l: Log, g: Hash, a: Hash, b: Hash, c: Hash)
    requires Fork(l, g, a, b, c)
    ensures Sound(l)
    ensures forall r :: MayFetch(l, [a], 1, r) <==> r == Batch([b], [b])
    ensures forall r :: MayFetch(l, [b], 1, r) <==> r == Batch([a], [a])
  {
    hide CausalOrder, Past, Sound, FirstMissing, Precedes;
    ForkSound(l, g, a, b, c);
    PastChild(l, g, a);
    PastChild(l, g, b);
    assert l.Keys - {g, a} == {b, c} && l.Keys - {g, b} == {a, c};
    PairOrder(l, b, c);
    PairOrder(l, a, c);
    assert [b, c][..1] == [b] && [a, c][..1] == [a];
  }
}
