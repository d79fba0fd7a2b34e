/** Causal order: Kahn's algorithm on a subset of a log, with the clock-then-hash tie-break. */
module Topo {
  import opened Base
  import opened Clocks
  import opened Entries
  import opened Paths
  import opened Dag

  // -- The tie-break ---------------------------------------------------------------------------------

  /** (physical, logical, hash), strictly. */
  predicate Precedes(l: Log, a: Hash, b: Hash)
    requires a in l && b in l
  {
    TupleLess(l[a].clock, l[b].clock) || (SameTuple(l[a].clock, l[b].clock) && a < b)
  }

  ghost predicate IsFirst(l: Log, s: set<Hash>, m: Hash)
    requires s <= l.Keys
  {
    m in s && forall x :: x in s && x != m ==> Precedes(l, m, x)
  }

  lemma {:induction false} FirstExists(l: Log, s: set<Hash>)
    requires s <= l.Keys && s != {}
    ensures exists m :: IsFirst(l, s, m)
  {
    var x :| x in s;
    if s == {x} {
      assert IsFirst(l, s, x);
    } else {
      FirstExists(l, s - {x});
      var m :| IsFirst(l, s - {x}, m);
      var f := if Precedes(l, x, m) then x else m;
      forall y | y in s && y != f ensures Precedes(l, f, y) {
        assert y == x || y == m || (y in s - {x} && Precedes(l, m, y));
      }
      assert IsFirst(l, s, f);
    }
  }

  /** The one listing of `s` in tie-break order. */
  ghost function InOrder(l: Log, s: set<Hash>): (r: seq<Hash>)
    requires s <= l.Keys
    ensures NoDup(r) && ToSet(r) == s
  {
    if s == {} then []
    else
      FirstExists(l, s);
      var m :| IsFirst(l, s, m);
      var rest := InOrder(l, s - {m});
      assert ToSet([m] + rest) == {m} + ToSet(rest);
      [m] + rest
  }

  lemma {:induction false} InOrderUnfold(l: Log, s: set<Hash>, m: Hash)
    requires s <= l.Keys && IsFirst(l, s, m)
    ensures InOrder(l, s) == [m] + InOrder(l, s - {m})
  {
    FirstExists(l, s);
    var f := InOrder(l, s)[0];
    assert IsFirst(l, s, f);
    assert f == m;
  }

  /** Library sorting of a list of distinct hashes, as insertion. */
  function Insert(l: Log, x: Hash, sorted: seq<Hash>): (r: seq<Hash>)
    requires x in l && forall y :: y in sorted ==> y in l
    ensures forall y :: y in r <==> y == x || y in sorted
  {
    if sorted == [] || Precedes(l, x, sorted[0]) then [x] + sorted
    else [sorted[0]] + Insert(l, x, sorted[1..])
  }

  function Sorted(l: Log, xs: seq<Hash>): (r: seq<Hash>)
    requires forall x :: x in xs ==> x in l
    ensures forall y :: y in r <==> y in xs
  {
    if xs == [] then [] else Insert(l, xs[|xs| - 1], Sorted(l, xs[..|xs| - 1]))
  }

  lemma {:induction false} InsertInOrder(l: Log, x: Hash, s: set<Hash>)
    requires s <= l.Keys && x in l && x !in s
    ensures Insert(l, x, InOrder(l, s)) == InOrder(l, s + {x})
    decreases s
  {
    if s == {} || IsFirst(l, s + {x}, x) {
      InsertFirst(l, x, s);
    } else {
      FirstExists(l, s);
      var m :| IsFirst(l, s, m);
      InsertInOrder(l, x, s - {m});
      InsertLater(l, x, s, m, s - {m}, s + {x}, (s - {m}) + {x});
    }
  }

  lemma {:induction false} InsertLater(l: Log, x: Hash, s: set<Hash>, m: Hash, s': set<Hash>, t: set<Hash>, t': set<Hash>)
    requires s <= l.Keys && x in l && x !in s && IsFirst(l, s, m)
    requires s' == s - {m} && t == s + {x} && t' == s' + {x} && !IsFirst(l, t, x)
    requires Insert(l, x, InOrder(l, s')) == InOrder(l, t')
    ensures Insert(l, x, InOrder(l, s)) == InOrder(l, t)
  {
    NotFirst(l, x, s, m);
    assert IsFirst(l, t, m) && t - {m} == t';
    InOrderUnfold(l, s, m);
    InOrderUnfold(l, t, m);
    InsertHead(l, x, m, InOrder(l, s'));
  }

  lemma {:induction false} NotFirst(l: Log, x: Hash, s: set<Hash>, m: Hash)
    requires s <= l.Keys && x in l && x !in s && IsFirst(l, s, m) && !IsFirst(l, s + {x}, x)
    ensures !Precedes(l, x, m)
  {
    if Precedes(l, x, m) {
      forall y | y in s + {x} && y != x ensures Precedes(l, x, y) { assert y == m || Precedes(l, m, y); }
    }
  }

  lemma {:induction false} InsertFirst(l: Log, x: Hash, s: set<Hash>)
    requires s <= l.Keys && x in l && x !in s && (s == {} || IsFirst(l, s + {x}, x))
    ensures Insert(l, x, InOrder(l, s)) == InOrder(l, s + {x})
  {
    assert IsFirst(l, s + {x}, x);
    InOrderUnfold(l, s + {x}, x);
    assert s + {x} - {x} == s;
    if s != {} {
      assert InOrder(l, s)[0] in ToSet(InOrder(l, s));
    }
  }

  lemma {:induction false} InsertHead(l: Log, x: Hash, m: Hash, rest: seq<Hash>)
    requires x in l && m in l && forall y :: y in ToSet(rest) ==> y in l
    ensures Insert(l, x, [m] + rest) == if Precedes(l, x, m) then [x] + ([m] + rest) else [m] + Insert(l, x, rest)
  {
    assert ([m] + rest)[1..] == rest;
  }

  /** Sorting forgets the order it was given: any listing of a set sorts to the same sequence. */
  lemma {:induction false} SortedIsCanonical(l: Log, xs: seq<Hash>)
    requires NoDup(xs) && forall x :: x in xs ==> x in l
    ensures Sorted(l, xs) == InOrder(l, ToSet(xs))
  {
    if xs != [] {
      var init, x := xs[..|xs| - 1], xs[|xs| - 1];
      assert xs == init + [x];
      assert ToSet(xs) == ToSet(init) + {x};
      SortedIsCanonical(l, init);
      InsertInOrder(l, x, ToSet(init));
    }
  }

  // -- The specification of Kahn's algorithm -----------------------------------------------------------

  ghost function ParentsIn(l: Log, s: set<Hash>, c: Hash): set<Hash>
    requires c in l
  {
    ToSet(l[c].next) * s
  }

  /** No predecessor inside `s` is named twice. */
  ghost predicate DistinctIn(l: Log, s: set<Hash>, c: Hash)
    requires c in l
  {
    DistinctWithin(l[c].next, s)
  }

  /** Emitting `c` is allowed once these are out. */
  ghost predicate Unlocked(l: Log, s: set<Hash>, out: set<Hash>, c: Hash)
    requires c in l
  {
    DistinctIn(l, s, c) && ParentsIn(l, s, c) <= out
  }

  /** What emitting `h` after `out` newly unlocks. */
  ghost function Freed(l: Log, s: set<Hash>, out: set<Hash>, h: Hash): set<Hash>
    requires s <= l.Keys
  {
    set c | c in s && h in l[c].next && Unlocked(l, s, out + {h}, c)
  }

  ghost function Roots(l: Log, s: set<Hash>): set<Hash>
    requires s <= l.Keys
  {
    set c | c in s && ParentsIn(l, s, c) == {}
  }

  datatype KahnState = KahnState(queue: seq<Hash>, out: seq<Hash>)

  ghost function KahnNext(l: Log, s: set<Hash>, k: KahnState): KahnState
    requires s <= l.Keys
  {
    if k.queue == [] then k
    else
      var h := k.queue[0];
      KahnState(k.queue[1..] + InOrder(l, Freed(l, s, ToSet(k.out), h)), k.out + [h])
  }

  ghost function KahnAfter(l: Log, s: set<Hash>, n: nat): KahnState
    requires s <= l.Keys
  {
    if n == 0 then KahnState(InOrder(l, Roots(l, s)), []) else KahnNext(l, s, KahnAfter(l, s, n - 1))
  }

  lemma {:induction false} KahnAdvance(l: Log, s: set<Hash>, n: nat, queue: seq<Hash>, out: seq<Hash>)
    requires s <= l.Keys && queue != [] && KahnAfter(l, s, n) == KahnState(queue, out)
    ensures KahnAfter(l, s, n + 1) ==
      KahnState(queue[1..] + InOrder(l, Freed(l, s, ToSet(out), queue[0])), out + [queue[0]])
  {
  }

  lemma {:induction false} KahnZero(l: Log, s: set<Hash>)
    requires s <= l.Keys
    ensures KahnAfter(l, s, 0) == KahnState(InOrder(l, Roots(l, s)), [])
  {
  }

  /** The causal order of `s`: a function of the entries alone. */
  ghost function CausalOrder(l: Log, s: set<Hash>): seq<Hash>
    requires s <= l.Keys
  {
    KahnAfter(l, s, |s|).out
  }

  lemma {:induction false} CausalOrderIs(l: Log, s: set<Hash>)
    requires s <= l.Keys
    ensures CausalOrder(l, s) == KahnAfter(l, s, |s|).out
  {
  }

  // -- Its properties ------------------------------------------------------------------------------------

  /** In-subset predecessors come first. */
  ghost predicate ParentsFirst(l: Log, s: set<Hash>, out: seq<Hash>)
    requires s <= l.Keys && ToSet(out) <= s
  {
    forall i :: 0 <= i < |out| ==> out[i] in l && ParentsIn(l, s, out[i]) <= ToSet(out[..i])
  }

  ghost predicate KahnInv(l: Log, s: set<Hash>, queue: seq<Hash>, out: seq<Hash>)
    requires s <= l.Keys
  {
    && NoDup(out + queue)
    && ToSet(out) <= s && ToSet(queue) <= s
    && ParentsFirst(l, s, out)
    && (forall c :: c in s ==> ((c in out || c in queue) <==> Unlocked(l, s, ToSet(out), c)))
  }

  lemma {:induction false} KahnStart(l: Log, s: set<Hash>)
    requires s <= l.Keys
    ensures KahnInv(l, s, InOrder(l, Roots(l, s)), [])
  {
    var q := InOrder(l, Roots(l, s));
    assert [] + q == q;
    forall c | c in s ensures c in q <==> Unlocked(l, s, {}, c) {
      assert c in q <==> c in ToSet(q);
      assert forall i :: 0 <= i < |l[c].next| && l[c].next[i] in s ==> l[c].next[i] in ParentsIn(l, s, c);
    }
    assert ToSet<Hash>([]) == {};
  }

  lemma {:induction false} KahnStep(l: Log, s: set<Hash>, queue: seq<Hash>, out: seq<Hash>)
    requires s <= l.Keys && KahnInv(l, s, queue, out) && queue != []
    ensures |out| < |s|
    ensures queue[0] in s && queue[0] !in out
    ensures KahnInv(l, s, queue[1..] + InOrder(l, Freed(l, s, ToSet(out), queue[0])), out + [queue[0]])
  {
    var h := queue[0];
    assert h in ToSet(queue);
    assert (out + queue)[|out|] == h;
    var out' := out + [h];
    assert ToSet(out') == ToSet(out) + {h};
    assert forall x :: x in out ==> x != h by {
      forall i | 0 <= i < |out| ensures out[i] != h { assert (out + queue)[i] == out[i]; }
    }
    assert NoDup(out') by {
      forall i, j | 0 <= i < j < |out'| ensures out'[i] != out'[j] {
        assert (out + queue)[i] == out'[i] && (out + queue)[j] == out'[j];
      }
    }
    NoDupWithin(out', s);
    var freed := Freed(l, s, ToSet(out), h);
    var add := InOrder(l, freed);
    var queue' := queue[1..] + add;
    forall c | c in freed ensures c !in out && c !in queue {
      assert h in ParentsIn(l, s, c);
    }
    KahnStepDistinct(out, queue, add);
    forall c | c in s ensures (c in out' || c in queue') <==> Unlocked(l, s, ToSet(out'), c) {
      assert c in add <==> c in ToSet(add);
      assert c in queue <==> c == h || c in queue[1..] by { assert queue == [h] + queue[1..]; }
      if Unlocked(l, s, ToSet(out'), c) && !Unlocked(l, s, ToSet(out), c) {
        assert h in ParentsIn(l, s, c);
        assert c in freed;
      }
    }
    forall i | 0 <= i < |out'| ensures out'[i] in l && ParentsIn(l, s, out'[i]) <= ToSet(out'[..i]) {
      if i < |out| {
        assert out'[..i] == out[..i];
      } else {
        assert out'[..i] == out;
      }
    }
    forall x | x in ToSet(queue') ensures x in s {
      if x in queue[1..] { assert x in ToSet(queue); } else { assert x in ToSet(add); }
    }
  }

  lemma {:induction false} KahnStepDistinct(out: seq<Hash>, queue: seq<Hash>, add: seq<Hash>)
    requires NoDup(out + queue) && queue != [] && NoDup(add)
    requires forall c :: c in ToSet(add) ==> c !in out && c !in queue
    ensures NoDup((out + [queue[0]]) + (queue[1..] + add))
  {
    var all := (out + [queue[0]]) + (queue[1..] + add);
    assert all == (out + queue) + add;
    forall i, j | 0 <= i < j < |all| ensures all[i] != all[j] {
      var n := |out| + |queue|;
      if i < n <= j {
        assert add[j - n] in ToSet(add);
        assert all[i] in out || all[i] in queue;
      }
    }
  }

  lemma {:induction false} KahnReached(l: Log, s: set<Hash>, n: nat)
    requires s <= l.Keys
    ensures var k := KahnAfter(l, s, n);
      KahnInv(l, s, k.queue, k.out) && (k.queue != [] ==> |k.out| == n)
  {
    hide KahnInv, InOrder, Freed, Roots;
    if n == 0 {
      KahnStart(l, s);
    } else {
      KahnReached(l, s, n - 1);
      var k := KahnAfter(l, s, n - 1);
      if k.queue != [] { KahnStep(l, s, k.queue, k.out); }
    }
  }

  /** What the main loop needs of its head: it is a new member of the subset, and there is room for it. */
  lemma {:induction false} KahnHead(l: Log, s: set<Hash>, n: nat)
    requires s <= l.Keys
    ensures var k := KahnAfter(l, s, n);
      k.queue != [] ==> n < |s| && k.queue[0] in s && k.queue[0] !in ToSet(k.out)
  {
    KahnReached(l, s, n);
    var k := KahnAfter(l, s, n);
    if k.queue != [] { KahnStep(l, s, k.queue, k.out); }
  }

  lemma {:induction false} KahnStuck(l: Log, s: set<Hash>, n: nat, m: nat)
    requires s <= l.Keys && n <= m && KahnAfter(l, s, n).queue == []
    ensures KahnAfter(l, s, m) == KahnAfter(l, s, n)
    decreases m
  {
    if n < m { KahnStuck(l, s, n, m - 1); }
  }

  /**
   * I-05. On any subset of an acyclic log the order is duplicate-free with in-subset predecessors
   * first, and it covers the subset exactly when no entry names an in-subset predecessor twice.
   */
  lemma {:induction false} CausalOrderCorrect(l: Log, s: set<Hash>)
    requires s <= l.Keys && Founded(l)
    ensures var r := CausalOrder(l, s);
      && NoDup(r) && ToSet(r) <= s && ParentsFirst(l, s, r)
      && (ToSet(r) == s <==> forall c :: c in s ==> DistinctIn(l, s, c))
  {
    KahnReached(l, s, |s|);
    KahnHead(l, s, |s|);
    KahnCovers(l, s, CausalOrder(l, s));
  }

  lemma {:induction false} KahnCovers(l: Log, s: set<Hash>, r: seq<Hash>)
    requires s <= l.Keys && Founded(l) && KahnInv(l, s, [], r)
    ensures NoDup(r)
    ensures ToSet(r) == s <==> forall c :: c in s ==> DistinctIn(l, s, c)
  {
    assert r + [] == r;
    forall c | c in s ensures c in ToSet(r) <==> Unlocked(l, s, ToSet(r), c) {}
    if forall c :: c in s ==> DistinctIn(l, s, c) {
      var t := s - ToSet(r);
      assert HasMinimal(l, t);
      assert s == ToSet(r) + t;
    }
  }

  /** The order reads nothing outside the subset: two logs agreeing on it order it alike. */
  lemma {:induction false} InOrderLocal(a: Log, b: Log, s: set<Hash>)
    requires s <= a.Keys && s <= b.Keys && forall h :: h in s ==> a[h] == b[h]
    ensures InOrder(a, s) == InOrder(b, s)
    decreases s
  {
    if s != {} {
      FirstExists(a, s);
      var m :| IsFirst(a, s, m);
      assert IsFirst(b, s, m);
      InOrderUnfold(a, s, m);
      InOrderUnfold(b, s, m);
      InOrderLocal(a, b, s - {m});
    }
  }

  lemma {:induction false} KahnLocal(a: Log, b: Log, s: set<Hash>, n: nat)
    requires s <= a.Keys && s <= b.Keys && forall h :: h in s ==> a[h] == b[h]
    ensures KahnAfter(a, s, n) == KahnAfter(b, s, n)
  {
    if n == 0 {
      assert Roots(a, s) == Roots(b, s) by {
        forall c | c in s ensures ParentsIn(a, s, c) == ParentsIn(b, s, c) {}
      }
      InOrderLocal(a, b, Roots(a, s));
    } else {
      KahnLocal(a, b, s, n - 1);
      var k := KahnAfter(a, s, n - 1);
      if k.queue != [] {
        assert Freed(a, s, ToSet(k.out), k.queue[0]) == Freed(b, s, ToSet(k.out), k.queue[0]);
        InOrderLocal(a, b, Freed(a, s, ToSet(k.out), k.queue[0]));
      }
    }
  }

  lemma {:induction false} CausalOrderLocal(a: Log, b: Log, s: set<Hash>)
    requires s <= a.Keys && s <= b.Keys && forall h :: h in s ==> a[h] == b[h]
    ensures CausalOrder(a, s) == CausalOrder(b, s)
  {
    KahnLocal(a, b, s, |s|);
  }

  // -- Deltas ---------------------------------------------------------------------------------------------

  /** `a` occurs strictly before `b`. */
  ghost predicate ComesBefore(r: seq<Hash>, a: Hash, b: Hash) {
    exists i, j :: 0 <= i < j < |r| && r[i] == a && r[j] == b
  }

  /**
   * On the complement of an ancestor-closed set the order respects the whole of causality, not
   * just its direct links: a strict ancestor inside the delta always comes first.
   */
  lemma {:induction false} DeltaOrder(l: Log, known: set<Hash>, a: Hash, b: Hash)
    requires WellFormed(l) && DistinctParents(l) && AncestorClosed(l, known)
    requires a in l && a !in known && b in l && b !in known && a != b && Below(l, a, b)
    ensures ComesBefore(CausalOrder(l, l.Keys - known), a, b)
  {
    var p :| Joins(ParentMap(l), b, a, p);
    CausalOrderCorrect(l, l.Keys - known);
    PathComesBefore(l, known, p);
  }

  lemma {:induction false} PathComesBefore(l: Log, known: set<Hash>, p: seq<Hash>)
    requires WellFormed(l) && DistinctParents(l) && AncestorClosed(l, known)
    requires IsPath(ParentMap(l), p) && |p| > 1 && p[0] in l && p[|p| - 1] !in known
    ensures ComesBefore(CausalOrder(l, l.Keys - known), p[|p| - 1], p[0])
  {
    var s, n := l.Keys - known, |p| - 1;
    var r := CausalOrder(l, s);
    CompleteIsClosed(l);
    ClosedKeepsPath(ParentMap(l), l.Keys, p);
    assert p[n] in Succ(ParentMap(l), p[n - 1]);
    assert p[n - 1] in l && p[n] in l[p[n - 1]].next;
    var i, j := LinkComesBefore(l, s, p[n - 1], p[n]);
    if n > 1 {
      var q := p[..n];
      forall k | 0 <= k < |q| - 1 ensures q[k + 1] in Succ(ParentMap(l), q[k]) {
        assert p[k + 1] in Succ(ParentMap(l), p[k]);
      }
      PathComesBefore(l, known, q);
      var i', j' :| 0 <= i' < j' < |r| && r[i'] == q[|q| - 1] && r[j'] == q[0];
      CausalOrderCorrect(l, s);
      assert i' == j;
      assert i < j' && r[j'] == p[0];
    }
  }

  lemma {:induction false} LinkComesBefore(l: Log, s: set<Hash>, c: Hash, p: Hash) returns (i: nat, j: nat)
    requires Founded(l) && DistinctParents(l) && s <= l.Keys
    requires c in s && p in s && p in l[c].next
    ensures var r := CausalOrder(l, s); i < j < |r| && r[i] == p && r[j] == c
  {
    var r := CausalOrder(l, s);
    CausalOrderCorrect(l, s);
    assert c in ToSet(r);
    j :| 0 <= j < |r| && r[j] == c;
    assert p in ParentsIn(l, s, r[j]);
    assert p in ToSet(r[..j]);
    i :| 0 <= i < j && r[i] == p;
  }
}
