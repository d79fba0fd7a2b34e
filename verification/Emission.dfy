/**
 * The causal order said by the entries' own clocks and hashes: what is emitted sooner was freed sooner, and of
 * entries freed together the one with the smaller (physical, logical, hash) comes first.
 */
module Emission {
  import opened Base
  import opened Entries
  import opened Dag
  import opened Topo

  /** Ascending by physical time, then counter, then hash. */
  predicate Smaller(l: Log, a: Hash, b: Hash)
    requires a in l && b in l
  {
    var c, d := l[a].clock, l[b].clock;
    c.physical < d.physical || (c.physical == d.physical && (c.logical < d.logical || (c.logical == d.logical && a < b)))
  }

  ghost predicate Ascending(l: Log, xs: seq<Hash>) {
    forall i, j :: 0 <= i < j < |xs| ==> xs[i] in l && xs[j] in l && Smaller(l, xs[i], xs[j])
  }

  /**
   * When `c` is freed, counting what is out: 0 if it has no predecessor in `s`; else with the emission of
   * `out[i - 1]`, one of its predecessors and the last of them.
   */
  ghost predicate FreedAt(l: Log, s: set<Hash>, out: seq<Hash>, c: Hash, i: nat) {
    && c in l && i <= |out|
    && (i > 0 ==> out[i - 1] in s && out[i - 1] in l[c].next)
    && forall p :: p in l[c].next && p in s ==> p in out[..i]
  }

  ghost predicate EverFreed(l: Log, s: set<Hash>, out: seq<Hash>, c: Hash) { exists i: nat :: FreedAt(l, s, out, c, i) }

  // -- Sorting ---------------------------------------------------------------------------------------------------------

  lemma {:induction false} InOrderAscends(l: Log, s: set<Hash>)
    requires s <= l.Keys
    ensures Ascending(l, InOrder(l, s))
    decreases s
  {
    hide InOrder, IsFirst, Smaller, Ascending;
    if s == {} {
      NoneAscends(l);
    } else {
      FirstExists(l, s);
      var m :| IsFirst(l, s, m);
      InOrderUnfold(l, s, m);
      InOrderAscends(l, s - {m});
      var rest := InOrder(l, s - {m});
      forall x | x in rest ensures x in l && m in l && Smaller(l, m, x) {
        assert x in ToSet(rest);
        FirstSmaller(l, s, m, x);
      }
      FrontAscends(l, m, rest);
    }
  }

  lemma {:induction false} NoneAscends(l: Log)
    ensures Ascending(l, InOrder(l, {}))
  {
  }

  lemma {:induction false} FirstSmaller(l: Log, s: set<Hash>, m: Hash, x: Hash)
    requires s <= l.Keys && IsFirst(l, s, m) && x in s && x != m
    ensures m in l && Smaller(l, m, x)
  {
  }

  lemma {:induction false} FrontAscends(l: Log, m: Hash, rest: seq<Hash>)
    requires Ascending(l, rest) && m in l && forall x :: x in rest ==> x in l && Smaller(l, m, x)
    ensures Ascending(l, [m] + rest)
  {
    hide Smaller;
    var xs := [m] + rest;
    forall i, j | 0 <= i < j < |xs| ensures xs[i] in l && xs[j] in l && Smaller(l, xs[i], xs[j]) {
      assert xs[j] == rest[j - 1];
      if i > 0 { assert xs[i] == rest[i - 1]; }
    }
  }

  // -- Kahn's queue in stages ------------------------------------------------------------------------------------------

  /** The stages at which the emitted and the waiting were freed never decrease, and each stage is ascending. */
  ghost predicate Staged(l: Log, s: set<Hash>, queue: seq<Hash>, out: seq<Hash>, stages: seq<nat>) {
    var all := out + queue;
    && |stages| == |all|
    && (forall j :: 0 <= j < |all| ==> FreedAt(l, s, out, all[j], stages[j]))
    && (forall j, k :: 0 <= j < k < |all| ==> stages[j] <= stages[k])
    && (forall j, k :: 0 <= j < k < |all| && stages[j] == stages[k] ==> all[j] in l && all[k] in l && Smaller(l, all[j], all[k]))
  }

  lemma {:induction false} FreedStays(l: Log, s: set<Hash>, out: seq<Hash>, h: Hash, c: Hash, i: nat)
    requires FreedAt(l, s, out, c, i)
    ensures FreedAt(l, s, out + [h], c, i)
  {
    assert (out + [h])[..i] == out[..i];
  }

  lemma {:induction false} FreedNow(l: Log, s: set<Hash>, out: seq<Hash>, h: Hash, c: Hash)
    requires s <= l.Keys && h in s && c in Freed(l, s, ToSet(out), h)
    ensures FreedAt(l, s, out + [h], c, |out| + 1)
  {
    var out' := out + [h];
    assert out'[..|out| + 1] == out';
    forall p | p in l[c].next && p in s ensures p in out' {
      assert p in ParentsIn(l, s, c);
      assert p in ToSet(out) + {h};
    }
  }

  lemma {:induction false} RootFreed(l: Log, s: set<Hash>, c: Hash)
    requires s <= l.Keys && c in Roots(l, s)
    ensures FreedAt(l, s, [], c, 0)
  {
    assert forall p :: p in ParentsIn(l, s, c) <==> p in l[c].next && p in s;
  }

  lemma {:induction false} StagedStart(l: Log, s: set<Hash>)
    requires s <= l.Keys
    ensures var q := InOrder(l, Roots(l, s)); Staged(l, s, q, [], seq(|q|, _ => 0))
  {
    hide ParentsIn, Smaller, InOrder, FreedAt;
    var q := InOrder(l, Roots(l, s));
    InOrderAscends(l, Roots(l, s));
    assert [] + q == q;
    forall j | 0 <= j < |q| ensures FreedAt(l, s, [], q[j], 0) {
      assert q[j] in ToSet(q);
      RootFreed(l, s, q[j]);
    }
  }

  lemma {:induction false} StagedNext(l: Log, s: set<Hash>, queue: seq<Hash>, out: seq<Hash>, stages: seq<nat>)
    requires s <= l.Keys && queue != [] && queue[0] in s && Staged(l, s, queue, out, stages)
    ensures var add := InOrder(l, Freed(l, s, ToSet(out), queue[0]));
      Staged(l, s, queue[1..] + add, out + [queue[0]], stages + seq(|add|, _ => |out| + 1))
  {
    hide Unlocked, Smaller, FreedAt;
    var h := queue[0];
    var add := InOrder(l, Freed(l, s, ToSet(out), h));
    var all, stages' := out + queue, stages + seq(|add|, _ => |out| + 1);
    var all' := (out + [h]) + (queue[1..] + add);
    assert all' == all + add;
    InOrderAscends(l, Freed(l, s, ToSet(out), h));
    forall j | 0 <= j < |all'| ensures FreedAt(l, s, out + [h], all'[j], stages'[j]) {
      if j < |all| {
        FreedStays(l, s, out, h, all[j], stages[j]);
      } else {
        assert add[j - |all|] in ToSet(add);
        FreedNow(l, s, out, h, all'[j]);
      }
    }
    forall j | 0 <= j < |all| ensures stages[j] <= |out| { FreedBounded(l, s, out, all[j], stages[j]); }
  }

  lemma {:induction false} FreedBounded(l: Log, s: set<Hash>, out: seq<Hash>, c: Hash, i: nat)
    requires FreedAt(l, s, out, c, i)
    ensures i <= |out| && c in l
  {
  }

  lemma {:induction false} KahnStaged(l: Log, s: set<Hash>, n: nat) returns (stages: seq<nat>)
    requires s <= l.Keys
    ensures var k := KahnAfter(l, s, n); Staged(l, s, k.queue, k.out, stages)
  {
    hide Staged, InOrder, Unlocked, ParentsIn;
    if n == 0 {
      var q := InOrder(l, Roots(l, s));
      StagedStart(l, s);
      stages := seq(|q|, _ => 0);
    } else {
      stages := KahnStaged(l, s, n - 1);
      var k := KahnAfter(l, s, n - 1);
      if k.queue != [] {
        KahnHead(l, s, n - 1);
        StagedNext(l, s, k.queue, k.out, stages);
        stages := stages + seq(|InOrder(l, Freed(l, s, ToSet(k.out), k.queue[0]))|, _ => |k.out| + 1);
      }
    }
  }

  // -- The order -------------------------------------------------------------------------------------------------------

  lemma {:induction false} FreedOnce(l: Log, s: set<Hash>, out: seq<Hash>, c: Hash, i: nat, j: nat)
    requires NoDup(out) && FreedAt(l, s, out, c, i) && FreedAt(l, s, out, c, j)
    ensures i == j
  {
  }

  /**
   * The whole order, for every subset of every log: each member emitted was freed at some point, and of two
   * the one freed earlier comes first, or, freed together, the one with the smaller (physical, logical, hash).
   */
  lemma {:induction false} EmissionOrder(l: Log, s: set<Hash>)
    requires s <= l.Keys
    ensures var r := CausalOrder(l, s);
      && (forall j :: 0 <= j < |r| ==> EverFreed(l, s, r, r[j]))
      && (forall j, k, a: nat, b: nat :: 0 <= j < k < |r| && FreedAt(l, s, r, r[j], a) && FreedAt(l, s, r, r[k], b) ==>
            a < b || (a == b && Smaller(l, r[j], r[k])))
  {
    hide FreedAt, Smaller, KahnAfter;
    CausalOrderIs(l, s);
    var stages := KahnStaged(l, s, |s|);
    KahnHead(l, s, |s|);
    KahnReached(l, s, |s|);
    var r := CausalOrder(l, s);
    assert Staged(l, s, [], r, stages) && r + [] == r;
    forall j | 0 <= j < |r| ensures EverFreed(l, s, r, r[j]) { assert FreedAt(l, s, r, (r + [])[j], stages[j]); }
    forall j, k, a: nat, b: nat | 0 <= j < k < |r| && FreedAt(l, s, r, r[j], a) && FreedAt(l, s, r, r[k], b)
      ensures r[j] in l && r[k] in l && (a < b || (a == b && Smaller(l, r[j], r[k])))
    {
      FreedBounded(l, s, r, r[j], a);
      FreedBounded(l, s, r, r[k], b);
      assert FreedAt(l, s, r, (r + [])[j], stages[j]) && FreedAt(l, s, r, (r + [])[k], stages[k]);
      FreedOnce(l, s, r, r[j], a, stages[j]);
      FreedOnce(l, s, r, r[k], b, stages[k]);
    }
  }

  /** Roots of the subset come first, ascending. */
  lemma {:induction false} RootsAscend(l: Log, s: set<Hash>, j: nat, k: nat)
    requires s <= l.Keys && j < k < |CausalOrder(l, s)| && CausalOrder(l, s)[k] in l
    requires forall p :: p in l[CausalOrder(l, s)[k]].next ==> p !in s
    ensures var r := CausalOrder(l, s);
      r[j] in l && (forall p :: p in l[r[j]].next ==> p !in s) && Smaller(l, r[j], r[k])
  {
    hide CausalOrder, Smaller;
    EmissionOrder(l, s);
    var r := CausalOrder(l, s);
    var a: nat :| FreedAt(l, s, r, r[j], a);
    assert FreedAt(l, s, r, r[k], 0);
    assert r[..0] == [];
  }

  /** Entries of which none names another come out ascending, all of them. */
  lemma {:induction false} UnrelatedAscend(l: Log, s: set<Hash>)
    requires s <= l.Keys && Founded(l) && forall c, p :: c in s && p in l[c].next ==> p !in s
    ensures Ascending(l, CausalOrder(l, s)) && ToSet(CausalOrder(l, s)) == s
  {
    hide CausalOrder, Founded, Smaller;
    CausalOrderCorrect(l, s);
    var r := CausalOrder(l, s);
    forall j | 0 <= j < |r| ensures r[j] in s { assert r[j] in ToSet(r); }
    forall j, k | 0 <= j < k < |r| ensures r[j] in l && r[k] in l && Smaller(l, r[j], r[k]) { RootsAscend(l, s, j, k); }
  }
}
