/** The causal order is stable: entries that arrive later never change the order of those already there. */
module Stability {
  import opened Base
  import opened Entries
  import opened Dag
  import opened Topo
  import opened Sync

  /** Predecessors that members of `t` have in `s` are in `t`. */
  ghost predicate ClosedIn(l: Log, s: set<Hash>, t: set<Hash>)
    requires s <= l.Keys
  {
    t <= s && forall c, p :: c in t && p in l[c].next && p in s ==> p in t
  }

  lemma {:induction false} KeepSnoc(xs: seq<Hash>, x: Hash, t: set<Hash>)
    ensures Keep(xs + [x], t) == Keep(xs, t) + (if x in t then [x] else [])
  {
    assert (xs + [x])[..|xs|] == xs;
  }

  lemma {:induction false} KeepConcat(xs: seq<Hash>, ys: seq<Hash>, t: set<Hash>)
    ensures Keep(xs + ys, t) == Keep(xs, t) + Keep(ys, t)
  {
    hide Keep;
    if ys == [] {
      KeepNone(t);
      assert xs + ys == xs;
    } else {
      var init, y := ys[..|ys| - 1], ys[|ys| - 1];
      assert ys == init + [y] && xs + ys == (xs + init) + [y];
      KeepConcat(xs, init, t);
      KeepSnoc(xs + init, y, t);
      KeepSnoc(init, y, t);
    }
  }

  lemma {:induction false} KeepOne(x: Hash, t: set<Hash>)
    ensures Keep([x], t) == if x in t then [x] else []
  {
    assert [x][..0] == [];
  }

  lemma {:induction false} KeepSorted(l: Log, x: set<Hash>, t: set<Hash>)
    requires x <= l.Keys
    ensures Keep(InOrder(l, x), t) == InOrder(l, x * t)
    decreases x
  {
    if x == {} {
      assert x * t == {};
    } else {
      FirstExists(l, x);
      var m :| IsFirst(l, x, m);
      InOrderUnfold(l, x, m);
      KeepConcat([m], InOrder(l, x - {m}), t);
      KeepOne(m, t);
      KeepSorted(l, x - {m}, t);
      if m in t {
        assert IsFirst(l, x * t, m) && (x - {m}) * t == x * t - {m};
        InOrderUnfold(l, x * t, m);
      } else {
        assert (x - {m}) * t == x * t;
      }
    }
  }

  lemma {:induction false} UnlockedIn(l: Log, s: set<Hash>, t: set<Hash>, out: set<Hash>, c: Hash)
    requires s <= l.Keys && ClosedIn(l, s, t) && c in t
    ensures Unlocked(l, s, out, c) <==> Unlocked(l, t, out * t, c)
    ensures ParentsIn(l, s, c) == ParentsIn(l, t, c)
  {
    var next := l[c].next;
    forall p | p in next ensures p in s <==> p in t {}
    assert ParentsIn(l, s, c) == ParentsIn(l, t, c);
    assert ParentsIn(l, s, c) <= t;
    assert DistinctWithin(next, s) <==> DistinctWithin(next, t);
  }

  lemma {:induction false} RootsIn(l: Log, s: set<Hash>, t: set<Hash>)
    requires s <= l.Keys && ClosedIn(l, s, t)
    ensures Roots(l, s) * t == Roots(l, t)
  {
    hide ParentsIn, Unlocked;
    forall c | c in t ensures ParentsIn(l, s, c) == ParentsIn(l, t, c) { UnlockedIn(l, s, t, {}, c); }
  }

  lemma {:induction false} FreedIn(l: Log, s: set<Hash>, t: set<Hash>, out: set<Hash>, h: Hash)
    requires s <= l.Keys && ClosedIn(l, s, t) && h in s
    ensures Freed(l, s, out, h) * t == if h in t then Freed(l, t, out * t, h) else {}
  {
    hide Unlocked, ParentsIn;
    forall c | c in t ensures h in t ==> (Unlocked(l, s, out + {h}, c) <==> Unlocked(l, t, out * t + {h}, c)) {
      UnlockedIn(l, s, t, out + {h}, c);
      if h in t { assert (out + {h}) * t == out * t + {h}; }
    }
  }

  function Restricted(k: KahnState, t: set<Hash>): KahnState { KahnState(Keep(k.queue, t), Keep(k.out, t)) }

  lemma {:induction false} KeepSet(xs: seq<Hash>, t: set<Hash>)
    ensures ToSet(Keep(xs, t)) == ToSet(xs) * t
  {
  }

  /** One step of the larger run is one step of the smaller, or none. */
  lemma {:induction false} StepRestricted(l: Log, s: set<Hash>, t: set<Hash>, k: KahnState)
    requires s <= l.Keys && ClosedIn(l, s, t) && k.queue != [] && k.queue[0] in s
    ensures Restricted(KahnNext(l, s, k), t) == if k.queue[0] in t then KahnNext(l, t, Restricted(k, t)) else Restricted(k, t)
  {
    hide Unlocked, InOrder, Keep;
    var h, rest := k.queue[0], k.queue[1..];
    var freed := Freed(l, s, ToSet(k.out), h);
    assert k.queue == [h] + rest;
    KeepConcat([h], rest, t);
    KeepOne(h, t);
    KeepConcat(rest, InOrder(l, freed), t);
    KeepConcat(k.out, [h], t);
    KeepSorted(l, freed, t);
    FreedIn(l, s, t, ToSet(k.out), h);
    KeepSet(k.out, t);
    if h in t {
      assert Restricted(k, t).queue[1..] == Keep(rest, t);
    } else {
      NoneInOrder(l);
    }
  }

  lemma {:induction false} NoneInOrder(l: Log)
    ensures InOrder(l, {}) == []
  {
  }

  lemma {:induction false} RunRestricted(l: Log, s: set<Hash>, t: set<Hash>, n: nat) returns (m: nat)
    requires s <= l.Keys && ClosedIn(l, s, t)
    ensures KahnAfter(l, t, m) == Restricted(KahnAfter(l, s, n), t)
  {
    hide KahnNext, InOrder, Keep, ParentsIn;
    if n == 0 {
      m := 0;
      KahnZero(l, s);
      KahnZero(l, t);
      KeepSorted(l, Roots(l, s), t);
      RootsIn(l, s, t);
      KeepNone(t);
    } else {
      m := RunRestricted(l, s, t, n - 1);
      var k := KahnAfter(l, s, n - 1);
      if k.queue == [] {
        KahnStuck(l, s, n - 1, n);
      } else {
        KahnHead(l, s, n - 1);
        StepRestricted(l, s, t, k);
        if k.queue[0] in t { m := m + 1; }
      }
    }
  }

  lemma {:induction false} KeepNone(t: set<Hash>)
    ensures Keep([], t) == []
  {
  }

  /** The order of a part that is closed under predecessors is the order of the whole, less the rest. */
  lemma {:induction false} OrderStable(l: Log, s: set<Hash>, t: set<Hash>)
    requires s <= l.Keys && ClosedIn(l, s, t)
    ensures Keep(CausalOrder(l, s), t) == CausalOrder(l, t)
  {
    hide KahnAfter, Keep;
    var m := RunRestricted(l, s, t, |s|);
    KahnHead(l, s, |s|);
    KeepNone(t);
    KahnHead(l, t, |t|);
    CausalOrderIs(l, s);
    CausalOrderIs(l, t);
    if m <= |t| { KahnStuck(l, t, m, |t|); } else { KahnStuck(l, t, |t|, m); }
  }

  /** A log that grows keeps its entries in the order they had. */
  lemma {:induction false} GrowthKeepsOrder(l: Log, l': Log)
    requires Complete(l) && Sublog(l, l')
    ensures Keep(CausalOrder(l', l'.Keys), l.Keys) == CausalOrder(l, l.Keys)
  {
    hide CausalOrder;
    OrderStable(l', l'.Keys, l.Keys);
    CausalOrderLocal(l, l', l.Keys);
  }
}
