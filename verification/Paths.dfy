/** Paths and reachability in a finite directed graph given by its successor map. */
module Paths {
  import opened Base

  /** The successors of a vertex; a vertex outside the map has none. */
  function Succ<V>(g: map<V, set<V>>, v: V): set<V> { if v in g then g[v] else {} }

  ghost predicate IsPath<V>(g: map<V, set<V>>, p: seq<V>) {
    |p| > 0 && forall i :: 0 <= i < |p| - 1 ==> p[i + 1] in Succ(g, p[i])
  }

  ghost predicate Joins<V>(g: map<V, set<V>>, a: V, b: V, p: seq<V>) {
    IsPath(g, p) && p[0] == a && p[|p| - 1] == b
  }

  ghost predicate Reaches<V(!new)>(g: map<V, set<V>>, a: V, b: V) { exists p :: Joins(g, a, b, p) }

  /** `b` is at most `d` steps from `a`. */
  ghost predicate Within<V(!new)>(g: map<V, set<V>>, a: V, b: V, d: nat) {
    exists p :: Joins(g, a, b, p) && |p| <= d + 1
  }

  ghost predicate ClosedUnder<V>(g: map<V, set<V>>, s: set<V>) { forall v :: v in s ==> Succ(g, v) <= s }

  lemma {:induction false} ReachesSelf<V(!new)>(g: map<V, set<V>>, a: V)
    ensures Reaches(g, a, a)
    ensures Within(g, a, a, 0)
  {
    assert Joins(g, a, a, [a]);
  }

  lemma {:induction false} JoinsExtend<V>(g: map<V, set<V>>, a: V, b: V, c: V, p: seq<V>)
    requires Joins(g, a, b, p) && c in Succ(g, b)
    ensures Joins(g, a, c, p + [c])
  {
  }

  lemma {:induction false} ReachesStep<V(!new)>(g: map<V, set<V>>, a: V, b: V, c: V)
    requires Reaches(g, a, b) && c in Succ(g, b)
    ensures Reaches(g, a, c)
  {
    var p :| Joins(g, a, b, p);
    JoinsExtend(g, a, b, c, p);
  }

  /** A set closed under successors keeps every path that starts in it. */
  lemma {:induction false} ClosedKeepsPath<V>(g: map<V, set<V>>, s: set<V>, p: seq<V>)
    requires ClosedUnder(g, s) && IsPath(g, p) && p[0] in s
    ensures forall i :: 0 <= i < |p| ==> p[i] in s
  {
    if |p| > 1 {
      ClosedKeepsPath(g, s, p[..|p| - 1]);
      assert p[|p| - 2] == p[..|p| - 1][|p| - 2];
      assert p[|p| - 1] in Succ(g, p[|p| - 2]);
    }
  }

  lemma {:induction false} ClosedKeepsReach<V(!new)>(g: map<V, set<V>>, s: set<V>, a: V, b: V)
    requires ClosedUnder(g, s) && a in s && Reaches(g, a, b)
    ensures b in s
  {
    var p :| Joins(g, a, b, p);
    ClosedKeepsPath(g, s, p);
  }

  /** Reversing every edge. */
  ghost predicate Opposite<V(!new)>(g: map<V, set<V>>, h: map<V, set<V>>) {
    forall a, b :: b in Succ(g, a) <==> a in Succ(h, b)
  }

  ghost function Backwards<V>(p: seq<V>): seq<V> { seq(|p|, i requires 0 <= i < |p| => p[|p| - 1 - i]) }

  lemma {:induction false} OppositeWithin<V(!new)>(g: map<V, set<V>>, h: map<V, set<V>>, a: V, b: V, d: nat)
    requires Opposite(g, h) && Within(g, a, b, d)
    ensures Within(h, b, a, d)
  {
    var p :| Joins(g, a, b, p) && |p| <= d + 1;
    var q := Backwards(p);
    forall i | 0 <= i < |q| - 1 ensures q[i + 1] in Succ(h, q[i]) {
      var k := |p| - 2 - i;
      assert q[i] == p[k + 1] && q[i + 1] == p[k];
      assert p[k + 1] in Succ(g, p[k]);
    }
    assert Joins(h, b, a, q);
  }

  /** A closed walk of at least one step. */
  ghost predicate IsCycle<V>(g: map<V, set<V>>, p: seq<V>) { IsPath(g, p) && |p| > 1 && p[0] == p[|p| - 1] }

  ghost predicate Acyclic<V(!new)>(g: map<V, set<V>>) { forall p :: !IsCycle(g, p) }

  /** Some member of `t` leads to `v`. */
  ghost predicate Fed<V(!new)>(g: map<V, set<V>>, t: set<V>, v: V) { exists u :: u in t && v in Succ(g, u) }

  ghost predicate EveryoneFed<V(!new)>(g: map<V, set<V>>, t: set<V>) {
    forall v {:trigger Fed(g, t, v)} :: v in t ==> Fed(g, t, v)
  }

  /** Walking predecessors inside `t` for `n` steps. */
  lemma {:induction false} WalkBack<V(!new)>(g: map<V, set<V>>, t: set<V>, n: nat) returns (p: seq<V>)
    requires t != {} && EveryoneFed(g, t)
    ensures IsPath(g, p) && |p| == n + 1 && ToSet(p) <= t
  {
    if n == 0 {
      var v :| v in t;
      p := [v];
    } else {
      var q := WalkBack(g, t, n - 1);
      assert q[0] in ToSet(q);
      assert Fed(g, t, q[0]);
      var u :| u in t && q[0] in Succ(g, u);
      p := [u] + q;
      forall i | 0 <= i < |p| - 1 ensures p[i + 1] in Succ(g, p[i]) {
        if i > 0 { assert p[i] == q[i - 1] && p[i + 1] == q[i]; }
      }
      assert ToSet(p) == {u} + ToSet(q);
    }
  }

  /** A finite non-empty set in which everything has a predecessor contains a cycle. */
  lemma {:induction false} CycleInside<V(!new)>(g: map<V, set<V>>, t: set<V>) returns (c: seq<V>)
    requires t != {} && EveryoneFed(g, t)
    ensures IsCycle(g, c) && ToSet(c) <= t
  {
    var p := WalkBack(g, t, |t|);
    var i, j := Pigeonhole(p, t);
    c := p[i..j + 1];
    forall k | 0 <= k < |c| - 1 ensures c[k + 1] in Succ(g, c[k]) {
      assert c[k] == p[i + k] && c[k + 1] == p[i + k + 1];
    }
    forall x | x in ToSet(c) ensures x in t { assert x in ToSet(p); }
  }

  /** Wherever there is a path there is one that visits nothing twice. */
  lemma {:induction false} SimplePath<V(!new)>(g: map<V, set<V>>, a: V, b: V, p: seq<V>) returns (q: seq<V>)
    requires Joins(g, a, b, p)
    ensures Joins(g, a, b, q) && NoDup(q) && |q| <= |p|
    decreases |p|
  {
    if NoDup(p) {
      q := p;
    } else {
      var i, j :| 0 <= i < j < |p| && p[i] == p[j];
      var r := p[..i] + p[j..];
      forall k | 0 <= k < |r| - 1 ensures r[k + 1] in Succ(g, r[k]) {
        if k < i {
          assert r[k] == p[k] && p[k + 1] in Succ(g, p[k]);
          assert r[k + 1] == p[k + 1];
        } else {
          var m := j + (k - i);
          assert r[k] == p[m] && r[k + 1] == p[m + 1] && p[m + 1] in Succ(g, p[m]);
        }
      }
      q := SimplePath(g, a, b, r);
    }
  }
}
