/** Small shared vocabulary: results, duplicate-free sequences and their cardinality. */
module Base {

  datatype Option<+T> = None | Some(value: T)

  datatype Result<+T, +E> = Ok(value: T) | Err(error: E)

  /** Machine integers of the source, as ranges. */
  const U32_MAX: int := 0xFFFF_FFFF
  const TWO_64: int := 0x1_0000_0000_0000_0000

  type u32 = x: int | 0 <= x <= U32_MAX
  type u64 = x: int | 0 <= x < TWO_64

  function ToSet<T>(xs: seq<T>): set<T> { set x | x in xs }

  lemma {:induction false} ToSetSnoc<T>(xs: seq<T>, x: T)
    ensures ToSet(xs + [x]) == ToSet(xs) + {x}
  {
  }

  lemma {:induction false} NothingListed<T>(xs: seq<T>)
    ensures ToSet(xs) == {} <==> xs == []
  {
    if xs != [] { assert xs[0] in ToSet(xs); }
  }

  lemma {:induction false} MapsAgree<K, V>(a: map<K, V>, b: map<K, V>)
    requires a.Keys == b.Keys && forall k :: k in a ==> a[k] == b[k]
    ensures a == b
  {
  }

  predicate NoDup<T(==)>(xs: seq<T>) { forall i, j :: 0 <= i < j < |xs| ==> xs[i] != xs[j] }

  lemma {:induction false} NothingYet<T>()
    ensures NoDup<T>([]) && ToSet<T>([]) == {}
  {
  }

  lemma {:induction false} NoDupSize<T>(xs: seq<T>)
    requires NoDup(xs)
    ensures |ToSet(xs)| == |xs|
  {
    if xs != [] {
      var n := |xs| - 1;
      NoDupSize(xs[..n]);
      assert xs == xs[..n] + [xs[n]];
      assert ToSet(xs) == ToSet(xs[..n]) + {xs[n]};
    }
  }

  lemma {:induction false} MinusEmpty<T>(a: set<T>, b: set<T>)
    ensures a - b == {} <==> a <= b
  {
    if a - b == {} {
      forall x | x in a ensures x in b { assert x !in a - b; }
    }
  }

  lemma {:induction false} SubsetSize<T>(a: set<T>, b: set<T>)
    requires a <= b
    ensures |a| <= |b|
    ensures |a| == |b| ==> a == b
  {
    assert b == a + (b - a);
  }

  /** A duplicate-free sequence over a set is no longer than the set, and exhausts it at equal length. */
  lemma {:induction false} NoDupWithin<T>(xs: seq<T>, s: set<T>)
    requires NoDup(xs) && ToSet(xs) <= s
    ensures |xs| <= |s|
    ensures |xs| == |s| ==> ToSet(xs) == s
  {
    NoDupSize(xs);
    SubsetSize(ToSet(xs), s);
  }

  /** Pigeonhole: a sequence longer than the set it ranges over repeats an element. */
  lemma {:induction false} Pigeonhole<T>(xs: seq<T>, s: set<T>) returns (i: nat, j: nat)
    requires ToSet(xs) <= s && |xs| > |s|
    ensures i < j < |xs| && xs[i] == xs[j]
  {
    if NoDup(xs) { NoDupWithin(xs, s); }
    i, j :| 0 <= i < j < |xs| && xs[i] == xs[j];
  }

  /** Some member, always the same one. */
  ghost function Pick<T>(s: set<T>): (x: T)
    requires s != {}
    ensures x in s
  {
    var x :| x in s;
    x
  }

  /** Some duplicate-free listing of a finite set. */
  ghost function Listing<T>(s: set<T>): (xs: seq<T>)
    ensures NoDup(xs) && ToSet(xs) == s
  {
    if s == {} then []
    else
      var x := Pick(s);
      var rest := Listing(s - {x});
      assert ToSet([x] + rest) == {x} + ToSet(rest);
      [x] + rest
  }

  /** No member of `s` occurs twice in `xs`. */
  predicate DistinctWithin<T(==)>(xs: seq<T>, s: set<T>) {
    forall i, j :: 0 <= i < j < |xs| && xs[i] in s ==> xs[i] != xs[j]
  }

  lemma {:induction false} DistinctWithinSnoc<T>(xs: seq<T>, x: T, s: set<T>)
    ensures DistinctWithin(xs + [x], s) <==> DistinctWithin(xs, s) && !(x in s && x in xs)
  {
    var ys := xs + [x];
    if DistinctWithin(ys, s) {
      forall i, j | 0 <= i < j < |xs| && xs[i] in s ensures xs[i] != xs[j] { assert ys[i] == xs[i] && ys[j] == xs[j]; }
      forall i | 0 <= i < |xs| && xs[i] in s ensures xs[i] != x { assert ys[i] != ys[|xs|]; }
    }
  }

  /** Occurrences of members of `s`, counted with multiplicity. */
  function CountIn<T(==)>(xs: seq<T>, s: set<T>): nat {
    if xs == [] then 0 else (if xs[|xs| - 1] in s then 1 else 0) + CountIn(xs[..|xs| - 1], s)
  }

  /** The multiplicity count equals the number of distinct members exactly when none repeats. */
  lemma {:induction false} CountInDistinct<T>(xs: seq<T>, s: set<T>)
    ensures |ToSet(xs) * s| <= CountIn(xs, s)
    ensures |ToSet(xs) * s| == CountIn(xs, s) <==> DistinctWithin(xs, s)
  {
    if xs != [] {
      var n := |xs| - 1;
      var init, x := xs[..n], xs[n];
      assert xs == init + [x];
      CountInDistinct(init, s);
      DistinctWithinSnoc(init, x, s);
      assert ToSet(xs) * s == (ToSet(init) * s) + (if x in s then {x} else {});
      assert x in ToSet(init) <==> x in init;
    }
  }
}
