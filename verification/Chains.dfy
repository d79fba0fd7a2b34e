/** Logs that are a single line of entries: their causal order is the line itself. */
module Chains {
  import opened Base
  import opened Entries
  import opened Dag
  import opened Topo

  function Before(line: seq<Hash>, i: nat): seq<Hash>
    requires i < |line|
  {
    if i == 0 then [] else [line[i - 1]]
  }

  /** `line` lists the log, each entry naming just the one before it. */
  ghost predicate IsChain(l: Log, line: seq<Hash>) {
    && NoDup(line) && ToSet(line) == l.Keys && Keyed(l)
    && (forall i :: 0 <= i < |line| ==> line[i] in l && l[line[i]].next == Before(line, i))
  }

  lemma {:induction false} ChainWellFormed(l: Log, line: seq<Hash>)
    requires IsChain(l, line)
    ensures WellFormed(l) && DistinctParents(l)
  {
    forall h | h in l ensures forall p :: p in l[h].next ==> p in l { ChainLink(l, line, h); }
    forall t: set<Hash> ensures HasMinimal(l, t) {
      if t != {} && t <= l.Keys {
        var x :| x in t;
        assert x in ToSet(line);
        var k :| 0 <= k < |line| && line[k] == x;
        ChainMinimal(l, line, t, k);
      }
    }
    forall h | h in l ensures NoDup(l[h].next) { ChainLink(l, line, h); }
  }

  lemma {:induction false} ChainLink(l: Log, line: seq<Hash>, h: Hash)
    requires IsChain(l, line) && h in l
    ensures |l[h].next| <= 1 && forall p :: p in l[h].next ==> p in l
  {
    assert h in ToSet(line);
    var i :| 0 <= i < |line| && line[i] == h;
    assert l[line[i]].next == Before(line, i);
    if i > 0 { assert line[i - 1] in ToSet(line); }
  }

  lemma {:induction false} ChainFirst(l: Log, line: seq<Hash>, t: set<Hash>, k: nat)
    requires IsChain(l, line) && k < |line| && line[k] in t && (k > 0 ==> line[k - 1] !in t)
    ensures Minimal(l, t, line[k])
  {
    assert l[line[k]].next == Before(line, k);
  }

  lemma {:induction false} ChainMinimal(l: Log, line: seq<Hash>, t: set<Hash>, k: nat)
    requires IsChain(l, line) && k < |line| && line[k] in t
    ensures exists m :: Minimal(l, t, m)
  {
    hide IsChain, Minimal;
    if k > 0 && line[k - 1] in t {
      ChainMinimal(l, line, t, k - 1);
    } else {
      ChainFirst(l, line, t, k);
    }
  }

  /** The causal order of a chain is the chain. */
  lemma {:induction false} ChainOrder(l: Log, line: seq<Hash>)
    requires IsChain(l, line)
    ensures WellFormed(l) && CausalOrder(l, l.Keys) == line
  {
    hide CausalOrder, Founded, ParentsFirst, DistinctIn;
    ChainWellFormed(l, line);
    CausalOrderCorrect(l, l.Keys);
    var r := CausalOrder(l, l.Keys);
    forall c | c in l ensures DistinctIn(l, l.Keys, c) { ChainDistinct(l, line, c); }
    NoDupSize(r);
    NoDupSize(line);
    ChainPrefix(l, line, r, |line|);
    assert r[..|line|] == r && line[..|line|] == line;
  }

  lemma {:induction false} ChainDistinct(l: Log, line: seq<Hash>, c: Hash)
    requires IsChain(l, line) && c in l
    ensures DistinctIn(l, l.Keys, c)
  {
    ChainLink(l, line, c);
  }

  lemma {:induction false} ChainPrefix(l: Log, line: seq<Hash>, r: seq<Hash>, k: nat)
    requires IsChain(l, line) && NoDup(r) && ToSet(r) == l.Keys && ParentsFirst(l, l.Keys, r) && |r| == |line| && k <= |r|
    ensures r[..k] == line[..k]
  {
    hide IsChain, ParentsFirst, NoDup;
    if k > 0 {
      ChainPrefix(l, line, r, k - 1);
      ChainNext(l, line, r, k - 1);
      assert r[..k] == r[..k - 1] + [r[k - 1]] && line[..k] == line[..k - 1] + [line[k - 1]];
    }
  }

  lemma {:induction false} ChainNext(l: Log, line: seq<Hash>, r: seq<Hash>, k: nat)
    requires IsChain(l, line) && NoDup(r) && ToSet(r) == l.Keys && ParentsFirst(l, l.Keys, r) && k < |r| == |line|
    requires r[..k] == line[..k]
    ensures r[k] == line[k]
  {
    hide ParentsFirst;
    assert r[k] in ToSet(r) && r[k] in ToSet(line);
    var j :| 0 <= j < |line| && line[j] == r[k];
    forall i | 0 <= i < k ensures line[i] != r[k] { assert r[..k][i] == line[..k][i]; }
    if j > 0 { ChainBehind(l, line, r, k, j); }
  }

  lemma {:induction false} ChainParent(l: Log, line: seq<Hash>, j: nat)
    requires IsChain(l, line) && 0 < j < |line|
    ensures line[j] in l && line[j - 1] in l && l[line[j]].next == [line[j - 1]]
  {
    assert l[line[j]].next == Before(line, j) && line[j - 1] in ToSet(line);
  }

  lemma {:induction false} ChainBehind(l: Log, line: seq<Hash>, r: seq<Hash>, k: nat, j: nat)
    requires IsChain(l, line) && NoDup(line) && ToSet(r) == l.Keys && ParentsFirst(l, l.Keys, r) && k < |r| == |line|
    requires r[..k] == line[..k] && 0 < j < |line| && line[j] == r[k]
    ensures j <= k
  {
    hide NoDup, IsChain;
    var p := line[j - 1];
    ChainParent(l, line, j);
    assert p in ParentsIn(l, l.Keys, r[k]);
    assert p in ToSet(line[..k]);
    var i :| 0 <= i < k && line[..k][i] == p;
    SamePlace(line, i, j - 1);
  }

  lemma {:induction false} SamePlace(xs: seq<Hash>, i: nat, j: nat)
    requires NoDup(xs) && i < |xs| && j < |xs| && xs[i] == xs[j]
    ensures i == j
  {
  }
}
