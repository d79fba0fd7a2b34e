/** The Bloom filter: 64-bit words that refine a set of bit positions, and what that set never forgets. */
module Bloom {
  import opened Base
  import opened Entries

  // -- Words -------------------------------------------------------------------------------------------------------

  function Pow2(n: nat): (p: nat)
    ensures p > 0
  {
    if n == 0 then 1 else 2 * Pow2(n - 1)
  }

  predicate Bit(w: nat, i: nat)
    decreases i
  {
    if i == 0 then w % 2 == 1 else Bit(w / 2, i - 1)
  }

  /** Bitwise or and and, as sums over binary digits. */
  function Or(a: nat, b: nat): nat
    decreases a + b
  {
    if a == 0 && b == 0 then 0
    else (if a % 2 == 1 || b % 2 == 1 then 1 else 0) + 2 * Or(a / 2, b / 2)
  }

  function And(a: nat, b: nat): nat
    decreases a
  {
    if a == 0 then 0 else (if a % 2 == 1 && b % 2 == 1 then 1 else 0) + 2 * And(a / 2, b / 2)
  }

  lemma {:induction false} ZeroBit(i: nat)
    ensures !Bit(0, i)
  {
    if i > 0 { ZeroBit(i - 1); }
  }

  lemma {:induction false} OrHalf(a: nat, b: nat)
    ensures Or(a, b) / 2 == Or(a / 2, b / 2) && (Or(a, b) % 2 == 1 <==> a % 2 == 1 || b % 2 == 1)
  {
  }

  lemma {:induction false} OrBit(a: nat, b: nat, i: nat)
    ensures Bit(Or(a, b), i) <==> Bit(a, i) || Bit(b, i)
    decreases i
  {
    hide Or;
    OrHalf(a, b);
    if i > 0 { OrBit(a / 2, b / 2, i - 1); }
  }

  lemma {:induction false} PowBit(n: nat, i: nat)
    ensures Bit(Pow2(n), i) <==> i == n
    decreases n
  {
    if n == 0 {
      if i > 0 { ZeroBit(i - 1); }
    } else if i > 0 {
      assert Pow2(n) / 2 == Pow2(n - 1);
      PowBit(n - 1, i - 1);
    }
  }

  lemma {:induction false} OrRange(a: nat, b: nat, n: nat)
    requires a < Pow2(n) && b < Pow2(n)
    ensures Or(a, b) < Pow2(n)
    decreases n
  {
    if n > 0 { OrRange(a / 2, b / 2, n - 1); }
  }

  lemma {:induction false} PowGrows(i: nat, n: nat)
    requires i < n
    ensures Pow2(i) < Pow2(n)
    decreases n
  {
    if i < n - 1 { PowGrows(i, n - 1); }
  }

  /** The test `w & (1 << n) == 0`. */
  lemma {:induction false} AndPow(w: nat, n: nat)
    ensures And(w, Pow2(n)) == 0 <==> !Bit(w, n)
    decreases n
  {
    if w == 0 {
      ZeroBit(n);
    } else if n > 0 {
      assert Pow2(n) / 2 == Pow2(n - 1);
      AndPow(w / 2, n - 1);
    } else {
      AndZero(w / 2);
    }
  }

  lemma {:induction false} AndZero(w: nat)
    ensures And(w, 0) == 0
  {
    if w > 0 { AndZero(w / 2); }
  }

  lemma {:induction false} WordSize()
    ensures Pow2(64) == TWO_64
  {
    assert Pow2(8) == 256;
    PowAdd(8, 8);
    PowAdd(16, 16);
    PowAdd(32, 32);
  }

  lemma {:induction false} PowAdd(a: nat, b: nat)
    ensures Pow2(a + b) == Pow2(a) * Pow2(b)
  {
    if a > 0 { PowAdd(a - 1, b); }
  }

  lemma {:induction false} SetBit(w: u64, n: nat)
    requires n < 64
    ensures Or(w, Pow2(n)) < TWO_64
    ensures forall i: nat :: Bit(Or(w, Pow2(n)), i) <==> Bit(w, i) || i == n
  {
    WordSize();
    PowGrows(n, 64);
    OrRange(w, Pow2(n), 64);
    forall i: nat ensures Bit(Or(w, Pow2(n)), i) <==> Bit(w, i) || i == n {
      OrBit(w, Pow2(n), i);
      PowBit(n, i);
    }
  }

  // -- Probes ------------------------------------------------------------------------------------------------------

  /** The `i`-th of the 32 bytes of a digest read big-endian. */
  function ByteAt(h: Hash, i: nat): nat
    requires i < 32
  {
    h / Pow2(8 * (31 - i)) % 256
  }

  /** The number its first `n` bytes spell. */
  function Spelt(h: Hash, n: nat): nat
    requires n <= 32
  {
    if n == 0 then 0 else 256 * Spelt(h, n - 1) + ByteAt(h, n - 1)
  }

  lemma {:induction false} DivideTwice(x: nat, p: nat)
    requires p > 0
    ensures x / p == 256 * (x / (256 * p)) + x / p % 256
  {
    var q := x / p;
    var r := q / 256;
    assert q == 256 * r + q % 256;
    assert x / (256 * p) == r by {
      var s, t := q % 256, x % p;
      assert x == p * q + t;
      assert x == p * (256 * r + s) + t;
      assert p * (256 * r + s) == (256 * p) * r + p * s by { Distributes(p, 256 * r, s); Reassociate(p, r); }
      assert 0 <= p * s + t < 256 * p by { Below256(p, s, t); }
      Quotient(x, 256 * p, r, p * s + t);
    }
  }

  lemma {:induction false} Distributes(p: nat, a: nat, b: nat)
    ensures p * (a + b) == p * a + p * b
  {
  }

  lemma {:induction false} Reassociate(p: nat, r: nat)
    ensures p * (256 * r) == (256 * p) * r
  {
  }

  lemma {:induction false} Below256(p: nat, s: nat, t: nat)
    requires s < 256 && t < p
    ensures 0 <= p * s + t < 256 * p
  {
    assert p * s <= p * 255;
  }

  lemma {:induction false} Quotient(x: nat, m: nat, r: nat, rest: nat)
    requires m > 0 && rest < m && x == m * r + rest
    ensures x / m == r
  {
    SameQuotient(m, x / m, r, x % m, rest);
  }

  lemma {:induction false} SameQuotient(m: nat, q: nat, r: nat, s: nat, t: nat)
    requires s < m && t < m && m * q + s == m * r + t
    ensures q == r
  {
    Distance(m, q, r);
    Distance(m, r, q);
  }

  lemma {:induction false} Distance(m: nat, q: nat, r: nat)
    ensures q < r ==> m * q + m <= m * r
  {
    if q < r { assert m * (q + 1) <= m * r; }
  }

  /** The bytes are the digits of the digest in base 256, the most significant first. */
  lemma {:induction false} BytesSpell(h: Hash, n: nat)
    requires n <= 32 && h < Pow2(256)
    ensures Spelt(h, n) == h / Pow2(8 * (32 - n))
  {
    hide Pow2;
    if n == 0 {
      NothingAbove(h, Pow2(256));
    } else {
      BytesSpell(h, n - 1);
      var e := 8 * (32 - n);
      PowByte(e);
      DivideTwice(h, Pow2(e));
      assert 8 * (32 - (n - 1)) == e + 8;
    }
  }

  lemma {:induction false} NothingAbove(x: nat, p: nat)
    requires x < p
    ensures x / p == 0
  {
  }

  lemma {:induction false} PowByte(n: nat)
    ensures Pow2(n + 8) == 256 * Pow2(n)
  {
    assert Pow2(n + 8) == 2 * Pow2(n + 7) && Pow2(n + 7) == 2 * Pow2(n + 6) && Pow2(n + 6) == 2 * Pow2(n + 5) && Pow2(n + 5) == 2 * Pow2(n + 4);
    assert Pow2(n + 4) == 2 * Pow2(n + 3) && Pow2(n + 3) == 2 * Pow2(n + 2) && Pow2(n + 2) == 2 * Pow2(n + 1) && Pow2(n + 1) == 2 * Pow2(n);
  }

  /** Eight bytes from `from`, little-endian. */
  function WordAt(h: Hash, from: nat, n: nat): nat
    requires from + n <= 32
    decreases n
  {
    if n == 0 then 0 else ByteAt(h, from) + 256 * WordAt(h, from + 1, n - 1)
  }

  /** Enhanced double hashing with wrapping arithmetic. */
  function Probe(h: Hash, i: nat, m: nat): (p: nat)
    requires m > 0
    ensures p < m
  {
    var a, b := WordAt(h, 0, 8), WordAt(h, 8, 8);
    ((a + i * b % TWO_64) % TWO_64 + i * i % TWO_64) % TWO_64 % m
  }

  lemma {:induction false} ModShift(m: nat, q: nat, z: nat)
    requires m > 0
    ensures (m * q + z) % m == z % m
  {
    var k := z / m;
    assert z == m * k + z % m;
    Distributes(m, q, k);
    assert m * q + z == m * (q + k) + z % m;
    Quotient(m * q + z, m, q + k, z % m);
    assert m * q + z == m * ((m * q + z) / m) + (m * q + z) % m;
  }

  lemma {:induction false} ModAdd(x: nat, y: nat, m: nat)
    requires m > 0
    ensures (x % m + y) % m == (x + y) % m && (x + y % m) % m == (x + y) % m
  {
    assert x == m * (x / m) + x % m && y == m * (y / m) + y % m;
    ModShift(m, x / m, x % m + y);
    ModShift(m, y / m, x + y % m);
  }

  /**
   * The probes: with `a` and `b` spelt by the first and the next eight bytes, the last of them most significant,
   * the `i`-th is a + i * b + i * i in 64-bit arithmetic, within the filter.
   */
  lemma {:induction false} ProbeIs(h: Hash, i: nat, m: nat)
    requires m > 0
    ensures var a, b := LittleEndian(h, 0), LittleEndian(h, 8); Probe(h, i, m) == (a + i * b + i * i) % TWO_64 % m
  {
    hide WordAt, LittleEndian;
    WordIs(h, 0);
    WordIs(h, 8);
    WrapsOnce(WordAt(h, 0, 8), i * WordAt(h, 8, 8), i * i, TWO_64);
  }

  lemma {:induction false} WrapsOnce(a: nat, x: nat, y: nat, m: nat)
    requires m > 0
    ensures ((a + x % m) % m + y % m) % m == (a + x + y) % m
  {
    ModAdd(a, x, m);
    ModAdd((a + x) % m, y, m);
    ModAdd(a + x, y, m);
  }

  function LittleEndian(h: Hash, from: nat): nat
    requires from <= 24
  {
    ByteAt(h, from) + 0x100 * ByteAt(h, from + 1) + 0x1_0000 * ByteAt(h, from + 2) + 0x100_0000 * ByteAt(h, from + 3)
    + 0x1_0000_0000 * ByteAt(h, from + 4) + 0x100_0000_0000 * ByteAt(h, from + 5)
    + 0x1_0000_0000_0000 * ByteAt(h, from + 6) + 0x100_0000_0000_0000 * ByteAt(h, from + 7)
  }

  lemma {:induction false} WordIs(h: Hash, from: nat)
    requires from <= 24
    ensures WordAt(h, from, 8) == LittleEndian(h, from)
  {
    hide ByteAt;
    assert WordAt(h, from + 8, 0) == 0;
    assert WordAt(h, from + 6, 2) == ByteAt(h, from + 6) + 256 * ByteAt(h, from + 7);
    assert WordAt(h, from + 4, 4) == ByteAt(h, from + 4) + 256 * (ByteAt(h, from + 5) + 256 * WordAt(h, from + 6, 2));
    assert WordAt(h, from + 2, 6) == ByteAt(h, from + 2) + 256 * (ByteAt(h, from + 3) + 256 * WordAt(h, from + 4, 4));
    assert WordAt(h, from, 8) == ByteAt(h, from) + 256 * (ByteAt(h, from + 1) + 256 * WordAt(h, from + 2, 6));
  }

  function Probes(h: Hash, k: nat, m: nat): (s: set<nat>)
    requires m > 0
    ensures forall p :: p in s ==> p < m
  {
    set i: nat | 0 <= i < k :: Probe(h, i, m)
  }

  /** The positions of a hash are its first `k` probes, from the zeroth on. */
  lemma {:induction false} ProbesAre(h: Hash, k: nat, m: nat, p: nat)
    requires m > 0
    ensures p in Probes(h, k, m) <==>
      exists i: nat :: i < k && p == (LittleEndian(h, 0) + i * LittleEndian(h, 8) + i * i) % TWO_64 % m
  {
    hide Probe, LittleEndian;
    forall i: nat ensures Probe(h, i, m) == (LittleEndian(h, 0) + i * LittleEndian(h, 8) + i * i) % TWO_64 % m { ProbeIs(h, i, m); }
    if p in Probes(h, k, m) {
      var i: nat :| i < k && p == Probe(h, i, m);
    }
    if i: nat :| i < k && p == (LittleEndian(h, 0) + i * LittleEndian(h, 8) + i * i) % TWO_64 % m {
      assert p == Probe(h, i, m);
    }
  }

  lemma {:induction false} ProbesSnoc(h: Hash, k: nat, m: nat)
    requires m > 0
    ensures Probes(h, k + 1, m) == Probes(h, k, m) + {Probe(h, k, m)}
  {
    hide Probe;
  }

  // -- Histories ---------------------------------------------------------------------------------------------------

  /** How a filter came about: insertions, and merges with filters that have histories of their own. */
  datatype History = Fresh | Inserted(before: History, hash: Hash) | MergedWith(before: History, other: History)

  function Members(t: History): set<Hash> {
    match t
    case Fresh => {}
    case Inserted(u, h) => Members(u) + {h}
    case MergedWith(u, v) => Members(u) + Members(v)
  }

  function Bits(t: History, k: nat, m: nat): set<nat>
    requires m > 0
  {
    match t
    case Fresh => {}
    case Inserted(u, h) => Bits(u, k, m) + Probes(h, k, m)
    case MergedWith(u, v) => Bits(u, k, m) + Bits(v, k, m)
  }

  function InsertedAll(t: History, hs: seq<Hash>): History {
    if hs == [] then t else Inserted(InsertedAll(t, hs[..|hs| - 1]), hs[|hs| - 1])
  }

  lemma {:induction false} MembersOfAll(t: History, hs: seq<Hash>)
    ensures Members(InsertedAll(t, hs)) == Members(t) + ToSet(hs)
  {
    if hs != [] {
      MembersOfAll(t, hs[..|hs| - 1]);
      assert hs == hs[..|hs| - 1] + [hs[|hs| - 1]];
      ToSetSnoc(hs[..|hs| - 1], hs[|hs| - 1]);
    }
  }

  ghost predicate ProbedBy(s: set<Hash>, k: nat, m: nat, p: nat)
    requires m > 0
  {
    exists h :: h in s && p in Probes(h, k, m)
  }

  /**
   * The bits are exactly the probes of the members: the history's order and shape leave no trace, and
   * no member is ever missed.
   */
  lemma {:induction false} BitsAreProbes(t: History, k: nat, m: nat)
    requires m > 0
    ensures forall p :: p in Bits(t, k, m) <==> ProbedBy(Members(t), k, m, p)
    ensures forall h :: h in Members(t) ==> Probes(h, k, m) <= Bits(t, k, m)
  {
    hide Probes;
    match t {
      case Fresh =>
      case Inserted(u, h) => BitsAreProbes(u, k, m);
      case MergedWith(u, v) =>
        BitsAreProbes(u, k, m);
        BitsAreProbes(v, k, m);
    }
    forall h, p | h in Members(t) && p in Probes(h, k, m) ensures ProbedBy(Members(t), k, m, p) {}
  }

  // -- The filter --------------------------------------------------------------------------------------------------

  class BloomFilter {
    const bits: array<u64>
    const numBits: nat
    const numHashes: u32
    var count: nat

    /** What `validate` demands before a filter from outside is used. */
    predicate Valid() { numBits > 0 && bits.Length * 64 >= numBits && 1 <= numHashes <= 32 }

    ghost predicate Has(p: nat)
      requires Valid() && p < numBits
      reads bits
    {
      Bit(bits[p / 64], p % 64)
    }

    /** The set of positions the words stand for. */
    ghost function Positions(): set<nat>
      requires Valid()
      reads bits
    {
      set p: nat | 0 <= p < numBits && Has(p)
    }

    ghost predicate CameFrom(t: History)
      requires Valid()
      reads bits
    {
      Positions() == Bits(t, numHashes, numBits)
    }

    /** The filter answers yes for `h`. */
    ghost predicate Finds(h: Hash)
      requires Valid()
      reads bits
    {
      Probes(h, numHashes, numBits) <= Positions()
    }

    constructor (numBits: nat, numHashes: u32, words: nat)
      requires numBits > 0 && words * 64 >= numBits && 1 <= numHashes <= 32
      ensures Valid() && this.numBits == numBits && this.numHashes == numHashes && fresh(bits) && CameFrom(Fresh)
    {
      this.numBits, this.numHashes, count := numBits, numHashes, 0;
      bits := new u64[words](_ => 0);
      new;
      forall i: nat ensures !Bit(0, i) { ZeroBit(i); }
    }

    /** Setting one bit adds one position. */
    method SetPosition(p: nat)
      requires Valid() && p < numBits
      modifies bits
      ensures Positions() == old(Positions()) + {p}
    {
      var w, b := p / 64, p % 64;
      SetBit(bits[w], b);
      bits[w] := Or(bits[w], Pow2(b));
      forall q: nat | q < numBits ensures Has(q) <==> old(Has(q)) || q == p {
        assert q / 64 == w && q % 64 == b <==> q == p;
      }
    }

    method Insert(h: Hash)
      requires Valid()
      modifies this`count, bits
      ensures count == old(count) + 1
      ensures Positions() == old(Positions()) + Probes(h, numHashes, numBits)
      ensures forall t :: old(CameFrom(t)) ==> CameFrom(Inserted(t, h))
    {
      for i := 0 to numHashes
        invariant count == old(count)
        invariant Positions() == old(Positions()) + Probes(h, i, numBits)
      {
        ProbesSnoc(h, i, numBits);
        SetPosition(Probe(h, i, numBits));
      }
      count := count + 1;
    }

    /** Filling an offer's filter from the entries of a log. */
    method InsertAll(hs: seq<Hash>)
      requires Valid()
      modifies this`count, bits
      ensures count == old(count) + |hs|
      ensures forall t :: old(CameFrom(t)) ==> CameFrom(InsertedAll(t, hs))
      ensures forall t, h :: old(CameFrom(t)) && (h in hs || h in Members(t)) ==> Finds(h)
    {
      for i := 0 to |hs|
        invariant count == old(count) + i
        invariant forall t :: old(CameFrom(t)) ==> CameFrom(InsertedAll(t, hs[..i]))
      {
        assert hs[..i + 1][..i] == hs[..i];
        Insert(hs[i]);
      }
      assert hs[..|hs|] == hs;
      forall t, h | old(CameFrom(t)) && (h in hs || h in Members(t)) ensures Finds(h) {
        MembersOfAll(t, hs);
        BitsAreProbes(InsertedAll(t, hs), numHashes, numBits);
        assert h in hs ==> h in ToSet(hs);
      }
    }

    /** True exactly when every probe is set. */
    method Contains(h: Hash) returns (r: bool)
      requires Valid()
      ensures r <==> Finds(h)
    {
      for i := 0 to numHashes
        invariant Probes(h, i, numBits) <= Positions()
      {
        var p := Probe(h, i, numBits);
        ProbesSnoc(h, i, numBits);
        AndPow(bits[p / 64], p % 64);
        if And(bits[p / 64], Pow2(p % 64)) == 0 {
          assert p in Probes(h, numHashes, numBits) && !Has(p);
          return false;
        }
      }
      return true;
    }

    /** Union, word by word over the shorter of the two arrays. */
    method Merge(other: BloomFilter)
      requires Valid() && other.Valid() && bits != other.bits
      requires numBits == other.numBits && numHashes == other.numHashes
      modifies this`count, bits
      ensures Positions() == old(Positions()) + other.Positions()
      ensures forall t, u :: old(CameFrom(t)) && other.CameFrom(u) ==> CameFrom(MergedWith(t, u))
    {
      var n := if bits.Length < other.bits.Length then bits.Length else other.bits.Length;
      for i := 0 to n
        invariant forall j :: i <= j < bits.Length ==> bits[j] == old(bits[j])
        invariant forall j, b: nat :: 0 <= j < i ==> (Bit(bits[j], b) <==> Bit(old(bits[j]), b) || Bit(other.bits[j], b))
      {
        MergeWord(bits[i], other.bits[i]);
        bits[i] := Or(bits[i], other.bits[i]);
      }
      count := count + other.count;
      forall q: nat | q < numBits ensures Has(q) <==> old(Has(q)) || other.Has(q) {
        assert q / 64 < n;
      }
    }

    /** No false negatives: whatever the history, every member is found. */
    method FindMember(h: Hash, ghost t: History) returns (r: bool)
      requires Valid() && CameFrom(t) && h in Members(t)
      ensures r
    {
      BitsAreProbes(t, numHashes, numBits);
      r := Contains(h);
    }
  }

  lemma {:induction false} MergeWord(a: u64, b: u64)
    ensures Or(a, b) < TWO_64
    ensures forall i: nat :: Bit(Or(a, b), i) <==> Bit(a, i) || Bit(b, i)
  {
    WordSize();
    OrRange(a, b, 64);
    forall i: nat ensures Bit(Or(a, b), i) <==> Bit(a, i) || Bit(b, i) { OrBit(a, b, i); }
  }
}
