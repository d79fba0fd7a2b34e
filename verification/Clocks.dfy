/** The hybrid logical clock: physical milliseconds, a saturating logical counter, and an id tie-breaker. */
module Clocks {
  import opened Base

  datatype Ordering = Less | Equal | Greater {
    function Then(next: Ordering): Ordering { if this == Equal then next else this }
    function Flip(): Ordering {
      match this
      case Less => Greater
      case Equal => Equal
      case Greater => Less
    }
  }

  function CmpInt(a: int, b: int): Ordering { if a < b then Less else if a == b then Equal else Greater }

  /** Lexicographic comparison by code point, which is what comparing UTF-8 bytes amounts to. */
  function CmpString(a: string, b: string): Ordering
    decreases |a|
  {
    if a == [] then (if b == [] then Equal else Less)
    else if b == [] then Greater
    else CmpInt(a[0] as int, b[0] as int).Then(CmpString(a[1..], b[1..]))
  }

  lemma {:induction false} CmpStringEqual(a: string, b: string)
    ensures CmpString(a, b) == Equal <==> a == b
    decreases |a|
  {
    if a != [] && b != [] {
      CmpStringEqual(a[1..], b[1..]);
      assert a == [a[0]] + a[1..] && b == [b[0]] + b[1..];
    }
  }

  lemma {:induction false} CmpStringFlip(a: string, b: string)
    ensures CmpString(b, a) == CmpString(a, b).Flip()
    decreases |a|
  {
    if a != [] && b != [] { CmpStringFlip(a[1..], b[1..]); }
  }

  lemma {:induction false} CmpStringTrans(a: string, b: string, c: string)
    requires CmpString(a, b) == Less && CmpString(b, c) == Less
    ensures CmpString(a, c) == Less
    decreases |a|
  {
    if a != [] && b != [] && c != [] && a[0] == b[0] == c[0] { CmpStringTrans(a[1..], b[1..], c[1..]); }
  }

  datatype Clock = Clock(id: string, physical: u64, logical: u32)

  /** Higher physical wins, then higher logical, then the lower id. */
  function CmpOrder(a: Clock, b: Clock): Ordering {
    CmpInt(a.physical, b.physical).Then(CmpInt(a.logical, b.logical)).Then(CmpString(b.id, a.id))
  }

  /** The last-writer-wins test. */
  predicate Wins(a: Clock, b: Clock) { CmpOrder(a, b) == Greater }

  /** The clock order is total: exactly one of "a wins", "b wins" and "a is b" holds. */
  lemma {:induction false} WinsTotal(a: Clock, b: Clock)
    ensures a == b ==> !Wins(a, b)
    ensures a != b ==> (Wins(a, b) <==> !Wins(b, a))
  {
    CmpStringEqual(a.id, b.id);
    CmpStringFlip(a.id, b.id);
  }

  lemma {:induction false} WinsTrans(a: Clock, b: Clock, c: Clock)
    requires Wins(a, b) && Wins(b, c)
    ensures Wins(a, c)
  {
    CmpStringEqual(b.id, a.id);
    CmpStringEqual(c.id, b.id);
    CmpStringFlip(a.id, b.id);
    CmpStringFlip(b.id, c.id);
    CmpStringFlip(a.id, c.id);
    if CmpString(a.id, b.id) == Less && CmpString(b.id, c.id) == Less { CmpStringTrans(a.id, b.id, c.id); }
  }

  /** `a` comes before `b` as a word: it is a proper prefix, or smaller where they first differ. */
  ghost predicate Lower(a: string, b: string) {
    || (|a| < |b| && a == b[..|a|])
    || exists i :: 0 <= i < |a| && i < |b| && a[..i] == b[..i] && a[i] < b[i]
  }

  lemma {:induction false} LowerIs(a: string, b: string)
    ensures CmpString(a, b) == Less <==> Lower(a, b)
    decreases |a|
  {
    if a != [] && b != [] {
      LowerIs(a[1..], b[1..]);
      LowerTail(a, b);
    }
  }

  lemma {:induction false} LowerTail(a: string, b: string)
    requires a != [] && b != []
    ensures Lower(a, b) <==> a[0] < b[0] || (a[0] == b[0] && Lower(a[1..], b[1..]))
  {
    var s, t := a[1..], b[1..];
    assert a == [a[0]] + s && b == [b[0]] + t;
    if a[0] < b[0] { assert a[..0] == b[..0]; }
    if a[0] == b[0] && Lower(s, t) {
      if |s| < |t| && s == t[..|s|] {
        assert b[..|a|] == [b[0]] + t[..|s|];
      } else {
        var i :| 0 <= i < |s| && i < |t| && s[..i] == t[..i] && s[i] < t[i];
        assert a[..i + 1] == [a[0]] + s[..i] && b[..i + 1] == [b[0]] + t[..i];
        assert a[i + 1] < b[i + 1];
      }
    }
    if Lower(a, b) && !(a[0] < b[0]) {
      if |a| < |b| && a == b[..|a|] {
        assert a[0] == b[..|a|][0];
        assert s == t[..|s|];
      } else {
        var i :| 0 <= i < |a| && i < |b| && a[..i] == b[..i] && a[i] < b[i];
        assert i > 0;
        assert a[0] == a[..i][0] && b[0] == b[..i][0];
        assert s[..i - 1] == a[..i][1..] && t[..i - 1] == b[..i][1..];
        assert s[i - 1] < t[i - 1];
      }
    }
  }

  /** `a` was made later than `b`, or in the same tuple by the peer with the lower id. */
  ghost predicate Outranks(a: Clock, b: Clock) {
    || b.physical < a.physical
    || (b.physical == a.physical && b.logical < a.logical)
    || (b.physical == a.physical && b.logical == a.logical && Lower(a.id, b.id))
  }

  /** The conflict order in full: the later tuple wins, and of equal tuples the clock with the lower id. */
  lemma {:induction false} WinsIff(a: Clock, b: Clock)
    ensures Wins(a, b) <==> Outranks(a, b)
  {
    LowerIs(a.id, b.id);
    CmpStringFlip(a.id, b.id);
  }

  /** The larger of two clocks, keeping the older on a tie. */
  function Later(a: Clock, b: Clock): Clock { if Wins(b, a) then b else a }

  /** `Later` is the join of a total order: commutative, associative and idempotent. */
  lemma {:induction false} LaterIsJoin(a: Clock, b: Clock, c: Clock)
    ensures Later(a, b) == Later(b, a)
    ensures Later(Later(a, b), c) == Later(a, Later(b, c))
    ensures Later(a, a) == a
  {
    WinsTotal(a, b);
    WinsTotal(b, c);
    WinsTotal(a, c);
    if Wins(b, a) && Wins(c, b) { WinsTrans(c, b, a); }
    if Wins(a, b) && Wins(b, c) { WinsTrans(a, b, c); }
  }

  // -- The (physical, logical) tuple ------------------------------------------------------------

  predicate TupleLess(a: Clock, b: Clock) {
    a.physical < b.physical || (a.physical == b.physical && a.logical < b.logical)
  }

  predicate TupleLeq(a: Clock, b: Clock) {
    a.physical < b.physical || (a.physical == b.physical && a.logical <= b.logical)
  }

  predicate SameTuple(a: Clock, b: Clock) { a.physical == b.physical && a.logical == b.logical }

  /** Strictly later, or stuck at a saturated logical counter. */
  predicate Advances(a: Clock, b: Clock) { TupleLess(a, b) || (TupleLeq(a, b) && b.logical == U32_MAX) }

  function SaturatingInc(n: u32): u32 { if n == U32_MAX then U32_MAX else n + 1 }

  function Max(a: int, b: int): int { if a < b then b else a }

  /** The clock after a local event at wall time `wall`. */
  function Ticked(c: Clock, wall: u64): Clock {
    if wall > c.physical then c.(physical := wall, logical := 0)
    else c.(logical := SaturatingInc(c.logical))
  }

  /** The clock after absorbing `remote` at wall time `wall`. */
  function Merged(c: Clock, remote: Clock, wall: u64): Clock {
    var p: u64 := Max(Max(c.physical, remote.physical), wall);
    if p > c.physical && p > remote.physical then c.(physical := p, logical := 0)
    else if p == c.physical && p == remote.physical then
      c.(physical := p, logical := SaturatingInc(Max(c.logical, remote.logical)))
    else if p == c.physical then c.(physical := p, logical := SaturatingInc(c.logical))
    else c.(physical := p, logical := SaturatingInc(remote.logical))
  }

  /** For every wall reading, backward jumps included, a tick moves forward; it stands still exactly at saturation. */
  lemma {:induction false} TickAdvances(c: Clock, wall: u64)
    ensures Advances(c, Ticked(c, wall)) && Ticked(c, wall).id == c.id
    ensures !TupleLess(c, Ticked(c, wall)) <==> wall <= c.physical && c.logical == U32_MAX
  {
  }

  /**
   * Short of saturation a tick is the least advance there is: no tuple after the old one and not before the
   * wall reading comes earlier. At saturation the counter stays at its top.
   */
  lemma {:induction false} TickIsLeast(c: Clock, wall: u64, t: Clock)
    requires TupleLess(c, t) && wall <= t.physical
    ensures c.logical < U32_MAX || c.physical < wall ==> TupleLeq(Ticked(c, wall), t)
    ensures wall <= Ticked(c, wall).physical <= t.physical
    ensures c.logical == U32_MAX && wall <= c.physical ==> SameTuple(Ticked(c, wall), c)
  {
  }

  /** So is a merge: the least tuple after both clocks and not before the wall reading. */
  lemma {:induction false} MergeIsLeast(c: Clock, remote: Clock, wall: u64, t: Clock)
    requires TupleLess(c, t) && TupleLess(remote, t) && wall <= t.physical
    ensures var m := Merged(c, remote, wall);
      && wall <= m.physical <= t.physical && (m.logical < U32_MAX ==> TupleLeq(m, t))
      && (m.physical == c.physical || m.physical == remote.physical || m.physical == wall)
      && (m.logical == 0 <==> c.physical < wall && remote.physical < wall)
  {
  }

  lemma {:induction false} MergeAdvances(c: Clock, remote: Clock, wall: u64)
    ensures Advances(c, Merged(c, remote, wall)) && Advances(remote, Merged(c, remote, wall))
    ensures Merged(c, remote, wall).id == c.id
  {
  }

  /** Clocks that differ as tuples are ordered by their tuples, whatever their ids. */
  lemma {:induction false} TupleDecides(a: Clock, b: Clock)
    requires !SameTuple(a, b)
    ensures Wins(a, b) <==> TupleLess(b, a)
  {
  }

  /** The mutable clock of a store. */
  class HybridClock {
    const id: string
    var physical: u64
    var logical: u32

    function Value(): Clock reads this { Clock(id, physical, logical) }

    constructor (id: string, wall: u64)
      ensures Value() == Clock(id, wall, 0)
    {
      this.id, physical, logical := id, wall, 0;
    }

    method Tick(wall: u64)
      modifies this
      ensures Value() == Ticked(old(Value()), wall)
    {
      if wall > physical {
        physical := wall;
        logical := 0;
      } else {
        logical := SaturatingInc(logical);
      }
    }

    method Merge(remote: Clock, wall: u64)
      modifies this
      ensures Value() == Merged(old(Value()), remote, wall)
    {
      var newPhysical: u64 := Max(Max(physical, remote.physical), wall);
      if newPhysical > physical && newPhysical > remote.physical {
        logical := 0;
      } else if newPhysical == physical && newPhysical == remote.physical {
        logical := SaturatingInc(Max(logical, remote.logical));
      } else if newPhysical == physical {
        logical := SaturatingInc(logical);
      } else {
        logical := SaturatingInc(remote.logical);
      }
      physical := newPhysical;
    }
  }
}
