/**
 * Producers, one consumer and a closer interleaved step by step around the bell: whoever waits misses
 * nothing that has been announced.
 */
module Wakeups {
  import opened Base
  import opened Entries
  import opened Dag
  import opened Tail

  /** Where the consumer stands inside `next_batch`; `at` is the number of rings when it read the counter. */
  datatype Phase =
    | Idle
    | Checked
    | Listening(seen: u64, at: nat)
    | Waiting(seen: u64, at: nat)
    | Woken

  /** Where `close` stands: not called, flag stored, bell rung (as the `ring`-th ring). */
  datatype Closer = Open | Flagged | Rung(ring: nat)

  /** `owed` holds, by producer, entries appended but not yet announced; `rings` counts every ring ever made. */
  datatype System = System(
    log: Log,
    rings: nat,
    owed: map<nat, set<Hash>>,
    phase: Phase,
    cursor: seq<Hash>,
    got: set<Hash>,
    closer: Closer,
    bellClosed: bool)

  datatype Step =
    | Grow(producer: nat, log: Log)
    | Announce(producer: nat)
    | Check
    | ReadCounter
    | CheckAndRead
    | Fetch(limit: nat, result: Fetched, patient: bool)
    | Wake
    | TimeOut
    | Refetch(limit: nat, result: Fetched)
    | StoreFlag
    | RingAfterFlag
    | CloseBell

  /** The counter is the number of rings modulo its width. */
  function Counter(s: System): u64 { s.rings % TWO_64 }

  function OwedBy(s: System, p: nat): set<Hash> { if p in s.owed then s.owed[p] else {} }

  ghost predicate Unannounced(s: System, h: Hash) { exists p :: p in s.owed && h in s.owed[p] }

  predicate ClosedSeen(s: System) { s.closer != Open }

  /** With the interpreter lock, the closed check and the counter reading are one step. */
  ghost predicate Enabled(locked: bool, s: System, step: Step) {
    match step
    case Grow(_, l) => Sublog(s.log, l) && Sound(l)
    case Announce(_) => true
    case Check => !locked && s.phase.Idle?
    case ReadCounter => !locked && s.phase.Checked?
    case CheckAndRead => s.phase.Idle?
    case Fetch(limit, r, _) => s.phase.Listening? && MayFetch(s.log, s.cursor, limit, r)
    case Wake => s.phase.Waiting? && Counter(s) != s.phase.seen
    case TimeOut => s.phase.Waiting?
    case Refetch(limit, r) => s.phase.Woken? && MayFetch(s.log, s.cursor, limit, r)
    case StoreFlag => s.closer.Open?
    case RingAfterFlag => s.closer.Flagged?
    case CloseBell => true
  }

  /** The cursor and the delivered set after a fetch. */
  function Took(s: System, r: Fetched): System {
    if r.Batch? then s.(cursor := r.cursor, got := s.got + ToSet(r.hashes)) else s
  }

  function After(s: System, step: Step): System {
    match step
    case Grow(p, l) => s.(log := l, owed := s.owed[p := OwedBy(s, p) + (l.Keys - s.log.Keys)])
    case Announce(p) => s.(rings := s.rings + 1, owed := s.owed[p := {}])
    case Check => if ClosedSeen(s) then s else s.(phase := Checked)
    case ReadCounter => s.(phase := Listening(Counter(s), s.rings))
    case CheckAndRead => if ClosedSeen(s) then s else s.(phase := Listening(Counter(s), s.rings))
    case Fetch(_, r, patient) =>
      if r.Nothing? && patient && s.phase.Listening? then s.(phase := Waiting(s.phase.seen, s.phase.at))
      else Took(s, r).(phase := Idle)
    case Wake => s.(phase := Woken)
    case TimeOut => s.(phase := Woken)
    case Refetch(_, r) => if ClosedSeen(s) || s.bellClosed then s.(phase := Idle) else Took(s, r).(phase := Idle)
    case StoreFlag => s.(closer := Flagged)
    case RingAfterFlag => s.(rings := s.rings + 1, closer := Rung(s.rings + 1))
    case CloseBell => s.(bellClosed := true)
  }

  // -- What every step keeps ---------------------------------------------------------------------------------------

  /** Everything in the log was delivered, lay below the start, or is still unannounced. */
  ghost predicate OnlyUnannounced(s: System, start: seq<Hash>) {
    forall h :: h in s.log ==> Accounted(s.log, start, s.got, h) || Unannounced(s, h)
  }

  ghost predicate BellInv(s: System, start: seq<Hash>) {
    && ((s.phase.Listening? || s.phase.Waiting?) ==> s.phase.at <= s.rings && s.phase.seen == s.phase.at % TWO_64)
    && (s.phase.Waiting? && s.phase.at == s.rings ==> OnlyUnannounced(s, start))
    && (s.closer.Rung? ==> s.closer.ring <= s.rings)
  }

  /** With the lock, a consumer past the check that saw no flag read the counter before the closing ring. */
  ghost predicate LockInv(s: System) {
    && !s.phase.Checked?
    && (s.closer.Rung? && (s.phase.Listening? || s.phase.Waiting?) ==> s.phase.at < s.closer.ring)
  }

  ghost predicate Inv(locked: bool, s: System, start: seq<Hash>) {
    && Sound(s.log) && CursorInv(s.log, start, s.cursor, s.got) && BellInv(s, start) && (locked ==> LockInv(s))
  }

  lemma {:induction false} GrowKeepsInv(s: System, start: seq<Hash>, p: nat, l: Log)
    requires Sound(s.log) && CursorInv(s.log, start, s.cursor, s.got) && BellInv(s, start)
    requires Sublog(s.log, l) && Sound(l)
    ensures var t := After(s, Grow(p, l)); CursorInv(t.log, start, t.cursor, t.got) && BellInv(t, start)
  {
    hide CursorInv, Accounted;
    var t := After(s, Grow(p, l));
    WellFormedParts(s.log);
    CursorSurvivesGrowth(s.log, l, start, s.cursor, s.got);
    if s.phase.Waiting? && s.phase.at == s.rings {
      forall h | h in t.log ensures Accounted(t.log, start, t.got, h) || Unannounced(t, h) {
        if h in s.log {
          if Accounted(s.log, start, s.got, h) {
            AccountedGrows(s.log, l, start, s.got, h);
          } else {
            var q :| q in s.owed && h in s.owed[q];
            assert q in t.owed && h in t.owed[q];
          }
        } else {
          assert p in t.owed && h in t.owed[p];
        }
      }
    }
  }

  lemma {:induction false} FetchKeepsInv(s: System, start: seq<Hash>, limit: nat, r: Fetched)
    requires Sound(s.log) && CursorInv(s.log, start, s.cursor, s.got) && MayFetch(s.log, s.cursor, limit, r)
    ensures CursorInv(s.log, start, Took(s, r).cursor, Took(s, r).got)
    ensures r.Nothing? ==> OnlyUnannounced(s, start)
  {
    hide CursorInv, MayFetch, Accounted;
    FetchKeepsCursor(s.log, start, s.cursor, s.got, limit, r);
  }

  lemma {:induction false} StepKeepsInv(locked: bool, s: System, start: seq<Hash>, step: Step)
    requires Inv(locked, s, start) && Enabled(locked, s, step)
    ensures Inv(locked, After(s, step), start)
  {
    hide CursorInv, MayFetch, OnlyUnannounced, Sound;
    match step {
      case Grow(p, l) => GrowKeepsInv(s, start, p, l);
      case Fetch(limit, r, patient) =>
        FetchKeepsInv(s, start, limit, r);
        if r.Nothing? { SameAccount(s, After(s, step), start); }
      case Refetch(limit, r) => FetchKeepsInv(s, start, limit, r);
      case StoreFlag => SameAccount(s, After(s, step), start);
      case CloseBell => SameAccount(s, After(s, step), start);
      case _ =>
    }
  }

  lemma {:induction false} SameAccount(s: System, t: System, start: seq<Hash>)
    requires t.log == s.log && t.got == s.got && t.owed == s.owed
    ensures OnlyUnannounced(s, start) ==> OnlyUnannounced(t, start)
  {
    hide Accounted;
    if OnlyUnannounced(s, start) {
      forall h | h in t.log && !Accounted(t.log, start, t.got, h) ensures Unannounced(t, h) {
        var p :| p in s.owed && h in s.owed[p];
        assert p in t.owed && h in t.owed[p];
      }
    }
  }

  // -- Whole runs --------------------------------------------------------------------------------------------------

  /** A subscription just made, at any cursor, over any sound log. */
  ghost predicate Initial(s: System, start: seq<Hash>) {
    && Sound(s.log) && s.cursor == start && s.got == {} && s.phase == Idle && s.closer == Open
  }

  ghost predicate Possible(locked: bool, s: System, steps: seq<Step>)
    decreases |steps|
  {
    steps == [] || (Enabled(locked, s, steps[0]) && Possible(locked, After(s, steps[0]), steps[1..]))
  }

  function Final(s: System, steps: seq<Step>): System
    decreases |steps|
  {
    if steps == [] then s else Final(After(s, steps[0]), steps[1..])
  }

  lemma {:induction false} RunKeepsInv(locked: bool, s: System, start: seq<Hash>, steps: seq<Step>)
    requires Inv(locked, s, start) && Possible(locked, s, steps)
    ensures Inv(locked, Final(s, steps), start)
    decreases |steps|
  {
    hide Inv, After, Enabled;
    if steps != [] {
      StepKeepsInv(locked, s, start, steps[0]);
      RunKeepsInv(locked, After(s, steps[0]), start, steps[1..]);
    }
  }

  lemma {:induction false} InitialInv(locked: bool, s: System, start: seq<Hash>)
    requires Initial(s, start)
    ensures Inv(locked, s, start)
  {
    CursorStarts(s.log, start);
  }

  /** The consumer is asleep: waiting on a counter that has not changed. */
  predicate Blocked(s: System) { s.phase.Waiting? && Counter(s) == s.phase.seen }

  lemma {:induction false} WrapAround(a: nat, b: nat)
    requires a <= b && b - a < TWO_64 && a % TWO_64 == b % TWO_64
    ensures a == b
  {
    var q, r := a / TWO_64, b / TWO_64;
    assert b - a == (r - q) * TWO_64;
    assert r >= q + 1 ==> (r - q) * TWO_64 >= TWO_64;
  }

  lemma {:induction false} UnchangedIsQuiet(s: System, start: seq<Hash>)
    requires BellInv(s, start) && Blocked(s) && s.rings - s.phase.at < TWO_64
    ensures s.rings == s.phase.at
  {
    WrapAround(s.phase.at, s.rings);
  }

  /**
   * In every run of appends, merges and fetches, whatever the interleaving: everything at or below the
   * cursor was delivered or lay below the initial cursor, and an empty delta means the whole log was.
   */
  lemma {:induction false} MissesNothing(locked: bool, s: System, start: seq<Hash>, steps: seq<Step>, limit: nat, r: Fetched)
    requires Initial(s, start) && Possible(locked, s, steps) && MayFetch(Final(s, steps).log, Final(s, steps).cursor, limit, r)
    ensures var t := Final(s, steps);
      && (forall h :: h in AncestorsOf(t.log, ToSet(t.cursor)) ==> Accounted(t.log, start, t.got, h))
      && (r.Nothing? ==> AllAccounted(t.log, start, t.got))
  {
    hide Initial, Possible, Final, MayFetch;
    InitialInv(locked, s, start);
    RunKeepsInv(locked, s, start, steps);
    var t := Final(s, steps);
    FetchKeepsCursor(t.log, start, t.cursor, t.got, limit, r);
  }

  /**
   * No lost wake-up: in every run, a consumer asleep on an unchanged counter has nothing undelivered
   * from any producer that has announced, as long as fewer than 2^64 rings separate reading and now.
   */
  lemma {:induction false} NoLostWakeup(locked: bool, s: System, start: seq<Hash>, steps: seq<Step>, h: Hash)
    requires Initial(s, start) && Possible(locked, s, steps)
    requires var t := Final(s, steps); Blocked(t) && t.rings - t.phase.at < TWO_64 && h in t.log && !Unannounced(t, h)
    ensures var t := Final(s, steps); Accounted(t.log, start, t.got, h)
  {
    hide Initial, Possible, Final;
    InitialInv(locked, s, start);
    RunKeepsInv(locked, s, start, steps);
    UnchangedIsQuiet(Final(s, steps), start);
  }

  /** Closing unblocks: with the interpreter lock, no consumer sleeps once `close` has returned. */
  lemma {:induction false} CloseUnblocks(s: System, start: seq<Hash>, steps: seq<Step>)
    requires Initial(s, start) && Possible(true, s, steps)
    requires var t := Final(s, steps); t.closer.Rung? && t.phase.Waiting? && t.rings - t.phase.at < TWO_64
    ensures !Blocked(Final(s, steps)) && Enabled(true, Final(s, steps), Wake)
  {
    hide Initial, Possible, Final;
    InitialInv(true, s, start);
    RunKeepsInv(true, s, start, steps);
    var t := Final(s, steps);
    if Blocked(t) { UnchangedIsQuiet(t, start); }
  }

  /** Without it, exactly one window remains: a consumer asleep after `close` read the counter after the closing ring. */
  lemma {:induction false} CloseWindow(locked: bool, s: System, start: seq<Hash>, steps: seq<Step>)
    requires Initial(s, start) && Possible(locked, s, steps)
    requires var t := Final(s, steps); t.closer.Rung? && t.phase.Waiting? && t.rings - t.phase.at < TWO_64
    ensures Blocked(Final(s, steps)) <==> Final(s, steps).rings == Final(s, steps).phase.at
    ensures Blocked(Final(s, steps)) ==> !locked && Final(s, steps).closer.ring <= Final(s, steps).phase.at
  {
    hide Initial, Possible, Final;
    InitialInv(locked, s, start);
    RunKeepsInv(locked, s, start, steps);
    var t := Final(s, steps);
    if Blocked(t) { UnchangedIsQuiet(t, start); }
  }

  /** That window is real: close between the check and the counter reading, and the consumer sleeps through it. */
  lemma {:induction false} CloseCanBeMissed(s: System, start: seq<Hash>)
    requires Initial(s, start) && MayFetch(s.log, s.cursor, 1, Nothing)
    ensures exists steps :: Possible(false, s, steps) && Final(s, steps).closer.Rung? && Blocked(Final(s, steps))
  {
    hide MayFetch, Sound;
    var fetch := Fetch(1, Nothing, true);
    var steps := [Check, StoreFlag, RingAfterFlag, ReadCounter, fetch];
    var s1 := After(s, Check);
    var s2 := After(s1, StoreFlag);
    var s3 := After(s2, RingAfterFlag);
    var s4 := After(s3, ReadCounter);
    var s5 := After(s4, fetch);
    Unroll(s5, []);
    Unroll(s4, [fetch]);
    Unroll(s3, [ReadCounter, fetch]);
    Unroll(s2, [RingAfterFlag, ReadCounter, fetch]);
    Unroll(s1, [StoreFlag, RingAfterFlag, ReadCounter, fetch]);
    Unroll(s, steps);
  }

  lemma {:induction false} Unroll(s: System, steps: seq<Step>)
    ensures steps == [] ==> Possible(false, s, steps) && Final(s, steps) == s
    ensures steps != [] && Enabled(false, s, steps[0]) && Possible(false, After(s, steps[0]), steps[1..]) ==> Possible(false, s, steps)
    ensures steps != [] ==> Final(s, steps) == Final(After(s, steps[0]), steps[1..])
  {
  }

  /** Closing the bell itself rings nothing: a sleeping consumer sleeps on. */
  lemma {:induction false} BellCloseWakesNobody(s: System)
    requires Blocked(s)
    ensures Blocked(After(s, CloseBell))
  {
  }
}
