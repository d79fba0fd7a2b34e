/**
 * The write history of one entity: what survives of it is the same in every order, except whether the
 * entity is alive.
 */
module Lww {
  import opened Base
  import opened Clocks
  import opened Ontologies
  import opened Graphs

  datatype Write =
    | Add(subtype: Option<string>, title: string, props: Props, clock: Clock)
    | Put(key: string, value: Value, clock: Clock)
    | Del(clock: Clock)

  /** What nodes and edges have in common: registers, the latest add, and the tombstone. */
  datatype Life = Life(cells: Cells, lastAdd: Clock, dead: bool)

  predicate Starts(ws: seq<Write>) { ws != [] && ws[0].Add? }

  function NodeLife(n: Node): Life { Life(n.cells, n.lastAdd, n.dead) }

  function EdgeLife(e: Edge): Life { Life(e.cells, e.lastAdd, e.dead) }

  function NodeWrite(n: Node, w: Write): Node {
    match w
    case Add(st, title, props, c) => AddAgain(n, st, title, props, c)
    case Put(k, v, c) => SetNodeProperty(n, k, v, c)
    case Del(c) => RemovedNode(n, c)
  }

  function EdgeWrite(e: Edge, w: Write): Edge {
    match w
    case Add(_, _, props, c) => AddEdgeAgain(e, props, c)
    case Put(k, v, c) => SetEdgeProperty(e, k, v, c)
    case Del(c) => RemovedEdge(e, c)
  }

  function NodeRun(t: string, ws: seq<Write>): Node
    requires Starts(ws)
  {
    if |ws| == 1 then NewNode(t, ws[0].subtype, ws[0].title, ws[0].props, ws[0].clock)
    else NodeWrite(NodeRun(t, ws[..|ws| - 1]), ws[|ws| - 1])
  }

  function EdgeRun(t: string, s: string, d: string, ws: seq<Write>): Edge
    requires Starts(ws)
  {
    if |ws| == 1 then NewEdge(t, s, d, ws[0].props, ws[0].clock)
    else EdgeWrite(EdgeRun(t, s, d, ws[..|ws| - 1]), ws[|ws| - 1])
  }

  /** The shared part of a run. */
  function LifeRun(ws: seq<Write>): Life
    requires Starts(ws)
  {
    if |ws| == 1 then FirstLife(ws[0]) else Step(LifeRun(ws[..|ws| - 1]), ws[|ws| - 1])
  }

  // -- What a history amounts to, said without running it -----------------------------------------------------

  predicate Writes(w: Write, k: string) { (w.Add? && k in w.props) || (w.Put? && w.key == k) }

  function Written(w: Write, k: string): Value
    requires Writes(w, k)
  {
    if w.Add? then w.props[k] else w.value
  }

  ghost predicate Touched(ws: set<Write>, k: string) { exists w :: w in ws && Writes(w, k) }

  /** `cell` is what some write to `k` left, and no write to `k` has a greater clock. */
  ghost predicate GreatestWrite(ws: set<Write>, k: string, cell: Cell) {
    && (exists w :: w in ws && Writes(w, k) && cell == Cell(Written(w, k), w.clock))
    && (forall w :: w in ws && Writes(w, k) ==> !Wins(w.clock, cell.clock))
  }

  ghost predicate GreatestAdd(ws: set<Write>, c: Clock) {
    && (exists w :: w in ws && w.Add? && w.clock == c)
    && (forall w :: w in ws && w.Add? ==> !Wins(w.clock, c))
  }

  /** Every register is the greatest write to it, and the add clock the greatest add. */
  ghost predicate Joined(ws: set<Write>, l: Life) {
    && (forall k :: k in l.cells <==> Touched(ws, k))
    && (forall k :: k in l.cells ==> GreatestWrite(ws, k, l.cells[k]))
    && GreatestAdd(ws, l.lastAdd)
  }

  /** Two writes to one key under one clock agree on the value. */
  ghost predicate Consistent(ws: set<Write>) {
    forall a, b, k :: a in ws && b in ws && Writes(a, k) && Writes(b, k) && a.clock == b.clock ==> Written(a, k) == Written(b, k)
  }

  /** After the final add comes a remove later than every add. */
  ghost predicate FinallyRemoved(ws: seq<Write>, c: Clock) {
    exists i :: 0 <= i < |ws| && ws[i].Del? && Wins(ws[i].clock, c) && forall j :: i < j < |ws| ==> !ws[j].Add?
  }

  // -- One more write ------------------------------------------------------------------------------------------

  function FirstLife(w: Write): Life
    requires w.Add?
  {
    Life(MergeCells(map[], w.props, w.clock), w.clock, false)
  }

  function Step(l: Life, w: Write): Life {
    match w
    case Add(_, _, props, c) => Life(MergeCells(l.cells, props, c), Later(l.lastAdd, c), false)
    case Put(k, v, c) => l.(cells := SetCell(l.cells, k, v, c))
    case Del(c) => if Wins(c, l.lastAdd) then l.(dead := true) else l
  }

  lemma {:induction false} NodeWriteIsStep(n: Node, w: Write)
    ensures NodeLife(NodeWrite(n, w)) == Step(NodeLife(n), w)
  {
  }

  lemma {:induction false} EdgeWriteIsStep(e: Edge, w: Write)
    ensures EdgeLife(EdgeWrite(e, w)) == Step(EdgeLife(e), w)
  {
  }

  lemma {:induction false} NodeRunLife(t: string, ws: seq<Write>)
    requires Starts(ws)
    ensures NodeLife(NodeRun(t, ws)) == LifeRun(ws)
  {
    hide NodeWrite, Step;
    if |ws| > 1 {
      NodeRunLife(t, ws[..|ws| - 1]);
      NodeWriteIsStep(NodeRun(t, ws[..|ws| - 1]), ws[|ws| - 1]);
    }
  }

  lemma {:induction false} EdgeRunLife(t: string, s: string, d: string, ws: seq<Write>)
    requires Starts(ws)
    ensures EdgeLife(EdgeRun(t, s, d, ws)) == LifeRun(ws)
  {
    hide EdgeWrite, Step;
    if |ws| > 1 {
      EdgeRunLife(t, s, d, ws[..|ws| - 1]);
      EdgeWriteIsStep(EdgeRun(t, s, d, ws[..|ws| - 1]), ws[|ws| - 1]);
    }
  }

  lemma {:induction false} NotBeaten(a: Clock, b: Clock, c: Clock)
    requires !Wins(a, b) && Wins(c, b)
    ensures !Wins(a, c)
  {
    if Wins(a, c) { WinsTrans(a, c, b); }
  }

  lemma {:induction false} GreatestWriteStep(ws: set<Write>, l: Life, w: Write, k: string)
    requires Joined(ws, l)
    ensures k in Step(l, w).cells <==> Touched(ws + {w}, k)
    ensures k in Step(l, w).cells ==> GreatestWrite(ws + {w}, k, Step(l, w).cells[k])
  {
    var l' := Step(l, w);
    assert k in l'.cells <==> k in l.cells || Writes(w, k);
    if Touched(ws, k) {
      var x :| x in ws && Writes(x, k);
      assert x in ws + {w};
    }
    if Writes(w, k) { assert w in ws + {w}; }
    if k in l.cells {
      GreatestCellStep(ws, l, w, k);
    } else if Writes(w, k) {
      FirstCell(ws, l, w, k);
    }
  }

  lemma {:induction false} FirstCell(ws: set<Write>, l: Life, w: Write, k: string)
    requires Joined(ws, l) && k !in l.cells && Writes(w, k)
    ensures k in Step(l, w).cells && GreatestWrite(ws + {w}, k, Step(l, w).cells[k])
  {
    assert w in ws + {w} && Step(l, w).cells[k] == Cell(Written(w, k), w.clock);
    WinsTotal(w.clock, w.clock);
  }

  lemma {:induction false} GreatestCellStep(ws: set<Write>, l: Life, w: Write, k: string)
    requires Joined(ws, l) && k in l.cells
    ensures k in Step(l, w).cells && GreatestWrite(ws + {w}, k, Step(l, w).cells[k])
  {
    hide Wins;
    var was, now := l.cells[k], Step(l, w).cells[k];
    if Writes(w, k) && Wins(w.clock, was.clock) {
      assert w in ws + {w} && now == Cell(Written(w, k), w.clock);
      forall x | x in ws && Writes(x, k) ensures !Wins(x.clock, now.clock) { NotBeaten(x.clock, was.clock, w.clock); }
      WinsTotal(w.clock, w.clock);
    } else {
      assert now == was;
      var x :| x in ws && Writes(x, k) && was == Cell(Written(x, k), x.clock);
      assert x in ws + {w};
    }
  }

  lemma {:induction false} GreatestAddStep(ws: set<Write>, l: Life, w: Write)
    requires GreatestAdd(ws, l.lastAdd)
    ensures GreatestAdd(ws + {w}, Step(l, w).lastAdd)
  {
    hide Wins;
    var was, now := l.lastAdd, Step(l, w).lastAdd;
    var x :| x in ws && x.Add? && x.clock == was;
    assert x in ws + {w} && w in ws + {w};
    if w.Add? && Wins(w.clock, was) {
      assert now == w.clock;
      forall y | y in ws && y.Add? ensures !Wins(y.clock, now) { NotBeaten(y.clock, was, w.clock); }
      WinsTotal(w.clock, w.clock);
    } else {
      assert now == was;
    }
  }

  lemma {:induction false} JoinedStep(ws: set<Write>, l: Life, w: Write)
    requires Joined(ws, l)
    ensures Joined(ws + {w}, Step(l, w))
  {
    forall k ensures k in Step(l, w).cells <==> Touched(ws + {w}, k)
             ensures k in Step(l, w).cells ==> GreatestWrite(ws + {w}, k, Step(l, w).cells[k])
    {
      GreatestWriteStep(ws, l, w, k);
    }
    GreatestAddStep(ws, l, w);
  }

  lemma {:induction false} JoinedFirst(w: Write, l: Life)
    requires w.Add? && l == FirstLife(w)
    ensures Joined({w}, l)
  {
    WinsTotal(w.clock, w.clock);
    assert w in {w};
  }

  lemma {:induction false} RemovedStep(ws: seq<Write>, l: Life, w: Write)
    requires l.dead <==> FinallyRemoved(ws, l.lastAdd)
    ensures Step(l, w).dead <==> FinallyRemoved(ws + [w], Step(l, w).lastAdd)
  {
    var ws', c := ws + [w], Step(l, w).lastAdd;
    assert ws'[|ws|] == w;
    if w.Add? {
    } else if w.Del? && Wins(w.clock, c) {
      assert 0 <= |ws| < |ws'| && ws'[|ws|].Del?;
    } else if l.dead {
      var i :| 0 <= i < |ws| && ws[i].Del? && Wins(ws[i].clock, c) && forall j :: i < j < |ws| ==> !ws[j].Add?;
      assert ws'[i] == ws[i] && forall j :: i < j < |ws'| ==> !ws'[j].Add?;
    } else if FinallyRemoved(ws', c) {
      var i :| 0 <= i < |ws'| && ws'[i].Del? && Wins(ws'[i].clock, c) && forall j :: i < j < |ws'| ==> !ws'[j].Add?;
      assert i < |ws| && ws[i] == ws'[i];
      forall j | i < j < |ws| ensures !ws[j].Add? { assert ws'[j] == ws[j]; }
    }
  }

  // -- Whole histories -----------------------------------------------------------------------------------------

  lemma {:induction false} LifeRunIsJoin(ws: seq<Write>)
    requires Starts(ws)
    ensures Joined(ToSet(ws), LifeRun(ws))
    ensures LifeRun(ws).dead <==> FinallyRemoved(ws, LifeRun(ws).lastAdd)
  {
    hide Joined, FinallyRemoved, Wins, Step;
    if |ws| == 1 {
      assert ws == [ws[0]] && ToSet(ws) == {ws[0]};
      JoinedFirst(ws[0], LifeRun(ws));
      AddsOnly(ws, LifeRun(ws).lastAdd);
    } else {
      var n := |ws| - 1;
      LifeRunIsJoin(ws[..n]);
      assert ws == ws[..n] + [ws[n]];
      ToSetSnoc(ws[..n], ws[n]);
      JoinedStep(ToSet(ws[..n]), LifeRun(ws[..n]), ws[n]);
      RemovedStep(ws[..n], LifeRun(ws[..n]), ws[n]);
    }
  }

  /** `w` writes `k`, and no write to `k` outranks it. */
  ghost predicate Decides(ws: seq<Write>, k: string, w: Write) {
    Writes(w, k) && forall x :: x in ws && Writes(x, k) ==> !Outranks(x.clock, w.clock)
  }

  /**
   * Whatever the history, each key holds what one of its writes says, one that no other outranks: where
   * two peers wrote it under one tuple, the lower id's value stays.
   */
  lemma {:induction false} RegisterHolds(ws: seq<Write>, k: string)
    requires Starts(ws) && Touched(ToSet(ws), k)
    ensures k in LifeRun(ws).cells && exists w :: w in ws && Decides(ws, k, w) && LifeRun(ws).cells[k] == Cell(Written(w, k), w.clock)
  {
    hide LifeRun, Wins, Outranks;
    LifeRunIsJoin(ws);
    var w :| w in ToSet(ws) && Writes(w, k) && LifeRun(ws).cells[k] == Cell(Written(w, k), w.clock);
    forall x | x in ws && Writes(x, k) ensures !Outranks(x.clock, w.clock) {
      assert x in ToSet(ws);
      WinsIff(x.clock, w.clock);
    }
  }

  /** Two writes under one tuple, in either order: the lower id's value is what is left. */
  lemma {:induction false} TieGoesToLowerId(cells: Cells, a: Write, b: Write, k: string)
    requires Writes(a, k) && Writes(b, k) && SameTuple(a.clock, b.clock) && Lower(a.clock.id, b.clock.id)
    requires a.Put? && b.Put? && (k in cells ==> Outranks(a.clock, cells[k].clock))
    ensures SetCell(SetCell(cells, k, a.value, a.clock), k, b.value, b.clock)[k] == Cell(a.value, a.clock)
    ensures SetCell(SetCell(cells, k, b.value, b.clock), k, a.value, a.clock)[k] == Cell(a.value, a.clock)
  {
    hide Wins, Lower;
    WinsIff(a.clock, b.clock);
    WinsIff(b.clock, a.clock);
    WinsTotal(a.clock, b.clock);
    if k in cells { WinsIff(a.clock, cells[k].clock); }
  }

  lemma {:induction false} AddsOnly(ws: seq<Write>, c: Clock)
    requires forall i :: 0 <= i < |ws| ==> !ws[i].Del?
    ensures !FinallyRemoved(ws, c)
  {
  }

  /**
   * Per-property last-writer-wins is a join: after any history that starts with an add, each key holds
   * the write with the greatest clock, the add clock is the greatest add, and the node is dead exactly
   * when a remove later than every add comes after the last add in the sequence.
   */
  lemma {:induction false} NodeRunIsJoin(t: string, ws: seq<Write>)
    requires Starts(ws)
    ensures Joined(ToSet(ws), NodeLife(NodeRun(t, ws)))
    ensures NodeRun(t, ws).dead <==> FinallyRemoved(ws, NodeRun(t, ws).lastAdd)
  {
    hide Joined, FinallyRemoved, LifeRun, NodeRun;
    NodeRunLife(t, ws);
    LifeRunIsJoin(ws);
  }

  /** The same for edges. */
  lemma {:induction false} EdgeRunIsJoin(t: string, s: string, d: string, ws: seq<Write>)
    requires Starts(ws)
    ensures Joined(ToSet(ws), EdgeLife(EdgeRun(t, s, d, ws)))
    ensures EdgeRun(t, s, d, ws).dead <==> FinallyRemoved(ws, EdgeRun(t, s, d, ws).lastAdd)
  {
    hide Joined, FinallyRemoved, LifeRun, EdgeRun;
    EdgeRunLife(t, s, d, ws);
    LifeRunIsJoin(ws);
  }

  lemma {:induction false} GreatestCellUnique(ws: set<Write>, k: string, a: Cell, b: Cell)
    requires Consistent(ws) && GreatestWrite(ws, k, a) && GreatestWrite(ws, k, b)
    ensures a == b
  {
    WinsTotal(a.clock, b.clock);
  }

  /** A set of writes has one join. */
  lemma {:induction false} JoinUnique(ws: set<Write>, a: Life, b: Life)
    requires Consistent(ws) && Joined(ws, a) && Joined(ws, b)
    ensures a.cells == b.cells && a.lastAdd == b.lastAdd
  {
    WinsTotal(a.lastAdd, b.lastAdd);
    forall k ensures k in a.cells <==> k in b.cells { assert k in a.cells <==> Touched(ws, k); }
    assert a.cells.Keys == b.cells.Keys;
    forall k | k in a.cells ensures a.cells[k] == b.cells[k] { GreatestCellUnique(ws, k, a.cells[k], b.cells[k]); }
    MapsAgree(a.cells, b.cells);
  }

  /** Any two histories with the same writes, reordered and repeated at will, agree on properties and add clock. */
  lemma {:induction false} OrderDoesNotMatter(t: string, u: string, ws: seq<Write>, vs: seq<Write>)
    requires Starts(ws) && Starts(vs) && ToSet(ws) == ToSet(vs) && Consistent(ToSet(ws))
    ensures NodeRun(t, ws).cells == NodeRun(u, vs).cells
    ensures NodeRun(t, ws).lastAdd == NodeRun(u, vs).lastAdd
  {
    NodeRunIsJoin(t, ws);
    NodeRunIsJoin(u, vs);
    JoinUnique(ToSet(ws), NodeLife(NodeRun(t, ws)), NodeLife(NodeRun(u, vs)));
  }

  // -- When the tombstone is settled ----------------------------------------------------------------------------

  /** Some remove is later than every add. */
  ghost predicate RemoveWins(ws: set<Write>) {
    exists d :: d in ws && d.Del? && forall a :: a in ws && a.Add? ==> Wins(d.clock, a.clock)
  }

  predicate HasAdd(ws: set<Write>) { exists a :: a in ws && a.Add? }

  /** The histories that make the writes of `ws`, each at least once: merging applies held entries again. */
  predicate Told(ws: set<Write>, xs: seq<Write>) { Starts(xs) && ToSet(xs) == ws }

  lemma {:induction false} RemoveWinsIff(ws: set<Write>, c: Clock)
    requires GreatestAdd(ws, c)
    ensures RemoveWins(ws) <==> exists d :: d in ws && d.Del? && Wins(d.clock, c)
  {
    hide Wins;
    forall d, a | d in ws && a in ws && a.Add? && Wins(d.clock, c) ensures Wins(d.clock, a.clock) {
      WinsTotal(a.clock, c);
      if a.clock != c { WinsTrans(d.clock, c, a.clock); }
    }
  }

  /** With no remove later than every add, the entity is live whatever the history. */
  lemma {:induction false} AddWins(xs: seq<Write>)
    requires Starts(xs) && !RemoveWins(ToSet(xs))
    ensures !LifeRun(xs).dead
  {
    var c := LifeRun(xs).lastAdd;
    LifeRunIsJoin(xs);
    RemoveWinsIff(ToSet(xs), c);
    forall i | 0 <= i < |xs| ensures xs[i] in ToSet(xs) {}
  }

  /** A history that begins with `a` and ends with `z`. */
  lemma {:induction false} Ending(ws: set<Write>, a: Write, z: Write) returns (xs: seq<Write>)
    requires a in ws && a.Add? && z in ws
    ensures Told(ws, xs) && xs[0] == a && xs[|xs| - 1] == z
  {
    var all := Listing(ws);
    xs := [a] + all + [z];
    forall w ensures w in ToSet(xs) <==> w in ws {
      if w in ws {
        assert w in ToSet(all);
        var i :| 0 <= i < |all| && all[i] == w;
        assert xs[i + 1] == w;
      }
      if w in ToSet(xs) {
        var i :| 0 <= i < |xs| && xs[i] == w;
        if 0 < i < |xs| - 1 { assert all[i - 1] == w && w in ToSet(all); }
      }
    }
  }

  /** A history that ends in a remove later than every add leaves the entity dead. */
  lemma {:induction false} RemoveLast(xs: seq<Write>)
    requires Starts(xs) && xs[|xs| - 1].Del?
    requires forall a :: a in ToSet(xs) && a.Add? ==> Wins(xs[|xs| - 1].clock, a.clock)
    ensures LifeRun(xs).dead
  {
    LifeRunIsJoin(xs);
    EndsRemoved(xs, LifeRun(xs).lastAdd);
  }

  lemma {:induction false} EndsRemoved(xs: seq<Write>, c: Clock)
    requires xs != [] && xs[|xs| - 1].Del? && Wins(xs[|xs| - 1].clock, c)
    ensures FinallyRemoved(xs, c)
  {
  }

  lemma {:induction false} AddLast(xs: seq<Write>)
    requires Starts(xs) && xs[|xs| - 1].Add?
    ensures !LifeRun(xs).dead
  {
  }

  ghost predicate SameFate(ws: set<Write>) {
    forall xs, ys :: Told(ws, xs) && Told(ws, ys) ==> LifeRun(xs).dead == LifeRun(ys).dead
  }

  /**
   * The tombstone is the same in every history of the same writes, and then absent, exactly when no
   * remove is later than every add: an add applied again revives even under a smaller clock.
   */
  lemma {:induction false} FateSettled(ws: set<Write>)
    requires HasAdd(ws)
    ensures SameFate(ws) <==> !RemoveWins(ws)
    ensures (forall xs :: Told(ws, xs) ==> !LifeRun(xs).dead) <==> !RemoveWins(ws)
  {
    if RemoveWins(ws) {
      var a :| a in ws && a.Add?;
      var d :| d in ws && d.Del? && forall x :: x in ws && x.Add? ==> Wins(d.clock, x.clock);
      var xs := Ending(ws, a, d);
      var ys := Ending(ws, a, a);
      RemoveLast(xs);
      AddLast(ys);
      assert Told(ws, xs) && Told(ws, ys);
    } else {
      forall xs | Told(ws, xs) ensures !LifeRun(xs).dead { AddWins(xs); }
    }
  }

  /** Of nodes. */
  lemma {:induction false} NodeFateSettled(t: string, ws: set<Write>)
    requires HasAdd(ws)
    ensures (forall xs, ys :: Told(ws, xs) && Told(ws, ys) ==> NodeRun(t, xs).dead == NodeRun(t, ys).dead) <==> !RemoveWins(ws)
  {
    hide LifeRun, NodeRun, RemoveWins;
    FateSettled(ws);
    forall xs | Told(ws, xs) ensures NodeRun(t, xs).dead == LifeRun(xs).dead { NodeRunLife(t, xs); }
  }

  /** Of edges. */
  lemma {:induction false} EdgeFateSettled(t: string, s: string, d: string, ws: set<Write>)
    requires HasAdd(ws)
    ensures (forall xs, ys :: Told(ws, xs) && Told(ws, ys) ==> EdgeRun(t, s, d, xs).dead == EdgeRun(t, s, d, ys).dead) <==> !RemoveWins(ws)
  {
    hide LifeRun, EdgeRun, RemoveWins;
    FateSettled(ws);
    forall xs | Told(ws, xs) ensures EdgeRun(t, s, d, xs).dead == LifeRun(xs).dead { EdgeRunLife(t, s, d, xs); }
  }

  ghost predicate OneAdd(ws: set<Write>) { forall a, b :: a in ws && b in ws && a.Add? && b.Add? ==> a == b }

  ghost predicate SameFateOnce(ws: set<Write>) {
    forall xs, ys :: Told(ws, xs) && NoDup(xs) && Told(ws, ys) && NoDup(ys) ==> LifeRun(xs).dead == LifeRun(ys).dead
  }

  /** With a single add, which comes first, a winning remove kills the entity in every order without repeats. */
  lemma {:induction false} OneAddDies(ws: set<Write>, xs: seq<Write>)
    requires Told(ws, xs) && NoDup(xs) && OneAdd(ws) && RemoveWins(ws)
    ensures LifeRun(xs).dead
  {
    var c := LifeRun(xs).lastAdd;
    LifeRunIsJoin(xs);
    RemoveWinsIff(ws, c);
    var d :| d in ws && d.Del? && Wins(d.clock, c);
    assert d in ToSet(xs);
    var i :| 0 <= i < |xs| && xs[i] == d;
    forall j | i < j < |xs| ensures !xs[j].Add? {
      assert xs[0] in ToSet(xs) && xs[j] in ToSet(xs);
      assert xs[j] != xs[0];
    }
    assert FinallyRemoved(xs, c);
  }

  /** Where each write is made once, as a rebuild does, a single add settles the tombstone too. */
  lemma {:induction false} FateSettledOnce(ws: set<Write>)
    requires HasAdd(ws)
    ensures SameFateOnce(ws) <==> !RemoveWins(ws) || OneAdd(ws)
  {
    if !RemoveWins(ws) {
      forall xs | Told(ws, xs) ensures !LifeRun(xs).dead { AddWins(xs); }
    } else if OneAdd(ws) {
      forall xs | Told(ws, xs) && NoDup(xs) ensures LifeRun(xs).dead { OneAddDies(ws, xs); }
    } else {
      var a, b :| a in ws && b in ws && a.Add? && b.Add? && a != b;
      var d :| d in ws && d.Del? && forall x :: x in ws && x.Add? ==> Wins(d.clock, x.clock);
      assert ws == {a} + (ws - {a, d}) + {d} && ws == {a} + (ws - {a, b}) + {b};
      var xs := EndingOnce(ws, a, ws - {a, d}, d);
      var ys := EndingOnce(ws, a, ws - {a, b}, b);
      RemoveLast(xs);
      AddLast(ys);
    }
  }

  lemma {:induction false} EndingOnce(ws: set<Write>, a: Write, rest: set<Write>, z: Write) returns (xs: seq<Write>)
    requires a.Add? && a !in rest && z !in rest && a != z && ws == {a} + rest + {z}
    ensures Told(ws, xs) && NoDup(xs) && |xs| > 1 && xs[0] == a && xs[|xs| - 1] == z
  {
    var mid := Listing(rest);
    xs := [a] + mid + [z];
    forall i, j | 0 <= i < j < |xs| ensures xs[i] != xs[j] {
      assert 0 < i < |xs| - 1 ==> xs[i] == mid[i - 1] && mid[i - 1] in ToSet(mid);
      assert 0 < j < |xs| - 1 ==> xs[j] == mid[j - 1] && mid[j - 1] in ToSet(mid);
    }
    forall w ensures w in ToSet(xs) <==> w in ws {
      if w in rest {
        assert w in ToSet(mid);
        var i :| 0 <= i < |mid| && mid[i] == w;
        assert xs[i + 1] == w;
      }
      assert xs[0] == a && xs[|xs| - 1] == z;
      if w in ToSet(xs) {
        var i :| 0 <= i < |xs| && xs[i] == w;
        if 0 < i < |xs| - 1 { assert mid[i - 1] == w && w in ToSet(mid); }
      }
    }
  }

  /** The documented rule, dead exactly when the latest remove is later than the latest add, fails on three writes. */
  lemma {:induction false} DocumentedRuleFails()
    ensures exists xs :: Starts(xs) && RemoveWins(ToSet(xs)) && !LifeRun(xs).dead
  {
    var a := Add(None, "", map[], Clock("p", 1, 0));
    var d := Del(Clock("p", 5, 0));
    var xs := [a, d, a];
    AddLast(xs);
    assert xs[1] == d && d in ToSet(xs);
    assert forall x :: x in ToSet(xs) && x.Add? ==> x == a;
    assert RemoveWins(ToSet(xs));
  }
}
