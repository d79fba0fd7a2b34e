/**
 * A run of two peers: one removes a node the other has never heard is gone, asks that other for news, and gets
 * the node's add back with them. Its graph shows the node live; every rebuild of its log shows it dead.
 */
module Revival {
  import opened Base
  import opened Clocks
  import opened Ontologies
  import opened Entries
  import opened Dag
  import opened Topo
  import opened Sync
  import opened Merge
  import opened Convergence
  import opened Graphs
  import opened Outcomes
  import opened Histories
  import opened Replicas
  import opened Network
  import opened Rings
  import opened Worlds
  import Lww

  /** A digest that tells the four contents apart. */
  function Kinds(): Digest {
    (c: Content) =>
      match c.payload
      case DefineOntology(_) => 0
      case RemoveNode(_) => 2
      case AddNode(id, _, _, _, _) => if id == "n" then 1 else 3
      case _ => 4
  }

  function Setting(): Env { Env(Kinds(), ClashEnv().accepts) }

  function Adding(id: string): GraphOp { AddNode(id, "t", None, "", map[]) }

  function RootEntry(): Entry { NewEntry(Kinds(), DefineOntology(ClashBase()), [], Clock("a", 0, 0), "a") }

  function AddEntry(): Entry { NewEntry(Kinds(), Adding("n"), [0], Clock("a", 1, 0), "a") }

  function NewsEntry(): Entry { NewEntry(Kinds(), Adding("m"), [1], Clock("a", 3, 0), "a") }

  function StartNet(): Net {
    Net([Peer(map[0 := RootEntry()], Clock("a", 0, 0)), Peer(map[0 := RootEntry()], Clock("b", 0, 0))], [], [], map[0 := RootEntry()])
  }

  function Shared(): Log { map[0 := RootEntry(), 1 := AddEntry()] }

  function QuietLink(): Link { Link((h: Hash) => true, 0, (i: nat) => 0) }

  /** Two peers whose graphs follow the base ontology, and no schema change written. */
  ghost predicate Plain(w: World) {
    && WorldInv(Setting(), w) && |w.net.peers| == |w.replicas| == 2
    && (forall i :: 0 <= i < 2 ==> w.replicas[i].base == ClashBase() && w.replicas[i].graphs != [] && w.replicas[i].graphs[0].ontology == ClashBase())
    && (forall h :: h in w.net.written ==> !w.net.written[h].payload.ExtendOntology?)
  }

  lemma {:induction false} StartsPlain() returns (w: World)
    ensures Begins(Setting(), w) && Plain(w) && w.net == StartNet()
  {
    hide WorldInv, FoldAll, Replayed, Trail, Initial;
    var s, env := StartNet(), Setting();
    RootWellFormed(RootEntry());
    var r := CanRebuild(env, map[0 := RootEntry()], ClashBase());
    w := World(s, [r, r]);
    StartInitial();
    BeginsInv(env, w);
    PlainFold(map[0 := RootEntry()], ClashBase());
    assert |r.graphs| > 0 by { RebuildNonempty(env, map[0 := RootEntry()], r, r); }
  }

  lemma {:induction false} RebuildNonempty(env: Env, l: Log, r: Replica, r': Replica)
    requires Rebuilds(env, l, r, r')
    ensures |r'.graphs| == |r'.applied| + 1
  {
  }

  lemma {:induction false} StartInitial()
    ensures Initial(Setting().digest, StartNet())
  {
    var s := StartNet();
    assert s.written[0] == RootEntry() && RootEntry().hash == 0;
    forall i | 0 <= i < |s.peers| ensures RootOnly(s.written, s.peers[i]) {
      assert 0 in s.written && s.peers[i].log == map[0 := s.written[0]];
    }
  }

  lemma {:induction false} PlainFold(l: Log, base: Ontology)
    requires WellFormed(l) && forall h :: h in l ==> !l[h].payload.ExtendOntology? && !l[h].payload.Checkpoint?
    ensures FoldAll(EmptyGraph(base), Replayed(l)) == EmptyGraph(base)
  {
    hide WellFormed, CausalOrder, FoldAll;
    OrderKnown(l);
    FoldsToNothing(EmptyGraph(base), Replayed(l));
  }

  // -- Writes and syncs along the way ------------------------------------------------------------------------------------

  lemma {:induction false} ExtendKeepsStart(env: Env, r: Replica, es: seq<Entry>, r': Replica)
    requires Extends(env, r, es, r')
    ensures r'.base == r.base && r'.graphs != [] && r'.graphs[0] == r.graphs[0]
  {
    assert r'.graphs[..|r.graphs|][0] == r.graphs[0];
  }

  lemma {:induction false} PlainWrite(w: World, i: nat, op: GraphOp, top: Hash, wall: u64) returns (w': World)
    requires Plain(w) && i < 2 && HeadsOf(w.net.peers[i].log) == {top} && !op.DefineOntology? && !op.Checkpoint? && !op.ExtendOntology?
    requires WrittenBy(Kinds(), w.net.peers[i], op, [top], wall).hash !in w.net.written
    ensures Turns(Setting(), w, Acts(Write(i, op, [top], wall)), w') && Plain(w')
    ensures var e := WrittenBy(Kinds(), w.net.peers[i], op, [top], wall);
      && w'.net == w.net.(peers := w.net.peers[i := Peer(w.net.peers[i].log[e.hash := e], e.clock)], written := w.net.written[e.hash := e])
      && HeadsOf(w'.net.peers[i].log) == {e.hash}
  {
    hide Network.Inv, HeadsOf, Grounded, Extends, Turns, After, Enabled;
    WriteOnHead(Kinds(), w.net, i, op, top, wall);
    w' := WriteHappens(Setting(), w, i, op, [top], wall);
    var e := WrittenBy(Kinds(), w.net.peers[i], op, [top], wall);
    ExtendKeepsStart(Setting(), w.replicas[i], [e], w'.replicas[i]);
  }

  /** Nothing in flight changes the schema. */
  lemma {:induction false} PlainReply(w: World, k: nat)
    requires Plain(w) && k < |w.net.replies| && w.net.replies[k].to < |w.net.peers|
    ensures !ChangesSchema(AdmittedOf(w.net, k))
  {
    hide Grounded, GoodPeer;
    forall e | e in AdmittedOf(w.net, k) ensures !e.payload.ExtendOntology? && !e.payload.Checkpoint? {
      assert e in w.net.replies[k].batch && w.net.written[e.hash] == e;
    }
  }

  lemma {:induction false} ReceiveKeepsStart(env: Env, s: Net, k: nat, r: Replica, r': Replica)
    requires k < |s.replies| && s.replies[k].to < |s.peers| && r.graphs != []
    requires Receives(env, s.peers[s.replies[k].to], s.replies[k], r, r') && !ChangesSchema(AdmittedOf(s, k))
    ensures r'.base == r.base && r'.graphs != [] && r'.graphs[0] == r.graphs[0]
  {
    hide Extends, Absorb, Founded, HashesOf, DeliveredOrder, WithinLimits, Rebuilds;
    var p := s.peers[s.replies[k].to];
    var log := Absorb(p.log, AdmittedOf(s, k));
    if r' != r { ExtendKeepsStart(env, r, EntriesAt(log, DeliveredOrder(log, AdmittedOf(s, k))), r'); }
  }

  lemma {:induction false} PlainSync(w: World) returns (ws: seq<World>, turns: seq<Turn>)
    requires Plain(w)
    ensures Path(Setting(), ws, turns) && |turns| == 3 && ws[0] == w && ws[3].net == Synced(w.net, 0, 1, QuietLink())
    ensures ws[2] == World(InFlight(w.net, 0, 1, QuietLink()), w.replicas) && turns[2] == Acts(Deliver(|w.net.replies|, QuietLink().walls))
    ensures Plain(ws[2]) && Plain(ws[3])
  {
    hide WorldInv, Synced, AnswerTo, Turns, InFlight, Setting, Plain;
    PlainTwo(w);
    ws, turns := SyncHappens(Setting(), w, 0, 1, QuietLink());
    LastTurn(Setting(), ws, turns);
    FlightPlain(w, ws[2]);
    PlainDelivered(w, ws[2], ws[3]);
  }

  lemma {:induction false} FlightPlain(w: World, v: World)
    requires Plain(w) && WorldInv(Setting(), v) && v == World(InFlight(w.net, 0, 1, QuietLink()), w.replicas)
    ensures Plain(v)
  {
    hide WorldInv, AnswerTo;
  }

  lemma {:induction false} PlainDelivered(w: World, v: World, w': World)
    requires Plain(w) && Plain(v) && v == World(InFlight(w.net, 0, 1, QuietLink()), w.replicas)
    requires Turns(Setting(), v, Acts(Deliver(|w.net.replies|, QuietLink().walls)), w')
    requires WorldInv(Setting(), w') && w'.net == Synced(w.net, 0, 1, QuietLink())
    ensures Plain(w')
  {
    hide WorldInv, AnswerTo, InFlight, Synced, After, Enabled, Receives, ChangesSchema;
    var k := |w.net.replies|;
    FlightTo(w.net);
    PlainReply(v, k);
    ReceiveKeepsStart(Setting(), v.net, k, v.replicas[1], w'.replicas[1]);
    SyncedKeeps(w.net);
  }

  lemma {:induction false} LastTurn(env: Env, ws: seq<World>, turns: seq<Turn>)
    requires Path(env, ws, turns) && |turns| == 3
    ensures Turns(env, ws[2], turns[2], ws[3])
  {
    hide Turns;
    assert Turns(env, ws[2], turns[2], ws[2 + 1]);
  }

  lemma {:induction false} FlightTo(s: Net)
    requires |s.peers| == 2
    ensures var t := InFlight(s, 0, 1, QuietLink());
      |t.replies| == |s.replies| + 1 && t.replies[|s.replies|] == AnswerTo(s, 0, 1, QuietLink()) && t.replies[|s.replies|].to == 1
  {
    hide Reaction, HeadsOf;
  }

  lemma {:induction false} SyncedKeeps(s: Net)
    requires |s.peers| == 2
    ensures Synced(s, 0, 1, QuietLink()).written == s.written && |Synced(s, 0, 1, QuietLink()).peers| == 2
    ensures Synced(s, 0, 1, QuietLink()).peers[0] == s.peers[0]
  {
    hide ReceiverAfter, AnswerTo;
  }

  /** A small enough log with clocks in reach syncs completely. */
  lemma {:induction false} FullSync(s: Net)
    requires Network.Inv(Kinds(), s) && |s.peers| == 2 && |s.peers[0].log| <= MAX_ENTRIES
    requires forall h :: h in s.peers[0].log ==> s.peers[0].log[h].clock.physical <= 3
    ensures Synced(s, 0, 1, QuietLink()).peers[1].log.Keys == s.peers[0].log.Keys + s.peers[1].log.Keys
    ensures Sane(Kinds(), Synced(s, 0, 1, QuietLink())) && WithinLimits(AnswerTo(s, 0, 1, QuietLink()).batch, 0)
  {
    hide Network.History, GoodPeer, GoodReply, Synced, HeadsOf, WithinLimits, AnswerTo;
    assert Sane(Kinds(), s);
    AnswerFits(Kinds(), s, 0, 1, QuietLink());
    assert AllInReach(s.peers[1], s.peers[0].log);
    RingSync(Kinds(), s, 0, 1, QuietLink());
  }

  /** A peer that knows none of the asker's heads answers with its whole log. */
  lemma {:induction false} WholeAnswer(s: Net)
    requires Network.Inv(Kinds(), s) && |s.peers| == 2 && HeadsOf(s.peers[1].log) !! s.peers[0].log.Keys
    ensures var q := s.peers[0].log;
      && (forall h :: h in q ==> q[h] in AnswerTo(s, 0, 1, QuietLink()).batch)
      && (forall e :: e in AnswerTo(s, 0, 1, QuietLink()).batch ==> e.hash in q && q[e.hash] == e)
  {
    hide MissingHashes, HeadsOf, Founded, Network.Inv, DistinctParents;
    var q, o := s.peers[0].log, OfferFrom(s.peers[1], QuietLink().bloom);
    SoundPeer(Kinds(), s, 0);
    AnswerWhole(q, o);
    MissingHashesKnown(q, o);
    AnswerEntries(q, MissingHashes(q, o));
    forall h | h in q ensures q[h] in AnswerTo(s, 0, 1, QuietLink()).batch {
      assert h in ToSet(MissingHashes(q, o));
      HashListed(EntriesAt(q, MissingHashes(q, o)), h);
    }
  }

  // -- The run -----------------------------------------------------------------------------------------------------------

  lemma {:induction false} OneTurn(env: Env, w: World, turn: Turn, w': World)
    requires Turns(env, w, turn, w')
    ensures Path(env, [w, w'], [turn])
  {
    hide Turns;
    assert [w, w'][0 + 1] == w';
  }

  lemma {:induction false} AddWritten(w: World) returns (w': World)
    requires Plain(w) && w.net == StartNet()
    ensures Turns(Setting(), w, Acts(Write(0, Adding("n"), [0], 1)), w') && Plain(w')
    ensures w'.net.peers == [Peer(Shared(), Clock("a", 1, 0)), StartNet().peers[1]] && w'.net.written == Shared() && HeadsOf(Shared()) == {1}
  {
    hide Plain, Turns, HeadsOf, WorldInv, Kinds, AddEntry, RootEntry;
    AddIs(w.net.peers[0]);
    PlainTwo(w);
    w' := PlainWrite(w, 0, Adding("n"), 0, 1);
    assert w'.net.peers[0].log == Shared();
  }

  lemma {:induction false} AddIs(p: Peer)
    requires p.clock == Clock("a", 0, 0)
    ensures WrittenBy(Kinds(), p, Adding("n"), [0], 1) == AddEntry() && AddEntry().hash == 1 && AddEntry().clock == Clock("a", 1, 0)
    ensures HeadsOf(map[0 := RootEntry()]) == {0}
  {
    hide HeadsOf;
    RootWellFormed(RootEntry());
  }

  lemma {:induction false} AddArrives(s: Net)
    requires Network.Inv(Kinds(), s) && s.peers == [Peer(Shared(), Clock("a", 1, 0)), StartNet().peers[1]]
    ensures var t := Synced(s, 0, 1, QuietLink());
      |t.peers| == 2 && t.peers[0] == s.peers[0] && t.peers[1].log == Shared() && t.written == s.written
  {
    hide Network.Inv, Synced, AnswerTo, Sane;
    FullSync(s);
    SyncedKeeps(s);
    assert s.peers[0].log.Keys + s.peers[1].log.Keys == {0, 1};
    assert s.peers[0].log.Keys == {0, 1};
    SaneSame(Kinds(), Synced(s, 0, 1, QuietLink()), 1, 0);
  }

  /** Both peers hold the root and the add. */
  ghost predicate BothHave(s: Net) {
    && |s.peers| == 2 && s.peers[0].log == Shared() && s.peers[1].log == Shared() && s.written == Shared() && HeadsOf(Shared()) == {1}
    && s.peers[0].clock == Clock("a", 1, 0)
  }

  lemma {:induction false} AddShared() returns (ws: seq<World>, turns: seq<Turn>)
    ensures Run(Setting(), ws, turns) && Plain(ws[|turns|]) && BothHave(ws[|turns|].net)
  {
    hide Plain, Turns, Begins, HeadsOf, Synced, AnswerTo, Shared, StartNet, InFlight;
    var w := StartsPlain();
    var w1 := AddWritten(w);
    PlainTwo(w1);
    OneTurn(Setting(), w, Acts(Write(0, Adding("n"), [0], 1)), w1);
    var more, rest := PlainSync(w1);
    AddArrives(w1.net);
    PathConcat(Setting(), [w, w1], [Acts(Write(0, Adding("n"), [0], 1))], more, rest);
    ws, turns := [w, w1] + more[1..], [Acts(Write(0, Adding("n"), [0], 1))] + rest;
  }

  lemma {:induction false} PlainTwo(w: World)
    requires Plain(w)
    ensures WorldInv(Setting(), w) && |w.net.peers| == |w.replicas| == 2 && Network.Inv(Kinds(), w.net)
  {
  }

  /** What the two peers hold before the last sync: one has removed the node, the other has news. */
  ghost predicate Apart(s: Net, gone: Entry) {
    && |s.peers| == 2 && s.peers[1].log == Shared()[2 := gone] && s.peers[0].log == Shared()[3 := NewsEntry()]
    && HeadsOf(s.peers[1].log) == {2} && Gone(gone)
  }

  predicate Gone(e: Entry) { e.hash == 2 && e.payload == RemoveNode("n") && e.next == [1] && e.clock.physical >= 2 }

  lemma {:induction false} RemoveWritten(w: World) returns (w': World, gone: Entry)
    requires Plain(w) && BothHave(w.net)
    ensures Turns(Setting(), w, Acts(Write(1, RemoveNode("n"), [1], 2)), w') && Plain(w') && Gone(gone)
    ensures |w'.net.peers| == 2 && w'.net.peers[0] == w.net.peers[0] && w'.net.peers[1].log == Shared()[2 := gone]
    ensures w'.net.written == Shared()[2 := gone] && HeadsOf(w'.net.peers[1].log) == {2}
  {
    hide Plain, Turns, HeadsOf, WorldInv, Kinds, AddEntry, RootEntry, Shared;
    PlainTwo(w);
    gone := WrittenBy(Kinds(), w.net.peers[1], RemoveNode("n"), [1], 2);
    GoneIs(w.net.peers[1]);
    w' := PlainWrite(w, 1, RemoveNode("n"), 1, 2);
  }

  lemma {:induction false} GoneIs(p: Peer)
    ensures Gone(WrittenBy(Kinds(), p, RemoveNode("n"), [1], 2)) && 2 !in Shared()
  {
  }

  lemma {:induction false} NewsWritten(w: World, gone: Entry) returns (w': World)
    requires Plain(w) && Gone(gone) && |w.net.peers| == 2 && w.net.peers[0] == Peer(Shared(), Clock("a", 1, 0)) && HeadsOf(Shared()) == {1}
    requires w.net.written == w.net.peers[1].log == Shared()[2 := gone] && HeadsOf(w.net.peers[1].log) == {2}
    ensures Turns(Setting(), w, Acts(Write(0, Adding("m"), [1], 3)), w') && Plain(w') && Apart(w'.net, gone)
  {
    hide Plain, Turns, HeadsOf, NewsEntry, Shared;
    PlainTwo(w);
    NewsIs(w.net.peers[0], gone);
    w' := PlainWrite(w, 0, Adding("m"), 1, 3);
  }

  lemma {:induction false} NewsIs(p: Peer, gone: Entry)
    requires p.clock == Clock("a", 1, 0)
    ensures WrittenBy(Kinds(), p, Adding("m"), [1], 3) == NewsEntry() && NewsEntry().hash == 3 && NewsEntry().clock == Clock("a", 3, 0)
    ensures 3 !in Shared()[2 := gone]
  {
    assert "n"[0] != "m"[0];
  }

  lemma {:induction false} GrowApart() returns (ws: seq<World>, turns: seq<Turn>, gone: Entry)
    ensures Run(Setting(), ws, turns) && Plain(ws[|turns|]) && Apart(ws[|turns|].net, gone)
  {
    hide Plain, Turns, Begins, HeadsOf, Apart, Gone, Shared;
    ws, turns := AddShared();
    var w, w1, w2;
    w := ws[|turns|];
    w1, gone := RemoveWritten(w);
    w2 := NewsWritten(w1, gone);
    var remove, news := Acts(Write(1, RemoveNode("n"), [1], 2)), Acts(Write(0, Adding("m"), [1], 3));
    OneTurn(Setting(), w, remove, w1);
    OneTurn(Setting(), w1, news, w2);
    PathConcat(Setting(), ws, turns, [w, w1], [remove]);
    PathConcat(Setting(), ws + [w, w1][1..], turns + [remove], [w1, w2], [news]);
    ws, turns := ws + [w, w1][1..] + [w1, w2][1..], turns + [remove] + [news];
  }

  lemma {:induction false} AddAccepted()
    ensures GoodAdd(Setting(), ClashBase(), "n", AddEntry())
  {
    NodeFits();
  }

  lemma {:induction false} SmallLog(s: Net, gone: Entry)
    requires Apart(s, gone)
    ensures var q := s.peers[0].log;
      && |q| <= MAX_ENTRIES && 1 in q && 3 in q && q[1] == AddEntry() && q[3] == NewsEntry() && 3 !in s.peers[1].log && 2 !in q
      && NewsEntry().hash == 3 && (forall h :: h in q ==> q[h].clock.physical <= 3 && q[h].payload != RemoveNode("n"))
  {
    hide HeadsOf;
    assert Kinds()(Content(Adding("m"), [1], Clock("a", 3, 0), "a")) == 3 by { assert "n"[0] != "m"[0]; }
  }

  /** The answer in flight carries the add, and news. */
  lemma {:induction false} NewsInFlight(s: Net, gone: Entry)
    requires Network.Inv(Kinds(), s) && Apart(s, gone)
    ensures var t, k := InFlight(s, 0, 1, QuietLink()), |s.replies|;
      && |t.replies| == k + 1 && t.replies[k].to == 1 && |t.peers| == 2 && t.peers == s.peers
      && WithinLimits(t.replies[k].batch, t.replies[k].bytes) && AddEntry() in AdmittedOf(t, k) && 3 in HashesOf(AdmittedOf(t, k)) && 3 !in s.peers[1].log
      && (forall e :: e in AdmittedOf(t, k) ==> e.payload != RemoveNode("n"))
  {
    hide Network.Inv, HeadsOf, AnswerTo, WithinLimits, HashesOf, Kinds, AddEntry, NewsEntry, Shared;
    FlightTo(s);
    SmallLog(s, gone);
    WholeAnswer(s);
    FullSync(s);
    HashListed(AdmittedOf(InFlight(s, 0, 1, QuietLink()), |s.replies|), 3);
    AnswerBytes(s);
  }

  lemma {:induction false} AnswerBytes(s: Net)
    requires |s.peers| == 2
    ensures AnswerTo(s, 0, 1, QuietLink()).bytes == 0
  {
    hide Reaction;
  }

  /** After the last sync the node is live. */
  lemma {:induction false} NewsRevives(w: World, w': World, gone: Entry)
    requires Plain(w) && Apart(w.net, gone)
    requires var v := World(InFlight(w.net, 0, 1, QuietLink()), w.replicas);
      Plain(v) && Plain(w') && Turns(Setting(), v, Acts(Deliver(|w.net.replies|, QuietLink().walls)), w')
    ensures Live(Shown(w'.replicas[1]), "n")
  {
    hide Network.Inv, HeadsOf, Grounded, GoodAdd, Turns, AnswerTo, WithinLimits, HashesOf, Live, Network.Admitted, InFlight, Apart, AdmittedOf, AddEntry;
    var v, k := World(InFlight(w.net, 0, 1, QuietLink()), w.replicas), |w.net.replies|;
    NewsInFlight(w.net, gone);
    PlainReply(v, k);
    AddAccepted();
    ReplicaExplained(Setting(), v.net.peers[1].log, v.replicas[1], "n");
    DeliveredAddRevives(Setting(), v, k, QuietLink().walls, w', "n", AddEntry());
  }

  // -- What a rebuild shows ------------------------------------------------------------------------------------------------

  lemma {:induction false} ConcerningNone(es: seq<Entry>, id: string)
    requires forall e :: e in es ==> Foreign(e, id)
    ensures Concerning(es, id) == []
  {
    if es != [] { ConcerningNone(es[..|es| - 1], id); }
  }

  lemma {:induction false} ConcerningTwo(es: seq<Entry>, id: string, i: nat, j: nat)
    requires i < j < |es| && !Foreign(es[i], id) && !Foreign(es[j], id)
    requires forall k :: 0 <= k < |es| && k != i && k != j ==> Foreign(es[k], id)
    ensures Concerning(es, id) == [WriteOf(es[i]), WriteOf(es[j])]
  {
    var a, b, c := es[..i], es[i + 1..j], es[j + 1..];
    assert es == a + [es[i]] + b + [es[j]] + c;
    ConcerningNone(a, id);
    ConcerningNone(b, id);
    ConcerningNone(c, id);
    ConcerningOne(es[i], id);
    ConcerningOne(es[j], id);
    ConcerningConcat(a, [es[i]], id);
    ConcerningConcat(a + [es[i]], b, id);
    ConcerningConcat(a + [es[i]] + b, [es[j]], id);
    ConcerningConcat(a + [es[i]] + b + [es[j]], c, id);
  }

  lemma {:induction false} ConcerningOne(e: Entry, id: string)
    requires !Foreign(e, id)
    ensures Concerning([e], id) == [WriteOf(e)]
  {
    assert [e][..0] == [];
  }

  /** In causal order the remove comes after the add. */
  lemma {:induction false} RemoveComesLast(l: Log, gone: Entry)
    requires WellFormed(l) && DistinctParents(l) && l == Shared()[2 := gone][3 := NewsEntry()] && Gone(gone)
    ensures Concerning(Replayed(l), "n") == [WriteOf(AddEntry()), WriteOf(gone)]
    ensures forall e :: e in Replayed(l) ==> Foreign(e, "n") || e == AddEntry() || e == gone
  {
    hide CausalOrder, Founded, DistinctParents;
    WholeOrder(l);
    OrderKnown(l);
    CausalOrderCorrect(l, l.Keys);
    var order, es := CausalOrder(l, l.Keys), Replayed(l);
    assert 1 in ToSet(order) && 2 in ToSet(order);
    var j :| 0 <= j < |order| && order[j] == 2;
    assert 1 in ParentsIn(l, l.Keys, 2);
    assert 1 in ToSet(order[..j]);
    var i :| 0 <= i < j && order[..j][i] == 1;
    OnlyTwo(l, gone);
    forall k | 0 <= k < |es| && k != i && k != j ensures Foreign(es[k], "n") { assert order[k] != order[i] && order[k] != order[j]; }
    ConcerningTwo(es, "n", i, j);
  }

  lemma {:induction false} OnlyTwo(l: Log, gone: Entry)
    requires l == Shared()[2 := gone][3 := NewsEntry()] && Gone(gone)
    ensures forall h :: h in l && h != 1 && h != 2 ==> Foreign(l[h], "n")
    ensures l[1] == AddEntry() && l[2] == gone && !Foreign(l[1], "n") && !Foreign(l[2], "n")
  {
    assert "n"[0] != "m"[0];
  }

  lemma {:induction false} RebuildBuries(l: Log, gone: Entry, r: Replica, r': Replica)
    requires WellFormed(l) && DistinctParents(l) && l == Shared()[2 := gone][3 := NewsEntry()] && Gone(gone)
    requires r.base == ClashBase() && Rebuilds(Setting(), l, r, r')
    ensures r'.graphs != [] && "n" in Shown(r').nodes && Shown(r').nodes["n"].dead
  {
    hide CausalOrder, WellFormed, DistinctParents, Replayed, GoodAdd, Concerning, WritesAlong, Lww.LifeRun, MayTake, FoldAll;
    var env, h := Setting(), [WriteOf(AddEntry()), WriteOf(gone)];
    RemoveComesLast(l, gone);
    PlainFold(l, ClashBase());
    RebuildGrounds(env, l, r, r');
    AddAccepted();
    AllAdmitted(env, r'.applied, r'.graphs, "n");
    ReplicaExplained(env, l, r', "n");
    ExplainedFate(Shown(r'), "n", h);
    Lww.RemoveLast(h);
  }

  /** Peer 1 shows "n" live although every rebuild of its very log shows it dead. */
  ghost predicate Differs(w: World) {
    && |w.net.peers| == |w.replicas| == 2 && w.replicas[1].graphs != [] && Live(Shown(w.replicas[1]), "n")
    && (forall r :: Rebuilds(Setting(), w.net.peers[1].log, w.replicas[1], r) ==>
          r.graphs != [] && "n" in Shown(r).nodes && Shown(r).nodes["n"].dead)
  }

  lemma {:induction false} EndsDiffering(s: Net, w: World, gone: Entry)
    requires Network.Inv(Kinds(), s) && Apart(s, gone) && Plain(w) && w.net == Synced(s, 0, 1, QuietLink()) && Live(Shown(w.replicas[1]), "n")
    ensures Differs(w)
  {
    hide Network.Inv, Apart, Gone, Synced, Live, Rebuilds, WellFormed, DistinctParents, WorldInv;
    FinalLog(s, w, gone);
    var l := w.net.peers[1].log;
    forall r | Rebuilds(Setting(), l, w.replicas[1], r) ensures r.graphs != [] && "n" in Shown(r).nodes && Shown(r).nodes["n"].dead {
      assert Gone(gone) by { ApartGone(s, gone); }
      RebuildBuries(l, gone, w.replicas[1], r);
    }
  }

  lemma {:induction false} ApartGone(s: Net, gone: Entry)
    requires Apart(s, gone)
    ensures Gone(gone)
  {
  }

  /** One add and one later remove are enough: a run that ends with a graph and its own log differing. */
  lemma {:induction false} GraphAndLogDiffer()
    ensures exists ws, turns :: Run(Setting(), ws, turns) && Differs(ws[|turns|])
  {
    hide Plain, Turns, Begins, Synced, Differs, Apart, InFlight;
    var ws, turns, gone := GrowApart();
    var w := ws[|turns|];
    PlainTwo(w);
    var more, rest := PlainSync(w);
    LastTurn(Setting(), more, rest);
    PlainShows(more[3]);
    NewsRevives(w, more[3], gone);
    EndsDiffering(w.net, more[3], gone);
    PathConcat(Setting(), ws, turns, more, rest);
    ws, turns := ws + more[1..], turns + rest;
    assert Run(Setting(), ws, turns);
  }

  lemma {:induction false} PlainShows(w: World)
    requires Plain(w)
    ensures |w.replicas| == 2 && w.replicas[1].graphs != []
  {
  }

  lemma {:induction false} FinalLog(s: Net, w: World, gone: Entry)
    requires Network.Inv(Kinds(), s) && Apart(s, gone) && Plain(w) && w.net == Synced(s, 0, 1, QuietLink())
    ensures var l := w.net.peers[1].log;
      WellFormed(l) && DistinctParents(l) && l == Shared()[2 := gone][3 := NewsEntry()] && w.replicas[1].base == ClashBase() && w.replicas[1].graphs != []
  {
    hide Network.Inv, HeadsOf, Synced, AnswerTo, Grounded, WellFormed, DistinctParents, Kinds, AddEntry, NewsEntry, RootEntry;
    SmallLog(s, gone);
    FullSync(s);
    SyncedKeeps(s);
    SoundPeer(Kinds(), w.net, 1);
    SoundPeer(Kinds(), s, 0);
    SoundPeer(Kinds(), s, 1);
    JoinedLog(s.written, s.peers[0].log, s.peers[1].log, w.net.peers[1].log, gone);
  }

  lemma {:induction false} JoinedLog(all: Log, a: Log, b: Log, l: Log, gone: Entry)
    requires Sublog(a, all) && Sublog(b, all) && Sublog(l, all) && l.Keys == a.Keys + b.Keys
    requires a == Shared()[3 := NewsEntry()] && b == Shared()[2 := gone]
    ensures l == Shared()[2 := gone][3 := NewsEntry()]
  {
    hide AddEntry, NewsEntry, RootEntry;
    var m := Shared()[2 := gone][3 := NewsEntry()];
    forall h | h in l ensures h in m && l[h] == m[h] { assert h in a || h in b; }
    assert l.Keys == m.Keys;
    MapsAgree(l, m);
  }
}
