# Silk, verified

Silk is a replicated graph store: an append-only log of content-addressed entries (a Merkle DAG), a sync
protocol that ships the difference between two logs, and a typed property graph materialized from the log
under last-writer-wins and add-wins rules. This project models its core and proves what the system promises
about it, for every input, every run and every number of peers. `dafny verify dfyconfig.toml` checks it all.

Layers, bottom up:

- **Clocks, Entries, Dag, Topo, Emission, OpLogs, Stability** — the hybrid logical clock, entries and their hashes, the
  log as an acyclic map with heads and children, the deterministic causal order, which clocks and hashes it goes by and
  its stability under growth, and the mutable log object.
- **Sync, Merge, Partial, Convergence, Network, Rings, Oversize** — answering an offer through a lossy filter, the retrying
  merge, type-filtered payloads, unions, a state machine of peers whose messages may be delayed, duplicated,
  reordered, lost or refused, and rounds of a ring in that machine. **Reconstruction** reloads a log from its stored
  entries; **Chains** are logs that form a single line.
- **Ontologies, Validation, Extensions, Fingerprints, Evolution** — types, what validates, additive extension, and the
  facts peers compare.
- **Graphs, GraphInvariant, RetryOrder, Outcomes, RetryExact, Materialized, Queries, Lww, Replicas** — the effect of
  every entry, the index invariant, held edges and the outcomes their retry orders allow, the mutable graph,
  per-property registers and tombstones, and agreement of rebuilt graphs across peers.
- **Histories, EdgeHistories, Effects, Schemas** — what a succession of applied entries makes of nodes, edges, quarantine
  and ontology.
- **Worlds, Steady, Revival** — the same machine with a graph at every peer, kept up entry by entry as
  they arrive: what it shares with a rebuild of the log in every run, and a run after which the two differ.
- **Checkpoints, Compaction, Stores** — writing the live graph out as a checkpoint and restoring it.
- **Engine, ShortestPaths, NodeOrder** — breadth-first search, impact analysis, shortest path, topological sort.
- **Tail, Wakeups, Starvation, Draining** — cursor subscriptions, the wake-up protocol around the bell, and when
  repeated fetches drain a log.
- **Bloom** — the filter's words as a set of bit positions.

Conventions. A hash is a number (32 bytes read big-endian); the digest is a parameter. Nothing assumes it
injective: results that need hashes to identify entries ask it only of the entries that occur (`OneEntryPerHash`,
`NoCollision`, `Unclashing`). A float is its 64-bit pattern. Acyclicity says that every non-empty set of entries
has one with no predecessor in it. Hash maps and sets are walked in arbitrary order. Wall-clock readings are arbitrary inputs, backward jumps
included. Properties and their clocks are one map of cells. Per-value checks are an arbitrary predicate over
definition and value.

Where documentation and code disagree, the model follows the code:

- README.md:293 guarantees that two stores which synced both ways show identical graphs. Four things stand in the
  way.
  - *Tombstones.* PROOF.md gives them as "latest remove beats latest add", but the code lets every add revive a node
    (src/graph.rs:597): `Lww.DocumentedRuleFails`. Merging applies entries as they arrive, entries already held
    included (src/python/mod.rs:1710-1751), so histories may repeat, and the tombstone is settled exactly when no remove
    is later than every add: `Lww.FateSettled`. One add and one later remove are enough for a peer's graph and its own
    log to differ: `Revival.GraphAndLogDiffer`. Properties, their clocks and the add clock do agree, in every run:
    `Worlds.EveryRunGraph`, and by a condition on log and ontology `Steady.EveryRunSteady`.
  - *Held edges.* One retry has one outcome exactly when nothing is disputed among its edges
    (`RetryExact.RetryDetermined`); rebuilds agree when additions of one edge do not clash
    (`Replicas.EqualHashesEqualGraphs`) and need not otherwise (`Replicas.RebuildsCanDiffer`).
  - *Drift.* A peer refuses entries more than 1000 s ahead of its own clock, which an idle peer never moves, and may
    stay behind for ever: `Rings.IdlePeerNeverCatchesUp`.
  - *Message limits.* A payload over 100,000 entries or 64 MiB is refused whole (src/sync.rs:121-137), and a sender that
    knows none of the offered heads sends its whole log (`Sync.AnswerWhole`): two peers that share 100,000 entries and
    write once each never sync again, `Oversize.ForkNeverHeals`.

  A sync yields the union exactly within drift and limits (`Rings.SyncTakes`); a ring converges where both can be
  foreseen (`Rings.ForeseenToConverge`), and within the limits always comes to one log or a stalemate (`Rings.RoundsEnd`).
- The fingerprint is documented to grow under every additive change (src/ontology.rs:159-160). Relaxing a
  required property makes both sides report a divergence: `Evolution.RelaxingDiverges`; `Evolution.VerdictForeseen`
  gives the verdict of every extension.
- The causal sort counts parents with multiplicity but decrements once per child, so an entry that names a
  parent twice is dropped: the last clause of `Topo.CausalOrderCorrect`. Locally written entries never do.
- PROOF.md says a checkpoint replays into an identical graph. It does exactly under the condition of
  `Compaction.RoundTrip` (`Stores.NotAllRestorable` fails it), and never carries the entity clock that decides
  labels: `Compaction.LabelVerdict`, `Compaction.LabelCanFlip`.
- The hierarchy guard of a hundred levels is described as harmless; `Queries.SubtypeIsWithin` says exactly what it
  leaves, and `Queries.GuardCutsDeepTower` where it bites.
- A truncated tail batch leaves the cursor at one entry. Nothing is skipped (`Wakeups.MissesNothing`), but
  progress is not guaranteed on forks (`Starvation.TruncationCanStarve`); `Draining.DrainsIff` says when it is.
- Reloading a store takes extra roots for duplicates or checkpoints to be handled by the log (src/store.rs:361-366);
  a root checkpoint read after another root silently drops that root: `Reconstruction.NothingLostIff`.

## Model

| member | source | states |
|---|---|---|
| `Clocks.WinsTotal` | src/clock.rs:99-104 | the conflict order is total: of two different clocks exactly one wins, and none wins against itself |
| `Clocks.WinsTrans` | src/clock.rs:99-104 | the conflict order is transitive, ids compared as tie-breaker included |
| `Clocks.LaterIsJoin` | src/graph.rs:784-786 | keeping the winner is commutative, associative and idempotent |
| `Clocks.WinsIff` | src/clock.rs:99-104 | one clock wins over another exactly when its physical time is greater, or equal and its counter greater, or both equal and its id comes before as a word: a proper prefix, or smaller at the first difference |
| `Clocks.TickIsLeast` | src/clock.rs:59-69 | short of saturation a tick is the least pair after the old one and not before the wall reading |
| `Clocks.MergeIsLeast` | src/clock.rs:74-94 | short of saturation a merge is the least pair after both clocks and not before the wall reading; its physical time is one of the three readings, and the counter restarts at 0 exactly when the wall is ahead of both |
| `Clocks.TickAdvances` | src/clock.rs:59-69 | for every wall reading a tick moves the (physical, logical) pair forward, and stands still exactly when the wall is not ahead and the counter is saturated |
| `Clocks.MergeAdvances` | src/clock.rs:74-94 | absorbing a remote clock moves past both clocks, or stands at a saturated counter |
| `Clocks.TupleDecides` | src/clock.rs:99-109 | clocks that differ as tuples are ordered by their tuples whatever their ids |
| `Clocks.HybridClock.Tick` | src/clock.rs:59-69 | the mutable clock becomes `Ticked` of its old value |
| `Clocks.HybridClock.Merge` | src/clock.rs:74-94 | the mutable clock becomes `Merged` of its old value and the remote one |
| `Entries.SameHashSameEntry` | src/entry.rs:267-301 | authentic entries whose contents the digest tells apart are identified by their hashes; only the contents that occur are asked about |
| `Dag.AppendWellFormed` | src/oplog.rs:64-82 | appending an entry with known predecessors keeps the log keyed, causally complete and acyclic |
| `Dag.AppendIndexes` | src/oplog.rs:71-82 | the new heads are the old ones less the predecessors plus the entry, and only the predecessors gain a child |
| `Dag.HeadsCover` | src/oplog.rs:207-224 | every entry of a log lies at or below some head |
| `Dag.AncestorsClosed` | src/oplog.rs:358-381 | an ancestor set is closed under predecessors |
| `Dag.BelowInSublog` | src/oplog.rs:358-381 | growing a complete log gives its old entries no new ancestors |
| `Topo.SortedIsCanonical` | src/oplog.rs:284-296 | sorting by (physical, logical, hash) gives the one canonical listing of the set, whatever order the map produced |
| `Emission.InOrderAscends` | src/oplog.rs:284-296 | the sort is ascending in physical time, then counter, then hash |
| `Topo.CausalOrderCorrect` | src/oplog.rs:268-328 | on any subset of an acyclic log the order is free of repeats with in-subset parents first, and covers the subset if and only if no entry names an in-subset parent twice |
| `Emission.EmissionOrder` | src/oplog.rs:268-328 | the whole order, of any subset: whatever is freed by an earlier emission comes first, roots before all, and of what one emission frees the smaller (physical, logical, hash) |
| `Emission.RootsAscend` | src/oplog.rs:284-296 | the entries without a predecessor in the subset come first, ascending |
| `Emission.UnrelatedAscend` | src/oplog.rs:268-328 | entries of which none names another come out ascending, all of them |
| `Topo.CausalOrderLocal` | src/oplog.rs:268-328 | the order depends on the entries of the subset alone |
| `Stability.OrderStable` | src/oplog.rs:268-328 | on any subset of any log, the order of a part closed under predecessors is the order of the whole with the rest left out |
| `Stability.GrowthKeepsOrder` | src/oplog.rs:207-224 | so a log that grows keeps its old entries in the order they had |
| `Chains.ChainOrder` | src/oplog.rs:268-328 | the causal order of a chain is the chain |
| `Topo.DeltaOrder` | src/oplog.rs:237-258 | on the complement of an ancestor-closed set the order respects the whole of transitive causality |
| `OpLogs.AppendToWellFormed` | src/oplog.rs:44-85 | whatever is appended, accepted or refused, the log stays well-formed, and only a root checkpoint removes anything |
| `OpLogs.AppendEnds` | src/oplog.rs:44-85 | the five ends of an append in the order they are tried, each with the log it leaves: content not hashing to the hash, hash already held, root checkpoint onto a log, the first lacking predecessor, insertion |
| `OpLogs.UpToIs` | src/oplog.rs:332-341 | the past as of a cutoff leaves out exactly the later entries; those of the cutoff's own tuple are in it |
| `OpLogs.OpLog.constructor` | src/oplog.rs:24-37 | a log of one genesis entry with exact heads, children and length |
| `OpLogs.OpLog.Append` | src/oplog.rs:44-85 | verdict and new entries for a bad hash, a duplicate, a root checkpoint, a missing parent and a fresh entry; heads, children and length stay exact |
| `OpLogs.OpLog.ReplaceWithCheckpoint` | src/oplog.rs:346-355 | the log becomes the checkpoint alone, with exact indexes |
| `OpLogs.OpLog.ReachableFrom` | src/oplog.rs:358-381 | the breadth-first walk returns exactly what is reached from the starts |
| `OpLogs.OpLog.TopoSort` | src/oplog.rs:268-328 | Kahn's algorithm with in-degree counters computes the canonical causal order |
| `OpLogs.OpLog.EntriesSince` | src/oplog.rs:207-224 | everything not at or below the known entry, in causal order |
| `OpLogs.OpLog.EntriesSinceHeads` | src/oplog.rs:237-258 | an unknown cursor hash is an error, otherwise everything past the cursor in causal order |
| `OpLogs.OpLog.EntriesAsOf` | src/oplog.rs:332-341 | the entries up to the cutoff tuple, in causal order |
| `Sync.AnswerClosed` | src/sync.rs:209-245 | every predecessor of an answered entry is answered too or is an offered head |
| `Sync.AnswerSuffices` | src/sync.rs:185-261 | for any Bloom contents whatever, the answer supplies everything the receiver lacks |
| `Sync.AnswerIs` | src/sync.rs:185-261 | the answer exactly: nothing when all our heads are offered, else the filter's misses, our heads that are not offered, and what a path back from one of these meets before it enters an offered head |
| `Sync.NeedIff` | src/sync.rs:264-270 | a hash is asked for if and only if it was offered and is not held, as often as it was offered; none if and only if all are held |
| `Sync.NeedIs` | src/sync.rs:264-270 | the need list is the offered heads at the positions that are lacking, in that order |
| `Sync.AnswerSize` | src/sync.rs:185-261 | for any Bloom contents: the answer lists no entry twice, at least what the receiver lacks and at most the whole log, and exactly the whole log when the sender knows none of the offered heads |
| `Sync.AnswerWhole` | src/sync.rs:185-261 | a sender that knows none of the offered heads answers with its whole log |
| `Sync.EntriesMissing` | src/sync.rs:185-270 | Bloom pass, forced heads and ancestor closure compute the specified answer, in causal order, with the exact need list |
| `Merge.MergeEntries` | src/sync.rs:280-319 | on a valid checkpoint-free batch in any order: succeeds within the pass budget if and only if log plus batch is a log, yields exactly that and counts the new entries; on failure every entry left out lacks a parent and their number is reported; a bad hash is named |
| `Merge.StuckMeansMalformed` | src/sync.rs:291-316 | a retry that stops making progress with entries left means the union has a missing parent or a cycle |
| `Merge.AbsorbPermuted` | src/sync.rs:280-319 | arrival order changes neither the merged log nor whether the merge succeeds |
| `Merge.AbsorbAgain` | src/sync.rs:280-319 | merging the same batch again is a no-op |
| `Merge.ClosedBatchMerges` | src/sync.rs:280-319 | a batch closed relative to the log and cut from an acyclic history always merges, to the exact union |
| `Merge.MergesCommute` | src/sync.rs:280-319 | two batches closed relative to the starting log merge in either order to the same log |
| `Partial.FilteredClosed` | src/python/mod.rs:785-861 | the type-filtered payload keeps every match and every predecessor the full payload carried |
| `Partial.FilteredIs` | src/python/mod.rs:785-861 | the filtered payload exactly: the entries at or below a wanted one; adds count by type, edges, updates and removes of nodes by the nodes they touch, everything else always |
| `Partial.AmongConcat` | src/python/mod.rs:848-853 | filtering goes entry by entry and keeps the payload's order |
| `Partial.FilterPayload` | src/python/mod.rs:785-861 | the queue loop computes exactly the matching entries and their ancestors, in payload order |
| `Convergence.SyncIsUnion` | src/sync.rs:185-319 | for any Bloom contents, one directed sync leaves the receiver with exactly the union |
| `Convergence.BothWaysConverge` | src/sync.rs:185-319 | syncing both ways gives equal logs, heads and causal orders |
| `Rings.SyncTakes` | src/python/mod.rs:1606-1770 | one offer, answer and delivery, for any Bloom contents: an answer of more than 100,000 entries or 64 MiB changes nothing, any other gives the receiver exactly what it lacks and its clock lets in; so it ends with the union if and only if it lacks nothing, or the answer fits and everything lacked is within drift; and nothing changes if and only if the answer does not fit or nothing lacked is within drift |
| `Rings.RingIsRun` | examples/ring_topology.py:29-42 | a round of the ring is a run of the machine's own ask, answer and deliver steps |
| `Rings.RoundExact` | examples/ring_topology.py:29-42 | every sync of a round yields the union if and only if none of them is held up: each brings nothing, or its answer fits and all of it is within the receiver's drift |
| `Rings.TwoRoundsConverge` | examples/ring_topology.py:29-42 | for every number of peers, two rounds in which no sync is held up leave all logs equal to the union of all |
| `Rings.ForeseenToConverge` | examples/ring_topology.py:29-42 | no sync of two rounds is held up, and they converge, if beforehand the peers together hold at most 100,000 entries, none too far ahead of any clock, and every answer is within the byte limit |
| `Rings.RoundsEnd` | examples/ring_topology.py:29-42 | whatever the clocks, rounds of answers within the message limits come, after at most peers times entries of them, to a state that lasts for ever, in which all logs are equal or whatever a peer lacks of the one before it is out of its clock's reach |
| `Rings.OverfullForever` | src/sync.rs:121-137 | if around the ring no peer knows the heads of the next and each holds more than 100,000 entries, every answer is refused and no number of rounds changes any peer |
| `Oversize.ForkNeverHeals` | src/sync.rs:9-137 | for every length from 100,000 up, a run in which two peers come to share that many entries and write once each, and no later round ever changes either |
| `Rings.StalemateForever` | src/python/mod.rs:1643-1652 | if around the ring whatever each peer lacks is too far ahead of its clock, no number of rounds changes any peer |
| `Rings.IdlePeerNeverCatchesUp` | src/python/mod.rs:1643-1652 | a run of one write 1000.001 s after genesis that the other peer, idle since, refuses in every later round |
| `Network.StepKeepsInv` | src/python/mod.rs:1606-1816 | each write whose hash clashes with none written, refused write, offer, full or filtered answer and delivery keeps every log sound, every in-flight payload closed for its receiver, and clocks ahead of what they have seen |
| `Network.EveryRun` | src/python/mod.rs:1606-1816 | in every run of any number of peers with delayed, lost, reordered or duplicated messages: logs stay well-formed; every payload within the message limits merges, leaving exactly what the peer had and what its clock admits, and one over them changes nothing; clocks grow strictly along causality until saturation, so every historical cut is ancestor-closed |
| `Network.WrittenIs` | src/python/mod.rs:1792-1800 | a local entry hashes to its hash, carries operation and links unchanged, names its author, and its clock advances the author's |
| `Network.AdmittedIs` | src/python/mod.rs:1604-1652 | of a batch exactly the genesis entries and those at most 1,000,000 ms ahead pass, all of it unchanged if all do |
| `Network.AdmittedConcat` | src/python/mod.rs:1624-1652 | admitting goes entry by entry and keeps the order |
| `Network.LimitsAre` | src/sync.rs:9-137 | 100,000 entries and 64 MiB pass, one more of either does not |
| `Rings.EveryRunConverges` | src/python/mod.rs:1606-1816 | at the end of every run that leaves clocks within drift and at most 100,000 entries, two further rounds of answers within the byte limit leave all peers with one log |
| `Network.AdmittedClosed` | src/python/mod.rs:1624-1652 | dropping entries too far ahead of the local clock leaves a payload closed for its receiver |
| `Network.CutIsClosed` | src/oplog.rs:332-341 | where clocks grow along causality, the entries up to any cutoff contain their ancestors |
| `Reconstruction.ReconstructOpLog` | src/store.rs:328-435 | for any table with one entry per hash, read in any order: succeeds if and only if it forms a log whose non-root entries verify and name no lost root; returns exactly that log without the lost roots, with exact heads and children |
| `Reconstruction.NothingLostIff` | src/store.rs:349-366 | no root is lost if and only if every root after the first verifies and is no checkpoint; a later root checkpoint wipes the roots before it |
| `Reconstruction.FirstRootIs` | src/store.rs:336-353 | the root taken unseen is the first of the table |
| `Reconstruction.Drain` | src/store.rs:384-424 | draining the ready queue stops at an entry that fails its hash or names a lost root, and otherwise with every resolvable entry appended |
| `Reconstruction.LeftoversMeanMalformed` | src/store.rs:419-432 | entries still pending at the end mean the set lacks a parent or has a cycle |
| `Graphs.MergePropertiesLww` | src/graph.rs:764-780 | in whatever key order, each key ends with the new write exactly when that write wins |
| `Validation.EdgeAdmission` | src/graph.rs:233-290 | the three ends of an edge entry: of a known type and short of an endpoint it waits; with both endpoints it enters exactly when the source's type is within a hundred parent links of a declared source type, the target's of a declared target type, and its properties are met; otherwise it is set aside, and nothing else changes |
| `Validation.EdgePasses` | src/ontology.rs:725-781 | that condition is exactly when an edge validates |
| `Validation.NodePasses` | src/ontology.rs:679-722 | a node validates if and only if its type is known, a subtype is named where the type has any, and every governing definition is met: required unless waived, and acceptable if present |
| `Validation.EffectiveIsNearest` | src/ontology.rs:647-662 | the definition of a property that governs is the nearest one, at most a hundred parent links up |
| `Validation.NodeUpdatePasses` | src/ontology.rs:824-872 | an update of a node is judged by the subtype's definition, else the type's own, inherited ones aside |
| `Validation.EdgeUpdatePasses` | src/ontology.rs:786-815 | an update of an edge fails exactly when the edge type declares the property and refuses the value |
| `Validation.NamesKnown` | src/ontology.rs:10-24 | the constraint names accepted are the eight enforced ones and those beginning with x_ |
| `Outcomes.ApplyOutcome` | src/graph.rs:157-345 | every outcome of every entry, checkpoints included and whatever the retry order, keeps the outgoing, incoming and type indexes exact, edge endpoints present and held edges quarantined and short of an endpoint, when hashes tell the occurring entries apart; and the outcome is unique when edge additions do not clash |
| `Outcomes.RetryOutcome` | src/graph.rs:416-440 | retrying the ready edges in any order restores that invariant, touches neither nodes nor ontology, and has one outcome when they do not clash |
| `RetryExact.RetryDetermined` | src/graph.rs:416-440 | all orders of one retry have one outcome if and only if, for each edge, it is there already or its admissible additions agree on type and endpoints, and on each key the greatest additions that beat the present value say the same |
| `RetryExact.TouchResult` | src/graph.rs:638-680 | after any order of additions an edge has the shape it had or one of theirs, is live, its clocks are the greatest of all, and each key keeps its cell unless a writer beats it, else holds what a greatest writer says |
| `RetryOrder.AttachCommutesExactly` | src/graph.rs:638-687 | two additions of one new edge commute if and only if they agree on type and endpoints and do not clash on a property under one clock |
| `RetryOrder.RetryAnyFirst` | src/graph.rs:416-440 | among held edges that do not clash any one may be retried first without changing the result |
| `Outcomes.ApplyIsOutcome` | src/graph.rs:157-345 | the specified effect is one of the outcomes |
| `Materialized.MaterializedGraph.ApplyEntry` | src/graph.rs:157-345 | the in-place application of an entry ends in one of its outcomes |
| `Effects.QuarantineIs` | src/graph.rs:157-345 | after an entry, itself is quarantined if and only if it was refused or held, each held edge it completes if and only if that edge does not fit, and every other entry as before |
| `Effects.RecordIs` | src/graph.rs:163-172 | a quarantine record names the kind of the entry and the ontology it was judged by |
| `Schemas.FoldEnds` | src/graph.rs:373-400 | a rebuild's first pass moves nothing but the ontology: an extension to what merging makes of it, reported exactly if it fails; a checkpoint to the last ontology it defines; anything else not at all |
| `Schemas.FoldedQuarantine` | src/graph.rs:373-400 | after the first pass exactly the extensions that failed on the ontology folded until then are in quarantine |
| `Schemas.ExtensionApplied` | src/graph.rs:199-205 | applied where it arrives, an extension does the same and leaves the quarantine if it succeeds |
| `Schemas.CheckpointOntology` | src/graph.rs:174-195 | a checkpoint applied where it arrives brings the last ontology it defines, one in a rebuild's second pass none, and neither stays in quarantine |
| `Schemas.SyntheticIs` | src/graph.rs:188-193 | each operation of a checkpoint is applied under the author's name, at the time recorded for it, or at the checkpoint's own where none is |
| `Effects.RemoveEdgeEnds` | src/graph.rs:744-751 | a remove of an edge leaves it dead exactly if it was or the remove outranks its latest add, moves its clock only then, and changes nothing else but the entry's own quarantine |
| `Effects.RemoveNodeEnds` | src/graph.rs:730-742 | the same for nodes |
| `Materialized.MaterializedGraph.RetryPendingEdges` | src/graph.rs:416-440 | the retry loop, in whatever order the map gives, ends in an outcome of retrying exactly the ready edges |
| `Materialized.MaterializedGraph.Rebuild` | src/graph.rs:355-410 | whatever the prior state, the graph is one that the entries may rebuild; it satisfies the invariant when hashes tell the occurring entries apart, and is the specified one when edge additions do not clash |
| `Outcomes.RebuildOutcome` | src/graph.rs:355-410 | every graph a rebuild may end with satisfies the invariant, and without clashing edge additions there is exactly one |
| `Replicas.Revalidate` | src/python/mod.rs:418-423 | rebuilding from a log ends in a graph its causal order may rebuild |
| `Replicas.EqualHashesEqualGraphs` | src/graph.rs:355-440 | peers with equal hash sets and base ontology, each retrying in its own order, rebuild equal graphs, quarantine and held edges included, when edge additions do not clash |
| `Replicas.RevalidateBoth` | src/python/mod.rs:418-423 | the same of two graph objects over two log objects |
| `Replicas.RebuildsCanDiffer` | src/graph.rs:416-440 | a log of four entries, genesis, two clashing additions of one edge and the node both wait for, that two retry orders rebuild differently |
| `Replicas.SyncedPeersAgree` | src/sync.rs:185-319 | after syncing both ways whatever two peers rebuild is one graph, when edge additions do not clash |
| `Replicas.EveryRunAgrees` | examples/ring_topology.py:29-42 | in every run that leaves clocks within drift and at most 100,000 entries, two ring rounds make any two peers rebuild one graph, when edge additions do not clash |
| `Lww.NodeRunIsJoin` | src/graph.rs:586-742 | after any history starting with an add, each key holds its greatest-clock write, the add clock is the greatest add, and the node is dead exactly when a remove later than every add follows the last add |
| `Lww.EdgeRunIsJoin` | src/graph.rs:638-751 | the same for edges |
| `Lww.OrderDoesNotMatter` | src/graph.rs:586-780 | histories with the same writes, reordered and repeated at will, agree on properties, their clocks and the add clock |
| `Lww.RegisterHolds` | src/graph.rs:754-786 | after any history each key holds the value of a write that no other outranks, so that under one tuple the lower id's value stays |
| `Lww.TieGoesToLowerId` | src/graph.rs:754-786 | two writes to one key under one tuple, in either order, leave the lower id's value |
| `Effects.LabelIs` | src/graph.rs:586-620 | title and subtype are those of the last add that outranked the entity clock it met, the type is the first add's |
| `Effects.EntityClockIs` | src/graph.rs:586-742 | the entity clock is the greatest since the last remove that took effect, that remove included |
| `Effects.EdgeClockIs` | src/graph.rs:638-751 | the same for edges |
| `Lww.FateSettled` | src/graph.rs:586-751 | over all histories of the same writes, repeats allowed: the tombstone is the same in all, and then absent, if and only if no remove is later than every add |
| `Lww.NodeFateSettled` | src/graph.rs:586-742 | that of the nodes the code builds |
| `Lww.EdgeFateSettled` | src/graph.rs:638-751 | that of the edges the code builds |
| `Lww.FateSettledOnce` | src/graph.rs:586-751 | over histories without repeats, as a rebuild has them, also if there is a single add, and not otherwise |
| `Lww.DocumentedRuleFails` | PROOF.md:257-263 | an add, a later remove and the same add again: the documented tombstone rule says dead, the code says live |
| `Histories.TrailHistory` | src/graph.rs:157-345 | any checkpoint-free succession of applied entries, repeats included, gives each node exactly the run of its admitted writes and leaves the ontology alone |
| `EdgeHistories.EdgeTrailHistory` | src/graph.rs:157-345 | the same for edges: each is the run of its admitted additions, updates and removes in the shape of the first addition, additions that had to wait standing where they were taken up |
| `Effects.EdgeRemoveShows` | src/graph.rs:744-751 | along such a succession a remove leaves the edge dead exactly if it was, or if it outranks every addition so far |
| `Histories.TrailsAgree` | src/graph.rs:586-780 | two such successions that admit the same writes to a node agree on its properties, their clocks and its add clock |
| `Histories.ArrivalOrderShows` | src/python/mod.rs:1733-1751 | entries applied as they arrive: the same three entries leave a node live on one peer and dead on another |
| `Worlds.TurnKeepsInv` | src/python/mod.rs:1606-1816 | every write, delivery, rebuild or other step of peers with graphs keeps each graph the result of applying exactly the entries of its log, some repeatedly, causes first, from the empty graph and ontology that a rebuild of the log starts from |
| `Worlds.EveryRunGraph` | src/python/mod.rs:1710-1751 | in every run, the graph a peer shows and any rebuild of its log agree on the ontology, and on properties, their clocks and the add clock of each node for which the same writes took effect, and both show it live unless a remove is later than every add |
| `Worlds.DeliveredAddRevives` | src/python/mod.rs:1710-1751 | any delivery that brings something new and no schema change, and carries an acceptable add of a node, held already or not, but no remove of it, leaves the node live whatever was removed before |
| `Revival.GraphAndLogDiffer` | src/python/mod.rs:1710-1751 | a run of two peers, one add and one later remove, after which the remover's graph shows the node live and every rebuild of its own log shows it dead |
| `Steady.SureWrites` | src/graph.rs:157-345 | if in the log every add of a node is acceptable to the ontology, every update fits every add and whatever else concerns it comes causally after an add, then exactly the log's writes to it took effect, however they arrived |
| `Steady.EveryRunSteady` | src/python/mod.rs:1710-1751 | so in every run such a node has the same properties, property clocks and add clock in the graph shown as in any rebuild of the log |
| `Steady.EveryRunPeersAgree` | src/python/mod.rs:1710-1751 | and the same in the graphs of any two peers that hold the same log over the same base ontology |
| `Queries.OutgoingAgrees` | src/graph.rs:489-498 | the outgoing index answers like a scan of all edges if and only if the node is live or there is nothing to report |
| `Queries.IncomingAgrees` | src/graph.rs:501-510 | the same for the incoming index |
| `Queries.SubtypeIsWithin` | src/ontology.rs:606-642 | for every ontology, cyclic ones included, a subtype is exactly a type at most a hundred parent links away |
| `Queries.SubtypeIsReach` | src/ontology.rs:606-642 | with at most a hundred types, or a hundred and one all of whose parents are known, that is reachability by parent links |
| `Queries.NodesByTypeExact` | src/graph.rs:456-470 | `nodes_by_type` is exactly the live nodes whose type reaches the asked one by at most a hundred parent links, by any number where there are so few types, each under one type only |
| `Queries.GuardCutsDeepTower` | src/ontology.rs:606-624 | a tower of 102 types, one more than is safe, on which the level guard hides an ancestor |
| `Ontologies.ComputeAncestors` | src/ontology.rs:606-624 | the guarded upward walk computes the ancestor list |
| `Ontologies.ComputeEffectiveProperties` | src/ontology.rs:647-661 | the most-general-first loop computes the inherited table in which the nearest definition wins |
| `Ontologies.MergeExtensionInTurn` | src/ontology.rs:956-1114 | the checks and in-place updates in turn give the specified ontology and verdict, including what a refused extension leaves behind |
| `Extensions.ExtensionEnds` | src/ontology.rs:956-1114 | the three ends of an extension: refused by the first checks it leaves the ontology alone, by the second it leaves its node types behind, else everything it asks for is there and it fails exactly if the whole is unsound |
| `Evolution.AncestorsKept` | src/ontology.rs:956-1114 | a successful extension of a self-valid ontology keeps every existing type's ancestor list |
| `Evolution.EndpointsKept` | src/ontology.rs:740-780 | no edge type stops accepting a pair of endpoint types |
| `Evolution.EndpointsOnlyByUpdate` | src/ontology.rs:740-780 | among existing types, an edge type not updated accepts exactly what it did |
| `Evolution.KeepsIff` | src/ontology.rs:161-242 | the fingerprint keeps every fact if and only if no required property is relaxed and every added property that is inherited already states at least as much |
| `Evolution.GainsIff` | src/ontology.rs:161-242 | new facts appear if and only if the extension brings types, subtypes or bindings, relaxes a required property, shadows with a definition that states more, or reaches a type that lacked the property |
| `Evolution.VerdictForeseen` | src/ontology.rs:245-272 | for every successful extension both sides' verdicts are the ones computed beforehand from ontology and extension: Identical, Superset, Subset or Divergent |
| `Evolution.GrowthIsVisible` | src/ontology.rs:245-272 | an extension that relaxes nothing and shadows nothing inherited is foreseen as Superset, its other side as Subset |
| `Evolution.RelaxingDiverges` | src/ontology.rs:245-272 | relaxing a required property is foreseen as Divergent on both sides |
| `Fingerprints.Fingerprint` | src/ontology.rs:161-306 | the loops collect exactly the facts that hold of the ontology |
| `Extensions.FingerprintTells` | src/ontology.rs:161-306 | two ontologies have the same facts if and only if they have the same types, parents, subtypes, endpoints and effective definitions, up to order and repetition |
| `Fingerprints.VerdictIs` | src/ontology.rs:245-272 | the verdict is decided by whether each side has facts of its own, and divergent also where the facts agree although the hashes do not |
| `Fingerprints.VerdictsMirror` | src/ontology.rs:245-272 | one side's Superset is the other's Subset, Divergent is mutual, and Superset is exactly strict inclusion under different hashes |
| `Checkpoints.BuildCheckpointOps` | src/python/mod.rs:1461-1529 | operations and clocks come out in step: the ontology, each live node with each of its properties once, each live edge likewise, for some walking order of the maps |
| `Checkpoints.ReplayIsPlay` | src/graph.rs:174-200 | replaying a checkpoint entry is playing its operations in order under the author's name |
| `Compaction.RoundTrip` | src/python/mod.rs:1461-1529 | for every walking order and base ontology, rebuilding from the checkpoint restores exactly the live nodes and edges with types, labels, values and clock tuples if and only if what is stored still validates and no edge with properties shares its id with a live node |
| `Compaction.SameViews` | src/graph.rs:554-566 | a restored graph has the same `all_nodes` and `all_edges`, endpoints and values |
| `Compaction.LaterWritesAgree` | src/graph.rs:174-200 | any later history of writes to a node whose tuples differ from the stored ones ends alike with and without compaction |
| `Compaction.LaterEdgeWritesAgree` | src/graph.rs:174-200 | the same for edges |
| `Compaction.LabelVerdict` | src/graph.rs:602-606 | a later add leaves the same label and subtype with and without compaction if and only if it repeats the present ones or is judged alike by the entity clock and the greatest stored clock; with distinct tuples, if and only if it does not fall between them |
| `Compaction.RestoredClock` | src/python/mod.rs:1461-1529 | the entity clock of a restored node is the greatest of its add and property clocks under the author's name |
| `Compaction.LabelCanFlip` | src/graph.rs:730-742 | after an add, a remove and an earlier-clocked add, one and the same label write is lost before compaction and kept after it |
| `Stores.NotAllRestorable` | src/python/mod.rs:1461-1529 | a log of two entries whose rebuilt graph a checkpoint cannot restore: an edge with a property that shares its node's id |
| `Stores.Compact` | src/python/mod.rs:1361-1452 | the log becomes a checkpoint plus the carried quarantined entries and stays valid, and the graph is one it may rebuild; with nothing quarantined the log is the checkpoint alone and the graph is restored exactly when it was restorable |
| `Stores.CompactedIs` | src/python/mod.rs:1361-1452 | each quarantined entry is restated on top of the checkpoint with its payload, clock and author, and nothing else is in the log |
| `Stores.CarriedAre` | src/python/mod.rs:1361-1452 | carried over are exactly the quarantined entries that the log holds |
| `Stores.CheckpointIs` | src/python/mod.rs:1361-1452 | a checkpoint entry is a root at its author's clock, records that clock and one time for each operation, and begins with the graph's ontology |
| `Stores.CheckpointCoherent` | src/python/mod.rs:1501-1526 | edges held while replaying a checkpoint may be retried in any order |
| `Engine.BreadthFirst` | src/engine.rs:6-47 | exactly the vertices within the depth limit, once each |
| `Engine.LinksAre` | src/engine.rs:6-47 | searches step along exactly the live edges of the wanted type between live nodes |
| `Engine.Bfs` | src/engine.rs:6-47 | exactly the live nodes within the depth limit along edges of the wanted type, once each, and nothing from a dead start |
| `Engine.ImpactAnalysis` | src/engine.rs:137-171 | exactly the nodes within the depth limit against the edges, once each |
| `Engine.BackwardIsOpposite` | src/graph.rs:489-510 | on exact indexes, incoming links are outgoing links reversed |
| `Engine.ImpactIsReverseSearch` | src/engine.rs:137-171 | m is impacted by n within d if and only if a search from m finds n within d |
| `ShortestPaths.Unwind` | src/engine.rs:117-126 | the parent-map walk ends and returns a path from the start of length the depth found |
| `ShortestPaths.ShortestPath` | src/engine.rs:96-133 | a path of minimum length between live nodes, and None exactly when an endpoint is not live or the end is unreachable |
| `NodeOrder.SpendOne` | src/engine.rs:297-308 | spending one edge lowers only its target's count, which was positive, and frees the target exactly when it was the last, parallel edges counted singly |
| `NodeOrder.TopologicalSort` | src/engine.rs:274-315 | an order if and only if the live graph is acyclic; every live node once, every live edge forward; otherwise there is a cycle |
| `NodeOrder.HasCycle` | src/engine.rs:318-320 | true exactly when the live graph has a cycle |
| `Tail.TailSubscription.TryFetch` | src/python/tail.rs:191-232 | stale cursor, empty delta, truncated batch and full batch, with the cursor each leaves |
| `Tail.NotifyBell.Notify` | src/python/tail.rs:47-51 | the counter goes up by one modulo its width |
| `Tail.TailSubscription.Close` | src/python/tail.rs:172-176 | the flag is set and the bell rung |
| `Tail.FetchKeepsCursor` | src/python/tail.rs:191-232 | after a fetch everything at or below the new cursor is delivered or lay below the start; a batch has no repeats and nothing from below the old cursor |
| `Tail.CursorSurvivesGrowth` | src/oplog.rs:237-258 | growth of the log does not disturb what the cursor accounts for |
| `Wakeups.StepKeepsInv` | src/python/tail.rs:128-176 | every step of producers, consumer and closer keeps the cursor account and the bell invariant |
| `Wakeups.MissesNothing` | src/python/tail.rs:191-232 | in every run, everything at or below the cursor was delivered or lay below the initial cursor, and an empty delta means the whole log was |
| `Wakeups.NoLostWakeup` | src/python/tail.rs:47-65 | in every interleaving, a consumer asleep on an unchanged counter has nothing undelivered from any producer that has announced, short of 2^64 rings |
| `Wakeups.CloseUnblocks` | src/python/tail.rs:128-176 | where the closed check and the counter reading are one step, no consumer sleeps once `close` has returned |
| `Wakeups.CloseWindow` | src/python/tail.rs:134-151 | where they are two steps, a consumer asleep after `close` is exactly one that read the counter after the closing ring |
| `Wakeups.CloseCanBeMissed` | src/python/tail.rs:134-151 | a run in which close falls between check and reading and the consumer sleeps through it |
| `Wakeups.BellCloseWakesNobody` | src/python/tail.rs:67-70 | closing the bell alone leaves a sleeping consumer asleep |
| `Starvation.TruncationCanStarve` | src/python/tail.rs:210-216 | on a three-way fork with a limit of one, fetches alternate between two branches and never deliver the third |
| `Starvation.ForkExists` | src/python/tail.rs:210-216 | such a fork exists |
| `Draining.DrainsIff` | src/python/tail.rs:191-232 | over a log that stands still, a run of at least two fetches more than the log has entries comes to an empty delta if and only if no truncated fetch returns to a cursor already left; and at an empty delta every entry was delivered or lies at or below the start |
| `Draining.LinearMove` | src/python/tail.rs:210-216 | where what lies past the cursor is causally ordered with everything, a truncated fetch moves past exactly what it delivered |
| `Draining.LinearDrains` | src/python/tail.rs:210-216 | such logs drain with any limit |
| `Draining.ChainIsLinear` | src/python/tail.rs:210-216 | chains are such logs, from any cursor |
| `Bloom.AndPow` | src/bloom.rs:87-96 | the mask test on a word is the test of one bit |
| `Bloom.SetBit` | src/bloom.rs:74-81 | or-ing a shifted one sets exactly one bit and stays a 64-bit word |
| `Bloom.BloomFilter.Insert` | src/bloom.rs:74-81 | the positions become the old ones plus the probes of the hash, every probe in bounds |
| `Bloom.ProbesAre` | src/bloom.rs:128-148 | the positions of a hash are its first k probes, the i-th of them h1 + i * h2 + i * i in 64-bit arithmetic within the filter, h1 and h2 being the first two little-endian words of the hash |
| `Bloom.BytesSpell` | src/bloom.rs:132-136 | the bytes those words are read from are the digits of the hash, most significant first |
| `Bloom.BloomFilter.InsertAll` | src/bloom.rs:74-81 | every hash inserted, now or before, is found |
| `Sync.OfferFilter` | src/sync.rs:64-80 | an offer's filter finds every entry of a log in which no entry repeats a predecessor |
| `Bloom.BloomFilter.Contains` | src/bloom.rs:87-96 | true exactly when every probe is set |
| `Bloom.BloomFilter.Merge` | src/bloom.rs:106-116 | the positions become the union, also when the word arrays differ in length |
| `Bloom.BloomFilter.FindMember` | src/bloom.rs:87-96 | no false negatives: after any history of inserts and merges every member is found |
| `Bloom.BitsAreProbes` | src/bloom.rs:74-116 | the bits are exactly the probes of the members, whatever the order and shape of the history |

## Left out

- Reconstruction.ReconstructOpLog: the table has one entry per hash, as the store's table keyed by hash does.
- Merge.MergeEntries: its main clause is for batches that verify, agree on equal hashes and hold no root checkpoint; outside that only log validity and the bad-hash error are stated.
- Network.EveryRun: excludes checkpoints and signature policy; peers start from genesis entries, no write's hash clashes with a different entry's, and stores reopened from disk, whose clock is re-derived from the log, are not steps of the machine.
- Compaction.LaterWritesAgree: takes later writes as admitted; admission of an update depends on the subtype, which the gap of `Compaction.LabelVerdict` can change.
- Compaction.LaterEdgeWritesAgree: takes later writes as admitted.
- Rings.ForeseenToConverge: its conditions are sufficient; the exact condition for each sync and each round is that of `Rings.SyncTakes` and `Rings.RoundExact`.
- Network.Received: the size of an encoding in bytes is a free number of each answer, not computed from its entries; a refused payload is an error to the caller, after which the model's rounds go on; an offer over 64 MiB or of a later protocol version goes unanswered, as a lost message does.
- Replicas.EqualHashesEqualGraphs: goes one way, because values that one retry leaves different can agree again after a later write to the same key; the exact condition is stated for one retry, in `RetryExact.RetryDetermined`.
- Stores.Compact: when entries are quarantined, states which entries the new log holds and that the graph is one it may rebuild, not what the carried entries add to it.
- Histories.TrailsAgree: speaks of admitted writes, because whether an update is admitted depends on the subtype at that moment; `Steady.SureWrites` has a condition on the log.
- Worlds.EveryRunGraph: compares nodes; edges have the same registers (`Lww.EdgeRunIsJoin`) but which of their writes are admitted also depends on holding.
- Evolution.VerdictForeseen: facts are structured values; their rendering as colon-separated strings, under which names containing colons can coincide, is not modelled.
- Wakeups.NoLostWakeup: one consumer; spurious condition-variable wake-ups are absorbed by the source's wait loop and not steps here; timeouts may fire at any time.
- Tail.TailSubscription.TryFetch: a limit of zero with a non-empty delta, which indexes out of bounds in the source, is the outcome `Crash`.
- Entry fields `refs` (always empty) and the signature, and the text of quarantine reasons, are dropped; a quarantine record is the operation kind and the ontology it was judged against.
- Hashing, signing, MessagePack, JSON and hex are foreign code; the digest is a parameter.
- Regular expressions, numeric bounds and string lengths are behind the per-value predicate.
- `BloomFilter::new` sizing and false-positive rates are floating-point; dimensions are taken as given, and the overflow of words times 64 in `validate` is not modelled.
- Ontology descriptions, and the content hash beyond its equality test, are not modelled.
- redb persistence, flush modes, disk reclaim and the operation buffer are I/O; `Store::merge` runs the same retry loop as `merge_entries`.
- The `safe` check of `compact` against registered peers and cursors is policy outside the model.
- `dfs`, `subgraph` and `pattern_match` have result caps or path-dependent depth limits and no clean specification; `verify_integrity`, `neighbors` and the remaining queries would only add easy members.
- Gossip target selection, callbacks, `GraphView`, `Query`, observation logs, Python conversions and the command line are wrappers.
