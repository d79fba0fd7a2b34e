/** Log entries: a graph operation, its causal predecessors, its clock, and its content hash. */
module Entries {
  import opened Base
  import opened Clocks
  import opened Ontologies

  /** A 32-byte digest read as a big-endian number, so byte order is numeric order. */
  type Hash = nat

  datatype GraphOp =
    | DefineOntology(ontology: Ontology)
    | AddNode(nodeId: string, nodeType: string, subtype: Option<string>, title: string, props: Props)
    | AddEdge(edgeId: string, edgeType: string, source: string, target: string, props: Props)
    | UpdateProperty(entityId: string, key: string, value: Value)
    | RemoveNode(nodeId: string)
    | RemoveEdge(edgeId: string)
    | ExtendOntology(extension: Extension)
    | DefineLens(transforms: seq<nat>)
    | Checkpoint(ops: seq<GraphOp>, opClocks: seq<(u64, u32)>, compactedPhysical: u64, compactedLogical: u32)

  /** What the hash covers. */
  datatype Content = Content(payload: GraphOp, next: seq<Hash>, clock: Clock, author: string)

  datatype Entry = Entry(hash: Hash, payload: GraphOp, next: seq<Hash>, clock: Clock, author: string) {
    function Body(): Content { Content(payload, next, clock, author) }
  }

  /** The hash function, taken as given. */
  type Digest = Content -> Hash

  /** The digest tells the contents of these entries apart. */
  ghost predicate NoCollision(d: Digest, es: set<Entry>) {
    forall a, b :: a in es && b in es && d(a.Body()) == d(b.Body()) ==> a.Body() == b.Body()
  }

  ghost predicate OneEntryPerHash(es: set<Entry>) { forall a, b :: a in es && b in es && a.hash == b.hash ==> a == b }

  predicate VerifyHash(d: Digest, e: Entry) { d(e.Body()) == e.hash }

  function NewEntry(d: Digest, payload: GraphOp, next: seq<Hash>, clock: Clock, author: string): Entry {
    Entry(d(Content(payload, next, clock, author)), payload, next, clock, author)
  }

  /** Authentic entries whose contents do not collide are identified by their hashes. */
  lemma {:induction false} SameHashSameEntry(d: Digest, es: set<Entry>)
    requires NoCollision(d, es) && forall e :: e in es ==> VerifyHash(d, e)
    ensures OneEntryPerHash(es)
  {
    forall a, b | a in es && b in es && a.hash == b.hash ensures a == b { assert a.Body() == b.Body(); }
  }

  /** A checkpoint arriving as a root: the one kind of entry that replaces a log instead of extending it. */
  predicate IsRootCheckpoint(e: Entry) { e.next == [] && e.payload.Checkpoint? }
}
