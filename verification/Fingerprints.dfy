/** Fingerprints: an ontology as a set of atomic facts, and the verdict two peers reach by comparing them. */
module Fingerprints {
  import opened Base
  import opened Ontologies

  /** What a property definition belongs to. */
  datatype Owner = OfType(nodeType: string) | OfSubtype(nodeType: string, subtype: string) | OfEdge(edgeType: string)

  datatype Fact =
    | VersionFact
    | TypeFact(nodeType: string)
    | ParentFact(nodeType: string, parent: string)
    | SubtypeFact(nodeType: string, subtype: string)
    | EdgeFact(edgeType: string)
    | SourceFact(edgeType: string, source: string)
    | TargetFact(edgeType: string, target: string)
    | PropertyFact(owner: Owner, key: string, valueType: ValueType, required: bool)
    | MemberFact(owner: Owner, key: string, member: string)
    | ConstraintFact(owner: Owner, key: string, constraint: string, argument: Argument)

  /** Enum members are facts one by one; every other constraint is one fact. */
  predicate ByMember(constraint: string, a: Argument) { constraint == "enum" && a.Members? }

  /** The facts one definition gives rise to. */
  predicate States(d: PropertyDef, owner: Owner, k: string, f: Fact) {
    match f
    case PropertyFact(w, j, vt, req) => w == owner && j == k && vt == d.valueType && req == d.required
    case MemberFact(w, j, m) =>
      w == owner && j == k && "enum" in d.constraints && d.constraints["enum"].Members? && m in d.constraints["enum"].items
    case ConstraintFact(w, j, c, a) =>
      w == owner && j == k && c in d.constraints && d.constraints[c] == a && !ByMember(c, a)
    case _ => false
  }

  predicate SubtypeOf(o: Ontology, t: string, s: string) {
    t in o.nodeTypes && o.nodeTypes[t].subtypes.Some? && s in o.nodeTypes[t].subtypes.value
  }

  /** A node type is described by its effective properties, inherited ones included. */
  function DefsOf(o: Ontology, owner: Owner): Defs {
    match owner
    case OfType(t) => if t in o.nodeTypes then EffectiveProperties(o, t) else map[]
    case OfSubtype(t, s) => if SubtypeOf(o, t, s) then o.nodeTypes[t].subtypes.value[s] else map[]
    case OfEdge(e) => if e in o.edgeTypes then o.edgeTypes[e].properties else map[]
  }

  /** Whether a fact belongs to the fingerprint of `o`. */
  predicate HasFact(o: Ontology, f: Fact) {
    match f
    case VersionFact => true
    case TypeFact(t) => t in o.nodeTypes
    case ParentFact(t, p) => t in o.nodeTypes && o.nodeTypes[t].parent == Some(p)
    case SubtypeFact(t, s) => SubtypeOf(o, t, s)
    case EdgeFact(e) => e in o.edgeTypes
    case SourceFact(e, s) => e in o.edgeTypes && s in o.edgeTypes[e].sources
    case TargetFact(e, t) => e in o.edgeTypes && t in o.edgeTypes[e].targets
    case _ => f.key in DefsOf(o, f.owner) && States(DefsOf(o, f.owner)[f.key], f.owner, f.key, f)
  }

  ghost predicate IsFingerprint(o: Ontology, facts: set<Fact>) { forall f :: f in facts <==> HasFact(o, f) }

  // -- Computing the fingerprint -----------------------------------------------------------------------------------

  method ConstraintFacts(owner: Owner, k: string, d: PropertyDef) returns (facts: set<Fact>)
    ensures forall f :: f in facts <==> States(d, owner, k, f)
  {
    facts := {PropertyFact(owner, k, d.valueType, d.required)};
    var todo := d.constraints.Keys;
    while todo != {}
      invariant todo <= d.constraints.Keys
      invariant forall f :: f in facts <==>
        States(d, owner, k, f) && (f.MemberFact? ==> "enum" !in todo) && (f.ConstraintFact? ==> f.constraint !in todo)
    {
      var c :| c in todo;
      var a := d.constraints[c];
      if ByMember(c, a) {
        facts := facts + set m | m in a.items :: MemberFact(owner, k, m);
      } else {
        facts := facts + {ConstraintFact(owner, k, c, a)};
      }
      todo := todo - {c};
    }
  }

  ghost predicate StatedIn(defs: Defs, owner: Owner, f: Fact, keys: set<string>) {
    exists k :: k in keys && k in defs && States(defs[k], owner, k, f)
  }

  method DefFacts(owner: Owner, defs: Defs) returns (facts: set<Fact>)
    ensures forall f :: f in facts <==> StatedIn(defs, owner, f, defs.Keys)
  {
    hide States;
    facts := {};
    var todo := defs.Keys;
    while todo != {}
      invariant todo <= defs.Keys
      invariant forall f :: f in facts <==> StatedIn(defs, owner, f, defs.Keys - todo)
    {
      var k :| k in todo;
      var more := ConstraintFacts(owner, k, defs[k]);
      StatedOneMore(defs, owner, defs.Keys - todo, k);
      assert defs.Keys - (todo - {k}) == defs.Keys - todo + {k};
      facts, todo := facts + more, todo - {k};
    }
    assert defs.Keys - todo == defs.Keys;
  }

  lemma {:induction false} StatedOneMore(defs: Defs, owner: Owner, keys: set<string>, k: string)
    requires k in defs
    ensures forall f :: StatedIn(defs, owner, f, keys + {k}) <==> StatedIn(defs, owner, f, keys) || States(defs[k], owner, k, f)
  {
    hide States;
    forall f ensures StatedIn(defs, owner, f, keys + {k}) <==> StatedIn(defs, owner, f, keys) || States(defs[k], owner, k, f) {
      assert k in keys + {k};
    }
  }

  /** The type a fact is about: facts are computed type by type. */
  function TypeOf(f: Fact): Option<string> {
    match f
    case TypeFact(t) => Some(t)
    case ParentFact(t, _) => Some(t)
    case SubtypeFact(t, _) => Some(t)
    case PropertyFact(w, _, _, _) => OwnerType(w)
    case MemberFact(w, _, _) => OwnerType(w)
    case ConstraintFact(w, _, _, _) => OwnerType(w)
    case _ => None
  }

  function OwnerType(w: Owner): Option<string> {
    match w
    case OfType(t) => Some(t)
    case OfSubtype(t, _) => Some(t)
    case OfEdge(_) => None
  }

  function EdgeOf(f: Fact): Option<string> {
    match f
    case EdgeFact(e) => Some(e)
    case SourceFact(e, _) => Some(e)
    case TargetFact(e, _) => Some(e)
    case PropertyFact(w, _, _, _) => OwnerEdge(w)
    case MemberFact(w, _, _) => OwnerEdge(w)
    case ConstraintFact(w, _, _, _) => OwnerEdge(w)
    case _ => None
  }

  function OwnerEdge(w: Owner): Option<string> { if w.OfEdge? then Some(w.edgeType) else None }

  lemma {:induction false} StatedByOwner(o: Ontology, w: Owner, f: Fact)
    ensures StatedIn(DefsOf(o, w), w, f, DefsOf(o, w).Keys) <==>
      (f.PropertyFact? || f.MemberFact? || f.ConstraintFact?) && f.owner == w && HasFact(o, f)
  {
    hide DefsOf;
  }

  method SubtypeFacts(o: Ontology, t: string) returns (facts: set<Fact>)
    requires t in o.nodeTypes
    ensures forall f :: f in facts <==>
      HasFact(o, f) && ((f.SubtypeFact? && f.nodeType == t) ||
        ((f.PropertyFact? || f.MemberFact? || f.ConstraintFact?) && f.owner.OfSubtype? && f.owner.nodeType == t))
  {
    hide States, EffectiveProperties;
    facts := {};
    if o.nodeTypes[t].subtypes.Some? {
      var subs := o.nodeTypes[t].subtypes.value;
      var todo := subs.Keys;
      while todo != {}
        invariant todo <= subs.Keys
        invariant forall f :: f in facts <==>
          HasFact(o, f) && ((f.SubtypeFact? && f.nodeType == t && f.subtype !in todo) ||
            ((f.PropertyFact? || f.MemberFact? || f.ConstraintFact?) && f.owner.OfSubtype? && f.owner.nodeType == t
             && f.owner.subtype !in todo))
      {
        var s :| s in todo;
        var w := OfSubtype(t, s);
        var more := DefFacts(w, subs[s]);
        assert DefsOf(o, w) == subs[s];
        forall f ensures f in more <==> (f.PropertyFact? || f.MemberFact? || f.ConstraintFact?) && f.owner == w && HasFact(o, f) {
          StatedByOwner(o, w, f);
        }
        facts, todo := facts + {SubtypeFact(t, s)} + more, todo - {s};
      }
    }
  }

  method TypeFacts(o: Ontology, t: string) returns (facts: set<Fact>)
    requires t in o.nodeTypes
    ensures forall f :: f in facts <==> HasFact(o, f) && TypeOf(f) == Some(t)
  {
    hide States, EffectiveProperties, Inherit;
    var own := DefFacts(OfType(t), EffectiveProperties(o, t));
    assert DefsOf(o, OfType(t)) == EffectiveProperties(o, t);
    forall f ensures f in own <==> (f.PropertyFact? || f.MemberFact? || f.ConstraintFact?) && f.owner == OfType(t) && HasFact(o, f) {
      StatedByOwner(o, OfType(t), f);
    }
    var subs := SubtypeFacts(o, t);
    facts := {TypeFact(t)} + own + subs;
    if o.nodeTypes[t].parent.Some? { facts := facts + {ParentFact(t, o.nodeTypes[t].parent.value)}; }
  }

  method EdgeFacts(o: Ontology, e: string) returns (facts: set<Fact>)
    requires e in o.edgeTypes
    ensures forall f :: f in facts <==> HasFact(o, f) && EdgeOf(f) == Some(e)
  {
    hide States;
    var d := o.edgeTypes[e];
    var own := DefFacts(OfEdge(e), d.properties);
    assert DefsOf(o, OfEdge(e)) == d.properties;
    forall f ensures f in own <==> (f.PropertyFact? || f.MemberFact? || f.ConstraintFact?) && f.owner == OfEdge(e) && HasFact(o, f) {
      StatedByOwner(o, OfEdge(e), f);
    }
    facts := {EdgeFact(e)} + (set s | s in d.sources :: SourceFact(e, s)) + (set t | t in d.targets :: TargetFact(e, t)) + own;
  }

  lemma {:induction false} FactHasPlace(o: Ontology, f: Fact)
    requires HasFact(o, f)
    ensures f == VersionFact || (TypeOf(f).Some? && TypeOf(f).value in o.nodeTypes && EdgeOf(f).None?)
      || (EdgeOf(f).Some? && EdgeOf(f).value in o.edgeTypes && TypeOf(f).None?)
  {
    hide States, EffectiveProperties;
  }

  /** `fingerprint`: exactly the facts that hold. */
  method Fingerprint(o: Ontology) returns (facts: set<Fact>)
    ensures IsFingerprint(o, facts)
  {
    hide HasFact, States, EffectiveProperties;
    facts := {VersionFact};
    forall f | HasFact(o, f)
      ensures TypeOf(f).Some? ==> TypeOf(f).value in o.nodeTypes
      ensures EdgeOf(f).Some? ==> EdgeOf(f).value in o.edgeTypes && TypeOf(f).None?
    {
      FactHasPlace(o, f);
    }
    var types := o.nodeTypes.Keys;
    while types != {}
      invariant types <= o.nodeTypes.Keys
      invariant forall f :: f in facts <==> f == VersionFact || (HasFact(o, f) && TypeOf(f).Some? && TypeOf(f).value !in types)
    {
      var t :| t in types;
      var more := TypeFacts(o, t);
      facts, types := facts + more, types - {t};
    }
    var edges := o.edgeTypes.Keys;
    while edges != {}
      invariant edges <= o.edgeTypes.Keys
      invariant forall f :: f in facts <==>
        f == VersionFact || (HasFact(o, f) && (TypeOf(f).Some? || (EdgeOf(f).Some? && EdgeOf(f).value !in edges)))
    {
      var e :| e in edges;
      var more := EdgeFacts(o, e);
      facts, edges := facts + more, edges - {e};
    }
    VersionHolds(o);
    forall f | HasFact(o, f) ensures f in facts { FactHasPlace(o, f); }
  }

  lemma {:induction false} VersionHolds(o: Ontology)
    ensures HasFact(o, VersionFact)
  {
  }

  // -- Comparing two peers -------------------------------------------------------------------------------------------

  datatype Compatibility = Identical | Superset | Subset | Divergent

  /** `check_compatibility`: equal hashes first, then equal facts, then inclusion. */
  function CheckCompatibility(sameHash: bool, mine: set<Fact>, theirs: set<Fact>): Compatibility {
    if sameHash then Identical
    else if mine == theirs then Divergent
    else if theirs <= mine then Superset
    else if mine <= theirs then Subset
    else Divergent
  }

  /**
   * The four verdicts: identical by hash; more than the other side, all of theirs included; less, all of ours included;
   * and divergent both when each side has something of its own and when the facts agree although the hashes do not.
   */
  lemma {:induction false} VerdictIs(sameHash: bool, mine: set<Fact>, theirs: set<Fact>)
    ensures var more, less := exists f :: f in mine && f !in theirs, exists f :: f in theirs && f !in mine;
      match CheckCompatibility(sameHash, mine, theirs)
      case Identical => sameHash
      case Superset => !sameHash && more && !less
      case Subset => !sameHash && less && !more
      case Divergent => !sameHash && more == less
  {
    assert mine == theirs <==> (forall f :: f in mine ==> f in theirs) && forall f :: f in theirs ==> f in mine;
  }

  /** The two sides' verdicts always fit together. */
  lemma {:induction false} VerdictsMirror(sameHash: bool, a: set<Fact>, b: set<Fact>)
    ensures CheckCompatibility(sameHash, a, b) == Superset <==> CheckCompatibility(sameHash, b, a) == Subset
    ensures CheckCompatibility(sameHash, a, b) == Divergent <==> CheckCompatibility(sameHash, b, a) == Divergent
    ensures CheckCompatibility(sameHash, a, b) == Superset <==> !sameHash && b < a
  {
  }
}
