/** Additive evolution: what a successful extension keeps of the hierarchy, the endpoints and the fingerprint. */
module Evolution {
  import opened Base
  import opened Ontologies
  import opened Fingerprints

  /** `after` is what a successful merge of `x` into the self-valid `o` leaves. */
  ghost predicate Extends(o: Ontology, x: Extension, after: Ontology) {
    SelfValid(o) && MergeExtension(o, x) == (after, true)
  }

  lemma {:induction false} ExtendsParts(o: Ontology, x: Extension, after: Ontology)
    requires Extends(o, x, after)
    ensures NodePartAdmissible(o, x) && EdgePartAdmissible(WithNewNodeTypes(o, x), x)
    ensures after == WithUpdates(WithNewNodeTypes(o, x), x) && SelfValid(after)
  {
    hide SelfValid, NodePartAdmissible, EdgePartAdmissible, WithUpdates;
  }

  /** Every existing node type stays, as updated. */
  lemma {:induction false} NodeTypeAfter(o: Ontology, x: Extension, after: Ontology, t: string)
    requires Extends(o, x, after)
    ensures t in after.nodeTypes <==> t in o.nodeTypes || t in x.nodeTypes
    ensures t in o.nodeTypes ==>
      after.nodeTypes[t] == if t in x.nodeUpdates then UpdatedNodeType(o.nodeTypes[t], x.nodeUpdates[t]) else o.nodeTypes[t]
    ensures t in o.nodeTypes ==> after.nodeTypes[t].parent == o.nodeTypes[t].parent
  {
    hide SelfValid, UpdatedEdgeType, EdgePartAdmissible;
    ExtendsParts(o, x, after);
  }

  lemma {:induction false} EdgeTypeAfter(o: Ontology, x: Extension, after: Ontology, e: string)
    requires Extends(o, x, after)
    ensures e in after.edgeTypes <==> e in o.edgeTypes || e in x.edgeTypes
    ensures e in o.edgeTypes ==>
      after.edgeTypes[e] == if e in x.edgeUpdates then UpdatedEdgeType(o.edgeTypes[e], x.edgeUpdates[e]) else o.edgeTypes[e]
  {
    hide SelfValid, UpdatedNodeType, EdgePartAdmissible;
    ExtendsParts(o, x, after);
  }

  // -- Hierarchy and endpoints ---------------------------------------------------------------------------------------

  lemma {:induction false} ParentKnown(o: Ontology, t: string)
    requires SelfValid(o) && t in o.nodeTypes && o.nodeTypes[t].parent.Some?
    ensures o.nodeTypes[t].parent.value in o.nodeTypes
  {
  }

  lemma {:induction false} ChainKept(o: Ontology, x: Extension, after: Ontology, t: string, n: nat)
    requires Extends(o, x, after) && t in o.nodeTypes
    ensures Chain(after, t, n) == Chain(o, t, n)
    decreases n
  {
    hide Extends, SelfValid;
    NodeTypeAfter(o, x, after, t);
    if n > 0 && o.nodeTypes[t].parent.Some? {
      ParentKnown(o, t) by { ValidBefore(o, x, after); }
      ChainKept(o, x, after, o.nodeTypes[t].parent.value, n - 1);
    }
  }

  lemma {:induction false} ValidBefore(o: Ontology, x: Extension, after: Ontology)
    requires Extends(o, x, after)
    ensures SelfValid(o) && SelfValid(after)
  {
    hide SelfValid;
  }

  /** Every existing type keeps its ancestor list, and so its place under every type. */
  lemma {:induction false} AncestorsKept(o: Ontology, x: Extension, after: Ontology, t: string)
    requires Extends(o, x, after) && t in o.nodeTypes
    ensures Ancestors(after, t) == Ancestors(o, t)
  {
    ChainKept(o, x, after, t, MAX_LEVELS);
  }

  lemma {:induction false} UnknownHasNone(o: Ontology, t: string)
    requires t !in o.nodeTypes
    ensures Ancestors(o, t) == []
  {
  }

  lemma {:induction false} SubtypeKept(o: Ontology, x: Extension, after: Ontology, child: string, parent: string)
    requires Extends(o, x, after) && IsSubtypeOf(o, child, parent)
    ensures IsSubtypeOf(after, child, parent)
  {
    hide Extends, Ancestors;
    if child in o.nodeTypes { AncestorsKept(o, x, after, child); } else { UnknownHasNone(o, child); }
  }

  lemma {:induction false} EndpointKept(o: Ontology, x: Extension, after: Ontology, allowed: seq<string>, more: seq<string>, t: string)
    requires Extends(o, x, after) && AcceptsEndpoint(o, allowed, t)
    ensures AcceptsEndpoint(after, allowed + more, t)
  {
    hide Extends, IsSubtypeOf;
    var i :| 0 <= i < |allowed| && IsSubtypeOf(o, t, allowed[i]);
    SubtypeKept(o, x, after, t, allowed[i]);
    assert (allowed + more)[i] == allowed[i];
  }

  /** No edge type stops accepting a pair of endpoint types. */
  lemma {:induction false} EndpointsKept(o: Ontology, x: Extension, after: Ontology, e: string, s: string, t: string)
    requires Extends(o, x, after) && AcceptsEndpoints(o, e, s, t)
    ensures AcceptsEndpoints(after, e, s, t)
  {
    hide Extends, AcceptsEndpoint;
    EdgeTypeAfter(o, x, after, e);
    var d := o.edgeTypes[e];
    var u := if e in x.edgeUpdates then x.edgeUpdates[e] else EdgeTypeUpdate([], [], map[]);
    EndpointKept(o, x, after, d.sources, u.addSources, s);
    EndpointKept(o, x, after, d.targets, u.addTargets, t);
    assert d.sources + [] == d.sources && d.targets + [] == d.targets;
  }

  /** Among existing types, an edge type the extension does not update accepts nothing new. */
  lemma {:induction false} EndpointsOnlyByUpdate(o: Ontology, x: Extension, after: Ontology, e: string, s: string, t: string)
    requires Extends(o, x, after) && e in o.edgeTypes && e !in x.edgeUpdates && s in o.nodeTypes && t in o.nodeTypes
    ensures AcceptsEndpoints(after, e, s, t) <==> AcceptsEndpoints(o, e, s, t)
  {
    hide Extends, Ancestors;
    EdgeTypeAfter(o, x, after, e);
    AncestorsKept(o, x, after, s);
    AncestorsKept(o, x, after, t);
  }

  // -- Which facts survive -------------------------------------------------------------------------------------------

  /** Whatever `d` states, `d'` states too. */
  ghost predicate Carried(d: PropertyDef, d': PropertyDef) {
    && d'.valueType == d.valueType && d'.required == d.required
    && (forall c :: c in d.constraints && !ByMember(c, d.constraints[c]) ==> c in d'.constraints && d'.constraints[c] == d.constraints[c])
    && ("enum" in d.constraints && d.constraints["enum"].Members? ==>
          forall m :: m in d.constraints["enum"].items ==>
            "enum" in d'.constraints && d'.constraints["enum"].Members? && m in d'.constraints["enum"].items)
  }

  lemma {:induction false} CarriedFacts(d: PropertyDef, d': PropertyDef, w: Owner, k: string)
    ensures (forall f :: States(d, w, k, f) ==> States(d', w, k, f)) <==> Carried(d, d')
  {
    if forall f :: States(d, w, k, f) ==> States(d', w, k, f) {
      assert States(d, w, k, PropertyFact(w, k, d.valueType, d.required));
      forall c | c in d.constraints && !ByMember(c, d.constraints[c]) ensures c in d'.constraints && d'.constraints[c] == d.constraints[c] {
        assert States(d, w, k, ConstraintFact(w, k, c, d.constraints[c]));
      }
      if "enum" in d.constraints && d.constraints["enum"].Members? {
        forall m | m in d.constraints["enum"].items
          ensures "enum" in d'.constraints && d'.constraints["enum"].Members? && m in d'.constraints["enum"].items
        {
          assert States(d, w, k, MemberFact(w, k, m));
        }
      }
    }
  }

  /** Every effective property of an existing type states at least what it did. */
  ghost predicate EffectiveCarried(o: Ontology, after: Ontology) {
    forall t, k :: t in o.nodeTypes && k in EffectiveProperties(o, t) ==>
      k in EffectiveProperties(after, t) && Carried(EffectiveProperties(o, t)[k], EffectiveProperties(after, t)[k])
  }

  ghost predicate FactsKept(o: Ontology, after: Ontology) { forall f :: HasFact(o, f) ==> HasFact(after, f) }

  /** Subtype and edge definitions never change; only effective properties can lose facts. */
  lemma {:induction false} OtherDefsKept(o: Ontology, x: Extension, after: Ontology, w: Owner, k: string)
    requires Extends(o, x, after) && !w.OfType? && k in DefsOf(o, w)
    ensures k in DefsOf(after, w) && DefsOf(after, w)[k] == DefsOf(o, w)[k]
  {
    hide SelfValid, EffectiveProperties, MergeExtension;
    ExtendsParts(o, x, after);
    match w {
      case OfSubtype(t, s) => NodeTypeAfter(o, x, after, t);
      case OfEdge(e) => EdgeTypeAfter(o, x, after, e);
    }
  }

  lemma {:induction false} StructureKept(o: Ontology, x: Extension, after: Ontology, f: Fact)
    requires Extends(o, x, after) && HasFact(o, f) && !f.PropertyFact? && !f.MemberFact? && !f.ConstraintFact?
    ensures HasFact(after, f)
  {
    hide Extends;
    match f {
      case VersionFact =>
      case TypeFact(t) => NodeTypeAfter(o, x, after, t);
      case ParentFact(t, _) => NodeTypeAfter(o, x, after, t);
      case SubtypeFact(t, _) => NodeTypeAfter(o, x, after, t);
      case EdgeFact(e) => EdgeTypeAfter(o, x, after, e);
      case SourceFact(e, _) => EdgeTypeAfter(o, x, after, e);
      case TargetFact(e, _) => EdgeTypeAfter(o, x, after, e);
    }
  }

  /** The fingerprint keeps every fact exactly when every effective property of an existing type is carried over. */
  lemma {:induction false} FactsKeptIff(o: Ontology, x: Extension, after: Ontology)
    requires Extends(o, x, after)
    ensures FactsKept(o, after) <==> EffectiveCarried(o, after)
  {
    hide Extends, Carried, States, EffectiveProperties;
    if EffectiveCarried(o, after) {
      forall f | HasFact(o, f) ensures HasFact(after, f) {
        if !f.PropertyFact? && !f.MemberFact? && !f.ConstraintFact? {
          StructureKept(o, x, after, f);
        } else {
          DefinitionKept(o, x, after, f);
        }
      }
    }
    if FactsKept(o, after) {
      forall t, k | t in o.nodeTypes && k in EffectiveProperties(o, t)
        ensures k in EffectiveProperties(after, t) && Carried(EffectiveProperties(o, t)[k], EffectiveProperties(after, t)[k])
      {
        KeptMeansCarried(o, x, after, t, k);
      }
    }
  }

  lemma {:induction false} DefinitionKept(o: Ontology, x: Extension, after: Ontology, f: Fact)
    requires Extends(o, x, after) && EffectiveCarried(o, after) && HasFact(o, f)
    requires f.PropertyFact? || f.MemberFact? || f.ConstraintFact?
    ensures HasFact(after, f)
  {
    hide Extends, Carried, States, EffectiveProperties;
    var w, k := f.owner, f.key;
    if w.OfType? {
      NodeTypeAfter(o, x, after, w.nodeType);
      CarriedFacts(DefsOf(o, w)[k], DefsOf(after, w)[k], w, k);
    } else {
      OtherDefsKept(o, x, after, w, k);
    }
  }

  lemma {:induction false} KeptMeansCarried(o: Ontology, x: Extension, after: Ontology, t: string, k: string)
    requires Extends(o, x, after) && FactsKept(o, after) && t in o.nodeTypes && k in EffectiveProperties(o, t)
    ensures k in EffectiveProperties(after, t) && Carried(EffectiveProperties(o, t)[k], EffectiveProperties(after, t)[k])
  {
    hide Extends, Carried, EffectiveProperties;
    var w, d := OfType(t), EffectiveProperties(o, t)[k];
    NodeTypeAfter(o, x, after, t);
    assert HasFact(o, PropertyFact(w, k, d.valueType, d.required));
    assert HasFact(after, PropertyFact(w, k, d.valueType, d.required));
    var d' := EffectiveProperties(after, t)[k];
    forall f | States(d, w, k, f) ensures States(d', w, k, f) {
      assert HasFact(o, f);
      assert HasFact(after, f);
    }
    CarriedFacts(d, d', w, k);
  }

  // -- The same, read off the ontology and the extension -----------------------------------------------------------------

  function Inherited(o: Ontology, t: string): Defs { Inherit(o, Ancestors(o, t)) }

  predicate Relaxes(x: Extension, t: string, k: string) { t in x.nodeUpdates && k in x.nodeUpdates[t].relax }

  predicate Adds(x: Extension, t: string, k: string) { t in x.nodeUpdates && k in x.nodeUpdates[t].addProperties }

  /** A property that is required now is relaxed. */
  predicate RelaxesRequired(o: Ontology, x: Extension, t: string, k: string) {
    Relaxes(x, t, k) && t in o.nodeTypes && k in o.nodeTypes[t].properties && o.nodeTypes[t].properties[k].required
  }

  /** No required property is relaxed, and an added property that is inherited already states at least as much. */
  ghost predicate Keeps(o: Ontology, x: Extension) {
    && (forall t, k :: Relaxes(x, t, k) ==> !RelaxesRequired(o, x, t, k))
    && (forall t, k :: Adds(x, t, k) && k in Inherited(o, t) ==> Carried(Inherited(o, t)[k], x.nodeUpdates[t].addProperties[k]))
  }

  /** Something is said of types, subtypes or edges that was not said before. */
  ghost predicate NewStructure(x: Extension) {
    || x.nodeTypes != map[] || x.edgeTypes != map[]
    || (exists t :: t in x.nodeUpdates && x.nodeUpdates[t].addSubtypes != map[])
    || (exists e :: e in x.edgeUpdates && x.edgeUpdates[e] != EdgeTypeUpdate([], [], map[]))
  }

  /** An added property reaches a type that did not have it. */
  ghost predicate Exposes(o: Ontology, x: Extension, u: string, t: string, k: string) {
    u in o.nodeTypes && t in [u] + Ancestors(o, u) && Adds(x, t, k) && k !in EffectiveProperties(o, u)
  }

  /** Some fact is new. */
  ghost predicate Gains(o: Ontology, x: Extension) {
    || NewStructure(x)
    || (exists t, k :: RelaxesRequired(o, x, t, k))
    || (exists t, k :: Adds(x, t, k) && k in Inherited(o, t) && !Carried(x.nodeUpdates[t].addProperties[k], Inherited(o, t)[k]))
    || (exists u, t, k :: Exposes(o, x, u, t, k))
  }

  /** The ontology changes at all. */
  ghost predicate Alters(o: Ontology, x: Extension) { Gains(o, x) || exists t, k :: Adds(x, t, k) }

  /** Own definitions after the extension. */
  lemma {:induction false} OwnAfter(o: Ontology, x: Extension, after: Ontology, t: string, k: string)
    requires Extends(o, x, after) && t in o.nodeTypes
    ensures t in after.nodeTypes
    ensures k in after.nodeTypes[t].properties <==> k in o.nodeTypes[t].properties || Adds(x, t, k)
    ensures k in o.nodeTypes[t].properties ==> !Adds(x, t, k)
    ensures k in o.nodeTypes[t].properties ==>
      after.nodeTypes[t].properties[k] ==
        if Relaxes(x, t, k) then o.nodeTypes[t].properties[k].(required := false) else o.nodeTypes[t].properties[k]
    ensures Adds(x, t, k) ==> after.nodeTypes[t].properties[k] == x.nodeUpdates[t].addProperties[k]
    ensures Relaxes(x, t, k) ==> k in o.nodeTypes[t].properties
  {
    hide SelfValid, MergeExtension, EdgePartAdmissible, WithUpdates;
    NodeTypeAfter(o, x, after, t);
    ExtendsParts(o, x, after);
  }

  lemma {:induction false} UpdatesKnown(o: Ontology, x: Extension, after: Ontology, t: string)
    requires Extends(o, x, after) && t in x.nodeUpdates
    ensures t in o.nodeTypes
  {
    hide SelfValid, MergeExtension, EdgePartAdmissible, WithUpdates;
    ExtendsParts(o, x, after);
  }

  /** Looking further up never changes a definition found nearer by. */
  lemma {:induction false} InheritGrows(o: Ontology, t: string, n: nat, m: nat, k: string)
    requires n <= m && k in Inherit(o, Chain(o, t, n))
    ensures k in Inherit(o, Chain(o, t, m)) && Inherit(o, Chain(o, t, m))[k] == Inherit(o, Chain(o, t, n))[k]
    decreases n
  {
    match ParentOf(o, t) {
      case None =>
      case Some(p) =>
        if n > 0 {
          assert Chain(o, t, n)[1..] == Chain(o, p, n - 1) && Chain(o, t, m)[1..] == Chain(o, p, m - 1);
          if k in Inherit(o, Chain(o, p, n - 1)) { InheritGrows(o, p, n - 1, m - 1, k); }
        }
    }
  }

  /** Where the definition of `k` along a chain comes from after the extension. */
  ghost predicate Explained(o: Ontology, x: Extension, after: Ontology, chain: seq<string>, k: string)
    requires k in Inherit(after, chain)
  {
    || (k in Inherit(o, chain) && Inherit(after, chain)[k] == Inherit(o, chain)[k])
    || (exists s :: s in chain && FromRelaxed(o, x, after, chain, s, k))
    || (exists s :: s in chain && FromAdded(o, x, after, chain, s, k))
  }

  ghost predicate FromRelaxed(o: Ontology, x: Extension, after: Ontology, chain: seq<string>, s: string, k: string)
    requires k in Inherit(after, chain)
  {
    && Relaxes(x, s, k) && s in o.nodeTypes && k in o.nodeTypes[s].properties
    && k in Inherit(o, chain) && Inherit(o, chain)[k] == o.nodeTypes[s].properties[k]
    && Inherit(after, chain)[k] == o.nodeTypes[s].properties[k].(required := false)
  }

  ghost predicate FromAdded(o: Ontology, x: Extension, after: Ontology, chain: seq<string>, s: string, k: string)
    requires k in Inherit(after, chain)
  {
    && Adds(x, s, k) && Inherit(after, chain)[k] == x.nodeUpdates[s].addProperties[k]
    && (k in Inherit(o, chain) ==> k in Inherited(o, s) && Inherited(o, s)[k] == Inherit(o, chain)[k])
  }

  lemma {:induction false} InheritAfter(o: Ontology, x: Extension, after: Ontology, t: string, n: nat, k: string)
    requires Extends(o, x, after) && t in o.nodeTypes && n <= MAX_LEVELS
    ensures var chain := [t] + Chain(o, t, n);
      && (k in Inherit(o, chain) ==> k in Inherit(after, chain))
      && (k in Inherit(after, chain) ==> Explained(o, x, after, chain, k))
    decreases n
  {
    hide Extends, SelfValid;
    var chain := [t] + Chain(o, t, n);
    assert chain[1..] == Chain(o, t, n) && chain[0] == t && t in chain;
    OwnAfter(o, x, after, t, k);
    if k in o.nodeTypes[t].properties {
      if Relaxes(x, t, k) { assert FromRelaxed(o, x, after, chain, t, k); }
    } else if Adds(x, t, k) {
      if k in Inherit(o, chain) { InheritGrows(o, t, n, MAX_LEVELS, k); }
      assert FromAdded(o, x, after, chain, t, k);
    } else if n > 0 && o.nodeTypes[t].parent.Some? {
      var p := o.nodeTypes[t].parent.value;
      ParentKnown(o, t) by { ValidBefore(o, x, after); }
      InheritAfter(o, x, after, p, n - 1, k);
      assert Chain(o, t, n) == [p] + Chain(o, p, n - 1);
      if k in Inherit(after, chain) { ExplainedUp(o, x, after, chain, k); }
    } else {
      assert chain[1..] == [] && Inherit(o, []) == map[] && Inherit(after, []) == map[];
    }
  }

  /** An explanation along the rest of a chain holds along the whole where the first type says nothing of `k`. */
  lemma {:induction false} ExplainedUp(o: Ontology, x: Extension, after: Ontology, chain: seq<string>, k: string)
    requires chain != [] && k in Inherit(after, chain) && k in Inherit(after, chain[1..]) && Explained(o, x, after, chain[1..], k)
    requires Inherit(after, chain)[k] == Inherit(after, chain[1..])[k]
    requires k in Inherit(o, chain) <==> k in Inherit(o, chain[1..])
    requires k in Inherit(o, chain) ==> Inherit(o, chain)[k] == Inherit(o, chain[1..])[k]
    ensures Explained(o, x, after, chain, k)
  {
    hide Inherit, Inherited;
    var rest := chain[1..];
    if s :| s in rest && FromRelaxed(o, x, after, rest, s, k) {
      assert s in chain && FromRelaxed(o, x, after, chain, s, k);
    } else if s :| s in rest && FromAdded(o, x, after, rest, s, k) {
      assert s in chain && FromAdded(o, x, after, chain, s, k);
    }
  }

  /** The same for effective properties. */
  lemma {:induction false} EffectiveAfter(o: Ontology, x: Extension, after: Ontology, t: string, k: string)
    requires Extends(o, x, after) && t in o.nodeTypes
    ensures var chain := [t] + Ancestors(o, t);
      && EffectiveProperties(after, t) == Inherit(after, chain)
      && (k in EffectiveProperties(o, t) ==> k in Inherit(after, chain))
      && (k in Inherit(after, chain) ==> Explained(o, x, after, chain, k))
  {
    hide Extends, Chain, Inherit, Explained;
    AncestorsKept(o, x, after, t);
    InheritAfter(o, x, after, t, MAX_LEVELS, k);
  }

  lemma {:induction false} OwnOrInherited(o: Ontology, t: string, k: string)
    requires t in o.nodeTypes
    ensures k in EffectiveProperties(o, t) <==> k in o.nodeTypes[t].properties || k in Inherited(o, t)
    ensures k in o.nodeTypes[t].properties ==> EffectiveProperties(o, t)[k] == o.nodeTypes[t].properties[k]
    ensures k !in o.nodeTypes[t].properties && k in Inherited(o, t) ==> EffectiveProperties(o, t)[k] == Inherited(o, t)[k]
  {
    hide Ancestors;
    assert ([t] + Ancestors(o, t))[1..] == Ancestors(o, t);
  }

  lemma {:induction false} CarriedSelf(d: PropertyDef)
    ensures Carried(d, d)
  {
  }

  /** Facts survive exactly when no required property is relaxed and every shadowing definition states as much. */
  lemma {:induction false} KeepsIff(o: Ontology, x: Extension, after: Ontology)
    requires Extends(o, x, after)
    ensures FactsKept(o, after) <==> Keeps(o, x)
  {
    hide Extends, FactsKept, Carried, EffectiveProperties, Inherited, Relaxes, Adds, RelaxesRequired, Keeps, EffectiveCarried;
    FactsKeptIff(o, x, after);
    if Keeps(o, x) { KeepsCarries(o, x, after); }
    if EffectiveCarried(o, after) { CarriesKeeps(o, x, after); }
  }

  lemma {:induction false} KeepsCarries(o: Ontology, x: Extension, after: Ontology)
    requires Extends(o, x, after) && Keeps(o, x)
    ensures EffectiveCarried(o, after)
  {
    hide Extends, Carried, EffectiveProperties, Keeps, Explained, Inherit;
    forall t, k | t in o.nodeTypes && k in EffectiveProperties(o, t)
      ensures k in EffectiveProperties(after, t) && Carried(EffectiveProperties(o, t)[k], EffectiveProperties(after, t)[k])
    {
      EffectiveAfter(o, x, after, t, k);
      EffectiveIs(o, t);
      KeepsOne(o, x, after, [t] + Ancestors(o, t), k);
    }
  }

  lemma {:induction false} EffectiveIs(o: Ontology, t: string)
    ensures EffectiveProperties(o, t) == Inherit(o, [t] + Ancestors(o, t))
  {
  }

  lemma {:induction false} KeepsOne(o: Ontology, x: Extension, after: Ontology, chain: seq<string>, k: string)
    requires Keeps(o, x) && k in Inherit(o, chain) && k in Inherit(after, chain) && Explained(o, x, after, chain, k)
    ensures Carried(Inherit(o, chain)[k], Inherit(after, chain)[k])
  {
    hide Inherit, Inherited, Carried;
    CarriedSelf(Inherit(o, chain)[k]);
    if s :| s in chain && FromRelaxed(o, x, after, chain, s, k) {
      assert !RelaxesRequired(o, x, s, k);
    }
  }

  lemma {:induction false} CarriesKeeps(o: Ontology, x: Extension, after: Ontology)
    requires Extends(o, x, after) && EffectiveCarried(o, after)
    ensures Keeps(o, x)
  {
    hide Extends, EffectiveProperties, Inherited;
    forall t, k | Relaxes(x, t, k) ensures !RelaxesRequired(o, x, t, k) {
      UpdatesKnown(o, x, after, t);
      OwnAfter(o, x, after, t, k);
      OwnOrInherited(o, t, k);
      OwnOrInherited(after, t, k);
    }
    forall t, k | Adds(x, t, k) && k in Inherited(o, t) ensures Carried(Inherited(o, t)[k], x.nodeUpdates[t].addProperties[k]) {
      UpdatesKnown(o, x, after, t);
      OwnAfter(o, x, after, t, k);
      OwnOrInherited(o, t, k);
      OwnOrInherited(after, t, k);
    }
  }

  // -- New facts -----------------------------------------------------------------------------------------------------------

  ghost predicate FactsGained(o: Ontology, after: Ontology) { exists f :: HasFact(after, f) && !HasFact(o, f) }

  lemma {:induction false} NewStructureShows(o: Ontology, x: Extension, after: Ontology)
    requires Extends(o, x, after) && NewStructure(x)
    ensures FactsGained(o, after)
  {
    hide Extends, SelfValid, EffectiveProperties, States, EdgePartAdmissible, WithUpdates;
    ExtendsParts(o, x, after);
    if t :| t in x.nodeTypes {
      NodeTypeAfter(o, x, after, t);
      assert HasFact(after, TypeFact(t)) && !HasFact(o, TypeFact(t));
    } else if e :| e in x.edgeTypes {
      EdgeTypeAfter(o, x, after, e);
      assert HasFact(after, EdgeFact(e)) && !HasFact(o, EdgeFact(e));
    } else if t :| t in x.nodeUpdates && x.nodeUpdates[t].addSubtypes != map[] {
      NewSubtypeShows(o, x, after, t);
    } else {
      NoTypes(x);
      var e :| e in x.edgeUpdates && x.edgeUpdates[e] != EdgeTypeUpdate([], [], map[]);
      EdgeUpdateIsNew(o, x, after, e);
    }
  }

  lemma {:induction false} NewSubtypeShows(o: Ontology, x: Extension, after: Ontology, t: string)
    requires Extends(o, x, after) && t in x.nodeUpdates && x.nodeUpdates[t].addSubtypes != map[]
    ensures FactsGained(o, after)
  {
    hide Extends, SelfValid, EffectiveProperties, States, EdgePartAdmissible, WithUpdates;
    ExtendsParts(o, x, after);
    NodeTypeAfter(o, x, after, t);
    var s :| s in x.nodeUpdates[t].addSubtypes;
    assert HasFact(after, SubtypeFact(t, s)) && !HasFact(o, SubtypeFact(t, s));
  }

  lemma {:induction false} NoTypes(x: Extension)
    requires (forall t :: t !in x.nodeTypes) && (forall e :: e !in x.edgeTypes)
    ensures x.nodeTypes == map[] && x.edgeTypes == map[]
  {
  }

  lemma {:induction false} EdgeUpdateIsNew(o: Ontology, x: Extension, after: Ontology, e: string)
    requires Extends(o, x, after) && e in x.edgeUpdates && x.edgeUpdates[e] != EdgeTypeUpdate([], [], map[])
    ensures FactsGained(o, after)
  {
    hide Extends, SelfValid, NodePartAdmissible, EffectiveProperties;
    ExtendsParts(o, x, after);
    EdgeTypeAfter(o, x, after, e);
    var u, d := x.edgeUpdates[e], WithNewNodeTypes(o, x).edgeTypes[e];
    if u.addSources != [] {
      var s := u.addSources[0];
      assert s in after.edgeTypes[e].sources;
      assert HasFact(after, SourceFact(e, s)) && !HasFact(o, SourceFact(e, s));
    } else if u.addTargets != [] {
      var t := u.addTargets[0];
      assert t in after.edgeTypes[e].targets;
      assert HasFact(after, TargetFact(e, t)) && !HasFact(o, TargetFact(e, t));
    } else {
      var k :| k in u.addProperties;
      var p := u.addProperties[k];
      var f := PropertyFact(OfEdge(e), k, p.valueType, p.required);
      assert HasFact(after, f) && !HasFact(o, f);
    }
  }

  /** The facts about a type's key are those of its effective definition. */
  lemma {:induction false} TypeFactIs(o: Ontology, t: string, k: string, f: Fact)
    requires t in o.nodeTypes && (f.PropertyFact? || f.MemberFact? || f.ConstraintFact?) && f.owner == OfType(t) && f.key == k
    ensures HasFact(o, f) <==> k in EffectiveProperties(o, t) && States(EffectiveProperties(o, t)[k], OfType(t), k, f)
  {
    hide EffectiveProperties, States;
  }

  /** A definition that states more, or of a key that had none, shows. */
  lemma {:induction false} NewDefinitionShows(o: Ontology, after: Ontology, t: string, k: string)
    requires t in o.nodeTypes && t in after.nodeTypes && k in EffectiveProperties(after, t)
    requires k in EffectiveProperties(o, t) ==> !Carried(EffectiveProperties(after, t)[k], EffectiveProperties(o, t)[k])
    ensures FactsGained(o, after)
  {
    hide EffectiveProperties, Carried, HasFact;
    var w, d := OfType(t), EffectiveProperties(after, t)[k];
    if k in EffectiveProperties(o, t) {
      var d0 := EffectiveProperties(o, t)[k];
      CarriedFacts(d, d0, w, k);
      var f :| States(d, w, k, f) && !States(d0, w, k, f);
      TypeFactIs(o, t, k, f);
      TypeFactIs(after, t, k, f);
    } else {
      var f := PropertyFact(w, k, d.valueType, d.required);
      TypeFactIs(o, t, k, f);
      TypeFactIs(after, t, k, f);
      assert HasFact(after, f) && !HasFact(o, f);
    }
  }

  lemma {:induction false} ChainHolds(o: Ontology, chain: seq<string>, t: string, k: string)
    requires t in chain && t in o.nodeTypes && k in o.nodeTypes[t].properties
    ensures k in Inherit(o, chain)
  {
    if chain[0] != t { ChainHolds(o, chain[1..], t, k); }
  }

  lemma {:induction false} GainsShow(o: Ontology, x: Extension, after: Ontology)
    requires Extends(o, x, after) && Gains(o, x)
    ensures FactsGained(o, after)
  {
    hide Extends, EffectiveProperties, Inherited, NewStructure, FactsGained, Ancestors;
    if NewStructure(x) {
      NewStructureShows(o, x, after);
    } else if t, k :| RelaxesRequired(o, x, t, k) {
      OwnAfter(o, x, after, t, k);
      OwnOrInherited(o, t, k);
      OwnOrInherited(after, t, k);
      NewDefinitionShows(o, after, t, k);
    } else if t, k :| Adds(x, t, k) && k in Inherited(o, t) && !Carried(x.nodeUpdates[t].addProperties[k], Inherited(o, t)[k]) {
      UpdatesKnown(o, x, after, t);
      OwnAfter(o, x, after, t, k);
      OwnOrInherited(o, t, k);
      OwnOrInherited(after, t, k);
      NewDefinitionShows(o, after, t, k);
    } else {
      var u, t, k :| Exposes(o, x, u, t, k);
      ReachShows(o, x, after, u, t, k);
    }
  }

  lemma {:induction false} ReachShows(o: Ontology, x: Extension, after: Ontology, u: string, t: string, k: string)
    requires Extends(o, x, after) && Exposes(o, x, u, t, k)
    ensures FactsGained(o, after)
  {
    hide Extends, EffectiveProperties, FactsGained, Ancestors;
    UpdatesKnown(o, x, after, t);
    OwnAfter(o, x, after, t, k);
    NodeTypeAfter(o, x, after, u);
    EffectiveAfter(o, x, after, u, k);
    ChainHolds(after, [u] + Ancestors(o, u), t, k);
    NewDefinitionShows(o, after, u, k);
  }

  /** Without any of these, every fact after was a fact before. */
  lemma {:induction false} NothingGained(o: Ontology, x: Extension, after: Ontology, f: Fact)
    requires Extends(o, x, after) && !Gains(o, x) && HasFact(after, f)
    ensures HasFact(o, f)
  {
    hide Extends, EffectiveProperties, Inherited, States, Carried, Ancestors, Exposes;
    if f.PropertyFact? || f.MemberFact? || f.ConstraintFact? {
      if f.owner.OfType? {
        OldTypes(o, x, after);
        NoGainDefinition(o, x, after, f);
      } else {
        SameElsewhere(o, x, after, f.owner);
      }
    } else {
      NoGainStructure(o, x, after, f);
    }
  }

  lemma {:induction false} OldTypes(o: Ontology, x: Extension, after: Ontology)
    requires Extends(o, x, after) && !NewStructure(x)
    ensures after.nodeTypes.Keys == o.nodeTypes.Keys && after.edgeTypes == o.edgeTypes
    ensures forall t :: t in o.nodeTypes ==> after.nodeTypes[t].subtypes == o.nodeTypes[t].subtypes && after.nodeTypes[t].parent == o.nodeTypes[t].parent
  {
    hide Extends, SelfValid;
    forall t ensures t in after.nodeTypes <==> t in o.nodeTypes
             ensures t in o.nodeTypes ==> after.nodeTypes[t].subtypes == o.nodeTypes[t].subtypes && after.nodeTypes[t].parent == o.nodeTypes[t].parent
    {
      NodeTypeAfter(o, x, after, t);
    }
    assert after.nodeTypes.Keys == o.nodeTypes.Keys;
    forall e ensures e in after.edgeTypes <==> e in o.edgeTypes
             ensures e in o.edgeTypes ==> after.edgeTypes[e] == o.edgeTypes[e]
    {
      EdgeTypeAfter(o, x, after, e);
      if e in o.edgeTypes && e in x.edgeUpdates { IdleEdgeUpdate(o.edgeTypes[e]); }
    }
    assert after.edgeTypes.Keys == o.edgeTypes.Keys;
    MapsAgree(after.edgeTypes, o.edgeTypes);
  }

  lemma {:induction false} IdleEdgeUpdate(d: EdgeTypeDef)
    ensures UpdatedEdgeType(d, EdgeTypeUpdate([], [], map[])) == d
  {
    assert d.sources + [] == d.sources && d.targets + [] == d.targets && d.properties + map[] == d.properties;
  }

  lemma {:induction false} NoGainStructure(o: Ontology, x: Extension, after: Ontology, f: Fact)
    requires Extends(o, x, after) && !NewStructure(x) && HasFact(after, f) && !f.PropertyFact? && !f.MemberFact? && !f.ConstraintFact?
    ensures HasFact(o, f)
  {
    hide Extends, NewStructure;
    OldTypes(o, x, after);
  }

  lemma {:induction false} SameElsewhere(o: Ontology, x: Extension, after: Ontology, w: Owner)
    requires Extends(o, x, after) && !NewStructure(x) && !w.OfType?
    ensures DefsOf(after, w) == DefsOf(o, w)
  {
    hide Extends, NewStructure;
    OldTypes(o, x, after);
  }

  lemma {:induction false} NoGainDefinition(o: Ontology, x: Extension, after: Ontology, f: Fact)
    requires Extends(o, x, after) && !Gains(o, x) && HasFact(after, f) && after.nodeTypes.Keys == o.nodeTypes.Keys
    requires (f.PropertyFact? || f.MemberFact? || f.ConstraintFact?) && f.owner.OfType?
    ensures HasFact(o, f)
  {
    hide Extends, EffectiveProperties, States, Carried, Ancestors, Inherit, Explained, Gains, HasFact;
    var t, k := f.owner.nodeType, f.key;
    assert t in after.nodeTypes by { FactHasPlace(after, f); }
    TypeFactIs(after, t, k, f);
    TypeFactIs(o, t, k, f);
    EffectiveAfter(o, x, after, t, k);
    EffectiveIs(o, t);
    NoGainCarries(o, x, after, t, k);
    CarriedFacts(EffectiveProperties(after, t)[k], EffectiveProperties(o, t)[k], OfType(t), k);
  }

  lemma {:induction false} NoGainCarries(o: Ontology, x: Extension, after: Ontology, t: string, k: string)
    requires !Gains(o, x) && t in o.nodeTypes
    requires var chain := [t] + Ancestors(o, t); k in Inherit(after, chain) && Explained(o, x, after, chain, k)
    ensures var chain := [t] + Ancestors(o, t);
      k in Inherit(o, chain) && Carried(Inherit(after, chain)[k], Inherit(o, chain)[k])
  {
    hide Inherit, Inherited, Carried, Ancestors, NewStructure;
    var chain := [t] + Ancestors(o, t);
    if k in Inherit(o, chain) { CarriedSelf(Inherit(o, chain)[k]); }
    if s :| s in chain && FromRelaxed(o, x, after, chain, s, k) {
      assert !RelaxesRequired(o, x, s, k);
    } else if s :| s in chain && FromAdded(o, x, after, chain, s, k) {
      assert !Exposes(o, x, t, s, k);
    }
  }

  /** New facts appear exactly when the extension says something new of what is there. */
  lemma {:induction false} GainsIff(o: Ontology, x: Extension, after: Ontology)
    requires Extends(o, x, after)
    ensures FactsGained(o, after) <==> Gains(o, x)
  {
    hide Extends, Gains, HasFact;
    if Gains(o, x) {
      GainsShow(o, x, after);
    } else {
      forall f | HasFact(after, f) ensures HasFact(o, f) { NothingGained(o, x, after, f); }
    }
  }

  lemma {:induction false} AltersIff(o: Ontology, x: Extension, after: Ontology)
    requires Extends(o, x, after)
    ensures o != after <==> Alters(o, x)
  {
    hide Extends, Gains, HasFact, FactsGained, Relaxes, RelaxesRequired;
    if Gains(o, x) {
      GainsShow(o, x, after);
      GainedDiffers(o, after);
    } else if t, k :| Adds(x, t, k) {
      UpdatesKnown(o, x, after, t);
      OwnAfter(o, x, after, t, k);
    } else {
      NoGainParts(o, x);
      OldTypes(o, x, after);
      forall t | t in o.nodeTypes ensures after.nodeTypes[t] == o.nodeTypes[t] { Unaltered(o, x, after, t); }
      MapsAgree(after.nodeTypes, o.nodeTypes);
    }
  }

  lemma {:induction false} NoGainParts(o: Ontology, x: Extension)
    requires !Gains(o, x)
    ensures !NewStructure(x) && forall t, k :: !RelaxesRequired(o, x, t, k)
  {
    hide NewStructure, RelaxesRequired;
  }

  lemma {:induction false} GainedDiffers(o: Ontology, after: Ontology)
    requires FactsGained(o, after)
    ensures o != after
  {
    hide HasFact;
  }

  lemma {:induction false} Unaltered(o: Ontology, x: Extension, after: Ontology, t: string)
    requires Extends(o, x, after) && t in o.nodeTypes && (forall k :: !Adds(x, t, k)) && (forall k :: !RelaxesRequired(o, x, t, k))
    requires t in after.nodeTypes && after.nodeTypes[t].subtypes == o.nodeTypes[t].subtypes && after.nodeTypes[t].parent == o.nodeTypes[t].parent
    ensures after.nodeTypes[t] == o.nodeTypes[t]
  {
    hide Extends, Adds;
    forall k ensures k in after.nodeTypes[t].properties <==> k in o.nodeTypes[t].properties
             ensures k in o.nodeTypes[t].properties ==> after.nodeTypes[t].properties[k] == o.nodeTypes[t].properties[k]
    {
      OwnAfter(o, x, after, t, k);
      assert !RelaxesRequired(o, x, t, k);
    }
    assert after.nodeTypes[t].properties.Keys == o.nodeTypes[t].properties.Keys;
    MapsAgree(after.nodeTypes[t].properties, o.nodeTypes[t].properties);
  }

  // -- The verdicts --------------------------------------------------------------------------------------------------------

  /** What the extended side will see, decided before extending. */
  ghost function Foreseen(o: Ontology, x: Extension): Compatibility {
    if !Alters(o, x) then Identical
    else if Keeps(o, x) && Gains(o, x) then Superset
    else if !Keeps(o, x) && !Gains(o, x) then Subset
    else Divergent
  }

  function Mirror(c: Compatibility): Compatibility {
    match c
    case Superset => Subset
    case Subset => Superset
    case _ => c
  }

  /** For every successful extension, both sides' verdicts are exactly the ones foreseen. */
  lemma {:induction false} VerdictForeseen(o: Ontology, x: Extension, after: Ontology, before: set<Fact>, now: set<Fact>)
    requires Extends(o, x, after) && IsFingerprint(o, before) && IsFingerprint(after, now)
    ensures CheckCompatibility(o == after, now, before) == Foreseen(o, x)
    ensures CheckCompatibility(o == after, before, now) == Mirror(Foreseen(o, x))
  {
    hide Extends, HasFact, Alters, Keeps, Gains;
    KeepsIff(o, x, after);
    GainsIff(o, x, after);
    AltersIff(o, x, after);
    assert FactsKept(o, after) <==> before <= now by {
      forall f ensures f in before <==> HasFact(o, f) {}
      forall f ensures f in now <==> HasFact(after, f) {}
    }
    assert FactsGained(o, after) <==> !(now <= before);
  }

  /** An extension that relaxes nothing and shadows nothing inherited is seen as growth. */
  lemma {:induction false} GrowthIsVisible(o: Ontology, x: Extension, after: Ontology)
    requires Extends(o, x, after) && (forall t, k :: !Relaxes(x, t, k)) && (forall t, k :: Adds(x, t, k) ==> k !in Inherited(o, t))
    ensures Foreseen(o, x) == Superset
  {
    hide Extends, Inherited, EffectiveProperties, Ancestors, Carried;
    assert Keeps(o, x);
    if !NewStructure(x) {
      AddsSomething(o, x, after);
      var t, k :| Adds(x, t, k);
      UpdatesKnown(o, x, after, t);
      OwnAfter(o, x, after, t, k);
      OwnOrInherited(o, t, k);
      assert t in [t] + Ancestors(o, t);
      assert Exposes(o, x, t, t, k);
    }
  }

  lemma {:induction false} AddsSomething(o: Ontology, x: Extension, after: Ontology)
    requires Extends(o, x, after) && (forall t, k :: !Relaxes(x, t, k)) && !NewStructure(x)
    ensures exists t, k :: Adds(x, t, k)
  {
    hide SelfValid, EdgePartAdmissible, WithUpdates, MergeExtension;
    ExtendsParts(o, x, after);
    var t :| t in x.nodeUpdates && x.nodeUpdates[t] != NodeTypeUpdate(map[], [], map[]);
    var u := x.nodeUpdates[t];
    assert u.relax == [] || Relaxes(x, t, u.relax[0]);
    var k :| k in u.addProperties;
    assert Adds(x, t, k);
  }

  /** Relaxing a required property swaps one fact for another: both sides see a divergence. */
  lemma {:induction false} RelaxingDiverges(o: Ontology, x: Extension, t: string, k: string)
    requires RelaxesRequired(o, x, t, k)
    ensures Foreseen(o, x) == Divergent
  {
    hide Inherited, EffectiveProperties, Carried, NewStructure;
    assert !Keeps(o, x);
  }
}
