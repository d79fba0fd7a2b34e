/**
 * Extending an ontology, said by sets of names: which extensions are refused, at which point and with which residue,
 * and what a merged one holds; and what two ontologies with one fingerprint have in common.
 */
module Extensions {
  import opened Base
  import opened Ontologies
  import opened Fingerprints
  import opened Validation

  // -- What is checked -------------------------------------------------------------------------------------------------

  /** The extension asks for something. */
  predicate Says(x: Extension) {
    || x.nodeTypes.Keys != {} || x.edgeTypes.Keys != {}
    || (exists t :: t in x.nodeUpdates &&
          (x.nodeUpdates[t].addProperties.Keys != {} || x.nodeUpdates[t].relax != [] || x.nodeUpdates[t].addSubtypes.Keys != {}))
    || (exists e :: e in x.edgeUpdates &&
          (x.edgeUpdates[e].addSources != [] || x.edgeUpdates[e].addTargets != [] || x.edgeUpdates[e].addProperties.Keys != {}))
  }

  /** Names an update of node type `d` may use. */
  predicate NodeUpdateFits(d: NodeTypeDef, u: NodeTypeUpdate) {
    && u.addProperties.Keys !! d.properties.Keys && ToSet(u.relax) <= d.properties.Keys
    && (d.subtypes.Some? ==> u.addSubtypes.Keys !! d.subtypes.value.Keys)
  }

  /** Names an update of edge type `d` may use, `types` being the node types there will be. */
  predicate EdgeUpdateFits(types: set<string>, d: EdgeTypeDef, u: EdgeTypeUpdate) {
    && ToSet(u.addSources) <= types - ToSet(d.sources) && ToSet(u.addTargets) <= types - ToSet(d.targets)
    && u.addProperties.Keys !! d.properties.Keys
  }

  /** The first round of checks: something is asked for, nothing is declared twice, and node updates fit. */
  predicate FirstChecks(o: Ontology, x: Extension) {
    && Says(x) && x.nodeTypes.Keys !! o.nodeTypes.Keys && x.edgeTypes.Keys !! o.edgeTypes.Keys
    && x.nodeUpdates.Keys <= o.nodeTypes.Keys && forall t :: t in x.nodeUpdates ==> NodeUpdateFits(o.nodeTypes[t], x.nodeUpdates[t])
  }

  /** The second: edge updates fit, new node types counted. */
  predicate SecondChecks(o: Ontology, x: Extension) {
    && x.edgeUpdates.Keys <= o.edgeTypes.Keys
    && forall e :: e in x.edgeUpdates ==> EdgeUpdateFits(o.nodeTypes.Keys + x.nodeTypes.Keys, o.edgeTypes[e], x.edgeUpdates[e])
  }

  /** Everything referred to exists, and every constraint has a known name. */
  predicate Sound(o: Ontology) {
    && (forall e :: e in o.edgeTypes ==> ToSet(o.edgeTypes[e].sources) + ToSet(o.edgeTypes[e].targets) <= o.nodeTypes.Keys)
    && (forall t :: t in o.nodeTypes && o.nodeTypes[t].parent.Some? ==> o.nodeTypes[t].parent.value in o.nodeTypes)
    && (forall t :: t in o.nodeTypes ==> NamesFit(o.nodeTypes[t].properties))
    && (forall t, s :: t in o.nodeTypes && o.nodeTypes[t].subtypes.Some? && s in o.nodeTypes[t].subtypes.value ==>
          NamesFit(o.nodeTypes[t].subtypes.value[s]))
    && (forall e :: e in o.edgeTypes ==> NamesFit(o.edgeTypes[e].properties))
  }

  predicate NamesFit(defs: Defs) { forall k, c :: k in defs && c in defs[k].constraints ==> KnownName(c) }

  // -- What results ------------------------------------------------------------------------------------------------------

  /** `r` has the definitions of both, those named optional from now on. */
  predicate DefsMerged(a: Defs, b: Defs, relax: seq<string>, r: Defs) {
    && r.Keys == a.Keys + b.Keys
    && forall k :: k in r ==>
         var d := if k in b then b[k] else a[k];
         r[k].valueType == d.valueType && r[k].constraints == d.constraints && (r[k].required <==> d.required && k !in relax)
  }

  predicate NodeTypeMerged(d: NodeTypeDef, u: NodeTypeUpdate, r: NodeTypeDef) {
    && DefsMerged(d.properties, u.addProperties, u.relax, r.properties) && r.parent == d.parent
    && (r.subtypes.Some? <==> d.subtypes.Some? || u.addSubtypes.Keys != {})
    && (r.subtypes.Some? ==>
          var known := if d.subtypes.Some? then d.subtypes.value else map[];
          r.subtypes.value.Keys == known.Keys + u.addSubtypes.Keys
          && forall s :: s in r.subtypes.value ==> r.subtypes.value[s] == if s in u.addSubtypes then u.addSubtypes[s] else known[s])
  }

  predicate EdgeTypeMerged(d: EdgeTypeDef, u: EdgeTypeUpdate, r: EdgeTypeDef) {
    && r.sources == d.sources + u.addSources && r.targets == d.targets + u.addTargets
    && DefsMerged(d.properties, u.addProperties, [], r.properties)
  }

  /** `r` is `o` with everything the extension asks for, and nothing else. */
  predicate Merged(o: Ontology, x: Extension, r: Ontology) {
    && r.nodeTypes.Keys == o.nodeTypes.Keys + x.nodeTypes.Keys && r.edgeTypes.Keys == o.edgeTypes.Keys + x.edgeTypes.Keys
    && (forall t :: t in x.nodeTypes ==> r.nodeTypes[t] == x.nodeTypes[t])
    && (forall e :: e in x.edgeTypes ==> r.edgeTypes[e] == x.edgeTypes[e])
    && (forall t :: t in o.nodeTypes ==>
          if t in x.nodeUpdates then NodeTypeMerged(o.nodeTypes[t], x.nodeUpdates[t], r.nodeTypes[t]) else r.nodeTypes[t] == o.nodeTypes[t])
    && (forall e :: e in o.edgeTypes ==>
          if e in x.edgeUpdates then EdgeTypeMerged(o.edgeTypes[e], x.edgeUpdates[e], r.edgeTypes[e]) else r.edgeTypes[e] == o.edgeTypes[e])
  }

  /**
   * The three ends of an extension: refused by the first checks it leaves the ontology alone; refused by the second it
   * leaves its node types behind; else everything it asks for is there, and it fails only if the whole is unsound.
   */
  lemma {:induction false} ExtensionEnds(o: Ontology, x: Extension)
    ensures var (r, ok) := MergeExtension(o, x);
      if !FirstChecks(o, x) then r == o && !ok
      else if !SecondChecks(o, x) then !ok && r == o.(nodeTypes := o.nodeTypes + x.nodeTypes)
      else Merged(o, x, r) && (ok <==> Sound(r))
  {
    hide NodePartAdmissible, EdgePartAdmissible, FirstChecks, SecondChecks, SelfValid, Sound, Merged, WithUpdates;
    var mid := WithNewNodeTypes(o, x);
    FirstIs(o, x);
    SecondIs(o, x);
    SoundIs(WithUpdates(mid, x));
    if FirstChecks(o, x) && SecondChecks(o, x) { MergedIs(o, x); }
  }

  lemma {:induction false} SaysIs(x: Extension)
    ensures IsEmptyExtension(x) <==> !Says(x)
  {
    if !Says(x) {
      forall t | t in x.nodeUpdates ensures x.nodeUpdates[t] == NodeTypeUpdate(map[], [], map[]) {
        assert x.nodeUpdates[t].addProperties.Keys == {} && x.nodeUpdates[t].relax == [] && x.nodeUpdates[t].addSubtypes.Keys == {};
      }
      forall e | e in x.edgeUpdates ensures x.edgeUpdates[e] == EdgeTypeUpdate([], [], map[]) {
        assert x.edgeUpdates[e].addSources == [] && x.edgeUpdates[e].addTargets == [] && x.edgeUpdates[e].addProperties.Keys == {};
      }
    }
  }

  lemma {:induction false} NodeUpdateIs(d: NodeTypeDef, u: NodeTypeUpdate)
    ensures NodeUpdateFits(d, u) <==>
      && (forall k :: k in u.addProperties ==> k !in d.properties)
      && (forall i :: 0 <= i < |u.relax| ==> u.relax[i] in d.properties)
      && (d.subtypes.Some? ==> forall s :: s in u.addSubtypes ==> s !in d.subtypes.value)
  {
    assert ToSet(u.relax) <= d.properties.Keys <==> forall i :: 0 <= i < |u.relax| ==> u.relax[i] in d.properties by {
      forall i | 0 <= i < |u.relax| ensures u.relax[i] in ToSet(u.relax) {}
    }
  }

  lemma {:induction false} FirstIs(o: Ontology, x: Extension)
    ensures NodePartAdmissible(o, x) <==> FirstChecks(o, x)
  {
    hide IsEmptyExtension, Says, NodeUpdateFits;
    SaysIs(x);
    forall t | t in x.nodeUpdates && t in o.nodeTypes
      ensures NodeUpdateFits(o.nodeTypes[t], x.nodeUpdates[t]) <==>
        && (forall k :: k in x.nodeUpdates[t].addProperties ==> k !in o.nodeTypes[t].properties)
        && (forall i :: 0 <= i < |x.nodeUpdates[t].relax| ==> x.nodeUpdates[t].relax[i] in o.nodeTypes[t].properties)
        && (o.nodeTypes[t].subtypes.Some? ==> forall s :: s in x.nodeUpdates[t].addSubtypes ==> s !in o.nodeTypes[t].subtypes.value)
    {
      NodeUpdateIs(o.nodeTypes[t], x.nodeUpdates[t]);
    }
  }

  lemma {:induction false} BindingsAre(o: Ontology, added: seq<string>, existing: seq<string>)
    ensures NewBindings(o, added, existing) <==> ToSet(added) <= o.nodeTypes.Keys - ToSet(existing)
  {
    if ToSet(added) <= o.nodeTypes.Keys - ToSet(existing) {
      forall i | 0 <= i < |added| ensures added[i] in o.nodeTypes && added[i] !in existing { assert added[i] in ToSet(added); }
    }
  }

  lemma {:induction false} SecondIs(o: Ontology, x: Extension)
    ensures EdgePartAdmissible(WithNewNodeTypes(o, x), x) <==> SecondChecks(o, x)
  {
    hide NewBindings, ToSet;
    var mid := WithNewNodeTypes(o, x);
    assert mid.nodeTypes.Keys == o.nodeTypes.Keys + x.nodeTypes.Keys;
    forall e | e in x.edgeUpdates && e in o.edgeTypes
      ensures EdgeUpdateFits(o.nodeTypes.Keys + x.nodeTypes.Keys, o.edgeTypes[e], x.edgeUpdates[e]) <==>
        && NewBindings(mid, x.edgeUpdates[e].addSources, o.edgeTypes[e].sources)
        && NewBindings(mid, x.edgeUpdates[e].addTargets, o.edgeTypes[e].targets)
        && (forall k :: k in x.edgeUpdates[e].addProperties ==> k !in o.edgeTypes[e].properties)
    {
      BindingsAre(mid, x.edgeUpdates[e].addSources, o.edgeTypes[e].sources);
      BindingsAre(mid, x.edgeUpdates[e].addTargets, o.edgeTypes[e].targets);
    }
  }

  lemma {:induction false} SoundIs(o: Ontology)
    ensures SelfValid(o) <==> Sound(o)
  {
    hide KnownConstraints, NamesFit;
    forall defs: Defs ensures KnownConstraints(defs) <==> NamesFit(defs) { NamesAre(defs); }
    forall e | e in o.edgeTypes
      ensures ToSet(o.edgeTypes[e].sources) + ToSet(o.edgeTypes[e].targets) <= o.nodeTypes.Keys <==>
        && (forall i :: 0 <= i < |o.edgeTypes[e].sources| ==> o.edgeTypes[e].sources[i] in o.nodeTypes)
        && (forall i :: 0 <= i < |o.edgeTypes[e].targets| ==> o.edgeTypes[e].targets[i] in o.nodeTypes)
    {
      EndsKnown(o.nodeTypes.Keys, o.edgeTypes[e].sources, o.edgeTypes[e].targets);
    }
  }

  lemma {:induction false} NamesAre(defs: Defs)
    ensures KnownConstraints(defs) <==> NamesFit(defs)
  {
    NamesKnown(defs);
  }

  lemma {:induction false} EndsKnown(types: set<string>, a: seq<string>, b: seq<string>)
    ensures ToSet(a) + ToSet(b) <= types <==>
      (forall i :: 0 <= i < |a| ==> a[i] in types) && (forall i :: 0 <= i < |b| ==> b[i] in types)
  {
    if ToSet(a) + ToSet(b) <= types {
      forall i | 0 <= i < |a| ensures a[i] in types { assert a[i] in ToSet(a) + ToSet(b); }
      forall i | 0 <= i < |b| ensures b[i] in types { assert b[i] in ToSet(a) + ToSet(b); }
    }
  }

  lemma {:induction false} NodeTypeIs(d: NodeTypeDef, u: NodeTypeUpdate)
    ensures NodeTypeMerged(d, u, UpdatedNodeType(d, u))
  {
    assert u.addSubtypes == map[] <==> u.addSubtypes.Keys == {};
  }

  lemma {:induction false} EdgeTypeIs(d: EdgeTypeDef, u: EdgeTypeUpdate)
    ensures EdgeTypeMerged(d, u, UpdatedEdgeType(d, u))
  {
  }

  lemma {:induction false} MergedIs(o: Ontology, x: Extension)
    requires FirstChecks(o, x) && SecondChecks(o, x)
    ensures Merged(o, x, WithUpdates(WithNewNodeTypes(o, x), x))
  {
    hide UpdatedNodeType, UpdatedEdgeType, NodeTypeMerged, EdgeTypeMerged, Says, NodeUpdateFits, EdgeUpdateFits;
    var r := WithUpdates(WithNewNodeTypes(o, x), x);
    forall t | t in o.nodeTypes && t in x.nodeUpdates ensures NodeTypeMerged(o.nodeTypes[t], x.nodeUpdates[t], r.nodeTypes[t]) {
      NodeTypeIs(o.nodeTypes[t], x.nodeUpdates[t]);
    }
    forall e | e in o.edgeTypes && e in x.edgeUpdates ensures EdgeTypeMerged(o.edgeTypes[e], x.edgeUpdates[e], r.edgeTypes[e]) {
      EdgeTypeIs(o.edgeTypes[e], x.edgeUpdates[e]);
    }
    forall t | t in x.nodeTypes ensures t !in o.nodeTypes && t !in x.nodeUpdates { assert t in x.nodeTypes.Keys; }
    forall e | e in x.edgeTypes ensures e !in o.edgeTypes && e !in x.edgeUpdates { assert e in x.edgeTypes.Keys; }
  }

  // -- What a fingerprint tells ------------------------------------------------------------------------------------------

  /** The members an enumeration lists; the empty list tells nothing. */
  function MembersOf(d: PropertyDef): set<string> {
    if "enum" in d.constraints && d.constraints["enum"].Members? then ToSet(d.constraints["enum"].items) else {}
  }

  predicate HasScalar(d: PropertyDef, c: string) { c in d.constraints && !(c == "enum" && d.constraints[c].Members?) }

  predicate SameDef(a: PropertyDef, b: PropertyDef) {
    && a.valueType == b.valueType && a.required == b.required && MembersOf(a) == MembersOf(b)
    && (forall c :: c in a.constraints && HasScalar(a, c) ==> c in b.constraints && HasScalar(b, c) && b.constraints[c] == a.constraints[c])
    && (forall c :: c in b.constraints && HasScalar(b, c) ==> c in a.constraints && HasScalar(a, c))
  }

  predicate SameDefs(a: Defs, b: Defs) { a.Keys == b.Keys && forall k :: k in a ==> SameDef(a[k], b[k]) }

  function SubtypesOf(o: Ontology, t: string): map<string, Defs> {
    if t in o.nodeTypes && o.nodeTypes[t].subtypes.Some? then o.nodeTypes[t].subtypes.value else map[]
  }

  /** The same types with the same parents, subtypes, endpoints and effective definitions. */
  predicate SameMeaning(a: Ontology, b: Ontology) {
    && a.nodeTypes.Keys == b.nodeTypes.Keys && a.edgeTypes.Keys == b.edgeTypes.Keys
    && (forall t :: t in a.nodeTypes ==>
          && a.nodeTypes[t].parent == b.nodeTypes[t].parent && SameDefs(EffectiveProperties(a, t), EffectiveProperties(b, t))
          && SubtypesOf(a, t).Keys == SubtypesOf(b, t).Keys
          && forall s :: s in SubtypesOf(a, t) ==> SameDefs(SubtypesOf(a, t)[s], SubtypesOf(b, t)[s]))
    && (forall e :: e in a.edgeTypes ==>
          && ToSet(a.edgeTypes[e].sources) == ToSet(b.edgeTypes[e].sources) && ToSet(a.edgeTypes[e].targets) == ToSet(b.edgeTypes[e].targets)
          && SameDefs(a.edgeTypes[e].properties, b.edgeTypes[e].properties))
  }

  ghost predicate SameFacts(a: Ontology, b: Ontology) { forall f :: HasFact(a, f) <==> HasFact(b, f) }

  lemma {:induction false} SameDefStates(a: PropertyDef, b: PropertyDef, w: Owner, k: string)
    ensures SameDef(a, b) <==> forall f :: States(a, w, k, f) <==> States(b, w, k, f)
  {
    if forall f :: States(a, w, k, f) <==> States(b, w, k, f) {
      assert States(a, w, k, PropertyFact(w, k, a.valueType, a.required));
      assert States(b, w, k, PropertyFact(w, k, a.valueType, a.required));
      forall m ensures m in MembersOf(a) <==> m in MembersOf(b) {
        assert States(a, w, k, MemberFact(w, k, m)) <==> m in MembersOf(a);
        assert States(b, w, k, MemberFact(w, k, m)) <==> m in MembersOf(b);
      }
      forall c | c in a.constraints && HasScalar(a, c) ensures c in b.constraints && HasScalar(b, c) && b.constraints[c] == a.constraints[c] {
        assert States(a, w, k, ConstraintFact(w, k, c, a.constraints[c]));
        assert States(b, w, k, ConstraintFact(w, k, c, a.constraints[c]));
      }
      forall c | c in b.constraints && HasScalar(b, c) ensures c in a.constraints && HasScalar(a, c) {
        assert States(b, w, k, ConstraintFact(w, k, c, b.constraints[c]));
        assert States(a, w, k, ConstraintFact(w, k, c, b.constraints[c]));
      }
    }
    if SameDef(a, b) {
      forall f ensures States(a, w, k, f) <==> States(b, w, k, f) {
        if f.MemberFact? {
          assert States(a, w, k, f) <==> w == f.owner && k == f.key && f.member in MembersOf(a);
          assert States(b, w, k, f) <==> w == f.owner && k == f.key && f.member in MembersOf(b);
        }
      }
    }
  }

  predicate AboutProperty(f: Fact) { f.PropertyFact? || f.MemberFact? || f.ConstraintFact? }

  /** The fact follows from these definitions of owner `w`. */
  predicate Follows(defs: Defs, w: Owner, f: Fact) {
    AboutProperty(f) && f.owner == w && f.key in defs && States(defs[f.key], w, f.key, f)
  }

  lemma {:induction false} DefsTell(a: Defs, b: Defs, w: Owner)
    ensures SameDefs(a, b) <==> forall f :: Follows(a, w, f) <==> Follows(b, w, f)
  {
    hide SameDef, States;
    if forall f :: Follows(a, w, f) <==> Follows(b, w, f) {
      forall k ensures k in a <==> k in b {
        if k in a { StatesSelf(a[k], w, k); assert Follows(a, w, PropertyFact(w, k, a[k].valueType, a[k].required)); }
        if k in b { StatesSelf(b[k], w, k); assert Follows(b, w, PropertyFact(w, k, b[k].valueType, b[k].required)); }
      }
      forall k | k in a ensures SameDef(a[k], b[k]) {
        forall f ensures States(a[k], w, k, f) <==> States(b[k], w, k, f) {
          StatesAbout(a[k], w, k, f);
          StatesAbout(b[k], w, k, f);
          assert Follows(a, w, f) <==> Follows(b, w, f);
        }
        SameDefStates(a[k], b[k], w, k);
      }
    }
    if SameDefs(a, b) {
      forall f ensures Follows(a, w, f) <==> Follows(b, w, f) {
        if AboutProperty(f) && f.key in a { SameDefStates(a[f.key], b[f.key], w, f.key); }
      }
    }
  }

  lemma {:induction false} StatesSelf(d: PropertyDef, w: Owner, k: string)
    ensures States(d, w, k, PropertyFact(w, k, d.valueType, d.required))
  {
  }

  lemma {:induction false} StatesAbout(d: PropertyDef, w: Owner, k: string, f: Fact)
    ensures States(d, w, k, f) ==> AboutProperty(f) && f.owner == w && f.key == k
  {
  }

  lemma {:induction false} PropertyFactsFollow(o: Ontology, f: Fact)
    requires AboutProperty(f)
    ensures HasFact(o, f) <==> Follows(DefsOf(o, f.owner), f.owner, f)
  {
    hide EffectiveProperties, States;
  }

  lemma {:induction false} OwnersTell(a: Ontology, b: Ontology, w: Owner)
    requires SameFacts(a, b)
    ensures SameDefs(DefsOf(a, w), DefsOf(b, w))
  {
    hide DefsOf, Follows, SameDefs, HasFact;
    forall f ensures Follows(DefsOf(a, w), w, f) <==> Follows(DefsOf(b, w), w, f) {
      if AboutProperty(f) && f.owner == w {
        PropertyFactsFollow(a, f);
        PropertyFactsFollow(b, f);
      } else {
        NotFollowing(DefsOf(a, w), w, f);
        NotFollowing(DefsOf(b, w), w, f);
      }
    }
    DefsTell(DefsOf(a, w), DefsOf(b, w), w);
  }

  lemma {:induction false} NotFollowing(defs: Defs, w: Owner, f: Fact)
    requires !AboutProperty(f) || f.owner != w
    ensures !Follows(defs, w, f)
  {
  }

  lemma {:induction false} NamesTell(a: Ontology, b: Ontology)
    requires SameFacts(a, b)
    ensures a.nodeTypes.Keys == b.nodeTypes.Keys && a.edgeTypes.Keys == b.edgeTypes.Keys
    ensures forall t :: t in a.nodeTypes ==> a.nodeTypes[t].parent == b.nodeTypes[t].parent && SubtypesOf(a, t).Keys == SubtypesOf(b, t).Keys
    ensures forall e :: e in a.edgeTypes ==>
      ToSet(a.edgeTypes[e].sources) == ToSet(b.edgeTypes[e].sources) && ToSet(a.edgeTypes[e].targets) == ToSet(b.edgeTypes[e].targets)
  {
    hide EffectiveProperties, States;
    forall t ensures t in a.nodeTypes <==> t in b.nodeTypes { assert HasFact(a, TypeFact(t)) <==> HasFact(b, TypeFact(t)); }
    forall e ensures e in a.edgeTypes <==> e in b.edgeTypes { assert HasFact(a, EdgeFact(e)) <==> HasFact(b, EdgeFact(e)); }
    forall t | t in a.nodeTypes ensures a.nodeTypes[t].parent == b.nodeTypes[t].parent && SubtypesOf(a, t).Keys == SubtypesOf(b, t).Keys {
      if a.nodeTypes[t].parent.Some? { assert HasFact(a, ParentFact(t, a.nodeTypes[t].parent.value)); }
      if b.nodeTypes[t].parent.Some? { assert HasFact(b, ParentFact(t, b.nodeTypes[t].parent.value)); }
      forall s ensures s in SubtypesOf(a, t) <==> s in SubtypesOf(b, t) { assert HasFact(a, SubtypeFact(t, s)) <==> HasFact(b, SubtypeFact(t, s)); }
    }
    forall e | e in a.edgeTypes
      ensures ToSet(a.edgeTypes[e].sources) == ToSet(b.edgeTypes[e].sources) && ToSet(a.edgeTypes[e].targets) == ToSet(b.edgeTypes[e].targets)
    {
      forall t ensures t in a.edgeTypes[e].sources <==> t in b.edgeTypes[e].sources { assert HasFact(a, SourceFact(e, t)) <==> HasFact(b, SourceFact(e, t)); }
      forall t ensures t in a.edgeTypes[e].targets <==> t in b.edgeTypes[e].targets { assert HasFact(a, TargetFact(e, t)) <==> HasFact(b, TargetFact(e, t)); }
    }
  }

  lemma {:induction false} OwnersSame(a: Ontology, b: Ontology, w: Owner)
    requires SameMeaning(a, b)
    ensures SameDefs(DefsOf(a, w), DefsOf(b, w))
  {
    hide EffectiveProperties, SameDef;
  }

  /** Two ontologies have the same facts if and only if they mean the same, up to order and repetition of names. */
  lemma {:induction false} FingerprintTells(a: Ontology, b: Ontology)
    ensures SameFacts(a, b) <==> SameMeaning(a, b)
  {
    hide SameDefs, EffectiveProperties, Follows, States;
    if SameFacts(a, b) {
      NamesTell(a, b);
      forall w ensures SameDefs(DefsOf(a, w), DefsOf(b, w)) { OwnersTell(a, b, w); }
      forall t | t in a.nodeTypes ensures SameDefs(EffectiveProperties(a, t), EffectiveProperties(b, t)) {
        assert SameDefs(DefsOf(a, OfType(t)), DefsOf(b, OfType(t)));
      }
      forall t, s | t in a.nodeTypes && s in SubtypesOf(a, t) ensures s in SubtypesOf(b, t) && SameDefs(SubtypesOf(a, t)[s], SubtypesOf(b, t)[s]) {
        assert SameDefs(DefsOf(a, OfSubtype(t, s)), DefsOf(b, OfSubtype(t, s)));
        assert s in SubtypesOf(a, t).Keys;
      }
      forall e | e in a.edgeTypes ensures e in b.edgeTypes && SameDefs(a.edgeTypes[e].properties, b.edgeTypes[e].properties) {
        assert e in a.edgeTypes.Keys;
        assert SameDefs(DefsOf(a, OfEdge(e)), DefsOf(b, OfEdge(e)));
      }
    }
    if SameMeaning(a, b) { MeaningTells(a, b); }
  }

  lemma {:induction false} MeaningTells(a: Ontology, b: Ontology)
    requires SameMeaning(a, b)
    ensures SameFacts(a, b)
  {
    hide HasFact, SameMeaning, SameDefs, Follows, DefsOf;
    forall f ensures HasFact(a, f) <==> HasFact(b, f) {
      if AboutProperty(f) {
        OwnersSame(a, b, f.owner);
        DefsTell(DefsOf(a, f.owner), DefsOf(b, f.owner), f.owner);
        PropertyFactsFollow(a, f);
        PropertyFactsFollow(b, f);
      } else {
        NameFactsSame(a, b, f);
      }
    }
  }

  lemma {:induction false} NameFactsSame(a: Ontology, b: Ontology, f: Fact)
    requires SameMeaning(a, b) && !AboutProperty(f)
    ensures HasFact(a, f) <==> HasFact(b, f)
  {
    hide SameDefs, EffectiveProperties;
    match f {
      case TypeFact(t) => assert t in a.nodeTypes.Keys <==> t in b.nodeTypes.Keys;
      case ParentFact(t, _) => assert t in a.nodeTypes.Keys <==> t in b.nodeTypes.Keys;
      case SubtypeFact(t, s) =>
        assert t in a.nodeTypes.Keys <==> t in b.nodeTypes.Keys;
        assert t in a.nodeTypes ==> (s in SubtypesOf(a, t).Keys <==> s in SubtypesOf(b, t).Keys);
      case EdgeFact(e) => assert e in a.edgeTypes.Keys <==> e in b.edgeTypes.Keys;
      case SourceFact(e, t) =>
        assert e in a.edgeTypes.Keys <==> e in b.edgeTypes.Keys;
        assert e in a.edgeTypes ==> (t in ToSet(a.edgeTypes[e].sources) <==> t in ToSet(b.edgeTypes[e].sources));
      case TargetFact(e, t) =>
        assert e in a.edgeTypes.Keys <==> e in b.edgeTypes.Keys;
        assert e in a.edgeTypes ==> (t in ToSet(a.edgeTypes[e].targets) <==> t in ToSet(b.edgeTypes[e].targets));
      case _ =>
    }
  }
}
