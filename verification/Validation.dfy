/**
 * When nodes, edges and updates pass, said by the declarations themselves: nearest definitions up the parent links,
 * endpoint types within reach of the declared ones, and what becomes of an edge entry either way.
 */
module Validation {
  import opened Base
  import opened Ontologies
  import opened Entries
  import opened Paths
  import opened Graphs
  import opened Queries

  // -- Which definition governs a property -------------------------------------------------------------------------------

  predicate Declares(o: Ontology, t: string, k: string) { t in o.nodeTypes && k in o.nodeTypes[t].properties }

  /** `p` climbs parent links from `t` to the first type that declares `k`. */
  ghost predicate ClimbsTo(o: Ontology, t: string, k: string, p: seq<string>) {
    && p != [] && Joins(ParentLinks(o), t, p[|p| - 1], p) && Declares(o, p[|p| - 1], k)
    && forall i :: 0 <= i < |p| - 1 ==> !Declares(o, p[i], k)
  }

  /** The nearest declaration of `k`, at most `n` parent links from `t`, is `d`. */
  ghost predicate Nearest(o: Ontology, t: string, k: string, n: nat, d: PropertyDef) {
    exists p :: ClimbsTo(o, t, k, p) && |p| <= n + 1 && d == o.nodeTypes[p[|p| - 1]].properties[k]
  }

  lemma {:induction false} NearestHere(o: Ontology, t: string, k: string, n: nat, d: PropertyDef)
    requires Declares(o, t, k)
    ensures Nearest(o, t, k, n, d) <==> d == o.nodeTypes[t].properties[k]
  {
    assert ClimbsTo(o, t, k, [t]);
    if Nearest(o, t, k, n, d) {
      var p :| ClimbsTo(o, t, k, p) && |p| <= n + 1 && d == o.nodeTypes[p[|p| - 1]].properties[k];
      assert p[0] == t;
      assert |p| == 1;
    }
  }

  lemma {:induction false} NearestAbove(o: Ontology, t: string, k: string, n: nat, d: PropertyDef)
    requires !Declares(o, t, k)
    ensures Nearest(o, t, k, n, d) <==> n > 0 && ParentOf(o, t).Some? && Nearest(o, ParentOf(o, t).value, k, n - 1, d)
  {
    var g := ParentLinks(o);
    if Nearest(o, t, k, n, d) {
      var p :| ClimbsTo(o, t, k, p) && |p| <= n + 1 && d == o.nodeTypes[p[|p| - 1]].properties[k];
      assert |p| > 1 && p[0 + 1] in Succ(g, p[0]);
      var q := p[1..];
      forall i | 0 <= i < |q| - 1 ensures q[i + 1] in Succ(g, q[i]) && !Declares(o, q[i], k) {
        assert p[i + 1 + 1] in Succ(g, p[i + 1]) && !Declares(o, p[i + 1], k);
      }
      assert ClimbsTo(o, ParentOf(o, t).value, k, q);
    }
    if n > 0 && ParentOf(o, t).Some? && Nearest(o, ParentOf(o, t).value, k, n - 1, d) {
      var u := ParentOf(o, t).value;
      var q :| ClimbsTo(o, u, k, q) && |q| <= n && d == o.nodeTypes[q[|q| - 1]].properties[k];
      var p := [t] + q;
      assert Succ(g, t) == {u};
      forall i | 0 <= i < |p| - 1 ensures p[i + 1] in Succ(g, p[i]) && !Declares(o, p[i], k) {
        if i > 0 { assert q[i - 1 + 1] in Succ(g, q[i - 1]) && !Declares(o, q[i - 1], k); }
      }
      assert ClimbsTo(o, t, k, p);
    }
  }

  lemma {:induction false} InheritNearest(o: Ontology, t: string, k: string, n: nat)
    ensures var defs := Inherit(o, [t] + Chain(o, t, n));
      forall d :: Nearest(o, t, k, n, d) <==> k in defs && defs[k] == d
    decreases n
  {
    hide Nearest;
    var rest := Chain(o, t, n);
    assert ([t] + rest)[1..] == rest && ([t] + rest)[0] == t;
    var defs := Inherit(o, [t] + rest);
    assert defs == Inherit(o, rest) + (if t in o.nodeTypes then o.nodeTypes[t].properties else map[]);
    if Declares(o, t, k) {
      forall d ensures Nearest(o, t, k, n, d) <==> k in defs && defs[k] == d { NearestHere(o, t, k, n, d); }
    } else {
      forall d ensures Nearest(o, t, k, n, d) <==> n > 0 && ParentOf(o, t).Some? && Nearest(o, ParentOf(o, t).value, k, n - 1, d) {
        NearestAbove(o, t, k, n, d);
      }
      if n > 0 && ParentOf(o, t).Some? {
        InheritNearest(o, ParentOf(o, t).value, k, n - 1);
      } else {
        assert rest == [];
      }
    }
  }

  /** The effective definition of a property is the nearest one, at most a hundred parent links up. */
  lemma {:induction false} EffectiveIsNearest(o: Ontology, t: string, k: string, d: PropertyDef)
    ensures Nearest(o, t, k, MAX_LEVELS, d) <==> k in EffectiveProperties(o, t) && EffectiveProperties(o, t)[k] == d
  {
    hide Nearest;
    InheritNearest(o, t, k, MAX_LEVELS);
  }

  // -- Nodes -------------------------------------------------------------------------------------------------------------

  /** The definitions that a subtype of `t` adds, if it has any of that name. */
  predicate SubtypeDeclares(o: Ontology, t: string, st: Option<string>, k: string) {
    && st.Some? && t in o.nodeTypes && o.nodeTypes[t].subtypes.Some?
    && st.value in o.nodeTypes[t].subtypes.value && k in o.nodeTypes[t].subtypes.value[st.value]
  }

  function SubtypeDef(o: Ontology, t: string, st: Option<string>, k: string): PropertyDef
    requires SubtypeDeclares(o, t, st, k)
  {
    o.nodeTypes[t].subtypes.value[st.value][k]
  }

  /** What `k` must meet on a node of this type and subtype: the subtype's word, else the nearest type's. */
  ghost predicate Governs(o: Ontology, t: string, st: Option<string>, k: string, d: PropertyDef) {
    if SubtypeDeclares(o, t, st, k) then d == SubtypeDef(o, t, st, k) else Nearest(o, t, k, MAX_LEVELS, d)
  }

  /** The value is there if required (unless that is waived), and acceptable if there. */
  predicate Meets(ok: Acceptance, d: PropertyDef, props: Props, k: string, mode: Mode) {
    (mode == Full && d.required ==> k in props) && (k in props ==> ok(d, props[k]))
  }

  lemma {:induction false} PropertiesMeet(ok: Acceptance, defs: Defs, props: Props, mode: Mode)
    ensures ValidProperties(ok, defs, props, mode) <==> forall k :: k in defs ==> Meets(ok, defs[k], props, k, mode)
  {
    if forall k :: k in defs ==> Meets(ok, defs[k], props, k, mode) {
      forall k | k in defs ensures defs[k].required && mode == Full ==> k in props { assert Meets(ok, defs[k], props, k, mode); }
      forall k | k in props && k in defs ensures ok(defs[k], props[k]) { assert Meets(ok, defs[k], props, k, mode); }
    }
  }

  /** The definitions in force for a node of this type and subtype. */
  function InForce(o: Ontology, t: string, st: Option<string>): Defs
    requires t in o.nodeTypes
  {
    var base := EffectiveProperties(o, t);
    if o.nodeTypes[t].subtypes.Some? && st.Some? && st.value in o.nodeTypes[t].subtypes.value
    then base + o.nodeTypes[t].subtypes.value[st.value] else base
  }

  lemma {:induction false} InForceGoverns(o: Ontology, t: string, st: Option<string>, k: string, d: PropertyDef)
    requires t in o.nodeTypes
    ensures Governs(o, t, st, k, d) <==> k in InForce(o, t, st) && InForce(o, t, st)[k] == d
  {
    hide Nearest, EffectiveProperties;
    EffectiveIsNearest(o, t, k, d);
  }

  /**
   * A node passes if and only if its type is known, it names a subtype where the type has any, and every
   * definition that governs one of its properties is met.
   */
  lemma {:induction false} NodePasses(ok: Acceptance, o: Ontology, t: string, st: Option<string>, props: Props, mode: Mode)
    ensures ValidNode(ok, o, t, st, props, mode) <==>
      && t in o.nodeTypes && (o.nodeTypes[t].subtypes.Some? ==> st.Some?)
      && forall k, d :: Governs(o, t, st, k, d) ==> Meets(ok, d, props, k, mode)
  {
    hide Governs, EffectiveProperties, ValidProperties, Meets;
    if t in o.nodeTypes {
      var defs := InForce(o, t, st);
      PropertiesMeet(ok, defs, props, mode);
      forall k, d ensures Governs(o, t, st, k, d) <==> k in defs && defs[k] == d { InForceGoverns(o, t, st, k, d); }
      assert (forall k :: k in defs ==> Meets(ok, defs[k], props, k, mode)) <==>
             forall k, d :: Governs(o, t, st, k, d) ==> Meets(ok, d, props, k, mode);
    }
  }

  /** An update passes unless the type itself, or the subtype before it, declares the property and refuses the value. */
  lemma {:induction false} NodeUpdatePasses(ok: Acceptance, o: Ontology, t: string, st: Option<string>, k: string, v: Value)
    ensures ValidNodeUpdate(ok, o, t, st, k, v) <==>
      && (SubtypeDeclares(o, t, st, k) ==> ok(SubtypeDef(o, t, st, k), v))
      && (!SubtypeDeclares(o, t, st, k) && Declares(o, t, k) ==> ok(o.nodeTypes[t].properties[k], v))
  {
  }

  lemma {:induction false} EdgeUpdatePasses(ok: Acceptance, o: Ontology, t: string, k: string, v: Value)
    ensures !ValidEdgeUpdate(ok, o, t, k, v) <==>
      exists d :: t in o.edgeTypes && k in o.edgeTypes[t].properties && o.edgeTypes[t].properties[k] == d && !ok(d, v)
  {
  }

  // -- Edges -------------------------------------------------------------------------------------------------------------

  /** Some allowed type is at most a hundred parent links above `t`. */
  ghost predicate Reachable(o: Ontology, allowed: seq<string>, t: string) {
    exists a :: a in allowed && Within(ParentLinks(o), t, a, MAX_LEVELS)
  }

  lemma {:induction false} EndpointReaches(o: Ontology, allowed: seq<string>, t: string)
    ensures AcceptsEndpoint(o, allowed, t) <==> Reachable(o, allowed, t)
  {
    hide IsSubtypeOf, Within, ParentLinks;
    if AcceptsEndpoint(o, allowed, t) {
      var i :| 0 <= i < |allowed| && IsSubtypeOf(o, t, allowed[i]);
      SubtypeIsWithin(o, t, allowed[i]);
    }
    if Reachable(o, allowed, t) {
      var a :| a in allowed && Within(ParentLinks(o), t, a, MAX_LEVELS);
      var i :| 0 <= i < |allowed| && allowed[i] == a;
      SubtypeIsWithin(o, t, allowed[i]);
    }
  }

  /** The source's type reaches a declared source type, the target's a declared target type, and the properties are met. */
  ghost predicate EdgeFits(ok: Acceptance, o: Ontology, edgeType: string, source: string, target: string, props: Props, mode: Mode) {
    && edgeType in o.edgeTypes
    && Reachable(o, o.edgeTypes[edgeType].sources, source)
    && Reachable(o, o.edgeTypes[edgeType].targets, target)
    && forall k :: k in o.edgeTypes[edgeType].properties ==> Meets(ok, o.edgeTypes[edgeType].properties[k], props, k, mode)
  }

  lemma {:induction false} EdgePasses(ok: Acceptance, o: Ontology, edgeType: string, source: string, target: string, props: Props, mode: Mode)
    ensures ValidEdge(ok, o, edgeType, source, target, props, mode) <==> EdgeFits(ok, o, edgeType, source, target, props, mode)
  {
    hide Reachable, AcceptsEndpoint, ValidProperties, Meets;
    if edgeType in o.edgeTypes {
      var def := o.edgeTypes[edgeType];
      EndpointReaches(o, def.sources, source);
      EndpointReaches(o, def.targets, target);
      PropertiesMeet(ok, def.properties, props, mode);
    }
  }

  /** The edge is in the graph, live, in the entry's shape if it is new, and the entry is not quarantined. */
  predicate Entered(g: Graph, e: Entry, g': Graph)
    requires e.payload.AddEdge?
  {
    var op := e.payload;
    && op.edgeId in g'.edges && !g'.edges[op.edgeId].dead && e.hash !in g'.quarantined && g'.pending == g.pending
    && (op.edgeId !in g.edges ==>
          g'.edges[op.edgeId].edgeType == op.edgeType && g'.edges[op.edgeId].source == op.source && g'.edges[op.edgeId].target == op.target)
  }

  /** Nothing happens but that the entry is quarantined. */
  predicate SetAside(g: Graph, e: Entry, g': Graph) {
    e.hash in g'.quarantined && g' == g.(quarantined := g'.quarantined)
  }

  /** The entry waits for an endpoint. */
  predicate PutOff(g: Graph, e: Entry, g': Graph) {
    && e.hash in g'.quarantined && g' == g.(quarantined := g'.quarantined, pending := g'.pending)
    && g'.pending == g.pending[e.hash := e]
  }

  /**
   * The three ends of an edge entry: of a known type but short of an endpoint it waits; with both endpoints it
   * enters exactly when it fits their types; otherwise it is set aside.
   */
  lemma {:induction false} EdgeAdmission(env: Env, g: Graph, e: Entry, mode: Mode)
    requires e.payload.AddEdge?
    ensures var op, g' := e.payload, AdmitEdge(env, g, e, mode);
      if op.edgeType in g.ontology.edgeTypes && (op.source !in g.nodes || op.target !in g.nodes) then PutOff(g, e, g')
      else if op.source in g.nodes && op.target in g.nodes
              && EdgeFits(env.accepts, g.ontology, op.edgeType, g.nodes[op.source].nodeType, g.nodes[op.target].nodeType, op.props, mode)
      then Entered(g, e, g')
      else SetAside(g, e, g')
  {
    hide ValidEdge, EdgeFits, ApplyAddEdge, Entered, Release;
    var op := e.payload;
    Enters(g, e);
    if op.source in g.nodes && op.target in g.nodes {
      EdgePasses(env.accepts, g.ontology, op.edgeType, g.nodes[op.source].nodeType, g.nodes[op.target].nodeType, op.props, mode);
      if op.edgeType !in g.ontology.edgeTypes { NoSuchType(env, g, e, mode); }
    }
  }

  lemma {:induction false} Enters(g: Graph, e: Entry)
    requires e.payload.AddEdge?
    ensures var op := e.payload;
      Entered(g, e, ApplyAddEdge(Release(g, e.hash), op.edgeId, op.edgeType, op.source, op.target, op.props, e.clock))
  {
    hide MergeCells, Index;
  }

  lemma {:induction false} NoSuchType(env: Env, g: Graph, e: Entry, mode: Mode)
    requires e.payload.AddEdge? && e.payload.edgeType !in g.ontology.edgeTypes
    requires e.payload.source in g.nodes && e.payload.target in g.nodes
    ensures var op := e.payload;
      !EdgeFits(env.accepts, g.ontology, op.edgeType, g.nodes[op.source].nodeType, g.nodes[op.target].nodeType, op.props, mode)
  {
  }

  // -- Constraint names --------------------------------------------------------------------------------------------------

  /** A constraint is one of the eight enforced ones, or its name begins with "x_". */
  predicate KnownName(c: string) {
    || c == "enum" || c == "pattern" || c == "min" || c == "max" || c == "min_exclusive" || c == "max_exclusive"
    || c == "min_length" || c == "max_length" || (|c| >= 2 && c[0] == 'x' && c[1] == '_')
  }

  lemma {:induction false} NamesKnown(defs: Defs)
    ensures KnownConstraints(defs) <==> forall k, c :: k in defs && c in defs[k].constraints ==> KnownName(c)
  {
    forall c: string ensures KnownName(c) <==> c in ENFORCED_CONSTRAINTS || "x_" <= c {}
  }
}
