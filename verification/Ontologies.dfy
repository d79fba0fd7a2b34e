/** The vocabulary of a graph: node and edge types, their hierarchy, and the checks made against them. */
module Ontologies {
  import opened Base

  /** A property value; a float is its 64-bit pattern, so contents are countable. */
  datatype Value =
    | Null
    | Bool(b: bool)
    | Int(i: int)
    | Float(bits: u64)
    | Str(s: string)
    | List(items: seq<Value>)
    | Map(fields: map<string, Value>)

  datatype ValueType = StringType | IntType | FloatType | BoolType | ListType | MapType | AnyType

  /** A constraint argument: an array of rendered members, or one rendered scalar. */
  datatype Argument = Members(items: seq<string>) | Scalar(text: string)

  datatype PropertyDef = PropertyDef(valueType: ValueType, required: bool, constraints: map<string, Argument>)

  type Defs = map<string, PropertyDef>
  type Props = map<string, Value>

  datatype NodeTypeDef = NodeTypeDef(properties: Defs, subtypes: Option<map<string, Defs>>, parent: Option<string>)

  datatype EdgeTypeDef = EdgeTypeDef(sources: seq<string>, targets: seq<string>, properties: Defs)

  datatype Ontology = Ontology(nodeTypes: map<string, NodeTypeDef>, edgeTypes: map<string, EdgeTypeDef>)

  datatype NodeTypeUpdate = NodeTypeUpdate(addProperties: Defs, relax: seq<string>, addSubtypes: map<string, Defs>)

  datatype EdgeTypeUpdate = EdgeTypeUpdate(addSources: seq<string>, addTargets: seq<string>, addProperties: Defs)

  datatype Extension = Extension(
    nodeTypes: map<string, NodeTypeDef>,
    edgeTypes: map<string, EdgeTypeDef>,
    nodeUpdates: map<string, NodeTypeUpdate>,
    edgeUpdates: map<string, EdgeTypeUpdate>)

  /** Whether one value meets one definition: declared type and constraints, taken as given. */
  type Acceptance = (PropertyDef, Value) -> bool

  datatype Mode = Full | SkipRequired

  // -- Hierarchy ----------------------------------------------------------------------------------

  const MAX_LEVELS: nat := 100

  function ParentOf(o: Ontology, t: string): Option<string> {
    if t in o.nodeTypes then o.nodeTypes[t].parent else None
  }

  /** The first `n` parent links upward from `t`, fewer when the chain ends. */
  function Chain(o: Ontology, t: string, n: nat): seq<string>
    decreases n
  {
    if n == 0 then []
    else match ParentOf(o, t)
      case None => []
      case Some(p) => [p] + Chain(o, p, n - 1)
  }

  function Ancestors(o: Ontology, t: string): seq<string> { Chain(o, t, MAX_LEVELS) }

  predicate IsSubtypeOf(o: Ontology, child: string, parent: string) {
    child == parent || parent in Ancestors(o, child)
  }

  function Descendants(o: Ontology, t: string): set<string> {
    set name | name in o.nodeTypes && name != t && t in Ancestors(o, name)
  }

  /** The upward walk with its cycle guard, as the source runs it. */
  method ComputeAncestors(o: Ontology, t: string) returns (result: seq<string>)
    ensures result == Ancestors(o, t)
  {
    result := [];
    var current := t;
    for i := 0 to MAX_LEVELS
      invariant result + Chain(o, current, MAX_LEVELS - i) == Ancestors(o, t)
    {
      match ParentOf(o, current) {
        case None => break;
        case Some(p) =>
          result := result + [p];
          current := p;
      }
    }
  }

  /** Own definitions override inherited ones; the nearest ancestor overrides the farther. */
  function Inherit(o: Ontology, chain: seq<string>): Defs {
    if chain == [] then map[]
    else Inherit(o, chain[1..]) + (if chain[0] in o.nodeTypes then o.nodeTypes[chain[0]].properties else map[])
  }

  function EffectiveProperties(o: Ontology, t: string): Defs { Inherit(o, [t] + Ancestors(o, t)) }

  /** Most general first, each more specific type overriding what came before. */
  method ComputeEffectiveProperties(o: Ontology, t: string) returns (props: Defs)
    ensures props == EffectiveProperties(o, t)
  {
    var chain := ComputeAncestors(o, t);
    chain := [t] + chain;
    props := map[];
    for i := |chain| downto 0
      invariant props == Inherit(o, chain[i..])
    {
      assert chain[i..][1..] == chain[i + 1..];
      if chain[i] in o.nodeTypes { props := props + o.nodeTypes[chain[i]].properties; }
    }
  }

  // -- Validation ---------------------------------------------------------------------------------

  predicate ValidProperties(ok: Acceptance, defs: Defs, values: Props, mode: Mode) {
    && (mode == Full ==> forall k :: k in defs && defs[k].required ==> k in values)
    && (forall k :: k in values && k in defs ==> ok(defs[k], values[k]))
  }

  predicate ValidNode(ok: Acceptance, o: Ontology, t: string, subtype: Option<string>, props: Props, mode: Mode) {
    t in o.nodeTypes &&
    var base := EffectiveProperties(o, t);
    match (o.nodeTypes[t].subtypes, subtype)
    case (Some(subs), Some(st)) =>
      ValidProperties(ok, if st in subs then base + subs[st] else base, props, mode)
    case (Some(_), None) => false
    case (None, _) => ValidProperties(ok, base, props, mode)
  }

  predicate AcceptsEndpoint(o: Ontology, allowed: seq<string>, t: string) {
    exists i :: 0 <= i < |allowed| && IsSubtypeOf(o, t, allowed[i])
  }

  predicate AcceptsEndpoints(o: Ontology, edgeType: string, source: string, target: string) {
    edgeType in o.edgeTypes &&
    AcceptsEndpoint(o, o.edgeTypes[edgeType].sources, source) &&
    AcceptsEndpoint(o, o.edgeTypes[edgeType].targets, target)
  }

  predicate ValidEdge(ok: Acceptance, o: Ontology, edgeType: string, source: string, target: string, props: Props,
                      mode: Mode)
  {
    AcceptsEndpoints(o, edgeType, source, target) &&
    ValidProperties(ok, o.edgeTypes[edgeType].properties, props, mode)
  }

  /** An update is checked against the type's own and subtype definitions only; unknown keys pass. */
  predicate ValidNodeUpdate(ok: Acceptance, o: Ontology, t: string, subtype: Option<string>, key: string, v: Value) {
    t in o.nodeTypes ==>
      var def := o.nodeTypes[t];
      var merged := match (def.subtypes, subtype)
        case (Some(subs), Some(st)) => if st in subs then def.properties + subs[st] else def.properties
        case _ => def.properties;
      key in merged ==> ok(merged[key], v)
  }

  predicate ValidEdgeUpdate(ok: Acceptance, o: Ontology, edgeType: string, key: string, v: Value) {
    edgeType in o.edgeTypes && key in o.edgeTypes[edgeType].properties ==>
      ok(o.edgeTypes[edgeType].properties[key], v)
  }

  // -- Self-consistency ---------------------------------------------------------------------------

  const ENFORCED_CONSTRAINTS: set<string> :=
    {"enum", "min", "max", "min_exclusive", "max_exclusive", "min_length", "max_length", "pattern"}

  predicate KnownConstraints(defs: Defs) {
    forall k, c :: k in defs && c in defs[k].constraints ==> c in ENFORCED_CONSTRAINTS || "x_" <= c
  }

  predicate SelfValid(o: Ontology) {
    && (forall e, i :: e in o.edgeTypes && 0 <= i < |o.edgeTypes[e].sources| ==> o.edgeTypes[e].sources[i] in o.nodeTypes)
    && (forall e, i :: e in o.edgeTypes && 0 <= i < |o.edgeTypes[e].targets| ==> o.edgeTypes[e].targets[i] in o.nodeTypes)
    && (forall t :: t in o.nodeTypes && o.nodeTypes[t].parent.Some? ==> o.nodeTypes[t].parent.value in o.nodeTypes)
    && (forall t :: t in o.nodeTypes ==> KnownConstraints(o.nodeTypes[t].properties))
    && (forall t, s :: t in o.nodeTypes && o.nodeTypes[t].subtypes.Some? && s in o.nodeTypes[t].subtypes.value ==>
          KnownConstraints(o.nodeTypes[t].subtypes.value[s]))
    && (forall e :: e in o.edgeTypes ==> KnownConstraints(o.edgeTypes[e].properties))
  }

  // -- Additive extension ---------------------------------------------------------------------------

  predicate IsEmptyExtension(x: Extension) {
    && x.nodeTypes == map[] && x.edgeTypes == map[]
    && (forall t :: t in x.nodeUpdates ==> x.nodeUpdates[t] == NodeTypeUpdate(map[], [], map[]))
    && (forall e :: e in x.edgeUpdates ==> x.edgeUpdates[e] == EdgeTypeUpdate([], [], map[]))
  }

  /** The checks made before anything is changed. */
  predicate NodePartAdmissible(o: Ontology, x: Extension) {
    && !IsEmptyExtension(x)
    && (forall t :: t in x.nodeTypes ==> t !in o.nodeTypes)
    && (forall e :: e in x.edgeTypes ==> e !in o.edgeTypes)
    && (forall t :: t in x.nodeUpdates ==>
          && t in o.nodeTypes
          && (forall k :: k in x.nodeUpdates[t].addProperties ==> k !in o.nodeTypes[t].properties)
          && (forall i :: 0 <= i < |x.nodeUpdates[t].relax| ==> x.nodeUpdates[t].relax[i] in o.nodeTypes[t].properties)
          && (o.nodeTypes[t].subtypes.Some? ==>
                forall s :: s in x.nodeUpdates[t].addSubtypes ==> s !in o.nodeTypes[t].subtypes.value))
  }

  function WithNewNodeTypes(o: Ontology, x: Extension): Ontology { o.(nodeTypes := o.nodeTypes + x.nodeTypes) }

  predicate NewBindings(o: Ontology, added: seq<string>, existing: seq<string>) {
    forall i :: 0 <= i < |added| ==> added[i] in o.nodeTypes && added[i] !in existing
  }

  /** The checks made once the new node types are already in place. */
  predicate EdgePartAdmissible(o: Ontology, x: Extension) {
    forall e :: e in x.edgeUpdates ==>
      && e in o.edgeTypes
      && NewBindings(o, x.edgeUpdates[e].addSources, o.edgeTypes[e].sources)
      && NewBindings(o, x.edgeUpdates[e].addTargets, o.edgeTypes[e].targets)
      && (forall k :: k in x.edgeUpdates[e].addProperties ==> k !in o.edgeTypes[e].properties)
  }

  function Relaxed(defs: Defs, names: seq<string>): Defs {
    map k | k in defs :: if k in names then defs[k].(required := false) else defs[k]
  }

  function UpdatedNodeType(d: NodeTypeDef, u: NodeTypeUpdate): NodeTypeDef {
    NodeTypeDef(
      Relaxed(d.properties + u.addProperties, u.relax),
      if u.addSubtypes == map[] then d.subtypes
      else Some((if d.subtypes.Some? then d.subtypes.value else map[]) + u.addSubtypes),
      d.parent)
  }

  function UpdatedEdgeType(d: EdgeTypeDef, u: EdgeTypeUpdate): EdgeTypeDef {
    EdgeTypeDef(d.sources + u.addSources, d.targets + u.addTargets, d.properties + u.addProperties)
  }

  function UpdatedNodeTypes(types: map<string, NodeTypeDef>, x: Extension): map<string, NodeTypeDef> {
    map t | t in types :: if t in x.nodeUpdates then UpdatedNodeType(types[t], x.nodeUpdates[t]) else types[t]
  }

  function UpdatedEdgeTypes(types: map<string, EdgeTypeDef>, x: Extension): map<string, EdgeTypeDef> {
    map e | e in types :: if e in x.edgeUpdates then UpdatedEdgeType(types[e], x.edgeUpdates[e]) else types[e]
  }

  function WithUpdates(o: Ontology, x: Extension): Ontology {
    Ontology(UpdatedNodeTypes(o.nodeTypes, x), UpdatedEdgeTypes(o.edgeTypes + x.edgeTypes, x))
  }

  /**
   * Merging an extension in place. A rejected extension may leave its mark: new node types stay
   * when an edge update is refused, and everything stays when the final self-check fails.
   */
  function MergeExtension(o: Ontology, x: Extension): (Ontology, bool) {
    if !NodePartAdmissible(o, x) then (o, false)
    else
      var mid := WithNewNodeTypes(o, x);
      if !EdgePartAdmissible(mid, x) then (mid, false)
      else
        var end := WithUpdates(mid, x);
        (end, SelfValid(end))
  }

  /** Relaxing in place, one name at a time. */
  method RelaxProperties(defs: Defs, names: seq<string>) returns (r: Defs)
    ensures r == Relaxed(defs, names)
  {
    r := defs;
    for i := 0 to |names|
      invariant r.Keys == defs.Keys
      invariant forall k :: k in defs ==> r[k] == if k in names[..i] then defs[k].(required := false) else defs[k]
    {
      assert names[..i + 1] == names[..i] + [names[i]];
      if names[i] in r { r := r[names[i] := r[names[i]].(required := false)]; }
    }
    assert names[..|names|] == names;
    MapsAgree(r, Relaxed(defs, names));
  }

  /** Widening the existing edge types, one update at a time. */
  method WidenEdgeTypes(types: map<string, EdgeTypeDef>, x: Extension) returns (r: map<string, EdgeTypeDef>)
    requires x.edgeUpdates.Keys <= types.Keys
    ensures r == UpdatedEdgeTypes(types, x)
  {
    hide UpdatedEdgeType;
    r := types;
    var todo := x.edgeUpdates.Keys;
    while todo != {}
      invariant todo <= x.edgeUpdates.Keys && r.Keys == types.Keys
      invariant forall e :: e in types ==>
        r[e] == if e in x.edgeUpdates && e !in todo then UpdatedEdgeType(types[e], x.edgeUpdates[e]) else types[e]
    {
      var e :| e in todo;
      r, todo := r[e := UpdatedEdgeType(r[e], x.edgeUpdates[e])], todo - {e};
    }
    MapsAgree(r, UpdatedEdgeTypes(types, x));
  }

  method UpdateNodeType(d: NodeTypeDef, u: NodeTypeUpdate) returns (r: NodeTypeDef)
    ensures r == UpdatedNodeType(d, u)
  {
    var properties := RelaxProperties(d.properties + u.addProperties, u.relax);
    var subtypes := d.subtypes;
    if u.addSubtypes != map[] { subtypes := Some((if d.subtypes.Some? then d.subtypes.value else map[]) + u.addSubtypes); }
    r := NodeTypeDef(properties, subtypes, d.parent);
  }

  /** Updating the existing node types, one update at a time. */
  method UpdateNodeTypes(types: map<string, NodeTypeDef>, x: Extension) returns (r: map<string, NodeTypeDef>)
    requires x.nodeUpdates.Keys <= types.Keys
    ensures r == UpdatedNodeTypes(types, x)
  {
    hide UpdatedNodeType;
    r := types;
    var todo := x.nodeUpdates.Keys;
    while todo != {}
      invariant todo <= x.nodeUpdates.Keys && r.Keys == types.Keys
      invariant forall t :: t in types ==>
        r[t] == if t in x.nodeUpdates && t !in todo then UpdatedNodeType(types[t], x.nodeUpdates[t]) else types[t]
    {
      var t :| t in todo;
      var d := UpdateNodeType(r[t], x.nodeUpdates[t]);
      r, todo := r[t := d], todo - {t};
    }
    MapsAgree(r, UpdatedNodeTypes(types, x));
  }

  /** `merge_extension` as it runs: checks, additions and updates in turn, leaving its mark where it stops. */
  method MergeExtensionInTurn(o: Ontology, x: Extension) returns (after: Ontology, ok: bool)
    ensures (after, ok) == MergeExtension(o, x)
  {
    hide SelfValid, UpdatedNodeTypes, UpdatedEdgeTypes;
    if !NodePartAdmissible(o, x) { return o, false; }
    after := WithNewNodeTypes(o, x);
    if !EdgePartAdmissible(after, x) { return after, false; }
    var edgeTypes := WidenEdgeTypes(after.edgeTypes + x.edgeTypes, x);
    var nodeTypes := UpdateNodeTypes(after.nodeTypes, x);
    after := Ontology(nodeTypes, edgeTypes);
    ok := SelfValid(after);
  }
}
